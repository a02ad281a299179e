/**
  Recognition proper (src/scripts/reconhecimento.js): the nearest-neighbour
  scan over the catalog `gestosDB`, the rolling score history
  `historicoScores` and the adaptive tolerance, and the per-frame callback
  that feeds the phrase.
 */
module Matcher {
  import opened Numeric
  import opened HandFeatures
  import opened GestureStore
  import opened PhraseDebouncer

  /** A distance, or `Infinity` when nothing was compared. */
  datatype Score = Finite(value: real) | Infinity

  /** a < b on the extended reals. */
  predicate Below(a: Score, b: Score) {
    a.Finite? && (b.Infinity? || a.value < b.value)
  }

  /** a <= b on the extended reals. */
  predicate AtMost(a: Score, b: Score) {
    b.Infinity? || (a.Finite? && a.value <= b.value)
  }

  /** The best label and its distance; `NoMatch` is `{null, Infinity}`. */
  datatype Match = Match(name: Option<string>, score: Score)

  const NoMatch := Match(None, Infinity)

  function SumSquaredDifferences(a: seq<real>, b: seq<real>): real
    requires |a| == |b|
  {
    if a == [] then 0.0
    else SumSquaredDifferences(a[..|a| - 1], b[..|b| - 1]) + (a[|a| - 1] - b[|b| - 1]) * (a[|a| - 1] - b[|b| - 1])
  }

  /** `math.distance` on two vectors: the Euclidean distance. */
  function Distance(m: Maths, a: seq<real>, b: seq<real>): real
    requires |a| == |b|
  {
    m.sqrt(SumSquaredDifferences(a, b))
  }

  lemma {:induction false} SumSquaredDifferencesNonNegative(a: seq<real>, b: seq<real>)
    requires |a| == |b|
    ensures SumSquaredDifferences(a, b) >= 0.0
  {
    if a != [] {
      SumSquaredDifferencesNonNegative(a[..|a| - 1], b[..|b| - 1]);
      SquareNonNegative(a[|a| - 1] - b[|b| - 1]);
    }
  }

  lemma {:induction false} SumSquaredDifferencesSelf(a: seq<real>)
    ensures SumSquaredDifferences(a, a) == 0.0
  {
    if a != [] {
      SumSquaredDifferencesSelf(a[..|a| - 1]);
    }
  }

  lemma DistanceNonNegative(m: Maths, a: seq<real>, b: seq<real>)
    requires Lawful(m) && |a| == |b|
    ensures Distance(m, a, b) >= 0.0
  {
    SumSquaredDifferencesNonNegative(a, b);
  }

  /** A vector is at distance 0 from itself. */
  lemma DistanceSelf(m: Maths, a: seq<real>)
    requires Lawful(m)
    ensures Distance(m, a, a) == 0.0
  {
    SumSquaredDifferencesSelf(a);
  }

  /**
    A catalog vector is compared with the normalised query `qn` only when its
    normalised form has the query's length and neither holds NaN.
   */
  predicate Compatible(m: Maths, qn: seq<Num>, e: seq<Num>) {
    var en := NormalizeVector(m, e);
    |en| == |qn| && AllFinite(en) && AllFinite(qn)
  }

  function EntryDistance(m: Maths, qn: seq<Num>, e: seq<Num>): real
    requires Compatible(m, qn, e)
  {
    Distance(m, Values(NormalizeVector(m, e)), Values(qn))
  }

  /** The scan's `{melhorMatch, menorDistancia}` after the first n catalog entries. */
  function MatchPrefix(m: Maths, qn: seq<Num>, cat: seq<Record>, n: nat): Match
    requires n <= |cat|
  {
    if n == 0 then NoMatch
    else
      var prev := MatchPrefix(m, qn, cat, n - 1);
      var e := cat[n - 1];
      if Compatible(m, qn, e.vetor) && Below(Finite(EntryDistance(m, qn, e.vetor)), prev.score)
      then Match(Some(e.name), Finite(EntryDistance(m, qn, e.vetor)))
      else prev
  }

  /** The result of the whole scan. */
  function BestMatch(m: Maths, qn: seq<Num>, cat: seq<Record>): Match {
    MatchPrefix(m, qn, cat, |cat|)
  }

  /** Entry j is compatible and strictly closer than every compatible entry before it. */
  predicate FirstClosest(m: Maths, qn: seq<Num>, cat: seq<Record>, j: nat)
    requires j < |cat|
  {
    && Compatible(m, qn, cat[j].vetor)
    && forall k :: 0 <= k < j && Compatible(m, qn, cat[k].vetor) ==>
         EntryDistance(m, qn, cat[k].vetor) > EntryDistance(m, qn, cat[j].vetor)
  }

  /** Entry j is the one the first n steps of the scan settled on. */
  predicate Chosen(m: Maths, qn: seq<Num>, cat: seq<Record>, n: nat, j: nat)
    requires n <= |cat|
  {
    && j < n
    && FirstClosest(m, qn, cat, j)
    && MatchPrefix(m, qn, cat, n) == Match(Some(cat[j].name), Finite(EntryDistance(m, qn, cat[j].vetor)))
  }

  /** No label and an infinite score go together, and happen exactly when no entry is compatible. */
  lemma {:induction false} MatchPrefixNone(m: Maths, qn: seq<Num>, cat: seq<Record>, n: nat)
    requires n <= |cat|
    ensures MatchPrefix(m, qn, cat, n).name.None? <==> MatchPrefix(m, qn, cat, n).score.Infinity?
    ensures MatchPrefix(m, qn, cat, n).score.Infinity? <==>
      forall j :: 0 <= j < n ==> !Compatible(m, qn, cat[j].vetor)
  {
    if n > 0 {
      MatchPrefixNone(m, qn, cat, n - 1);
    }
  }

  /** The score is at most the distance of every compatible entry scanned. */
  lemma {:induction false} MatchPrefixMinimal(m: Maths, qn: seq<Num>, cat: seq<Record>, n: nat)
    requires n <= |cat|
    ensures forall j :: 0 <= j < n && Compatible(m, qn, cat[j].vetor) ==>
      AtMost(MatchPrefix(m, qn, cat, n).score, Finite(EntryDistance(m, qn, cat[j].vetor)))
  {
    if n > 0 {
      MatchPrefixMinimal(m, qn, cat, n - 1);
    }
  }

  /** A label found belongs to the first entry at the minimal distance, and the score is that distance. */
  lemma {:induction false} MatchPrefixChosen(m: Maths, qn: seq<Num>, cat: seq<Record>, n: nat)
    requires n <= |cat| && MatchPrefix(m, qn, cat, n).name.Some?
    ensures exists j :: Chosen(m, qn, cat, n, j)
  {
    var prev := MatchPrefix(m, qn, cat, n - 1);
    var e := cat[n - 1];
    if Compatible(m, qn, e.vetor) && Below(Finite(EntryDistance(m, qn, e.vetor)), prev.score) {
      MatchPrefixMinimal(m, qn, cat, n - 1);
      assert FirstClosest(m, qn, cat, n - 1);
      assert Chosen(m, qn, cat, n, n - 1);
    } else {
      MatchPrefixChosen(m, qn, cat, n - 1);
      var j :| Chosen(m, qn, cat, n - 1, j);
      assert Chosen(m, qn, cat, n, j);
    }
  }

  /**
    The scan over the whole catalog: with no compatible entry the result is
    `{null, Infinity}`; otherwise the label is that of the first entry at the
    minimal distance, and the score is that distance.
   */
  lemma BestMatchMeaning(m: Maths, qn: seq<Num>, cat: seq<Record>)
    ensures BestMatch(m, qn, cat) == NoMatch <==>
      forall j :: 0 <= j < |cat| ==> !Compatible(m, qn, cat[j].vetor)
    ensures forall j :: 0 <= j < |cat| && Compatible(m, qn, cat[j].vetor) ==>
      AtMost(BestMatch(m, qn, cat).score, Finite(EntryDistance(m, qn, cat[j].vetor)))
    ensures BestMatch(m, qn, cat) != NoMatch ==>
      exists j :: 0 <= j < |cat| && FirstClosest(m, qn, cat, j)
        && BestMatch(m, qn, cat) == Match(Some(cat[j].name), Finite(EntryDistance(m, qn, cat[j].vetor)))
  {
    MatchPrefixNone(m, qn, cat, |cat|);
    MatchPrefixMinimal(m, qn, cat, |cat|);
    if BestMatch(m, qn, cat) != NoMatch {
      MatchPrefixChosen(m, qn, cat, |cat|);
      var j :| Chosen(m, qn, cat, |cat|, j);
    }
  }

  /** A query holding NaN (a degenerate joint) is compared with nothing. */
  lemma NonFiniteQueryMatchesNothing(m: Maths, q: seq<Num>, cat: seq<Record>)
    requires !AllFinite(q)
    ensures BestMatch(m, NormalizeVector(m, q), cat) == NoMatch
  {
    BestMatchMeaning(m, NormalizeVector(m, q), cat);
  }

  /** A hand with a degenerate joint yields no match, whatever the catalog holds. */
  lemma DegenerateHandMatchesNothing(m: Maths, h: Hands, cat: seq<Record>, f: nat, k: nat)
    requires Lawful(m) && WellFormed(h) && h.left.Some? && f < |Fingers| && k < 2
    requires DegenerateJoint(NormalizedHand(m, h.left.value), f, k)
    ensures BestMatch(m, NormalizeVector(m, QueryVector(m, h)), cat) == NoMatch
  {
    var normal := NormalizedHand(m, h.left.value);
    AnglesRange(m, normal);
    var j := 2 * f + k;
    assert j / 2 == f && j % 2 == k;
    var q := QueryVector(m, h);
    assert q[3 * LandmarkCount + j] == HandVector(m, h.left.value)[3 * LandmarkCount + j];
    assert q[3 * LandmarkCount + j] == Angles(m, normal)[j];
    NonFiniteQueryMatchesNothing(m, q, cat);
  }

  /** The same for a degenerate joint of the Right hand, whose vector ends the query. */
  lemma DegenerateRightHandMatchesNothing(m: Maths, h: Hands, cat: seq<Record>, f: nat, k: nat)
    requires Lawful(m) && WellFormed(h) && h.right.Some? && f < |Fingers| && k < 2
    requires DegenerateJoint(NormalizedHand(m, h.right.value), f, k)
    ensures BestMatch(m, NormalizeVector(m, QueryVector(m, h)), cat) == NoMatch
  {
    var normal := NormalizedHand(m, h.right.value);
    AnglesRange(m, normal);
    var j := 2 * f + k;
    assert j / 2 == f && j % 2 == k;
    var q := QueryVector(m, h);
    var start := |q| - FeatureLength;
    assert q[start + 3 * LandmarkCount + j] == HandVector(m, h.right.value)[3 * LandmarkCount + j];
    assert q[start + 3 * LandmarkCount + j] == Angles(m, normal)[j];
    NonFiniteQueryMatchesNothing(m, q, cat);
  }

  /** When the catalog holds the query itself, the score is 0 and some label is found. */
  lemma ExactEntryScoresZero(m: Maths, q: seq<Num>, cat: seq<Record>, j: nat)
    requires Lawful(m) && AllFinite(q) && j < |cat| && cat[j].vetor == q
    ensures BestMatch(m, NormalizeVector(m, q), cat).score == Finite(0.0)
    ensures BestMatch(m, NormalizeVector(m, q), cat).name.Some?
  {
    var qn := NormalizeVector(m, q);
    assert Compatible(m, qn, cat[j].vetor);
    DistanceSelf(m, Values(qn));
    BestMatchMeaning(m, qn, cat);
    var i :| 0 <= i < |cat| && FirstClosest(m, qn, cat, i)
      && BestMatch(m, qn, cat) == Match(Some(cat[i].name), Finite(EntryDistance(m, qn, cat[i].vetor)));
    DistanceNonNegative(m, Values(NormalizeVector(m, cat[i].vetor)), Values(qn));
  }

  /** The loop of `reconhecerGesto` over `gestosDB`. */
  method FindBestMatch(m: Maths, qn: seq<Num>, cat: seq<Record>) returns (melhorMatch: Option<string>, menorDistancia: Score)
    ensures Match(melhorMatch, menorDistancia) == BestMatch(m, qn, cat)
  {
    melhorMatch, menorDistancia := None, Infinity;
    for i := 0 to |cat|
      invariant Match(melhorMatch, menorDistancia) == MatchPrefix(m, qn, cat, i)
    {
      var normalizadoDB := NormalizeVector(m, cat[i].vetor);
      if |normalizadoDB| != |qn| || !AllFinite(normalizadoDB) || !AllFinite(qn) {
        continue;
      }
      var dist := Distance(m, Values(normalizadoDB), Values(qn));
      if Below(Finite(dist), menorDistancia) {
        menorDistancia := Finite(dist);
        melhorMatch := Some(cat[i].name);
      }
    }
  }

  /** At most this many scores are kept. */
  const HistoryLimit: nat := 30

  /** `historicoScores.push(s)`, then one `shift()` when the history is longer than the limit. */
  function Slide(h: seq<Score>, s: Score): (r: seq<Score>)
    ensures |h| <= HistoryLimit ==> |r| <= HistoryLimit
    ensures |r| > 0 && r[|r| - 1] == s
    ensures |r| <= |h| + 1 && r == (h + [s])[|h| + 1 - |r|..]
  {
    var pushed := h + [s];
    if |pushed| > HistoryLimit then pushed[1..] else pushed
  }

  /** The most recent scores, at most HistoryLimit of them, in arrival order. */
  function Window(a: seq<Score>): (r: seq<Score>)
    ensures |r| <= HistoryLimit && (|a| <= HistoryLimit ==> r == a)
    ensures |a| > HistoryLimit ==> |r| == HistoryLimit
    ensures r == a[|a| - |r|..]
  {
    if |a| <= HistoryLimit then a else a[|a| - HistoryLimit..]
  }

  /** One push-and-shift step keeps the history equal to the window over all scores so far. */
  lemma SlideWindow(a: seq<Score>, s: Score)
    ensures Slide(Window(a), s) == Window(a + [s])
  {
    var a' := a + [s];
    if |a| > HistoryLimit {
      assert Window(a) + [s] == a[|a| - HistoryLimit..] + [s] == a'[|a'| - HistoryLimit - 1..];
      assert (Window(a) + [s])[1..] == a'[|a'| - HistoryLimit..];
    } else if |a| == HistoryLimit {
      assert (a + [s])[1..] == a'[|a'| - HistoryLimit..];
    }
  }

  function AddScores(a: Score, b: Score): Score {
    if a.Finite? && b.Finite? then Finite(a.value + b.value) else Infinity
  }

  /** `lista.reduce((a, b) => a + b, 0)`. */
  function Total(h: seq<Score>): Score {
    if h == [] then Finite(0.0) else AddScores(Total(h[..|h| - 1]), h[|h| - 1])
  }

  /** One Infinity in the history makes the total infinite. */
  lemma {:induction false} TotalInfinite(h: seq<Score>)
    ensures Total(h).Infinity? <==> exists i :: 0 <= i < |h| && h[i].Infinity?
  {
    if h != [] {
      TotalInfinite(h[..|h| - 1]);
      assert forall i :: 0 <= i < |h| - 1 ==> h[..|h| - 1][i] == h[i];
    }
  }

  /** `media`. */
  function Mean(h: seq<Score>): Score
    requires |h| > 0
  {
    var t := Total(h);
    if t.Infinity? then Infinity else Finite(t.value / |h| as real)
  }

  const ToleranceBase: real := 0.2
  const ToleranceFactor: real := 1.2

  function RealMin(a: real, b: real): real {
    if a <= b then a else b
  }

  /** `Math.min(toleranciaBase, media(historicoScores) * 1.2)`; Infinity * 1.2 is Infinity. */
  function Tolerance(h: seq<Score>): (r: real)
    requires |h| > 0
    ensures r <= ToleranceBase
    ensures Mean(h).Finite? ==> r <= Mean(h).value * ToleranceFactor
    ensures r == ToleranceBase || (Mean(h).Finite? && r == Mean(h).value * ToleranceFactor)
  {
    var mu := Mean(h);
    if mu.Infinity? then ToleranceBase else RealMin(ToleranceBase, mu.value * ToleranceFactor)
  }

  /** While a miss (Infinity) is in the history, the tolerance is the base value. */
  lemma MissKeepsBaseTolerance(h: seq<Score>, i: nat)
    requires i < |h| && h[i].Infinity?
    ensures Tolerance(h) == ToleranceBase
  {
    TotalInfinite(h);
  }

  /** A history of exact matches sums to 0. */
  lemma {:induction false} TotalOfZeros(h: seq<Score>)
    requires forall i :: 0 <= i < |h| ==> h[i] == Finite(0.0)
    ensures Total(h) == Finite(0.0)
  {
    if h != [] {
      assert forall i :: 0 <= i < |h| - 1 ==> h[..|h| - 1][i] == h[i];
      TotalOfZeros(h[..|h| - 1]);
    }
  }

  /**
    The tolerance is computed after the current score is pushed, so when every
    remembered score is 0 the tolerance is 0 and an exact match is not reported.
   */
  lemma ExactRunNotAccepted(h: seq<Score>)
    requires |h| > 0 && forall i :: 0 <= i < |h| ==> h[i] == Finite(0.0)
    ensures Tolerance(h) == 0.0
    ensures !Accepted(Finite(0.0), Tolerance(h))
  {
    TotalOfZeros(h);
  }

  /** The gesture is reported only when its score is below the tolerance. */
  predicate Accepted(score: Score, tolerance: real) {
    Below(score, Finite(tolerance))
  }

  /** Detections of one frame: `multiHandedness[i].label` and `multiHandLandmarks[i]`. */
  datatype Detection = Detection(side: Side, landmarks: seq<Point>)

  /** `mapaMao[mao]` after the first n detections: a later hand of the same side replaces an earlier one. */
  function LastHand(dets: seq<Detection>, side: Side, n: nat): (r: Option<seq<Point>>)
    requires n <= |dets|
    ensures r.Some? <==> exists i :: 0 <= i < n && dets[i].side == side
    ensures r.Some? ==>
      exists i :: 0 <= i < n && dets[i].side == side && r.value == dets[i].landmarks
        && forall j :: i < j < n ==> dets[j].side != side
  {
    if n == 0 then None
    else if dets[n - 1].side == side then Some(dets[n - 1].landmarks)
    else LastHand(dets, side, n - 1)
  }

  function HandsOf(dets: seq<Detection>): Hands {
    Hands(LastHand(dets, Left, |dets|), LastHand(dets, Right, |dets|))
  }

  class Recognizer {
    /** `gestosDB`. */
    var catalog: seq<Record>
    /** `historicoScores`. */
    var history: seq<Score>
    /** Every score recorded so far, oldest first. */
    ghost var arrivals: seq<Score>

    ghost predicate Valid()
      reads this
    {
      history == Window(arrivals)
    }

    constructor ()
      ensures Valid() && catalog == [] && history == [] && arrivals == []
    {
      catalog, history, arrivals := [], [], [];
    }

    /** `fetch("/gestos").then(data => gestosDB = data)`. */
    method LoadCatalog(store: Store)
      modifies this`catalog
      ensures catalog == store.Contents()
    {
      catalog := store.Get();
    }

    /** `vetorUnificado` of one hand, or [] when the hand is absent. */
    method HandPartOf(m: Maths, hand: Option<seq<Point>>) returns (v: seq<Num>)
      requires hand.Some? ==> |hand.value| == LandmarkCount
      ensures v == HandPart(m, hand)
    {
      v := [];
      if hand.Some? {
        var normalizados := NormalizedHand(m, hand.value);
        var posicional := Flatten(normalizados);
        var angulos := ExtractAngles(m, normalizados);
        v := posicional + angulos;
      }
    }

    /** `reconhecerGesto`. */
    method Recognize(m: Maths, mapaMao: Hands) returns (gesto: Option<string>, score: Score, vetor: seq<Num>)
      requires Valid() && WellFormed(mapaMao)
      modifies this`history, this`arrivals
      ensures Valid() && arrivals == old(arrivals) + [score]
      ensures vetor == QueryVector(m, mapaMao)
      ensures score == BestMatch(m, NormalizeVector(m, vetor), catalog).score
      ensures history == Slide(old(history), score)
      ensures gesto == if Accepted(score, Tolerance(history)) then BestMatch(m, NormalizeVector(m, vetor), catalog).name else None
    {
      var maoEsquerda := HandPartOf(m, mapaMao.left);
      var maoDireita := HandPartOf(m, mapaMao.right);
      vetor := maoEsquerda + maoDireita;
      var normalizadoAtual := NormalizeVector(m, vetor);
      var melhorMatch;
      melhorMatch, score := FindBestMatch(m, normalizadoAtual, catalog);

      SlideWindow(arrivals, score);
      history := history + [score];
      if |history| > HistoryLimit {
        history := history[1..];
      }
      arrivals := arrivals + [score];

      var toleranciaAdaptada := Tolerance(history);
      gesto := if Accepted(score, toleranciaAdaptada) then melhorMatch else None;
    }

    /**
      The frame callback: when the estimator reports hands, build `mapaMao`,
      recognise, and offer the result to the phrase. `random` is the
      cooldown's `Math.random()`.
     */
    method OnResults(m: Maths, results: Option<seq<Detection>>, phrase: Phrase, random: real)
      returns (gesto: Option<string>, delay: Option<int>)
      requires Valid() && phrase.Valid() && 0.0 <= random < 1.0
      requires results.Some? ==> forall i :: 0 <= i < |results.value| ==> |results.value[i].landmarks| == LandmarkCount
      modifies this`history, this`arrivals, phrase
      ensures Valid() && phrase.Valid()
      ensures results.None? ==>
        history == old(history) && arrivals == old(arrivals) && gesto == None && delay == None
        && phrase.symbols == old(phrase.symbols) && phrase.last == old(phrase.last) && phrase.accepting == old(phrase.accepting)
      ensures results.Some? ==>
        var best := BestMatch(m, NormalizeVector(m, QueryVector(m, HandsOf(results.value))), catalog);
        && history == Slide(old(history), best.score)
        && arrivals == old(arrivals) + [best.score]
        && gesto == (if Accepted(best.score, Tolerance(history)) then best.name else None)
      ensures results.Some? && old(phrase.Appends(gesto)) ==>
        phrase.symbols == old(phrase.symbols) + [gesto.value] && phrase.last == gesto && !phrase.accepting && delay.Some?
      ensures results.Some? && !old(phrase.Appends(gesto)) ==>
        phrase.symbols == old(phrase.symbols) && phrase.last == old(phrase.last) && phrase.accepting == old(phrase.accepting)
    {
      gesto, delay := None, None;
      if results.Some? {
        var dets := results.value;
        var left: Option<seq<Point>> := None;
        var right: Option<seq<Point>> := None;
        for i := 0 to |dets|
          invariant left == LastHand(dets, Left, i) && right == LastHand(dets, Right, i)
        {
          if dets[i].side == Left {
            left := Some(dets[i].landmarks);
          } else {
            right := Some(dets[i].landmarks);
          }
        }
        var mapaMao := Hands(left, right);
        var score, vetor;
        gesto, score, vetor := Recognize(m, mapaMao);
        delay := phrase.Add(gesto, random);
      }
    }
  }
}
