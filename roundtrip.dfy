/**
  The two pages together: a gesture captured on the training page and
  posted to the store is found again, at distance 0, when the recognition
  page sees the same hands.
 */
module Roundtrip {
  import opened Numeric
  import opened GestureStore
  import HF = HandFeatures
  import T = Training
  import M = Matcher

  /** A hand the training page encodes as the recognizer does: 21 finite landmarks and no degenerate joint. */
  predicate Clean(m: Maths, hand: Option<seq<T.NumPoint>>) {
    hand.Some? ==>
      && |hand.value| == HF.LandmarkCount && T.AllPointsFinite(hand.value)
      && forall j :: 0 <= j < HF.AngleCount ==> HF.Angles(m, HF.NormalizedHand(m, T.ToPoints(hand.value)))[j].Fin?
  }

  /** The side of `resultadoAtual` the training page keeps for a hand. */
  function Trained(m: Maths, hand: Option<seq<T.NumPoint>>): Option<seq<Num>> {
    if hand.Some? then Some(T.HandVector(m, hand.value)) else None
  }

  /** The same hand as the recognition page receives it. */
  function Seen(hand: Option<seq<T.NumPoint>>): (r: Option<seq<HF.Point>>)
    requires hand.Some? ==> T.AllPointsFinite(hand.value)
    ensures r.Some? == hand.Some?
  {
    if hand.Some? then Some(T.ToPoints(hand.value)) else None
  }

  lemma ConcatFinite(a: seq<Num>, b: seq<Num>)
    requires AllFinite(a) && AllFinite(b)
    ensures AllFinite(a + b)
  {
    assert forall i :: |a| <= i < |a + b| ==> (a + b)[i] == b[i - |a|];
  }

  /** A clean hand's training vector is its recognizer vector, and is finite. */
  lemma SideAgrees(m: Maths, hand: Option<seq<T.NumPoint>>)
    requires Clean(m, hand)
    ensures Trained(m, hand).GetOr([]) == HF.HandPart(m, Seen(hand))
    ensures AllFinite(HF.HandPart(m, Seen(hand)))
  {
    if hand.Some? {
      var pts := T.ToPoints(hand.value);
      T.AgreesWithRecognizer(m, hand.value);
      var normal := HF.NormalizedHand(m, pts);
      ConcatFinite(HF.Flatten(normal), HF.Angles(m, normal));
    }
  }

  /**
    A capture of clean hands, stored as `salvarGesto` posts it, is matched
    with score 0 when the same hands are shown: some label is reported as
    the best match, which is the stored one unless an earlier entry also
    lies at distance 0.
   */
  lemma StoredCaptureScoresZero(m: Maths, left: Option<seq<T.NumPoint>>, right: Option<seq<T.NumPoint>>, cat: seq<Record>, j: nat)
    requires Lawful(m) && Clean(m, left) && Clean(m, right) && j < |cat|
    requires cat[j].vetor == T.Unify(T.Capture(Trained(m, left), Trained(m, right)))
    ensures M.BestMatch(m, HF.NormalizeVector(m, HF.QueryVector(m, HF.Hands(Seen(left), Seen(right)))), cat).score == M.Finite(0.0)
    ensures M.BestMatch(m, HF.NormalizeVector(m, HF.QueryVector(m, HF.Hands(Seen(left), Seen(right)))), cat).name.Some?
  {
    SideAgrees(m, left);
    SideAgrees(m, right);
    var q := HF.QueryVector(m, HF.Hands(Seen(left), Seen(right)));
    ConcatFinite(HF.HandPart(m, Seen(left)), HF.HandPart(m, Seen(right)));
    assert cat[j].vetor == q;
    M.ExactEntryScoresZero(m, q, cat, j);
  }
}
