/**
  The training page (src/scripts/treino.js): each frame turns every detected
  hand into a feature vector with NaN guards and keeps the valid ones in
  `resultadoAtual`; `capturarGesto` stores a snapshot of it, and
  `salvarGesto` posts every snapshot to the store under the upper-cased
  label.
 */
module Training {
  import opened Numeric
  import HF = HandFeatures
  import opened GestureStore

  /** A landmark as the estimator reports it; nothing here assumes its coordinates are finite. */
  datatype NumPoint = NumPoint(x: Num, y: Num, z: Num)

  const Zero := NumPoint(Fin(0.0), Fin(0.0), Fin(0.0))

  predicate PointFinite(p: NumPoint) {
    p.x.Fin? && p.y.Fin? && p.z.Fin?
  }

  predicate AllPointsFinite(pts: seq<NumPoint>) {
    forall i :: 0 <= i < |pts| ==> PointFinite(pts[i])
  }

  /** The point a finite landmark denotes. */
  function ToPoint(p: NumPoint): HF.Point
    requires PointFinite(p)
  {
    HF.Point(p.x.v, p.y.v, p.z.v)
  }

  function ToPoints(pts: seq<NumPoint>): (r: seq<HF.Point>)
    requires AllPointsFinite(pts)
    ensures |r| == |pts| && forall i :: 0 <= i < |pts| ==> r[i] == ToPoint(pts[i])
  {
    seq(|pts|, i requires 0 <= i < |pts| => ToPoint(pts[i]))
  }

  function SubPoint(p: NumPoint, q: NumPoint): NumPoint {
    NumPoint(Sub(p.x, q.x), Sub(p.y, q.y), Sub(p.z, q.z))
  }

  function DivPoint(p: NumPoint, d: Num): NumPoint {
    NumPoint(Div(p.x, d), Div(p.y, d), Div(p.z, d))
  }

  /** `n ** 2`. */
  function Square(n: Num): Num {
    Mul(n, n)
  }

  /** `(a.x - b.x) ** 2 + (a.y - b.y) ** 2 + (a.z - b.z) ** 2`. */
  function SquaredLength(v: NumPoint): Num {
    Add(Add(Square(v.x), Square(v.y)), Square(v.z))
  }

  /** The squared length of a finite point is the recognizer's, and is not negative. */
  lemma SquaredLengthFinite(v: NumPoint)
    requires PointFinite(v)
    ensures SquaredLength(v) == Fin(HF.Norm2(ToPoint(v)))
    ensures HF.Norm2(ToPoint(v)) >= 0.0
  {
    HF.Norm2NonNegative(ToPoint(v));
  }

  /** `centralizar`: every landmark minus the first one; an empty list stays empty. */
  function Centralize(pts: seq<NumPoint>): (r: seq<NumPoint>)
    ensures |r| == |pts|
    ensures AllPointsFinite(r) <==> AllPointsFinite(pts)
  {
    if |pts| == 0 then []
    else
      var r := seq(|pts|, i requires 0 <= i < |pts| => SubPoint(pts[i], pts[0]));
      assert !AllPointsFinite(pts) ==> !AllPointsFinite(r) by {
        if !AllPointsFinite(pts) {
          var i :| 0 <= i < |pts| && !PointFinite(pts[i]);
          assert !PointFinite(r[i]);
        }
      }
      r
  }

  /** On finite landmarks `centralizar` is the recognizer's `centralizar`. */
  lemma CentralizeAgrees(pts: seq<NumPoint>)
    requires AllPointsFinite(pts) && |pts| > 0
    ensures ToPoints(Centralize(pts)) == HF.Centralize(ToPoints(pts))
  {
  }

  /** `Math.sqrt(...) || 1` over landmarks 0 and 9. */
  function Scale(m: Maths, pts: seq<NumPoint>): (r: Num)
    requires |pts| > HF.MiddleBase
    ensures r.Fin? && r.v != 0.0
  {
    OrOne(Sqrt(m, SquaredLength(SubPoint(pts[HF.Wrist], pts[HF.MiddleBase]))))
  }

  /**
    `normalizar`: with no landmark 9 the list is returned as it is;
    otherwise every coordinate is divided by Scale, which is never 0 or NaN.
   */
  function Normalize(m: Maths, pts: seq<NumPoint>): (r: seq<NumPoint>)
    ensures |r| == |pts|
    ensures |pts| <= HF.MiddleBase ==> r == pts
    ensures AllPointsFinite(r) <==> AllPointsFinite(pts)
  {
    if |pts| <= HF.MiddleBase then pts
    else
      var d := Scale(m, pts);
      var r := seq(|pts|, i requires 0 <= i < |pts| => DivPoint(pts[i], d));
      assert !AllPointsFinite(pts) ==> !AllPointsFinite(r) by {
        if !AllPointsFinite(pts) {
          var i :| 0 <= i < |pts| && !PointFinite(pts[i]);
          assert !PointFinite(r[i]);
        }
      }
      r
  }

  /** On finite landmarks with a landmark 9, `normalizar` is the recognizer's `normalizar`. */
  lemma NormalizeAgrees(m: Maths, pts: seq<NumPoint>)
    requires |pts| > HF.MiddleBase && AllPointsFinite(pts)
    ensures ToPoints(Normalize(m, pts)) == HF.NormalizeLandmarks(m, ToPoints(pts))
  {
    var a, b := pts[HF.Wrist], pts[HF.MiddleBase];
    SquaredLengthFinite(SubPoint(a, b));
    assert ToPoint(SubPoint(a, b)) == HF.Minus(ToPoint(a), ToPoint(b));
    assert Scale(m, pts) == Fin(HF.LandmarkScale(m, ToPoints(pts)));
  }

  /** `landmarks[j]`, undefined past the end. */
  function Lookup(pts: seq<NumPoint>, j: nat): (r: Option<NumPoint>)
    ensures r.Some? <==> j < |pts|
  {
    if j < |pts| then Some(pts[j]) else None
  }

  /** `vetor`: the displacement from a to b, the zero vector when either is missing. */
  function Vetor(a: Option<NumPoint>, b: Option<NumPoint>): (r: NumPoint)
    ensures a.None? || b.None? ==> r == Zero
    ensures a.Some? && b.Some? && PointFinite(a.value) && PointFinite(b.value) ==>
      PointFinite(r) && ToPoint(r) == HF.Vetor(ToPoint(a.value), ToPoint(b.value))
  {
    if a.None? || b.None? then Zero else SubPoint(b.value, a.value)
  }

  /**
    `calcularAngulo` on finite vectors: the divisor `mag1 * mag2 || 1` is never
    0, so the clamped cosine is a number in [-1, 1] and the angle is finite.
   */
  function FiniteAngle(m: Maths, a: HF.Point, b: HF.Point): real {
    var product := HF.LengthProduct(m, a, b);
    HF.AngleOf(m, HF.Dot(a, b), if product == 0.0 then 1.0 else product)
  }

  /**
    `calcularAngulo`. A NaN or infinite coordinate makes the dot product or
    the cosine NaN (an infinite length reaches the quotient as Infinity over
    Infinity, or as NaN over 1), so the angle is not finite and becomes 0.
   */
  function CalcAngle(m: Maths, v1: NumPoint, v2: NumPoint): real {
    if PointFinite(v1) && PointFinite(v2) then FiniteAngle(m, ToPoint(v1), ToPoint(v2)) else 0.0
  }

  /** The guarded angle is always in [0, 180] degrees. */
  lemma CalcAngleRange(m: Maths, v1: NumPoint, v2: NumPoint)
    requires Lawful(m)
    ensures 0.0 <= CalcAngle(m, v1, v2) <= 180.0
  {
    if PointFinite(v1) && PointFinite(v2) {
      var a, b := ToPoint(v1), ToPoint(v2);
      var product := HF.LengthProduct(m, a, b);
      HF.AngleOfRange(m, HF.Dot(a, b), if product == 0.0 then 1.0 else product);
    }
  }

  lemma DotWithOrigin(p: HF.Point)
    ensures HF.Dot(p, HF.Origin) == 0.0 && HF.Dot(HF.Origin, p) == 0.0
  {
  }

  /** The zero vector that stands for a missing landmark makes the angle 90 degrees (acos 0). */
  lemma CalcAngleZeroVector(m: Maths, v1: NumPoint, v2: NumPoint)
    requires Lawful(m) && PointFinite(v1) && PointFinite(v2) && (v1 == Zero || v2 == Zero)
    ensures CalcAngle(m, v1, v2) == 90.0
  {
    var a, b := ToPoint(v1), ToPoint(v2);
    if v1 == Zero {
      assert a == HF.Origin;
      DotWithOrigin(b);
    } else {
      assert b == HF.Origin;
      DotWithOrigin(a);
    }
    var product := HF.LengthProduct(m, a, b);
    var divisor := if product == 0.0 then 1.0 else product;
    assert HF.Dot(a, b) / divisor == 0.0;
  }

  /** Between two finite vectors where the recognizer's angle is defined, both angles agree. */
  lemma CalcAngleAgrees(m: Maths, v1: NumPoint, v2: NumPoint)
    requires PointFinite(v1) && PointFinite(v2) && HF.CalcAngle(m, ToPoint(v1), ToPoint(v2)).Fin?
    ensures CalcAngle(m, v1, v2) == HF.CalcAngle(m, ToPoint(v1), ToPoint(v2)).v
  {
  }

  /** The angle at joint k of finger f; a missing landmark contributes the zero vector. */
  function JointAngle(m: Maths, pts: seq<NumPoint>, f: nat, k: nat): real
    requires f < |HF.Fingers| && k < 2
  {
    var joints := HF.Fingers[f];
    CalcAngle(m, Vetor(Lookup(pts, joints[k]), Lookup(pts, joints[k + 1])),
                 Vetor(Lookup(pts, joints[k + 1]), Lookup(pts, joints[k + 2])))
  }

  /** The ten angles, entry 2 * f + k being joint k of finger f. */
  function Angles(m: Maths, pts: seq<NumPoint>): (r: seq<real>)
    ensures |r| == HF.AngleCount
    ensures forall j :: 0 <= j < HF.AngleCount ==> r[j] == JointAngle(m, pts, j / 2, j % 2)
  {
    seq(HF.AngleCount, j requires 0 <= j < HF.AngleCount => JointAngle(m, pts, j / 2, j % 2))
  }

  /** Every training angle is a finite number of degrees in [0, 180]. */
  lemma AnglesRange(m: Maths, pts: seq<NumPoint>)
    requires Lawful(m)
    ensures forall j :: 0 <= j < HF.AngleCount ==> 0.0 <= Angles(m, pts)[j] <= 180.0
  {
    forall j | 0 <= j < HF.AngleCount
      ensures 0.0 <= Angles(m, pts)[j] <= 180.0
    {
      var joints := HF.Fingers[j / 2];
      var k := j % 2;
      CalcAngleRange(m, Vetor(Lookup(pts, joints[k]), Lookup(pts, joints[k + 1])),
                          Vetor(Lookup(pts, joints[k + 1]), Lookup(pts, joints[k + 2])));
    }
  }

  /** One pass of the inner loop of `extrairAngulos` appends the angle of joint i of finger f. */
  lemma JointStep(m: Maths, landmarks: seq<NumPoint>, angulos: seq<real>, f: nat, i: nat, angulo: real)
    requires f < |HF.Fingers| && i < 2 && |angulos| == 2 * f + i
    requires forall j :: 0 <= j < |angulos| ==> angulos[j] == JointAngle(m, landmarks, j / 2, j % 2)
    requires angulo == JointAngle(m, landmarks, f, i)
    ensures forall j :: 0 <= j < |angulos| + 1 ==> (angulos + [angulo])[j] == JointAngle(m, landmarks, j / 2, j % 2)
  {
    forall j | 0 <= j < |angulos| + 1
      ensures (angulos + [angulo])[j] == JointAngle(m, landmarks, j / 2, j % 2)
    {
      if j < |angulos| {
        assert (angulos + [angulo])[j] == angulos[j];
      } else {
        assert j / 2 == f && j % 2 == i;
      }
    }
  }

  /** `extrairAngulos`. */
  method ExtractAngles(m: Maths, landmarks: seq<NumPoint>) returns (angulos: seq<real>)
    ensures angulos == Angles(m, landmarks)
  {
    angulos := [];
    for f := 0 to |HF.Fingers|
      invariant |angulos| == 2 * f
      invariant forall j :: 0 <= j < |angulos| ==> angulos[j] == JointAngle(m, landmarks, j / 2, j % 2)
    {
      var joints := HF.Fingers[f];
      for i := 0 to |joints| - 2
        invariant |angulos| == 2 * f + i
        invariant forall j :: 0 <= j < |angulos| ==> angulos[j] == JointAngle(m, landmarks, j / 2, j % 2)
      {
        var v1 := Vetor(Lookup(landmarks, joints[i]), Lookup(landmarks, joints[i + 1]));
        var v2 := Vetor(Lookup(landmarks, joints[i + 1]), Lookup(landmarks, joints[i + 2]));
        var angulo := CalcAngle(m, v1, v2);
        assert angulo == JointAngle(m, landmarks, f, i);
        JointStep(m, landmarks, angulos, f, i, angulo);
        angulos := angulos + [angulo];
      }
    }
  }

  /** `flatMap(p => [p.x, p.y, p.z])`. */
  function Flatten(pts: seq<NumPoint>): (r: seq<Num>)
    ensures |r| == 3 * |pts|
  {
    if pts == [] then [] else [pts[0].x, pts[0].y, pts[0].z] + Flatten(pts[1..])
  }

  /** The positional part is finite exactly when every landmark is. */
  lemma {:induction false} FlattenFinite(pts: seq<NumPoint>)
    ensures AllFinite(Flatten(pts)) <==> AllPointsFinite(pts)
  {
    if pts != [] {
      var r, rest := Flatten(pts), Flatten(pts[1..]);
      FlattenFinite(pts[1..]);
      assert AllPointsFinite(pts) <==> PointFinite(pts[0]) && AllPointsFinite(pts[1..]) by {
        assert forall i :: 0 < i < |pts| ==> pts[i] == pts[1..][i - 1];
      }
      assert AllFinite(r) <==> PointFinite(pts[0]) && AllFinite(rest) by {
        assert r[0] == pts[0].x && r[1] == pts[0].y && r[2] == pts[0].z;
        assert forall i :: 3 <= i < |r| ==> r[i] == rest[i - 3];
        assert forall i :: 0 <= i < |rest| ==> rest[i] == r[i + 3];
      }
    }
  }

  /** On finite landmarks the positional part is the recognizer's. */
  lemma {:induction false} FlattenAgrees(pts: seq<NumPoint>)
    requires AllPointsFinite(pts)
    ensures Flatten(pts) == HF.Flatten(ToPoints(pts))
  {
    if pts != [] {
      assert AllPointsFinite(pts[1..]) by {
        assert forall i :: 0 <= i < |pts[1..]| ==> pts[1..][i] == pts[i + 1];
      }
      FlattenAgrees(pts[1..]);
      assert ToPoints(pts) == [ToPoint(pts[0])] + ToPoints(pts[1..]);
    }
  }

  /** The landmarks after `centralizar` and `normalizar`. */
  function NormalizedHand(m: Maths, landmarks: seq<NumPoint>): (r: seq<NumPoint>)
    ensures |r| == |landmarks|
    ensures AllPointsFinite(r) <==> AllPointsFinite(landmarks)
  {
    Normalize(m, Centralize(landmarks))
  }

  /** `[...posicional, ...angulos]` for one hand. */
  function HandVector(m: Maths, landmarks: seq<NumPoint>): (r: seq<Num>)
    ensures |r| == 3 * |landmarks| + HF.AngleCount
  {
    var normalizados := NormalizedHand(m, landmarks);
    Flatten(normalizados) + Lift(Angles(m, normalizados))
  }

  /** Appending finite numbers keeps a vector finite exactly when it was. */
  lemma FiniteWithLifted(a: seq<Num>, b: seq<real>)
    ensures AllFinite(a + Lift(b)) <==> AllFinite(a)
  {
    var r := a + Lift(b);
    assert forall i :: 0 <= i < |a| ==> r[i] == a[i];
    assert forall i :: |a| <= i < |r| ==> r[i] == Lift(b)[i - |a|];
  }

  /**
    `vetorFinalValido` accepts a hand exactly when every raw coordinate is
    finite: angles are always finite, and the positional part is NaN or
    infinite wherever the input is.
   */
  lemma ValidExactlyWhenFinite(m: Maths, landmarks: seq<NumPoint>)
    ensures AllFinite(HandVector(m, landmarks)) <==> AllPointsFinite(landmarks)
  {
    var normalizados := NormalizedHand(m, landmarks);
    FlattenFinite(normalizados);
    FiniteWithLifted(Flatten(normalizados), Angles(m, normalizados));
  }

  /** On a finite hand the normalised landmarks are the recognizer's. */
  lemma NormalizedAgrees(m: Maths, landmarks: seq<NumPoint>)
    requires |landmarks| == HF.LandmarkCount && AllPointsFinite(landmarks)
    ensures AllPointsFinite(NormalizedHand(m, landmarks))
    ensures ToPoints(NormalizedHand(m, landmarks)) == HF.NormalizedHand(m, ToPoints(landmarks))
  {
    var c := Centralize(landmarks);
    CentralizeAgrees(landmarks);
    NormalizeAgrees(m, c);
  }

  /** At a joint where the recognizer's angle is defined, the training angle is the same number. */
  lemma JointAgrees(m: Maths, normal: seq<NumPoint>, f: nat, k: nat)
    requires |normal| == HF.LandmarkCount && AllPointsFinite(normal) && f < |HF.Fingers| && k < 2
    requires HF.JointAngle(m, ToPoints(normal), f, k).Fin?
    ensures JointAngle(m, normal, f, k) == HF.JointAngle(m, ToPoints(normal), f, k).v
  {
    var hp := ToPoints(normal);
    var joints := HF.Fingers[f];
    var a, b, c := normal[joints[k]], normal[joints[k + 1]], normal[joints[k + 2]];
    var u, w := Vetor(Some(a), Some(b)), Vetor(Some(b), Some(c));
    assert ToPoint(u) == HF.Vetor(hp[joints[k]], hp[joints[k + 1]]);
    assert ToPoint(w) == HF.Vetor(hp[joints[k + 1]], hp[joints[k + 2]]);
    CalcAngleAgrees(m, u, w);
  }

  /** On finite landmarks, every angle the recognizer defines is the training angle. */
  lemma AnglesAgree(m: Maths, normal: seq<NumPoint>)
    requires |normal| == HF.LandmarkCount && AllPointsFinite(normal)
    requires forall j :: 0 <= j < HF.AngleCount ==> HF.Angles(m, ToPoints(normal))[j].Fin?
    ensures Lift(Angles(m, normal)) == HF.Angles(m, ToPoints(normal))
  {
    forall j | 0 <= j < HF.AngleCount
      ensures Lift(Angles(m, normal))[j] == HF.Angles(m, ToPoints(normal))[j]
    {
      assert HF.Angles(m, ToPoints(normal))[j] == HF.JointAngle(m, ToPoints(normal), j / 2, j % 2);
      JointAgrees(m, normal, j / 2, j % 2);
      assert Lift(Angles(m, normal))[j] == Fin(JointAngle(m, normal, j / 2, j % 2));
    }
  }

  /**
    A hand with finite coordinates and no degenerate joint is encoded by the
    training page exactly as the recognizer encodes it.
   */
  lemma AgreesWithRecognizer(m: Maths, landmarks: seq<NumPoint>)
    requires |landmarks| == HF.LandmarkCount && AllPointsFinite(landmarks)
    requires forall j :: 0 <= j < HF.AngleCount ==> HF.Angles(m, HF.NormalizedHand(m, ToPoints(landmarks)))[j].Fin?
    ensures HandVector(m, landmarks) == HF.HandVector(m, ToPoints(landmarks))
  {
    var normal := NormalizedHand(m, landmarks);
    NormalizedAgrees(m, landmarks);
    FlattenAgrees(normal);
    AnglesAgree(m, normal);
  }

  /** A detected hand: `multiHandedness[i].label` and `multiHandLandmarks[i]`, which may be missing. */
  datatype Detection = Detection(side: HF.Side, landmarks: Option<seq<NumPoint>>)

  /**
    A detection `onResults` keeps: it has landmarks and, by
    ValidExactlyWhenFinite, its vector passes `vetorFinalValido`.
   */
  predicate Usable(d: Detection) {
    d.landmarks.Some? && AllPointsFinite(d.landmarks.value)
  }

  /** The vector `onResults` leaves for one side after the first n detections: the last usable one. */
  function SideVector(m: Maths, dets: seq<Detection>, side: HF.Side, n: nat): (r: Option<seq<Num>>)
    requires n <= |dets|
  {
    if n == 0 then None
    else if dets[n - 1].side == side && Usable(dets[n - 1]) then
      Some(HandVector(m, dets[n - 1].landmarks.value))
    else SideVector(m, dets, side, n - 1)
  }

  /** Every vector `onResults` keeps passes `vetorFinalValido`. */
  lemma {:induction false} SideVectorFinite(m: Maths, dets: seq<Detection>, side: HF.Side, n: nat)
    requires n <= |dets|
    ensures SideVector(m, dets, side, n).Some? ==> AllFinite(SideVector(m, dets, side, n).value)
  {
    if n > 0 {
      if dets[n - 1].side == side && Usable(dets[n - 1]) {
        ValidExactlyWhenFinite(m, dets[n - 1].landmarks.value);
      } else {
        SideVectorFinite(m, dets, side, n - 1);
      }
    }
  }

  /** Detection i is the last usable one of its side among the first n. */
  predicate LastUsable(dets: seq<Detection>, side: HF.Side, n: nat, i: nat)
    requires n <= |dets|
  {
    && i < n && dets[i].side == side && Usable(dets[i])
    && forall j :: i < j < n && dets[j].side == side ==> !Usable(dets[j])
  }

  /** A side has a vector exactly when one of its detections is usable. */
  lemma {:induction false} SideVectorPresent(m: Maths, dets: seq<Detection>, side: HF.Side, n: nat)
    requires n <= |dets|
    ensures SideVector(m, dets, side, n).Some? <==> exists i :: 0 <= i < n && dets[i].side == side && Usable(dets[i])
  {
    if n > 0 {
      SideVectorPresent(m, dets, side, n - 1);
    }
  }

  /**
    The vector of a side is that of its last usable detection: a later hand
    replaces an earlier one, and an invalid hand replaces nothing.
   */
  lemma {:induction false} SideVectorLast(m: Maths, dets: seq<Detection>, side: HF.Side, n: nat)
    requires n <= |dets| && SideVector(m, dets, side, n).Some?
    ensures exists i: nat :: LastUsable(dets, side, n, i) && SideVector(m, dets, side, n) == Some(HandVector(m, dets[i].landmarks.value))
  {
    if dets[n - 1].side == side && Usable(dets[n - 1]) {
      assert LastUsable(dets, side, n, n - 1);
    } else {
      SideVectorLast(m, dets, side, n - 1);
      var i: nat :| LastUsable(dets, side, n - 1, i) && SideVector(m, dets, side, n - 1) == Some(HandVector(m, dets[i].landmarks.value));
      assert LastUsable(dets, side, n, i);
    }
  }

  /** `resultadoAtual`: the left and right vectors, each possibly absent. */
  datatype Capture = Capture(left: Option<seq<Num>>, right: Option<seq<Num>>)

  predicate CaptureFinite(c: Capture) {
    (c.left.Some? ==> AllFinite(c.left.value)) && (c.right.Some? ==> AllFinite(c.right.value))
  }

  /** `[...(maoEsquerda ?? []), ...(maoDireita ?? [])]`. */
  function Unify(c: Capture): (r: seq<Num>)
    ensures |r| == |c.left.GetOr([])| + |c.right.GetOr([])|
    ensures CaptureFinite(c) ==> AllFinite(r)
    ensures c.left.Some? ==> r[..|c.left.value|] == c.left.value
    ensures c.right.Some? ==> r[|r| - |c.right.value|..] == c.right.value
    ensures c.left.None? && c.right.None? ==> r == []
  {
    var r := c.left.GetOr([]) + c.right.GetOr([]);
    assert CaptureFinite(c) ==> AllFinite(r) by {
      var l := c.left.GetOr([]);
      assert forall i :: |l| <= i < |r| ==> r[i] == c.right.GetOr([])[i - |l|];
    }
    r
  }

  /** `toUpperCase` on one character, for the ASCII letters. */
  function UpperChar(ch: char): char {
    if 'a' <= ch <= 'z' then (ch as int - 32) as char else ch
  }

  /** `label.toUpperCase()`: a-z become A-Z, every other character stays. */
  function Upper(s: string): (r: string)
    ensures |r| == |s|
    ensures forall i :: 0 <= i < |r| ==> !('a' <= r[i] <= 'z')
    ensures forall i :: 0 <= i < |s| && !('a' <= s[i] <= 'z') ==> r[i] == s[i]
    ensures forall i :: 0 <= i < |s| && 'a' <= s[i] <= 'z' ==> 'A' <= r[i] <= 'Z' && r[i] as int == s[i] as int - 32
  {
    seq(|s|, i requires 0 <= i < |s| => UpperChar(s[i]))
  }

  /** Upper-casing twice is upper-casing once. */
  lemma UpperIdempotent(s: string)
    ensures Upper(Upper(s)) == Upper(s)
  {
  }

  const Language := "Libras"

  /** The records `salvarGesto` posts, one per capture in order. */
  function Submissions(name: string, caps: seq<Capture>): (r: seq<Record>)
    requires name != ""
    ensures |r| == |caps|
    ensures forall i :: 0 <= i < |caps| ==>
      r[i] == RecordOf(Request(Some(name), Some(Language), Some(Unify(caps[i]))))
  {
    seq(|caps|, i requires 0 <= i < |caps| => Record(name, Some(Language), Unify(caps[i])))
  }

  /** `centralizar`, `normalizar`, the positional part and `extrairAngulos`, for one hand. */
  method ComputeVector(m: Maths, landmarks: seq<NumPoint>) returns (vetor: seq<Num>)
    ensures vetor == HandVector(m, landmarks)
  {
    var centralizados := Centralize(landmarks);
    var normalizados := Normalize(m, centralizados);
    var posicional := Flatten(normalizados);
    var angulos := ExtractAngles(m, normalizados);
    vetor := posicional + Lift(angulos);
  }

  /** The state of the training page: `resultadoAtual` and `capturas`. */
  class Session {
    var current: Capture
    var captures: seq<Capture>

    /** Every stored vector is finite, and every capture holds at least one hand. */
    ghost predicate Valid()
      reads this
    {
      && CaptureFinite(current)
      && forall i :: 0 <= i < |captures| ==>
           CaptureFinite(captures[i]) && (captures[i].left.Some? || captures[i].right.Some?)
    }

    constructor ()
      ensures Valid() && current == Capture(None, None) && captures == []
    {
      current := Capture(None, None);
      captures := [];
    }

    /** `onResults`: reset `resultadoAtual`, then keep the last usable hand of each side. */
    method OnResults(m: Maths, results: Option<seq<Detection>>)
      requires Valid()
      modifies this`current
      ensures Valid()
      ensures results.None? ==> current == Capture(None, None)
      ensures results.Some? ==>
        current == Capture(SideVector(m, results.value, HF.Left, |results.value|),
                           SideVector(m, results.value, HF.Right, |results.value|))
    {
      current := Capture(None, None);
      if results.Some? {
        var dets := results.value;
        for i := 0 to |dets|
          invariant CaptureFinite(current)
          invariant current == Capture(SideVector(m, dets, HF.Left, i), SideVector(m, dets, HF.Right, i))
        {
          if dets[i].landmarks.None? {
            continue;
          }
          var vetor := ComputeVector(m, dets[i].landmarks.value);
          ValidExactlyWhenFinite(m, dets[i].landmarks.value);
          if !AllFinite(vetor) {
            continue;
          }
          if dets[i].side == HF.Left {
            current := current.(left := Some(vetor));
          }
          if dets[i].side == HF.Right {
            current := current.(right := Some(vetor));
          }
        }
      }
    }

    /** `capturarGesto`: refused when no hand is present, else a copy of `resultadoAtual` is appended. */
    method CaptureGesture() returns (captured: bool)
      requires Valid()
      modifies this`captures
      ensures Valid()
      ensures captured <==> current.left.Some? || current.right.Some?
      ensures captured ==> captures == old(captures) + [current]
      ensures !captured ==> captures == old(captures)
    {
      if current.left.None? && current.right.None? {
        return false;
      }
      captures := captures + [current];
      captured := true;
    }

    /** `limparCapturas`. */
    method ClearCaptures()
      requires Valid()
      modifies this`captures
      ensures Valid() && captures == []
    {
      captures := [];
    }

    /**
      `salvarGesto`: refused with an empty label or no capture; otherwise one
      POST per capture, in order, under the upper-cased label, then the
      captures are cleared.
     */
    method SaveGesture(name: string, store: Store) returns (saved: bool)
      requires Valid()
      modifies this`captures, store
      ensures Valid()
      ensures saved <==> name != "" && |old(captures)| > 0
      ensures !saved ==> captures == old(captures) && store.document == old(store.document)
      ensures saved ==> captures == [] && store.Contents() == old(store.Contents()) + Submissions(Upper(name), old(captures))
    {
      if name == "" || |captures| == 0 {
        return false;
      }
      var upper := Upper(name);
      var capturas := captures;
      for i := 0 to |capturas|
        invariant captures == capturas
        invariant store.Contents() == old(store.Contents()) + Submissions(upper, capturas[..i])
      {
        var captura := capturas[i];
        var vetorUnificado := Unify(captura);
        var _ := store.Post(Request(Some(upper), Some(Language), Some(vetorUnificado)));
        assert capturas[..i + 1] == capturas[..i] + [captura];
      }
      assert capturas[..|capturas|] == capturas;
      ClearCaptures();
      saved := true;
    }
  }
}
