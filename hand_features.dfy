/**
  Feature extraction of the recognition page (src/scripts/reconhecimento.js):
  a hand's 21 landmarks become 63 positional values and 10 joint angles, and
  the Left and Right hands' vectors are concatenated into the query.
 */
module HandFeatures {
  import opened Numeric

  /** A landmark in the estimator's normalised image space. */
  datatype Point = Point(x: real, y: real, z: real)

  const Origin := Point(0.0, 0.0, 0.0)

  /** Landmarks per hand; 0 is the wrist, 9 the middle finger's base knuckle. */
  const LandmarkCount: nat := 21
  const Wrist: nat := 0
  const MiddleBase: nat := 9

  /** Two angles per finger, five fingers. */
  const AngleCount: nat := 10

  /** 21 * 3 positional values followed by the 10 angles. */
  const FeatureLength: nat := 3 * LandmarkCount + AngleCount

  /** The joint chains in the order `extrairAngulos` visits them: the thumb comes last. */
  const IndexFinger: seq<nat> := [5, 6, 7, 8]
  const MiddleFinger: seq<nat> := [9, 10, 11, 12]
  const RingFinger: seq<nat> := [13, 14, 15, 16]
  const PinkyFinger: seq<nat> := [17, 18, 19, 20]
  const Thumb: seq<nat> := [1, 2, 3, 4]
  const Fingers: seq<seq<nat>> := [IndexFinger, MiddleFinger, RingFinger, PinkyFinger, Thumb]

  function Minus(p: Point, q: Point): Point {
    Point(p.x - q.x, p.y - q.y, p.z - q.z)
  }

  function Plus(p: Point, q: Point): Point {
    Point(p.x + q.x, p.y + q.y, p.z + q.z)
  }

  function Shrink(p: Point, d: real): Point
    requires d != 0.0
  {
    Point(p.x / d, p.y / d, p.z / d)
  }

  function Grow(p: Point, d: real): Point {
    Point(p.x * d, p.y * d, p.z * d)
  }

  /** Squared Euclidean length. */
  function Norm2(p: Point): real {
    p.x * p.x + p.y * p.y + p.z * p.z
  }

  function Dot(a: Point, b: Point): real {
    a.x * b.x + a.y * b.y + a.z * b.z
  }

  /** Coordinate k (0 = x, 1 = y, 2 = z) of a point. */
  function Coord(p: Point, k: nat): real
    requires k < 3
  {
    if k == 0 then p.x else if k == 1 then p.y else p.z
  }

  /** Every point scaled by c about the origin: the same hand nearer to or further from the camera. */
  function Dilate(pts: seq<Point>, c: real): (r: seq<Point>)
    ensures |r| == |pts|
  {
    seq(|pts|, i requires 0 <= i < |pts| => Grow(pts[i], c))
  }

  /** Every point moved by t. */
  function Translate(pts: seq<Point>, t: Point): (r: seq<Point>)
    ensures |r| == |pts|
  {
    seq(|pts|, i requires 0 <= i < |pts| => Plus(pts[i], t))
  }

  /** `centralizar`: translate the hand so that the wrist is at the origin. */
  function Centralize(pts: seq<Point>): (r: seq<Point>)
    requires |pts| > 0
    ensures |r| == |pts| && r[Wrist] == Origin
    ensures forall i :: 0 <= i < |r| ==> Plus(r[i], pts[Wrist]) == pts[i]
  {
    seq(|pts|, i requires 0 <= i < |pts| => Minus(pts[i], pts[Wrist]))
  }

  /** Where the hand is in the frame does not matter after centralizar. */
  lemma CentralizeTranslation(pts: seq<Point>, t: Point)
    requires |pts| > 0
    ensures Centralize(Translate(pts, t)) == Centralize(pts)
  {
    var a, b := Centralize(Translate(pts, t)), Centralize(pts);
    forall i | 0 <= i < |pts|
      ensures a[i] == b[i]
    {
      assert Translate(pts, t)[i] == Plus(pts[i], t);
    }
  }

  /** The divisor of `normalizarLandmarks`: the wrist to point-9 distance, or 1 when that is 0. */
  function LandmarkScale(m: Maths, pts: seq<Point>): real
    requires |pts| > MiddleBase
  {
    var d := m.sqrt(Norm2(Minus(pts[Wrist], pts[MiddleBase])));
    if d == 0.0 then 1.0 else d
  }

  /**
    `normalizarLandmarks`: every coordinate divided by the wrist to point-9
    distance (by 1 when that distance is 0).
   */
  function NormalizeLandmarks(m: Maths, pts: seq<Point>): (r: seq<Point>)
    requires |pts| > MiddleBase
    ensures |r| == |pts|
    ensures m.sqrt(Norm2(Minus(pts[Wrist], pts[MiddleBase]))) == 0.0 ==> r == pts
    ensures forall i :: 0 <= i < |r| ==> Grow(r[i], LandmarkScale(m, pts)) == pts[i]
  {
    var d := LandmarkScale(m, pts);
    seq(|pts|, i requires 0 <= i < |pts| => Shrink(pts[i], d))
  }

  lemma ShrinkMinus(a: Point, b: Point, d: real)
    requires d != 0.0
    ensures Minus(Shrink(a, d), Shrink(b, d)) == Shrink(Minus(a, b), d)
  {
    assert (a.x - b.x) / d == a.x / d - b.x / d;
    assert (a.y - b.y) / d == a.y / d - b.y / d;
    assert (a.z - b.z) / d == a.z / d - b.z / d;
  }

  lemma CancelSquare(n: real, dd: real, x: real)
    requires n * dd == x && dd == x && dd != 0.0
    ensures n == 1.0
  {
    ProductZero(n - 1.0, dd);
  }

  /** Dividing by d divides the squared length by d * d. */
  lemma ShrinkNorm2(v: Point, d: real)
    requires d != 0.0
    ensures Norm2(Shrink(v, d)) * (d * d) == Norm2(v)
  {
    var w := Shrink(v, d);
    assert w.x * d == v.x && w.y * d == v.y && w.z * d == v.z;
    assert (w.x * w.x) * (d * d) == (w.x * d) * (w.x * d);
    assert (w.y * w.y) * (d * d) == (w.y * d) * (w.y * d);
    assert (w.z * w.z) * (d * d) == (w.z * d) * (w.z * d);
  }

  /**
    The point of `normalizarLandmarks`: when the wrist and point 9 are apart,
    the normalised hand has them at distance exactly 1.
   */
  lemma NormalizedDistanceOne(m: Maths, pts: seq<Point>)
    requires Lawful(m) && |pts| > MiddleBase
    requires Norm2(Minus(pts[Wrist], pts[MiddleBase])) != 0.0
    ensures Norm2(Minus(NormalizeLandmarks(m, pts)[Wrist], NormalizeLandmarks(m, pts)[MiddleBase])) == 1.0
  {
    var v := Minus(pts[Wrist], pts[MiddleBase]);
    Norm2NonNegative(v);
    var d := m.sqrt(Norm2(v));
    assert d * d == Norm2(v) && d != 0.0;
    assert LandmarkScale(m, pts) == d;
    var r := NormalizeLandmarks(m, pts);
    assert r[Wrist] == Shrink(pts[Wrist], d) && r[MiddleBase] == Shrink(pts[MiddleBase], d);
    ShrinkMinus(pts[Wrist], pts[MiddleBase], d);
    ShrinkNorm2(v, d);
    ProductZero(d, d);
    CancelSquare(Norm2(Shrink(v, d)), d * d, Norm2(v));
  }

  lemma GrowMinus(a: Point, b: Point, c: real)
    ensures Minus(Grow(a, c), Grow(b, c)) == Grow(Minus(a, b), c)
  {
    assert a.x * c - b.x * c == (a.x - b.x) * c;
    assert a.y * c - b.y * c == (a.y - b.y) * c;
    assert a.z * c - b.z * c == (a.z - b.z) * c;
  }

  lemma Norm2Grow(v: Point, c: real)
    ensures Norm2(Grow(v, c)) == c * c * Norm2(v)
  {
    assert (v.x * c) * (v.x * c) == c * c * (v.x * v.x);
    assert (v.y * c) * (v.y * c) == c * c * (v.y * v.y);
    assert (v.z * c) * (v.z * c) == c * c * (v.z * v.z);
  }

  lemma ShrinkGrow(p: Point, c: real, d: real)
    requires c != 0.0 && d != 0.0
    ensures Shrink(Grow(p, c), c * d) == Shrink(p, d)
  {
    assert (p.x * c) / (c * d) == p.x / d;
    assert (p.y * c) / (c * d) == p.y / d;
    assert (p.z * c) / (c * d) == p.z / d;
  }

  /** Scaling commutes with `centralizar`. */
  lemma CentralizeDilate(pts: seq<Point>, c: real)
    requires |pts| > 0
    ensures Centralize(Dilate(pts, c)) == Dilate(Centralize(pts), c)
  {
    forall i | 0 <= i < |pts|
      ensures Centralize(Dilate(pts, c))[i] == Dilate(Centralize(pts), c)[i]
    {
      GrowMinus(pts[i], pts[Wrist], c);
    }
  }

  /** A hand with the wrist and point 9 apart normalises to the same points at every positive scale. */
  lemma NormalizeDilate(m: Maths, pts: seq<Point>, c: real)
    requires Lawful(m) && 0.0 < c && |pts| > MiddleBase
    requires Norm2(Minus(pts[Wrist], pts[MiddleBase])) != 0.0
    ensures NormalizeLandmarks(m, Dilate(pts, c)) == NormalizeLandmarks(m, pts)
  {
    var q := Dilate(pts, c);
    var v := Minus(pts[Wrist], pts[MiddleBase]);
    Norm2NonNegative(v);
    GrowMinus(pts[Wrist], pts[MiddleBase], c);
    Norm2Grow(v, c);
    var n := Norm2(v);
    SqrtScale(m, c, n);
    var d := m.sqrt(n);
    assert d != 0.0;
    assert LandmarkScale(m, pts) == d;
    assert q[Wrist] == Grow(pts[Wrist], c) && q[MiddleBase] == Grow(pts[MiddleBase], c);
    var x := Norm2(Minus(q[Wrist], q[MiddleBase]));
    assert x == c * c * n;
    assert m.sqrt(x) == c * d;
    ProductZero(c, d);
    assert LandmarkScale(m, q) == c * d;
    forall i | 0 <= i < |pts|
      ensures NormalizeLandmarks(m, q)[i] == NormalizeLandmarks(m, pts)[i]
    {
      ShrinkGrow(pts[i], c, d);
    }
  }

  /** The running sum of squares of `normalizarVetor`'s reduce, from the left. */
  function SumSquares(xs: seq<real>): real {
    if xs == [] then 0.0 else SumSquares(xs[..|xs| - 1]) + xs[|xs| - 1] * xs[|xs| - 1]
  }

  /** The divisor of `normalizarVetor`: the Euclidean norm, or 1 when that is 0. */
  function VectorScale(m: Maths, xs: seq<real>): real {
    var n := m.sqrt(SumSquares(xs));
    if n == 0.0 then 1.0 else n
  }

  /**
    `normalizarVetor`. A vector holding NaN has a NaN norm, `NaN || 1` is 1,
    and dividing by 1 changes nothing.
   */
  function NormalizeVector(m: Maths, v: seq<Num>): (r: seq<Num>)
    ensures |r| == |v|
    ensures AllFinite(r) <==> AllFinite(v)
    ensures !AllFinite(v) ==> r == v
    ensures AllFinite(v) && m.sqrt(SumSquares(Values(v))) == 0.0 ==> r == v
    ensures AllFinite(v) ==> forall i :: 0 <= i < |v| ==> r[i].v * VectorScale(m, Values(v)) == v[i].v
  {
    if !AllFinite(v) then v
    else
      var s := VectorScale(m, Values(v));
      seq(|v|, i requires 0 <= i < |v| => Fin(v[i].v / s))
  }

  lemma {:induction false} SumSquaresNonNegative(xs: seq<real>)
    ensures SumSquares(xs) >= 0.0
    decreases |xs|
  {
    if xs != [] {
      SumSquaresNonNegative(xs[..|xs| - 1]);
      SquareNonNegative(xs[|xs| - 1]);
    }
  }

  /** Scaling every entry by s scales the sum of squares by s * s. */
  lemma {:induction false} SumSquaresScaled(ys: seq<real>, xs: seq<real>, s: real)
    requires |ys| == |xs|
    requires forall i :: 0 <= i < |xs| ==> ys[i] * s == xs[i]
    ensures SumSquares(ys) * (s * s) == SumSquares(xs)
    decreases |xs|
  {
    if xs != [] {
      var k := |xs| - 1;
      SumSquaresScaled(ys[..k], xs[..k], s);
      var a, b, y := SumSquares(ys[..k]), SumSquares(xs[..k]), ys[k];
      assert SumSquares(ys) * (s * s) == a * (s * s) + (y * s) * (y * s);
    }
  }

  /** A vector with a non-zero norm comes out of `normalizarVetor` with norm 1. */
  lemma NormalizedVectorUnit(m: Maths, v: seq<Num>)
    requires Lawful(m) && AllFinite(v)
    requires m.sqrt(SumSquares(Values(v))) != 0.0
    ensures AllFinite(NormalizeVector(m, v))
    ensures SumSquares(Values(NormalizeVector(m, v))) == 1.0
  {
    var r := NormalizeVector(m, v);
    var xs, ys := Values(v), Values(r);
    var n := m.sqrt(SumSquares(xs));
    assert VectorScale(m, xs) == n;
    SumSquaresScaled(ys, xs, n);
    SumSquaresNonNegative(xs);
    assert n * n == SumSquares(xs);
    ProductZero(n, n);
    CancelSquare(SumSquares(ys), n * n, SumSquares(xs));
  }

  /** What `normalizar` (the declaration at line 159, the one in force) is given. */
  datatype Data = Points(pts: seq<Point>) | Numbers(nums: seq<Num>)

  function Size(d: Data): nat {
    match d
    case Points(p) => |p|
    case Numbers(v) => |v|
  }

  /**
    `normalizar`: point lists go to normalizarLandmarks, number lists to
    normalizarVetor; an empty list has no first element to inspect and is
    returned as it is.
   */
  function Normalize(m: Maths, d: Data): (r: Data)
    requires d.Points? && |d.pts| > 0 ==> |d.pts| > MiddleBase
    ensures r.Points? == d.Points? && Size(r) == Size(d)
    ensures d.Points? && |d.pts| > 0 ==> r.pts == NormalizeLandmarks(m, d.pts)
    ensures d.Numbers? && |d.nums| > 0 ==> r.nums == NormalizeVector(m, d.nums)
  {
    match d
    case Points(p) => if |p| == 0 then d else Points(NormalizeLandmarks(m, p))
    case Numbers(v) => if |v| == 0 then d else Numbers(NormalizeVector(m, v))
  }

  /** `vetor`: the displacement from a to b. */
  function Vetor(a: Point, b: Point): (r: Point)
    ensures Plus(a, r) == b
  {
    Minus(b, a)
  }

  /** `Math.min(1, Math.max(-1, c))`: the cosine pulled into [-1, 1]. */
  function Clamp(c: real): (r: real)
    ensures -1.0 <= r <= 1.0
    ensures -1.0 <= c <= 1.0 ==> r == c
    ensures c < -1.0 ==> r == -1.0
    ensures c > 1.0 ==> r == 1.0
  {
    var lo := if c >= -1.0 then c else -1.0;
    if lo <= 1.0 then lo else 1.0
  }

  /**
    `calcularAngulo`, without a guard: when either vector has length 0 the
    dot product is 0 as well, the cosine is 0 / 0 and the angle is NaN.
   */
  function CalcAngle(m: Maths, v1: Point, v2: Point): Num {
    var product := LengthProduct(m, v1, v2);
    if product == 0.0 then NonFinite else Fin(AngleOf(m, Dot(v1, v2), product))
  }

  /** `mag1 * mag2`. */
  function LengthProduct(m: Maths, v1: Point, v2: Point): real {
    m.sqrt(Norm2(v1)) * m.sqrt(Norm2(v2))
  }

  /** The clamped cosine `dot / divisor` turned into degrees by `Math.acos` and `180 / Math.PI`. */
  function AngleOf(m: Maths, dot: real, divisor: real): real
    requires divisor != 0.0
  {
    m.acos(Clamp(dot / divisor)) * Degrees
  }

  /** Whatever the cosine, the angle is in [0, 180] degrees. */
  lemma AngleOfRange(m: Maths, dot: real, divisor: real)
    requires Lawful(m) && divisor != 0.0
    ensures 0.0 <= AngleOf(m, dot, divisor) <= 180.0
  {
    DegreesRange(m.acos(Clamp(dot / divisor)));
  }

  lemma Norm2NonNegative(p: Point)
    ensures Norm2(p) >= 0.0
  {
  }

  /** The unguarded angle is NaN exactly for a zero-length vector, and otherwise in [0, 180]. */
  lemma CalcAngleRange(m: Maths, v1: Point, v2: Point)
    requires Lawful(m)
    ensures CalcAngle(m, v1, v2).NonFinite? <==> Norm2(v1) == 0.0 || Norm2(v2) == 0.0
    ensures CalcAngle(m, v1, v2).Fin? ==> 0.0 <= CalcAngle(m, v1, v2).v <= 180.0
  {
    Norm2NonNegative(v1);
    Norm2NonNegative(v2);
    ProductZero(m.sqrt(Norm2(v1)), m.sqrt(Norm2(v2)));
    if LengthProduct(m, v1, v2) != 0.0 {
      AngleOfRange(m, Dot(v1, v2), LengthProduct(m, v1, v2));
    }
  }

  /** The angle at joint k (0 or 1) of finger f, as the loop of `extrairAngulos` computes it. */
  function JointAngle(m: Maths, pts: seq<Point>, f: nat, k: nat): Num
    requires |pts| >= LandmarkCount && f < |Fingers| && k < 2
  {
    var joints := Fingers[f];
    CalcAngle(m, Vetor(pts[joints[k]], pts[joints[k + 1]]), Vetor(pts[joints[k + 1]], pts[joints[k + 2]]))
  }

  /** A joint whose incoming or outgoing bone has length 0. */
  predicate DegenerateJoint(pts: seq<Point>, f: nat, k: nat)
    requires |pts| >= LandmarkCount && f < |Fingers| && k < 2
  {
    var joints := Fingers[f];
    Norm2(Vetor(pts[joints[k]], pts[joints[k + 1]])) == 0.0
    || Norm2(Vetor(pts[joints[k + 1]], pts[joints[k + 2]])) == 0.0
  }

  /** The ten angles: entry 2 * f + k is joint k of finger f. */
  function Angles(m: Maths, pts: seq<Point>): (r: seq<Num>)
    requires |pts| >= LandmarkCount
    ensures |r| == AngleCount
    ensures forall j :: 0 <= j < AngleCount ==> r[j] == JointAngle(m, pts, j / 2, j % 2)
  {
    seq(AngleCount, j requires 0 <= j < AngleCount => JointAngle(m, pts, j / 2, j % 2))
  }

  /** Each angle is NaN exactly at a degenerate joint and otherwise in [0, 180] degrees. */
  lemma AnglesRange(m: Maths, pts: seq<Point>)
    requires Lawful(m) && |pts| >= LandmarkCount
    ensures forall j :: 0 <= j < AngleCount ==>
      (Angles(m, pts)[j].NonFinite? <==> DegenerateJoint(pts, j / 2, j % 2))
    ensures forall j :: 0 <= j < AngleCount && Angles(m, pts)[j].Fin? ==>
      0.0 <= Angles(m, pts)[j].v <= 180.0
  {
    forall j | 0 <= j < AngleCount
      ensures Angles(m, pts)[j].NonFinite? <==> DegenerateJoint(pts, j / 2, j % 2)
      ensures Angles(m, pts)[j].Fin? ==> 0.0 <= Angles(m, pts)[j].v <= 180.0
    {
      var joints := Fingers[j / 2];
      var k := j % 2;
      CalcAngleRange(m, Vetor(pts[joints[k]], pts[joints[k + 1]]), Vetor(pts[joints[k + 1]], pts[joints[k + 2]]));
    }
  }

  /** `extrairAngulos`: two angles per finger, fingers in the order of Fingers. */
  method ExtractAngles(m: Maths, pts: seq<Point>) returns (angulos: seq<Num>)
    requires |pts| >= LandmarkCount
    ensures angulos == Angles(m, pts)
  {
    angulos := [];
    for f := 0 to |Fingers|
      invariant |angulos| == 2 * f
      invariant forall j :: 0 <= j < |angulos| ==> angulos[j] == JointAngle(m, pts, j / 2, j % 2)
    {
      var joints := Fingers[f];
      for i := 0 to |joints| - 2
        invariant |angulos| == 2 * f + i
        invariant forall j :: 0 <= j < |angulos| ==> angulos[j] == JointAngle(m, pts, j / 2, j % 2)
      {
        var v1 := Vetor(pts[joints[i]], pts[joints[i + 1]]);
        var v2 := Vetor(pts[joints[i + 1]], pts[joints[i + 2]]);
        angulos := angulos + [CalcAngle(m, v1, v2)];
      }
    }
  }

  /** `flatMap(p => [p.x, p.y, p.z])`. */
  function Flatten(pts: seq<Point>): (r: seq<Num>)
    ensures |r| == 3 * |pts| && AllFinite(r)
  {
    if pts == [] then [] else [Fin(pts[0].x), Fin(pts[0].y), Fin(pts[0].z)] + Flatten(pts[1..])
  }

  /** Entry 3 * i + k of the flattened points is coordinate k of point i. */
  lemma {:induction false} FlattenAt(pts: seq<Point>, i: nat, k: nat)
    requires i < |pts| && k < 3
    ensures Flatten(pts)[3 * i + k] == Fin(Coord(pts[i], k))
  {
    if i > 0 {
      FlattenAt(pts[1..], i - 1, k);
      assert Flatten(pts)[3 * i + k] == Flatten(pts[1..])[3 * (i - 1) + k];
    }
  }

  /** The landmarks after `centralizar` and `normalizar`. */
  function NormalizedHand(m: Maths, pts: seq<Point>): (r: seq<Point>)
    requires |pts| == LandmarkCount
    ensures r == NormalizeLandmarks(m, Centralize(pts))
  {
    Normalize(m, Points(Centralize(pts))).pts
  }

  /** `vetorUnificado`: positional part then angles. */
  function HandVector(m: Maths, pts: seq<Point>): (r: seq<Num>)
    requires |pts| == LandmarkCount
    ensures |r| == FeatureLength
  {
    var normal := NormalizedHand(m, pts);
    Flatten(normal) + Angles(m, normal)
  }

  /**
    The hand vector holds coordinate k of normalised landmark i at 3 * i + k,
    in landmark order, then the 10 angles; the wrist's three entries are 0.
   */
  lemma HandVectorLayout(m: Maths, pts: seq<Point>)
    requires |pts| == LandmarkCount
    ensures forall i, k :: 0 <= i < LandmarkCount && 0 <= k < 3 ==>
      HandVector(m, pts)[3 * i + k] == Fin(Coord(NormalizedHand(m, pts)[i], k))
    ensures HandVector(m, pts)[3 * LandmarkCount..] == Angles(m, NormalizedHand(m, pts))
    ensures HandVector(m, pts)[..3] == [Fin(0.0), Fin(0.0), Fin(0.0)]
  {
    var normal := NormalizedHand(m, pts);
    forall i, k | 0 <= i < LandmarkCount && 0 <= k < 3
      ensures HandVector(m, pts)[3 * i + k] == Fin(Coord(normal[i], k))
    {
      FlattenAt(normal, i, k);
    }
    assert normal[Wrist] == Shrink(Origin, LandmarkScale(m, Centralize(pts)));
    assert HandVector(m, pts)[..3] == [HandVector(m, pts)[0], HandVector(m, pts)[1], HandVector(m, pts)[2]];
  }

  /** Moving the whole hand does not change its feature vector. */
  lemma HandVectorTranslation(m: Maths, pts: seq<Point>, t: Point)
    requires |pts| == LandmarkCount
    ensures HandVector(m, Translate(pts, t)) == HandVector(m, pts)
  {
    CentralizeTranslation(pts, t);
  }

  /**
    Moving the camera closer or further (scaling every landmark by c > 0)
    does not change the feature vector either, as long as the wrist and
    point 9 are apart; when they coincide the scale is kept, so no such
    promise holds there.
   */
  lemma HandVectorScaling(m: Maths, pts: seq<Point>, c: real)
    requires Lawful(m) && 0.0 < c && |pts| == LandmarkCount
    requires Norm2(Minus(pts[Wrist], pts[MiddleBase])) != 0.0
    ensures HandVector(m, Dilate(pts, c)) == HandVector(m, pts)
  {
    var centred := Centralize(pts);
    CentralizeDilate(pts, c);
    assert Minus(centred[Wrist], centred[MiddleBase]) == Minus(pts[Wrist], pts[MiddleBase]);
    NormalizeDilate(m, centred, c);
    assert NormalizedHand(m, Dilate(pts, c)) == NormalizedHand(m, pts);
  }

  /** `multiHandedness[i].label`. */
  datatype Side = Left | Right

  /** The hands of one frame, `mapaMao`: at most one per side. */
  datatype Hands = Hands(left: Option<seq<Point>>, right: Option<seq<Point>>)

  /** The estimator delivers 21 landmarks per hand. */
  predicate WellFormed(h: Hands) {
    (h.left.Some? ==> |h.left.value| == LandmarkCount)
    && (h.right.Some? ==> |h.right.value| == LandmarkCount)
  }

  /** One side's part of the query: its hand vector, or nothing for an absent hand. */
  function HandPart(m: Maths, hand: Option<seq<Point>>): (r: seq<Num>)
    requires hand.Some? ==> |hand.value| == LandmarkCount
    ensures |r| == if hand.Some? then FeatureLength else 0
  {
    if hand.Some? then HandVector(m, hand.value) else []
  }

  function HandCount(h: Hands): nat {
    (if h.left.Some? then 1 else 0) + (if h.right.Some? then 1 else 0)
  }

  /** The query `vetorAtual`: the Left hand's vector, then the Right hand's; an absent hand adds nothing. */
  function QueryVector(m: Maths, h: Hands): (r: seq<Num>)
    requires WellFormed(h)
    ensures |r| == FeatureLength * HandCount(h)
    ensures |r| in {0, FeatureLength, 2 * FeatureLength}
    ensures h.left.Some? ==> r[..FeatureLength] == HandVector(m, h.left.value)
    ensures h.right.Some? ==> r[|r| - FeatureLength..] == HandVector(m, h.right.value)
    ensures h.left.None? && h.right.None? ==> r == []
  {
    HandPart(m, h.left) + HandPart(m, h.right)
  }
}
