/** Numbers as the scripts see them, and the two transcendental functions they call. */
module Numeric {

  datatype Option<+T> = None | Some(value: T) {
    function GetOr(default: T): T {
      match this
      case Some(v) => v
      case None => default
    }
  }

  /**
    A JavaScript number. Finite values are exact reals (rounding is not
    modelled); NaN and the two infinities are one value, NonFinite, which
    behaves as NaN: it absorbs arithmetic and is falsy in `x || 1`.
   */
  datatype Num = Fin(v: real) | NonFinite

  predicate AllFinite(v: seq<Num>) {
    forall i :: 0 <= i < |v| ==> v[i].Fin?
  }

  /** The real values of a vector none of whose entries is non-finite. */
  function Values(v: seq<Num>): (r: seq<real>)
    requires AllFinite(v)
    ensures |r| == |v|
    ensures forall i :: 0 <= i < |v| ==> v[i] == Fin(r[i])
  {
    seq(|v|, i requires 0 <= i < |v| => v[i].v)
  }

  /** Finite reals as model numbers. */
  function Lift(xs: seq<real>): (r: seq<Num>)
    ensures |r| == |xs| && AllFinite(r) && Values(r) == xs
  {
    seq(|xs|, i requires 0 <= i < |xs| => Fin(xs[i]))
  }

  function Add(a: Num, b: Num): Num {
    if a.Fin? && b.Fin? then Fin(a.v + b.v) else NonFinite
  }

  function Sub(a: Num, b: Num): Num {
    if a.Fin? && b.Fin? then Fin(a.v - b.v) else NonFinite
  }

  function Mul(a: Num, b: Num): Num {
    if a.Fin? && b.Fin? then Fin(a.v * b.v) else NonFinite
  }

  /** Division; x / 0 is NaN or an infinity, both non-finite. */
  function Div(a: Num, b: Num): Num {
    if a.Fin? && b.Fin? && b.v != 0.0 then Fin(a.v / b.v) else NonFinite
  }

  /** `x || 1`: 0 and NaN are falsy. */
  function OrOne(a: Num): (r: Num)
    ensures r.Fin? && r.v != 0.0
    ensures a.Fin? && a.v != 0.0 ==> r == a
    ensures !(a.Fin? && a.v != 0.0) ==> r == Fin(1.0)
  {
    if a == Fin(0.0) || a.NonFinite? then Fin(1.0) else a
  }

  /** `Math.PI`, the double nearest to pi, as an exact real. */
  const Pi: real := 3.141592653589793

  /** Factor that turns radians into degrees, `180 / Math.PI`. */
  const Degrees: real := 180.0 / Pi

  /**
    `Math.sqrt` and `Math.acos`, left uninterpreted: the model only relies on
    the laws in Lawful.
   */
  datatype Maths = Maths(sqrt: real -> real, acos: real -> real)

  /**
    The laws of `Math.sqrt` and `Math.acos` the model relies on: sqrt of a
    non-negative argument is its non-negative square root (so zero exactly
    at zero); acos maps [-1, 1] into [0, Pi] and 0 to Pi / 2.
   */
  ghost predicate Lawful(m: Maths) {
    && (forall x :: 0.0 <= x ==> 0.0 <= m.sqrt(x))
    && (forall x :: 0.0 <= x ==> m.sqrt(x) * m.sqrt(x) == x)
    && (forall x :: 0.0 <= x ==> (m.sqrt(x) == 0.0 <==> x == 0.0))
    && (forall c :: -1.0 <= c <= 1.0 ==> 0.0 <= m.acos(c) <= Pi)
    && m.acos(0.0) == Pi / 2.0
  }

  /** `Math.sqrt` on a model number: NaN below zero. */
  function Sqrt(m: Maths, a: Num): Num {
    if a.Fin? && 0.0 <= a.v then Fin(m.sqrt(a.v)) else NonFinite
  }

  lemma SquareNonNegative(x: real)
    ensures x * x >= 0.0
  {
  }

  lemma ProductZero(a: real, b: real)
    ensures a * b == 0.0 <==> a == 0.0 || b == 0.0
  {
  }

  /** The non-negative square root is unique, so sqrt(c * c * x) is c * sqrt(x) for c >= 0. */
  lemma SqrtScale(m: Maths, c: real, x: real)
    requires Lawful(m) && 0.0 <= c && 0.0 <= x
    ensures m.sqrt(c * c * x) == c * m.sqrt(x)
  {
    SquareNonNegative(c);
    var s, t := m.sqrt(c * c * x), c * m.sqrt(x);
    assert s * s == c * c * x;
    assert t * t == c * c * (m.sqrt(x) * m.sqrt(x));
    assert t * t == c * c * x;
    assert 0.0 <= s && 0.0 <= t;
    assert (s - t) * (s + t) == 0.0;
    ProductZero(s - t, s + t);
  }

  /** An angle in radians in [0, Pi] is in [0, 180] degrees. */
  lemma DegreesRange(a: real)
    requires 0.0 <= a <= Pi
    ensures 0.0 <= a * Degrees <= 180.0
  {
  }
}
