/**
 * The CubicBezier timing curve: start point (0,0), end point (1,1) and two
 * control points whose coordinates lie in [0,1]. A curve is an immutable value;
 * the source's constructor is `Create`, which raises a RangeError for a
 * control coordinate outside [0,1].
 */
module Bezier {
  import opened Wrappers
  import opened JsNumbers

  datatype Point = Point(x: real, y: real)

  datatype CubicBezier = CubicBezier(p1x: real, p1y: real, p2x: real, p2y: real) {
    /** What the constructor guarantees of every curve object. */
    predicate Valid() {
      0.0 <= p1x <= 1.0 && 0.0 <= p1y <= 1.0 && 0.0 <= p2x <= 1.0 && 0.0 <= p2y <= 1.0
    }
  }

  /** `new CubicBezier(p1x, p1y, p2x, p2y)`: the four guards run in argument order. */
  function Create(p1x: Num, p1y: Num, p2x: Num, p2y: Num): (r: Result<CubicBezier>)
    ensures r.Ok? <==> InUnit(p1x) && InUnit(p1y) && InUnit(p2x) && InUnit(p2y)
    ensures r.Ok? ==> r.value == CubicBezier(p1x.v, p1y.v, p2x.v, p2y.v) && r.value.Valid()
    ensures !InUnit(p1x) ==> r == Err(RangeError(P1x))
    ensures InUnit(p1x) && !InUnit(p1y) ==> r == Err(RangeError(P1y))
    ensures InUnit(p1x) && InUnit(p1y) && !InUnit(p2x) ==> r == Err(RangeError(P2x))
    ensures InUnit(p1x) && InUnit(p1y) && InUnit(p2x) && !InUnit(p2y) ==> r == Err(RangeError(P2y))
  {
    if !(Ge(p1x, 0.0) && Le(p1x, 1.0)) then Err(RangeError(P1x))
    else if !(Ge(p1y, 0.0) && Le(p1y, 1.0)) then Err(RangeError(P1y))
    else if !(Ge(p2x, 0.0) && Le(p2x, 1.0)) then Err(RangeError(P2x))
    else if !(Ge(p2y, 0.0) && Le(p2y, 1.0)) then Err(RangeError(P2y))
    else Ok(CubicBezier(p1x.v, p1y.v, p2x.v, p2y.v))
  }

  /** `_getCoordinateForT`: one axis of the curve in power form. */
  function CoordinateAt(t: real, p1: real, p2: real): real {
    var c := 3.0 * p1;
    var b := 3.0 * (p2 - p1) - c;
    var a := 1.0 - c - b;
    ((a * t + b) * t + c) * t
  }

  /** `_getCoordinateDerivateForT`: the derivative of `CoordinateAt` in `t`. */
  function DerivativeAt(t: real, p1: real, p2: real): real {
    var c := 3.0 * p1;
    var b := 3.0 * (p2 - p1) - c;
    var a := 1.0 - c - b;
    (3.0 * a * t + 2.0 * b) * t + c
  }

  /** Reference definition: the cubic Bernstein polynomial with control values q0..q3. */
  function Bernstein(s: real, q0: real, q1: real, q2: real, q3: real): real {
    (1.0 - s) * (1.0 - s) * (1.0 - s) * q0 + 3.0 * (1.0 - s) * (1.0 - s) * s * q1
    + 3.0 * (1.0 - s) * s * s * q2 + s * s * s * q3
  }

  /** The power form of the source is the Bernstein form with end values 0 and 1. */
  lemma PowerFormIsBernstein(t: real, p1: real, p2: real)
    ensures CoordinateAt(t, p1, p2) == Bernstein(t, 0.0, p1, p2, 1.0)
  {
  }

  /** The derivative in Bernstein form: three times the quadratic through the
      control-point differences p1 - 0, p2 - p1 and 1 - p2. */
  lemma DerivativeIsBernstein(t: real, p1: real, p2: real)
    ensures DerivativeAt(t, p1, p2)
         == 3.0 * ((1.0 - t) * (1.0 - t) * p1 + 2.0 * (1.0 - t) * t * (p2 - p1) + t * t * (1.0 - p2))
  {
  }

  /** `DerivativeAt` is the derivative of `CoordinateAt`: the increment over `h` is
      `h` times the derivative plus terms of order h squared and h cubed. */
  lemma DerivativeExpansion(t: real, h: real, p1: real, p2: real)
    ensures var b := 3.0 * (p2 - p1) - 3.0 * p1;
            var a := 1.0 - 3.0 * p1 - b;
            CoordinateAt(t + h, p1, p2) - CoordinateAt(t, p1, p2)
            == h * DerivativeAt(t, p1, p2) + h * h * (3.0 * a * t + b) + h * h * h * a
  {
  }

  /** Both ends of the power form are exact, because a + b + c = 1. */
  lemma CoordinateEnds(p1: real, p2: real)
    ensures CoordinateAt(0.0, p1, p2) == 0.0 && CoordinateAt(1.0, p1, p2) == 1.0
  {
  }

  lemma ProductNonneg(a: real, b: real, c: real, d: real)
    requires a >= 0.0 && b >= 0.0 && c >= 0.0 && d >= 0.0
    ensures a * b * c * d >= 0.0
  {
  }

  lemma CubeSign(u: real)
    requires u >= 0.0
    ensures u * u * u >= 0.0
    ensures u > 0.0 ==> u * u * u > 0.0
  {
  }

  /** The complement 1 - B(t) is the Bernstein form of the mirrored control values. */
  lemma BernsteinComplement(t: real, p1: real, p2: real)
    ensures 1.0 - Bernstein(t, 0.0, p1, p2, 1.0) == Bernstein(1.0 - t, 0.0, 1.0 - p2, 1.0 - p1, 1.0)
  {
  }

  /** A Bernstein form with control values 0, q1, q2, 1 and q1, q2 non-negative is at
      least t^3 on [0,1]. */
  lemma {:induction false} BernsteinLowerBound(t: real, q1: real, q2: real)
    requires 0.0 <= t <= 1.0 && q1 >= 0.0 && q2 >= 0.0
    ensures Bernstein(t, 0.0, q1, q2, 1.0) >= t * t * t
  {
    ProductNonneg(1.0 - t, 1.0 - t, t, q1);
    ProductNonneg(1.0 - t, t, t, q2);
  }

  /** For control values in [0,1] the curve stays in [0,1] on [0,1], and strictly
      inside (0,1) for t strictly inside: it is at least t^3 and at most 1 - (1-t)^3. */
  lemma {:induction false} CoordinateInUnit(t: real, p1: real, p2: real)
    requires 0.0 <= p1 <= 1.0 && 0.0 <= p2 <= 1.0 && 0.0 <= t <= 1.0
    ensures 0.0 <= CoordinateAt(t, p1, p2) <= 1.0
    ensures 0.0 < t < 1.0 ==> 0.0 < CoordinateAt(t, p1, p2) < 1.0
  {
    PowerFormIsBernstein(t, p1, p2);
    BernsteinLowerBound(t, p1, p2);
    BernsteinComplement(t, p1, p2);
    BernsteinLowerBound(1.0 - t, 1.0 - p2, 1.0 - p1);
    CubeSign(t);
    CubeSign(1.0 - t);
  }

  /** `getPointForT`: the two ends are returned as given, any other t outside the open
      interval (0,1), NaN included, raises a RangeError, and an inner t is evaluated
      on both axes. The result is the Bernstein form of the curve on both axes. */
  function GetPointForT(b: CubicBezier, t: Num): (r: Result<Point>)
    ensures r.Ok? <==> InUnit(t)
    ensures r.Err? ==> r.error == RangeError(T)
    ensures r.Ok? ==> r.value == Point(Bernstein(t.v, 0.0, b.p1x, b.p2x, 1.0),
                                       Bernstein(t.v, 0.0, b.p1y, b.p2y, 1.0))
    ensures t == Fin(0.0) ==> r == Ok(Point(0.0, 0.0))
    ensures t == Fin(1.0) ==> r == Ok(Point(1.0, 1.0))
  {
    if t == Fin(0.0) || t == Fin(1.0) then
      Ok(Point(t.v, t.v))
    else if !Gt(t, 0.0) || !Lt(t, 1.0) then
      Err(RangeError(T))
    else
      PowerFormIsBernstein(t.v, b.p1x, b.p2x);
      PowerFormIsBernstein(t.v, b.p1y, b.p2y);
      Ok(Point(CoordinateAt(t.v, b.p1x, b.p2x), CoordinateAt(t.v, b.p1y, b.p2y)))
  }

  /** Every point of a curve object lies in the unit square, strictly inside it for
      an inner t. */
  lemma {:induction false} PointInUnitSquare(b: CubicBezier, t: real)
    requires b.Valid() && 0.0 <= t <= 1.0
    ensures var p := GetPointForT(b, Fin(t)).value;
            0.0 <= p.x <= 1.0 && 0.0 <= p.y <= 1.0
            && (0.0 < t < 1.0 ==> 0.0 < p.x < 1.0 && 0.0 < p.y < 1.0)
  {
    CoordinateInUnit(t, b.p1x, b.p2x);
    CoordinateInUnit(t, b.p1y, b.p2y);
    PowerFormIsBernstein(t, b.p1x, b.p2x);
    PowerFormIsBernstein(t, b.p1y, b.p2y);
  }

  /** `clone`: a new curve with the same control points; the constructor accepts them again. */
  function Clone(b: CubicBezier): (r: Result<CubicBezier>)
    requires b.Valid()
    ensures r == Ok(b)
  {
    Create(Fin(b.p1x), Fin(b.p1y), Fin(b.p2x), Fin(b.p2y))
  }

  /** The first definition of `CubicBezier.linear`, later replaced: it calls the constructor
      without arguments, and `undefined` fails the first guard like NaN does. */
  function ShadowedLinear(): (r: Result<CubicBezier>)
    ensures r == Err(RangeError(P1x))
  {
    Create(NaN, NaN, NaN, NaN)
  }

  /** `CubicBezier.linear`, the effective (second) definition. */
  function Linear(): (r: Result<CubicBezier>)
    ensures r.Ok? && r.value.Valid() && r.value == CubicBezier(0.0, 0.0, 1.0, 1.0)
  {
    Create(Fin(0.0), Fin(0.0), Fin(1.0), Fin(1.0))
  }

  /** `CubicBezier.ease` */
  function Ease(): (r: Result<CubicBezier>)
    ensures r.Ok? && r.value.Valid() && r.value == CubicBezier(0.25, 0.1, 0.25, 1.0)
  {
    Create(Fin(0.25), Fin(0.1), Fin(0.25), Fin(1.0))
  }

  /** `CubicBezier.easeIn` */
  function EaseIn(): (r: Result<CubicBezier>)
    ensures r.Ok? && r.value.Valid() && r.value == CubicBezier(0.42, 0.0, 1.0, 1.0)
  {
    Create(Fin(0.42), Fin(0.0), Fin(1.0), Fin(1.0))
  }

  /** `CubicBezier.easeOut` */
  function EaseOut(): (r: Result<CubicBezier>)
    ensures r.Ok? && r.value.Valid() && r.value == CubicBezier(0.0, 0.0, 0.58, 1.0)
  {
    Create(Fin(0.0), Fin(0.0), Fin(0.58), Fin(1.0))
  }

  /** `CubicBezier.easeInOut` */
  function EaseInOut(): (r: Result<CubicBezier>)
    ensures r.Ok? && r.value.Valid() && r.value == CubicBezier(0.42, 0.0, 0.58, 1.0)
  {
    Create(Fin(0.42), Fin(0.0), Fin(0.58), Fin(1.0))
  }

  /** The `linear` preset has the same control values on both axes, so every point
      lies on the diagonal x = y ... */
  lemma LinearIsDiagonal(t: real)
    requires 0.0 <= t <= 1.0
    ensures var p := GetPointForT(Linear().value, Fin(t)).value; p.x == p.y
  {
  }

  /** ... but its x is 3t^2 - 2t^3 and not t: at t = 1/4 the point is (5/32, 5/32). */
  lemma LinearIsNotIdentity()
    ensures GetPointForT(Linear().value, Fin(0.25)) == Ok(Point(0.15625, 0.15625))
  {
  }
}
