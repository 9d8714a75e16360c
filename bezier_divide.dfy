/**
 * De Casteljau subdivision of a curve: `_getAuxPoints`, `divideAtT`, `divideAtX`
 * and `divideAtY`.
 */
module BezierDivide {
  import opened Wrappers
  import opened JsNumbers
  import opened Bezier
  import opened BezierSolve

  /** The auxiliary values of one axis: first round i0, i1, i2, second round j0, j1,
      and the division value k. */
  datatype AxisAux = AxisAux(i0: real, i1: real, i2: real, j0: real, j1: real, k: real)

  /** The auxiliary points of `_getAuxPoints`, axis by axis. */
  datatype Aux = Aux(x: AxisAux, y: AxisAux)

  /** De Casteljau's construction on one axis with control values 0, p1, p2, 1. */
  function SplitAxis(t: real, p1: real, p2: real): AxisAux {
    var i0 := t * p1;
    var i1 := p1 + t * (p2 - p1);
    var i2 := p2 + t * (1.0 - p2);
    var j0 := i0 + t * (i1 - i0);
    var j1 := i1 + t * (i2 - i1);
    var k := j0 + t * (j1 - j0);
    AxisAux(i0, i1, i2, j0, j1, k)
  }

  /** `_getAuxPoints`: a t outside the open interval (0,1), NaN included, raises a RangeError. */
  function AuxPoints(b: CubicBezier, t: Num): (r: Result<Aux>)
    ensures r.Ok? <==> t.Fin? && 0.0 < t.v < 1.0
    ensures r.Err? ==> r.error == RangeError(T)
  {
    if !Gt(t, 0.0) || !Lt(t, 1.0) then Err(RangeError(T))
    else Ok(Aux(SplitAxis(t.v, b.p1x, b.p2x), SplitAxis(t.v, b.p1y, b.p2y)))
  }

  /** The division value of De Casteljau's construction is the point of the curve at t. */
  lemma DivisionValueOnCurve(t: real, p1: real, p2: real)
    ensures SplitAxis(t, p1, p2).k == CoordinateAt(t, p1, p2)
  {
  }

  /** The division point `k` of `_getAuxPoints` is `getPointForT(t)`, and for a curve object
      it lies strictly inside the unit square, so the normalising divisions of `divideAtT`
      never divide by zero. */
  lemma {:induction false} DivisionPointInside(b: CubicBezier, t: real)
    requires b.Valid() && 0.0 < t < 1.0
    ensures var aux := AuxPoints(b, Fin(t)).value;
            Point(aux.x.k, aux.y.k) == GetPointForT(b, Fin(t)).value
            && 0.0 < aux.x.k < 1.0 && 0.0 < aux.y.k < 1.0
  {
    DivisionValueOnCurve(t, b.p1x, b.p2x);
    DivisionValueOnCurve(t, b.p1y, b.p2y);
    PointInUnitSquare(b, t);
  }

  /** The parameter of the divided curve at parameter s of its left half, which covers
      [0, t]. */
  function LeftParam(t: real, s: real): real {
    t * s
  }

  /** The parameter of the divided curve at parameter s of its right half, which covers
      [t, 1]. */
  function RightParam(t: real, s: real): real {
    t + (1.0 - t) * s
  }

  /** Coefficients of a cubic without constant term. */
  datatype Coeffs = Coeffs(c1: real, c2: real, c3: real)

  /** c1 s + c2 s^2 + c3 s^3 */
  function Cubic(c: Coeffs, s: real): real {
    c.c1 * s + c.c2 * (s * s) + c.c3 * (s * s * s)
  }

  lemma BernsteinAsCubic(s: real, q1: real, q2: real, q3: real)
    ensures Bernstein(s, 0.0, q1, q2, q3)
         == Cubic(Coeffs(3.0 * q1, 3.0 * q2 - 6.0 * q1, 3.0 * q1 - 3.0 * q2 + q3), s)
  {
  }

  /** Bernstein forms are affine: shifting all control values shifts the curve. */
  lemma BernsteinShift(s: real, q0: real, q1: real, q2: real, q3: real)
    ensures Bernstein(s, q0, q1, q2, q3) == q0 + Bernstein(s, 0.0, q1 - q0, q2 - q0, q3 - q0)
  {
  }

  /** Bernstein forms are linear: scaling all control values scales the curve. */
  lemma BernsteinScale(s: real, u1: real, u2: real, m: real)
    ensures m * Bernstein(s, 0.0, u1, u2, 1.0) == Bernstein(s, 0.0, m * u1, m * u2, m)
  {
  }

  /** The power-form coefficients of the curve on [0, t], in the parameter s of t * s. */
  function LeftCoeffs(t: real, p1: real, p2: real): Coeffs {
    var c := 3.0 * p1;
    var b := 3.0 * (p2 - p1) - c;
    Coeffs(c * t, b * (t * t), (1.0 - c - b) * (t * t * t))
  }

  lemma CoordinateOnLeft(t: real, s: real, p1: real, p2: real)
    ensures CoordinateAt(t * s, p1, p2) == Cubic(LeftCoeffs(t, p1, p2), s)
  {
  }

  lemma LeftCoefficients(t: real, p1: real, p2: real)
    ensures var a := SplitAxis(t, p1, p2);
            Coeffs(3.0 * a.i0, 3.0 * a.j0 - 6.0 * a.i0, 3.0 * a.i0 - 3.0 * a.j0 + a.k)
            == LeftCoeffs(t, p1, p2)
  {
  }

  /** The left half, as a Bezier with control values 0, i0, j0, k, runs along the curve
      from 0 to t. */
  lemma {:induction false} LeftHalfFollowsCurve(t: real, s: real, p1: real, p2: real)
    ensures var a := SplitAxis(t, p1, p2);
            Bernstein(s, 0.0, a.i0, a.j0, a.k) == CoordinateAt(LeftParam(t, s), p1, p2)
  {
    var a := SplitAxis(t, p1, p2);
    BernsteinAsCubic(s, a.i0, a.j0, a.k);
    LeftCoefficients(t, p1, p2);
    CoordinateOnLeft(t, s, p1, p2);
  }

  /** The power-form coefficients of the rise of the curve from t to t + (1 - t) s, as a
      cubic in s: the derivative, the half second derivative and the leading coefficient
      at t, scaled to the remaining interval 1 - t. */
  function RightCoeffs(t: real, p1: real, p2: real): Coeffs {
    var c := 3.0 * p1;
    var b := 3.0 * (p2 - p1) - c;
    ShiftCoeffs(1.0 - c - b, b, c, t, 1.0 - t)
  }

  /** ((a x + b) x + c) x */
  function Horner(a: real, b: real, c: real, x: real): real {
    ((a * x + b) * x + c) * x
  }

  /** The coefficients of the rise of ((a x + b) x + c) x from x = t, as a cubic in the
      increment: the derivative, the half second derivative and the leading coefficient. */
  function TaylorCoeffs(a: real, b: real, c: real, t: real): Coeffs {
    Coeffs((3.0 * a * t + 2.0 * b) * t + c, 3.0 * a * t + b, a)
  }

  /** The coefficients of a cubic whose variable is scaled by m. */
  function Scale(k: Coeffs, m: real): Coeffs {
    Coeffs(k.c1 * m, k.c2 * (m * m), k.c3 * (m * m * m))
  }

  /** The coefficients of the rise of ((a x + b) x + c) x from x = t to x = t + m s, as a
      cubic in s. */
  function ShiftCoeffs(a: real, b: real, c: real, t: real, m: real): Coeffs {
    Coeffs(((3.0 * a * t + 2.0 * b) * t + c) * m, (3.0 * a * t + b) * (m * m), a * (m * m * m))
  }

  lemma ShiftCoeffsAreScaledTaylor(a: real, b: real, c: real, t: real, m: real)
    ensures ShiftCoeffs(a, b, c, t, m) == Scale(TaylorCoeffs(a, b, c, t), m)
  {
  }

  /** Taylor's expansion of a cubic without constant term about t. */
  lemma ShiftedCubic(a: real, b: real, c: real, t: real, u: real)
    ensures Horner(a, b, c, t + u) - Horner(a, b, c, t) == Cubic(TaylorCoeffs(a, b, c, t), u)
  {
    var x := t + u;
    assert x * x == t * t + 2.0 * t * u + u * u;
    assert x * x * x == t * t * t + 3.0 * t * t * u + 3.0 * t * u * u + u * u * u;
    assert ((a * x + b) * x + c) * x == a * (x * x * x) + b * (x * x) + c * x;
    assert ((a * t + b) * t + c) * t == a * (t * t * t) + b * (t * t) + c * t;
  }

  /** Scaling the variable of a cubic by m scales its coefficients by powers of m. */
  lemma ScaledCubic(k: Coeffs, m: real, s: real)
    ensures Cubic(Scale(k, m), s) == Cubic(k, m * s)
  {
  }

  /** The point t + m s. */
  function Shifted(t: real, m: real, s: real): real {
    t + m * s
  }

  /** The rise of a cubic from t to t + m s, as a cubic in s. */
  lemma ShiftedHorner(a: real, b: real, c: real, t: real, m: real, s: real)
    ensures Horner(a, b, c, Shifted(t, m, s)) - Horner(a, b, c, t) == Cubic(ShiftCoeffs(a, b, c, t, m), s)
  {
    ShiftCoeffsAreScaledTaylor(a, b, c, t, m);
    ShiftedCubic(a, b, c, t, m * s);
    ScaledCubic(TaylorCoeffs(a, b, c, t), m, s);
    assert Shifted(t, m, s) == t + m * s;
  }

  /** The rise of a cubic from t to the point at s of [t, 1]. */
  lemma RiseOnRight(a: real, b: real, c: real, t: real, s: real)
    ensures Horner(a, b, c, RightParam(t, s)) - Horner(a, b, c, t) == Cubic(ShiftCoeffs(a, b, c, t, 1.0 - t), s)
  {
    ShiftedHorner(a, b, c, t, 1.0 - t, s);
    assert RightParam(t, s) == Shifted(t, 1.0 - t, s);
  }

  lemma CoordinateIsHorner(x: real, p1: real, p2: real)
    ensures var c := 3.0 * p1;
            var b := 3.0 * (p2 - p1) - c;
            CoordinateAt(x, p1, p2) == Horner(1.0 - c - b, b, c, x)
  {
  }

  lemma CoordinateOnRight(t: real, s: real, p1: real, p2: real)
    ensures CoordinateAt(RightParam(t, s), p1, p2) - CoordinateAt(t, p1, p2) == Cubic(RightCoeffs(t, p1, p2), s)
  {
    CoordinateIsHorner(RightParam(t, s), p1, p2);
    CoordinateIsHorner(t, p1, p2);
    RiseOnRight(1.0 - 3.0 * p1 - (3.0 * (p2 - p1) - 3.0 * p1), 3.0 * (p2 - p1) - 3.0 * p1, 3.0 * p1, t, s);
  }

  /** The three coefficient identities of the right half, one polynomial identity each. */
  lemma RightFirstCoefficient(t: real, p1: real, p2: real)
    ensures var a := SplitAxis(t, p1, p2);
            var c := 3.0 * p1;
            var b := 3.0 * (p2 - p1) - c;
            var lead := 1.0 - c - b;
            3.0 * (a.j1 - a.k) == ((3.0 * lead * t + 2.0 * b) * t + c) * (1.0 - t)
  {
  }

  lemma RightSecondCoefficient(t: real, p1: real, p2: real)
    ensures var a := SplitAxis(t, p1, p2);
            var c := 3.0 * p1;
            var b := 3.0 * (p2 - p1) - c;
            var lead := 1.0 - c - b;
            3.0 * (a.i2 - a.k) - 6.0 * (a.j1 - a.k) == (3.0 * lead * t + b) * ((1.0 - t) * (1.0 - t))
  {
  }

  lemma RightThirdCoefficient(t: real, p1: real, p2: real)
    ensures var a := SplitAxis(t, p1, p2);
            var c := 3.0 * p1;
            var b := 3.0 * (p2 - p1) - c;
            var lead := 1.0 - c - b;
            3.0 * (a.j1 - a.k) - 3.0 * (a.i2 - a.k) + (1.0 - a.k) == lead * ((1.0 - t) * (1.0 - t) * (1.0 - t))
  {
  }

  /** The power-form coefficients of the right half, shifted down by k, are those of the
      rise of the curve from t. */
  lemma {:induction false} RightCoefficients(t: real, p1: real, p2: real)
    ensures var a := SplitAxis(t, p1, p2);
            Coeffs(3.0 * (a.j1 - a.k), 3.0 * (a.i2 - a.k) - 6.0 * (a.j1 - a.k),
                   3.0 * (a.j1 - a.k) - 3.0 * (a.i2 - a.k) + (1.0 - a.k))
            == RightCoeffs(t, p1, p2)
  {
    RightFirstCoefficient(t, p1, p2);
    RightSecondCoefficient(t, p1, p2);
    RightThirdCoefficient(t, p1, p2);
  }

  /** Control values k, j1, i2, 1 whose shifted coefficients are those of the rise of the
      curve from t give the curve from t to 1. */
  lemma {:induction false} RightHalfFromCoefficients(a: AxisAux, t: real, s: real, p1: real, p2: real)
    requires a.k == CoordinateAt(t, p1, p2)
    requires Coeffs(3.0 * (a.j1 - a.k), 3.0 * (a.i2 - a.k) - 6.0 * (a.j1 - a.k),
                    3.0 * (a.j1 - a.k) - 3.0 * (a.i2 - a.k) + (1.0 - a.k))
             == RightCoeffs(t, p1, p2)
    ensures Bernstein(s, a.k, a.j1, a.i2, 1.0) == CoordinateAt(RightParam(t, s), p1, p2)
  {
    BernsteinShift(s, a.k, a.j1, a.i2, 1.0);
    BernsteinAsCubic(s, a.j1 - a.k, a.i2 - a.k, 1.0 - a.k);
    CoordinateOnRight(t, s, p1, p2);
  }

  /** The right half, as a Bezier with control values k, j1, i2, 1, runs along the curve
      from t to 1. */
  lemma {:induction false} RightHalfFollowsCurve(t: real, s: real, p1: real, p2: real)
    ensures var a := SplitAxis(t, p1, p2);
            Bernstein(s, a.k, a.j1, a.i2, 1.0) == CoordinateAt(RightParam(t, s), p1, p2)
  {
    RightCoefficients(t, p1, p2);
    DivisionValueOnCurve(t, p1, p2);
    RightHalfFromCoefficients(SplitAxis(t, p1, p2), t, s, p1, p2);
  }

  /** Dividing the left half's control values by k gives a curve from (0,0) to (1,1)
      which, scaled back by k, is the left half. */
  lemma NormalizeLeft(s: real, q1: real, q2: real, k: real, u1: real, u2: real)
    requires k * u1 == q1 && k * u2 == q2
    ensures k * CoordinateAt(s, u1, u2) == Bernstein(s, 0.0, q1, q2, k)
  {
    PowerFormIsBernstein(s, u1, u2);
    BernsteinScale(s, u1, u2, k);
  }

  /** Shifting the right half's control values by k and dividing them by 1 - k gives a
      curve from (0,0) to (1,1) which, scaled back, is the right half. */
  lemma NormalizeRight(s: real, q1: real, q2: real, k: real, u1: real, u2: real)
    requires (1.0 - k) * u1 == q1 - k && (1.0 - k) * u2 == q2 - k
    ensures k + (1.0 - k) * CoordinateAt(s, u1, u2) == Bernstein(s, k, q1, q2, 1.0)
  {
    PowerFormIsBernstein(s, u1, u2);
    BernsteinScale(s, u1, u2, 1.0 - k);
    BernsteinShift(s, k, q1, q2, 1.0);
  }

  lemma {:induction false} LeftHalfAt(a: AxisAux, t: real, s: real, p1: real, p2: real)
    requires a == SplitAxis(t, p1, p2)
    ensures Bernstein(s, 0.0, a.i0, a.j0, a.k) == CoordinateAt(LeftParam(t, s), p1, p2)
  {
    LeftHalfFollowsCurve(t, s, p1, p2);
  }

  lemma {:induction false} RightHalfAt(a: AxisAux, t: real, s: real, p1: real, p2: real)
    requires a == SplitAxis(t, p1, p2)
    ensures Bernstein(s, a.k, a.j1, a.i2, 1.0) == CoordinateAt(RightParam(t, s), p1, p2)
  {
    RightHalfFollowsCurve(t, s, p1, p2);
  }

  lemma {:induction false} LeftAxisFromHalf(a: AxisAux, t: real, s: real, p1: real, p2: real, u1: real, u2: real)
    requires a.k * u1 == a.i0 && a.k * u2 == a.j0
    requires Bernstein(s, 0.0, a.i0, a.j0, a.k) == CoordinateAt(LeftParam(t, s), p1, p2)
    ensures a.k * CoordinateAt(s, u1, u2) == CoordinateAt(LeftParam(t, s), p1, p2)
  {
    NormalizeLeft(s, a.i0, a.j0, a.k, u1, u2);
  }

  lemma {:induction false} RightAxisFromHalf(a: AxisAux, t: real, s: real, p1: real, p2: real, u1: real, u2: real)
    requires (1.0 - a.k) * u1 == a.j1 - a.k && (1.0 - a.k) * u2 == a.i2 - a.k
    requires Bernstein(s, a.k, a.j1, a.i2, 1.0) == CoordinateAt(RightParam(t, s), p1, p2)
    ensures a.k + (1.0 - a.k) * CoordinateAt(s, u1, u2) == CoordinateAt(RightParam(t, s), p1, p2)
  {
    NormalizeRight(s, a.j1, a.i2, a.k, u1, u2);
  }

  /** The left curve of `divideAtT` on one axis has control values u1 and u2 with
      k u1 = i0 and k u2 = j0; scaled by k it is the curve on [0, t]. */
  lemma {:induction false} LeftAxisFollowsCurve(a: AxisAux, t: real, s: real, p1: real, p2: real, u1: real, u2: real)
    requires a == SplitAxis(t, p1, p2)
    requires a.k * u1 == a.i0 && a.k * u2 == a.j0
    ensures a.k * CoordinateAt(s, u1, u2) == CoordinateAt(LeftParam(t, s), p1, p2)
  {
    LeftHalfAt(a, t, s, p1, p2);
    LeftAxisFromHalf(a, t, s, p1, p2, u1, u2);
  }

  /** The right curve of `divideAtT` on one axis has control values u1 and u2 with
      (1 - k) u1 = j1 - k and (1 - k) u2 = i2 - k; scaled by 1 - k and shifted by k it is
      the curve on [t, 1]. */
  lemma {:induction false} RightAxisFollowsCurve(a: AxisAux, t: real, s: real, p1: real, p2: real, u1: real, u2: real)
    requires a == SplitAxis(t, p1, p2)
    requires (1.0 - a.k) * u1 == a.j1 - a.k && (1.0 - a.k) * u2 == a.i2 - a.k
    ensures a.k + (1.0 - a.k) * CoordinateAt(s, u1, u2) == CoordinateAt(RightParam(t, s), p1, p2)
  {
    RightHalfAt(a, t, s, p1, p2);
    RightAxisFromHalf(a, t, s, p1, p2, u1, u2);
  }

  /** The division point of both axes lies strictly inside (0,1). */
  predicate Inside(aux: Aux) {
    0.0 < aux.x.k < 1.0 && 0.0 < aux.y.k < 1.0
  }

  /** The control values of the left curve: i0 and j0 divided by k, axis by axis. */
  function LeftControls(aux: Aux): CubicBezier
    requires Inside(aux)
  {
    CubicBezier(aux.x.i0 / aux.x.k, aux.y.i0 / aux.y.k, aux.x.j0 / aux.x.k, aux.y.j0 / aux.y.k)
  }

  /** The control values of the right curve: j1 and i2 shifted by k and divided by 1 - k. */
  function RightControls(aux: Aux): CubicBezier
    requires Inside(aux)
  {
    CubicBezier((aux.x.j1 - aux.x.k) / (1.0 - aux.x.k), (aux.y.j1 - aux.y.k) / (1.0 - aux.y.k),
                (aux.x.i2 - aux.x.k) / (1.0 - aux.x.k), (aux.y.i2 - aux.y.k) / (1.0 - aux.y.k))
  }

  /** `divideAtT`. A t below 0 or above 1 raises a RangeError; 0 gives the linear curve
      and a clone, 1 a clone and the linear curve; any other t, NaN included, goes through
      `_getAuxPoints`, and the two normalised curves are built with the constructor, which
      raises a RangeError when a normalised control value leaves [0,1]. */
  function Division(b: CubicBezier, t: Num): (r: Result<seq<CubicBezier>>)
    requires b.Valid()
    ensures r.Ok? ==> |r.value| == 2 && r.value[0].Valid() && r.value[1].Valid()
    ensures !InUnit(t) ==> r == Err(RangeError(T))
    ensures t == Fin(0.0) ==> r == Ok([Linear().value, b])
    ensures t == Fin(1.0) ==> r == Ok([b, Linear().value])
    ensures t.Fin? && 0.0 < t.v < 1.0 ==>
              var aux := AuxPoints(b, t).value;
              Inside(aux)
              && (r.Ok? <==> LeftControls(aux).Valid() && RightControls(aux).Valid())
              && (r.Ok? ==> r.value == [LeftControls(aux), RightControls(aux)])
  {
    if Lt(t, 0.0) || Gt(t, 1.0) then Err(RangeError(T))
    else if t == Fin(0.0) then Ok([Linear().value, Clone(b).value])
    else if t == Fin(1.0) then Ok([Clone(b).value, Linear().value])
    else
      var aux :- AuxPoints(b, t);
      DivisionPointInside(b, t.v);
      var l := LeftControls(aux);
      var r := RightControls(aux);
      var left :- Create(Fin(l.p1x), Fin(l.p1y), Fin(l.p2x), Fin(l.p2y));
      var right :- Create(Fin(r.p1x), Fin(r.p1y), Fin(r.p2x), Fin(r.p2y));
      Ok([left, right])
  }

  /** Dividing by k and multiplying back cancels, for the normalised control values. */
  lemma NormalizedLeftValues(a: AxisAux, l1: real, l2: real)
    requires a.k != 0.0 && l1 == a.i0 / a.k && l2 == a.j0 / a.k
    ensures a.k * l1 == a.i0 && a.k * l2 == a.j0
  {
  }

  lemma NormalizedRightValues(a: AxisAux, r1: real, r2: real)
    requires a.k != 1.0 && r1 == (a.j1 - a.k) / (1.0 - a.k) && r2 == (a.i2 - a.k) / (1.0 - a.k)
    ensures (1.0 - a.k) * r1 == a.j1 - a.k && (1.0 - a.k) * r2 == a.i2 - a.k
  {
  }

  /** On one axis, the left curve of a division at t, with control values q1 and q2, scaled
      by the division point k, retraces the divided curve (control values p1 and p2) on [0, t]. */
  predicate LeftFollows(k: real, q1: real, q2: real, t: real, s: real, p1: real, p2: real) {
    k * CoordinateAt(s, q1, q2) == CoordinateAt(LeftParam(t, s), p1, p2)
  }

  /** On one axis, the right curve, scaled by 1 - k and shifted by k, retraces the divided
      curve on [t, 1]. */
  predicate RightFollows(k: real, q1: real, q2: real, t: real, s: real, p1: real, p2: real) {
    k + (1.0 - k) * CoordinateAt(s, q1, q2) == CoordinateAt(RightParam(t, s), p1, p2)
  }

  /** Both curves of `divideAtT` on one axis follow the divided curve. */
  lemma {:induction false} AxisHalvesFollowCurve(a: AxisAux, t: real, s: real, p1: real, p2: real,
                                                 l1: real, l2: real, r1: real, r2: real)
    requires a == SplitAxis(t, p1, p2) && 0.0 < a.k < 1.0
    requires l1 == a.i0 / a.k && l2 == a.j0 / a.k
    requires r1 == (a.j1 - a.k) / (1.0 - a.k) && r2 == (a.i2 - a.k) / (1.0 - a.k)
    ensures LeftFollows(a.k, l1, l2, t, s, p1, p2)
    ensures RightFollows(a.k, r1, r2, t, s, p1, p2)
  {
    NormalizedLeftValues(a, l1, l2);
    NormalizedRightValues(a, r1, r2);
    LeftAxisFollowsCurve(a, t, s, p1, p2, l1, l2);
    RightAxisFollowsCurve(a, t, s, p1, p2, r1, r2);
  }

  /** Both axes of both curves built from the aux points follow the divided curve. */
  lemma {:induction false} ControlsFollowCurve(b: CubicBezier, aux: Aux, t: real, s: real, l: CubicBezier, r: CubicBezier)
    requires aux.x == SplitAxis(t, b.p1x, b.p2x) && aux.y == SplitAxis(t, b.p1y, b.p2y) && Inside(aux)
    requires l == LeftControls(aux) && r == RightControls(aux)
    ensures LeftFollows(aux.x.k, l.p1x, l.p2x, t, s, b.p1x, b.p2x)
    ensures LeftFollows(aux.y.k, l.p1y, l.p2y, t, s, b.p1y, b.p2y)
    ensures RightFollows(aux.x.k, r.p1x, r.p2x, t, s, b.p1x, b.p2x)
    ensures RightFollows(aux.y.k, r.p1y, r.p2y, t, s, b.p1y, b.p2y)
  {
    AxisHalvesFollowCurve(aux.x, t, s, b.p1x, b.p2x, l.p1x, l.p2x, r.p1x, r.p2x);
    AxisHalvesFollowCurve(aux.y, t, s, b.p1y, b.p2y, l.p1y, l.p2y, r.p1y, r.p2y);
  }

  /** What `divideAtT` promises: for an inner t whose division succeeds, the left curve
      scaled by the point k = getPointForT(t) is the curve on [0, t], and the right curve
      scaled by 1 - k and shifted by k is the curve on [t, 1], on both axes. */
  lemma {:induction false} DivisionFollowsCurve(b: CubicBezier, t: real, s: real)
    requires b.Valid() && 0.0 < t < 1.0 && Division(b, Fin(t)).Ok?
    ensures var k := GetPointForT(b, Fin(t)).value;
            var l := Division(b, Fin(t)).value[0];
            var r := Division(b, Fin(t)).value[1];
            LeftFollows(k.x, l.p1x, l.p2x, t, s, b.p1x, b.p2x)
            && LeftFollows(k.y, l.p1y, l.p2y, t, s, b.p1y, b.p2y)
            && RightFollows(k.x, r.p1x, r.p2x, t, s, b.p1x, b.p2x)
            && RightFollows(k.y, r.p1y, r.p2y, t, s, b.p1y, b.p2y)
  {
    DivisionPointInside(b, t);
    var aux := AuxPoints(b, Fin(t)).value;
    ControlsFollowCurve(b, aux, t, s, LeftControls(aux), RightControls(aux));
  }

  /** An inner t does not always divide a curve object: for the curve (1, 0, 0, 1) at
      t = 9/10 the normalised first control value of the left curve is 0.9 / 0.756 > 1,
      and the constructor raises a RangeError for it. */
  lemma DivisionMayReject()
    ensures Division(CubicBezier(1.0, 0.0, 0.0, 1.0), Fin(0.9)) == Err(RangeError(P1x))
  {
    var aux := AuxPoints(CubicBezier(1.0, 0.0, 0.0, 1.0), Fin(0.9)).value;
    assert aux.x.i0 == 0.9 && aux.x.k == 0.756;
  }

  /** `divideAtT`, filling the two-slot array as the source does: at t = 0 and t = 1 the
      linear curve goes to slot t and the clone to slot 1 - t. */
  method DivideAtT(b: CubicBezier, t: Num) returns (r: Result<seq<CubicBezier>>)
    requires b.Valid()
    ensures r == Division(b, t)
  {
    if Lt(t, 0.0) || Gt(t, 1.0) {
      return Err(RangeError(T));
    }
    if t == Fin(0.0) || t == Fin(1.0) {
      var slot := if t == Fin(0.0) then 0 else 1;
      var curves := new CubicBezier[2];
      curves[slot] := Linear().value;
      curves[1 - slot] := Clone(b).value;
      assert curves[..] == [curves[0], curves[1]];
      return Ok(curves[..]);
    }
    var aux :- AuxPoints(b, t);
    DivisionPointInside(b, t.v);
    var l := LeftControls(aux);
    var rc := RightControls(aux);
    var left :- Create(Fin(l.p1x), Fin(l.p1y), Fin(l.p2x), Fin(l.p2y));
    var right :- Create(Fin(rc.p1x), Fin(rc.p1y), Fin(rc.p2x), Fin(rc.p2y));
    return Ok([left, right]);
  }

  /** `divideAtX` and `divideAtY` on the axis with control values p1 and p2: a target c
      below 0 or above 1 raises a RangeError naming the axis; otherwise the curve is
      divided at the parameter `_getTForCoordinate` finds for c. A NaN target passes the
      guard, and the solver then returns NaN (every comparison fails), so after the
      tolerance check `divideAtT` rejects it. For a target in [0,1] and a good tolerance
      the result is `divideAtT` at the solver's parameter, its RangeErrors included. */
  function DivisionAtCoordinate(b: CubicBezier, c: Num, p1: real, p2: real, epsilon: Num, axis: Param)
    : (r: Result<seq<CubicBezier>>)
    requires b.Valid()
    ensures Lt(c, 0.0) || Gt(c, 1.0) ==> r == Err(RangeError(axis))
    ensures InUnit(c) || c.NaN? ==> (r.Err? && r.error == RangeError(Epsilon) <==> !(epsilon.Fin? && epsilon.v > 0.0))
    ensures c.NaN? && epsilon.Fin? && epsilon.v > 0.0 ==> r == Err(RangeError(T))
    ensures InUnit(c) && epsilon.Fin? && epsilon.v > 0.0 ==>
              r == Division(b, Fin(TForCoordinate(c.v, p1, p2, epsilon).value))
    ensures InUnit(c) && r.Ok? ==> 0.0 <= TForCoordinate(c.v, p1, p2, epsilon).value <= 1.0
  {
    if Lt(c, 0.0) || Gt(c, 1.0) then Err(RangeError(axis))
    else if c.NaN? then
      var _ :- (if !IsFinite(epsilon) || Le(epsilon, 0.0) then Err(RangeError(Epsilon)) else Ok(0.0));
      Division(b, NaN)
    else
      var t :- TForCoordinate(c.v, p1, p2, epsilon);
      Division(b, Fin(t))
  }

  /** `divideAtX` */
  method DivideAtX(b: CubicBezier, x: Num, epsilon: Num) returns (r: Result<seq<CubicBezier>>)
    requires b.Valid()
    ensures r == DivisionAtCoordinate(b, x, b.p1x, b.p2x, epsilon, X)
  {
    if Lt(x, 0.0) || Gt(x, 1.0) {
      return Err(RangeError(X));
    }
    if x.NaN? {
      if !IsFinite(epsilon) || Le(epsilon, 0.0) {
        return Err(RangeError(Epsilon));
      }
      r := DivideAtT(b, NaN);
      return;
    }
    var t :- GetTForX(b, x.v, epsilon);
    r := DivideAtT(b, Fin(t));
  }

  /** `divideAtY` */
  method DivideAtY(b: CubicBezier, y: Num, epsilon: Num) returns (r: Result<seq<CubicBezier>>)
    requires b.Valid()
    ensures r == DivisionAtCoordinate(b, y, b.p1y, b.p2y, epsilon, Y)
  {
    if Lt(y, 0.0) || Gt(y, 1.0) {
      return Err(RangeError(Y));
    }
    if y.NaN? {
      if !IsFinite(epsilon) || Le(epsilon, 0.0) {
        return Err(RangeError(Epsilon));
      }
      r := DivideAtT(b, NaN);
      return;
    }
    var t :- GetTForY(b, y.v, epsilon);
    r := DivideAtT(b, Fin(t));
  }

  /** A successful `divideAtX` splits the curve where its x coordinate is within the
      tolerance of the target, unless the bisection gave up with the target bracketed. */
  lemma DivisionNearCoordinate(b: CubicBezier, x: real, epsilon: Num)
    requires b.Valid() && 0.0 <= x <= 1.0 && DivisionAtCoordinate(b, Fin(x), b.p1x, b.p2x, epsilon, X).Ok?
    ensures var t := TForCoordinate(x, b.p1x, b.p2x, epsilon).value;
            var k := GetPointForT(b, Fin(t)).value;
            Abs(k.x - x) < epsilon.v || BisectionExhausted(x, b.p1x, b.p2x, t)
  {
    var t := TForCoordinate(x, b.p1x, b.p2x, epsilon).value;
    PowerFormIsBernstein(t, b.p1x, b.p2x);
  }
}
