/**
 * `_getTForCoordinate` and its public faces `getTforX` / `getTforY`: invert one
 * axis of a curve. Newton's method runs first for at most eight steps from t = c;
 * when it does not reach the tolerance it falls back to bisection on [0,1].
 */
module BezierSolve {
  import opened Wrappers
  import opened JsNumbers
  import opened Bezier

  /** The Newton phase makes at most this many steps. */
  const NewtonIterations: nat := 8

  /** Newton gives up when the derivative is smaller than this in magnitude (1e-6). */
  const DerivativeThreshold: real := 0.000001

  /** The bound on bisection steps. In double precision, for a finite target c in
      [0,1] whose computed bracket holds (x(t0) < c < x(t1) as the doubles come out), the
      source's loop leaves only through the tolerance test: once t0 and t1 are adjacent
      doubles the midpoint rounds to one of them, and the branch taken assigns that same
      value back, so `t0 < t1` stays true. For a tolerance below the smallest residual
      doubles can reach, the source then loops forever. Its closing `return t2` is
      reached only outside that case: a NaN target sends t1 to NaN on the first pass and
      returns NaN, and a computed x(1) below the target lets t0 reach 1. On exact reals
      the bracket never closes; the model stops after 1075 halvings, more than a double
      bracket of [0,1] admits, and returns the last estimate, which stands for that
      non-termination. */
  const BisectionSteps: nat := 1075

  function Abs(x: real): real {
    if x < 0.0 then -x else x
  }

  /** The width `w` halved `n` times. */
  function Halved(w: real, n: nat): real
    decreases n
  {
    if n == 0 then w else Halved(w * 0.5, n - 1)
  }

  lemma {:induction false} HalvedZero(n: nat)
    ensures Halved(0.0, n) == 0.0
  {
    if n > 0 {
      HalvedZero(n - 1);
    }
  }

  /** The Newton phase from iteration `i` at the estimate `t`: `Some` of the estimate
      whose residual is below `eps`, or `None` when the steps run out or the curve is
      flat at the estimate. */
  function NewtonFrom(c: real, p1: real, p2: real, eps: real, t: real, i: nat): Option<real>
    requires i <= NewtonIterations
    decreases NewtonIterations - i
  {
    if i == NewtonIterations then None
    else
      var residual := CoordinateAt(t, p1, p2) - c;
      if Abs(residual) < eps then Some(t)
      else
        var d := DerivativeAt(t, p1, p2);
        if Abs(d) < DerivativeThreshold then None
        else NewtonFrom(c, p1, p2, eps, t - residual / d, i + 1)
  }

  /** Newton returns early only with an estimate whose residual is below the tolerance. */
  lemma {:induction false} NewtonSound(c: real, p1: real, p2: real, eps: real, t: real, i: nat)
    requires i <= NewtonIterations
    requires NewtonFrom(c, p1, p2, eps, t, i).Some?
    ensures Abs(CoordinateAt(NewtonFrom(c, p1, p2, eps, t, i).value, p1, p2) - c) < eps
    decreases NewtonIterations - i
  {
    var residual := CoordinateAt(t, p1, p2) - c;
    if Abs(residual) >= eps {
      var d := DerivativeAt(t, p1, p2);
      NewtonSound(c, p1, p2, eps, t - residual / d, i + 1);
    }
  }

  /** The bisection loop with `fuel` steps left, bracket [t0, t1] and estimate `t2`. */
  function BisectFrom(c: real, p1: real, p2: real, eps: real, t0: real, t1: real, t2: real, fuel: nat): real
    decreases fuel
  {
    if fuel == 0 || !(t0 < t1) then t2
    else
      var v := CoordinateAt(t2, p1, p2);
      if Abs(v - c) < eps then t2
      else if c > v then BisectFrom(c, p1, p2, eps, t2, t1, (t1 - t2) * 0.5 + t2, fuel - 1)
      else BisectFrom(c, p1, p2, eps, t0, t2, (t2 - t0) * 0.5 + t0, fuel - 1)
  }

  /** [lo, hi] brackets the target `c` on the axis and contains the estimate `t`. */
  ghost predicate Brackets(c: real, p1: real, p2: real, lo: real, hi: real, t: real) {
    0.0 <= lo <= t <= hi <= 1.0
    && CoordinateAt(lo, p1, p2) <= c <= CoordinateAt(hi, p1, p2)
  }

  /** One bisection step keeps the bracket: 0 <= t0 <= t2 <= t1 <= 1 and x(t0) <= c <= x(t1). */
  lemma BisectStep(c: real, p1: real, p2: real, t0: real, t1: real, t2: real)
    requires Brackets(c, p1, p2, t0, t1, t2)
    ensures var v := CoordinateAt(t2, p1, p2);
            var n0 := if c > v then t2 else t0;
            var n1 := if c > v then t1 else t2;
            Brackets(c, p1, p2, n0, n1, (n1 - n0) * 0.5 + n0)
  {
  }

  /** From a midpoint estimate, bisection keeps 0 <= t0 <= t2 <= t1 <= 1 with
      x(t0) <= c <= x(t1) and halves the bracket at every step: its result is within the
      tolerance, or lies in a bracket of the target whose width is the initial width
      divided by 2^fuel. */
  lemma {:induction false} BisectSound(c: real, p1: real, p2: real, eps: real,
                                       t0: real, t1: real, fuel: nat)
    requires Brackets(c, p1, p2, t0, t1, (t1 - t0) * 0.5 + t0)
    ensures var r := BisectFrom(c, p1, p2, eps, t0, t1, (t1 - t0) * 0.5 + t0, fuel);
            Abs(CoordinateAt(r, p1, p2) - c) < eps
            || exists lo, hi :: Brackets(c, p1, p2, lo, hi, r) && hi - lo == Halved(t1 - t0, fuel)
    decreases fuel
  {
    var t2 := (t1 - t0) * 0.5 + t0;
    var r := BisectFrom(c, p1, p2, eps, t0, t1, t2, fuel);
    if fuel == 0 || !(t0 < t1) {
      assert Brackets(c, p1, p2, t0, t1, r) && t1 - t0 == Halved(t1 - t0, fuel) by {
        if fuel != 0 {
          HalvedZero(fuel);
        }
      }
    } else {
      var v := CoordinateAt(t2, p1, p2);
      if Abs(v - c) >= eps {
        var n0 := if c > v then t2 else t0;
        var n1 := if c > v then t1 else t2;
        BisectStep(c, p1, p2, t0, t1, t2);
        assert r == BisectFrom(c, p1, p2, eps, n0, n1, (n1 - n0) * 0.5 + n0, fuel - 1);
        BisectSound(c, p1, p2, eps, n0, n1, fuel - 1);
        if Abs(CoordinateAt(r, p1, p2) - c) >= eps {
          assert n1 - n0 == (t1 - t0) * 0.5;
        }
      }
    }
  }

  lemma {:induction false} HalvedMonotonic(w: real, w': real, n: nat)
    decreases n
    requires w <= w'
    ensures Halved(w, n) <= Halved(w', n)
  {
    if n > 0 {
      HalvedMonotonic(w * 0.5, w' * 0.5, n - 1);
    }
  }

  /** Bisection stopped by the step bound (where the source keeps looping): the
      estimate lies in a bracket of the target whose width is at most
      1 / 2^(BisectionSteps - 1). */
  ghost predicate BisectionExhausted(c: real, p1: real, p2: real, t: real) {
    exists lo, hi :: Brackets(c, p1, p2, lo, hi, t) && hi - lo <= Halved(1.0, BisectionSteps - 1)
  }

  /** Bisection's outcome: within the tolerance, or exhausted. */
  ghost predicate Settled(c: real, p1: real, p2: real, eps: real, t: real) {
    Abs(CoordinateAt(t, p1, p2) - c) < eps || BisectionExhausted(c, p1, p2, t)
  }

  /** Bisection from a bracket no wider than [0,1] ends within the tolerance or
      exhausted. */
  lemma BisectWithinUnit(c: real, p1: real, p2: real, eps: real, t0: real, t1: real)
    requires Brackets(c, p1, p2, t0, t1, (t1 - t0) * 0.5 + t0) && t1 - t0 <= 1.0
    ensures Settled(c, p1, p2, eps, BisectFrom(c, p1, p2, eps, t0, t1, (t1 - t0) * 0.5 + t0, BisectionSteps - 1))
  {
    var r := BisectFrom(c, p1, p2, eps, t0, t1, (t1 - t0) * 0.5 + t0, BisectionSteps - 1);
    BisectSound(c, p1, p2, eps, t0, t1, BisectionSteps - 1);
    if Abs(CoordinateAt(r, p1, p2) - c) >= eps {
      var lo, hi :| Brackets(c, p1, p2, lo, hi, r) && hi - lo == Halved(t1 - t0, BisectionSteps - 1);
      HalvedMonotonic(t1 - t0, 1.0, BisectionSteps - 1);
    }
  }

  /** `_getTForCoordinate(c, p1, p2, epsilon)`. A non-finite or non-positive tolerance
      raises a RangeError. Otherwise the result is Newton's estimate, whose residual is
      below the tolerance (and which may lie outside [0,1]); failing that 0 for a target
      below 0, 1 for a target above 1, and for a target in [0,1] a bisection estimate in
      [0,1] that is within the tolerance or bracketed to 1 / 2^(BisectionSteps - 1). */
  function TForCoordinate(c: real, p1: real, p2: real, epsilon: Num): (r: Result<real>)
    ensures r.Err? <==> !(epsilon.Fin? && epsilon.v > 0.0)
    ensures r.Err? ==> r.error == RangeError(Epsilon)
    ensures r.Ok? ==>
              Abs(CoordinateAt(r.value, p1, p2) - c) < epsilon.v
              || (c < 0.0 && r.value == 0.0)
              || (c > 1.0 && r.value == 1.0)
              || (0.0 <= c <= 1.0 && BisectionExhausted(c, p1, p2, r.value))
  {
    if !IsFinite(epsilon) || Le(epsilon, 0.0) then Err(RangeError(Epsilon))
    else
      var eps := epsilon.v;
      match NewtonFrom(c, p1, p2, eps, c, 0)
      case Some(t) =>
        NewtonSound(c, p1, p2, eps, c, 0);
        Ok(t)
      case None =>
        if c < 0.0 then Ok(0.0)
        else if c > 1.0 then Ok(1.0)
        else
          // Bisection starts from the bracket [0,1] with the estimate c: its first step
          // leaves a bracket of width at most 1 around a midpoint estimate.
          var t := BisectFrom(c, p1, p2, eps, 0.0, 1.0, c, BisectionSteps);
          assert Settled(c, p1, p2, eps, t) by {
            CoordinateEnds(p1, p2);
            var v := CoordinateAt(c, p1, p2);
            if Abs(v - c) >= eps {
              BisectStep(c, p1, p2, 0.0, 1.0, c);
              if c > v {
                assert t == BisectFrom(c, p1, p2, eps, c, 1.0, (1.0 - c) * 0.5 + c, BisectionSteps - 1);
                BisectWithinUnit(c, p1, p2, eps, c, 1.0);
              } else {
                assert t == BisectFrom(c, p1, p2, eps, 0.0, c, (c - 0.0) * 0.5 + 0.0, BisectionSteps - 1);
                BisectWithinUnit(c, p1, p2, eps, 0.0, c);
              }
            }
          }
          Ok(t)
  }

  /** `_getTForCoordinate`: the tolerance check, then the Newton phase, then the two
      out-of-range answers, then the bisection phase. */
  method GetTForCoordinate(c: real, p1: real, p2: real, epsilon: Num) returns (r: Result<real>)
    ensures r == TForCoordinate(c, p1, p2, epsilon)
  {
    if !IsFinite(epsilon) || Le(epsilon, 0.0) {
      return Err(RangeError(Epsilon));
    }
    var eps := epsilon.v;
    var newton := NewtonPhase(c, p1, p2, eps);
    if newton.Some? {
      return Ok(newton.value);
    }
    // Bisection on [t0, t1] = [0, 1], starting again from t2 = c.
    if c < 0.0 {
      return Ok(0.0);
    }
    if c > 1.0 {
      return Ok(1.0);
    }
    var t := BisectionPhase(c, p1, p2, eps);
    return Ok(t);
  }

  /** The Newton loop: at most `NewtonIterations` steps from t2 = c, leaving early with
      an estimate within the tolerance, or giving up on a flat curve. */
  method NewtonPhase(c: real, p1: real, p2: real, eps: real) returns (r: Option<real>)
    ensures r == NewtonFrom(c, p1, p2, eps, c, 0)
  {
    var t2 := c;
    var i := 0;
    while i < NewtonIterations
      invariant 0 <= i <= NewtonIterations
      invariant NewtonFrom(c, p1, p2, eps, c, 0) == NewtonFrom(c, p1, p2, eps, t2, i)
    {
      var c2 := CoordinateAt(t2, p1, p2) - c;
      if Abs(c2) < eps {
        return Some(t2);
      }
      var d2 := DerivativeAt(t2, p1, p2);
      if Abs(d2) < DerivativeThreshold {
        break;
      }
      t2 := t2 - c2 / d2;
      i := i + 1;
    }
    return None;
  }

  /** The bisection loop from the bracket [0, 1] and the estimate c, for at most
      `BisectionSteps` halvings; past the bound, where the source would keep looping, the
      last estimate is the answer. */
  method BisectionPhase(c: real, p1: real, p2: real, eps: real) returns (t: real)
    ensures t == BisectFrom(c, p1, p2, eps, 0.0, 1.0, c, BisectionSteps)
  {
    var t0, t1, t2 := 0.0, 1.0, c;
    var n := 0;
    while t0 < t1 && n < BisectionSteps
      invariant 0 <= n <= BisectionSteps
      invariant BisectFrom(c, p1, p2, eps, 0.0, 1.0, c, BisectionSteps)
             == BisectFrom(c, p1, p2, eps, t0, t1, t2, BisectionSteps - n)
      decreases BisectionSteps - n
    {
      var c2 := CoordinateAt(t2, p1, p2);
      if Abs(c2 - c) < eps {
        return t2;
      }
      if c > c2 {
        t0 := t2;
      } else {
        t1 := t2;
      }
      t2 := (t1 - t0) * 0.5 + t0;
      n := n + 1;
    }
    return t2;
  }

  /** `getTforX`: inverts the x axis. */
  method GetTForX(b: CubicBezier, x: real, epsilon: Num) returns (r: Result<real>)
    ensures r == TForCoordinate(x, b.p1x, b.p2x, epsilon)
  {
    r := GetTForCoordinate(x, b.p1x, b.p2x, epsilon);
  }

  /** `getTforY`: inverts the y axis. */
  method GetTForY(b: CubicBezier, y: real, epsilon: Num) returns (r: Result<real>)
    ensures r == TForCoordinate(y, b.p1y, b.p2y, epsilon)
  {
    r := GetTForCoordinate(y, b.p1y, b.p2y, epsilon);
  }

  /** Newton's estimate is not clamped to [0,1]: on the curve whose x axis is x(t) = t,
      the target -1/2 is returned as it is. */
  lemma NewtonMayLeaveUnit()
    ensures TForCoordinate(-0.5, 1.0 / 3.0, 2.0 / 3.0, Fin(0.001)) == Ok(-0.5)
  {
    assert CoordinateAt(-0.5, 1.0 / 3.0, 2.0 / 3.0) == -0.5;
  }
}
