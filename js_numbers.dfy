/**
 * JavaScript numbers at the points where the source guards against NaN and
 * Infinity. Every other quantity of the model is an exact `real`.
 */
module JsNumbers {

  datatype Num = Fin(v: real) | NaN | Inf(negative: bool)

  /** `n >= r` as JavaScript evaluates it: false whenever `n` is NaN. */
  predicate Ge(n: Num, r: real) {
    match n
    case Fin(v) => v >= r
    case NaN => false
    case Inf(negative) => !negative
  }

  /** `n <= r` */
  predicate Le(n: Num, r: real) {
    match n
    case Fin(v) => v <= r
    case NaN => false
    case Inf(negative) => negative
  }

  /** `n > r` */
  predicate Gt(n: Num, r: real) {
    match n
    case Fin(v) => v > r
    case NaN => false
    case Inf(negative) => !negative
  }

  /** `n < r` */
  predicate Lt(n: Num, r: real) {
    match n
    case Fin(v) => v < r
    case NaN => false
    case Inf(negative) => negative
  }

  /** `isFinite(n)` */
  predicate IsFinite(n: Num) {
    n.Fin?
  }

  /** A finite number in the closed unit interval. */
  predicate InUnit(n: Num) {
    n.Fin? && 0.0 <= n.v <= 1.0
  }

  /** The guard `p >= 0 && p <= 1` holds exactly of the finite numbers in [0,1]:
      NaN fails both comparisons and each infinity fails one of them. */
  lemma UnitGuardExact(n: Num)
    ensures (Ge(n, 0.0) && Le(n, 1.0)) <==> InUnit(n)
  {
  }

  /** The guard `t > 0 && t < 1` holds exactly of the finite numbers strictly inside (0,1). */
  lemma OpenUnitGuardExact(n: Num)
    ensures (Gt(n, 0.0) && Lt(n, 1.0)) <==> (n.Fin? && 0.0 < n.v < 1.0)
  {
  }
}
