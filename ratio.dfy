/**
 * The floating-point audit ratios, idealised as exact extended rationals.
 * Division follows IEEE 754 in its special cases (0/0 is NaN, x/0 is an
 * infinity with the sign of x) and is exact otherwise; comparison follows
 * Go's `>` on floats, so NaN is greater than nothing and nothing is greater
 * than NaN.
 */
module Ratio {

  datatype Real = NaN | PosInf | NegInf | Frac(num: int, den: int)

  /** A fraction always has a positive denominator. */
  predicate Valid(x: Real) {
    x.Frac? ==> x.den > 0
  }

  /** `float(n) / float(d)`, without rounding. */
  function Quotient(n: int, d: int): (q: Real)
    ensures Valid(q)
    ensures q == NaN <==> n == 0 && d == 0
    ensures q.Frac? <==> d != 0
    ensures q.Frac? ==> q.num * d == n * q.den
    ensures q == PosInf <==> d == 0 && n > 0
  {
    if d == 0 then (if n == 0 then NaN else if n > 0 then PosInf else NegInf)
    else if d > 0 then Frac(n, d)
    else Frac(-n, -d)
  }

  /** Go's `x > y` on floats. */
  predicate Greater(x: Real, y: Real) {
    match (x, y)
    case (NaN, _) => false
    case (_, NaN) => false
    case (PosInf, _) => !y.PosInf?
    case (NegInf, _) => false
    case (Frac(a, b), PosInf) => false
    case (Frac(a, b), NegInf) => true
    case (Frac(a, b), Frac(c, d)) => a * d > c * b
  }

  /** No value is greater than itself, and `Greater` never holds both ways. */
  lemma GreaterAsymmetric(x: Real, y: Real)
    requires Valid(x) && Valid(y)
    ensures !(Greater(x, y) && Greater(y, x))
  {
  }

  /** NaN is incomparable: a comparison with it is false both ways. */
  lemma NaNIncomparable(x: Real)
    ensures !Greater(x, NaN) && !Greater(NaN, x)
  {
  }
}
