/**
 * Go's 64-bit signed integers (`int64`, and `int` on 64-bit platforms).
 * Dafny's `int` is unbounded, so the two's-complement wrap-around of Go's
 * `+` and `-` on two such values is written out in `Wrap`.
 */
module Int64 {

  const MIN: int := -0x8000_0000_0000_0000
  const MAX: int := 0x7FFF_FFFF_FFFF_FFFF
  const MODULUS: int := 0x1_0000_0000_0000_0000

  type I64 = x: int | MIN <= x <= MAX

  /**
   * The value Go's 64-bit arithmetic yields when the mathematical sum or
   * difference of two 64-bit values is `x`: `x` itself when it fits, and
   * otherwise `x` shifted by 2^64 back into range.
   */
  function Wrap(x: int): (r: I64)
    requires -MODULUS <= x < MODULUS
    ensures r == x || r == x - MODULUS || r == x + MODULUS
    ensures MIN <= x <= MAX ==> r == x
  {
    if x > MAX then x - MODULUS else if x < MIN then x + MODULUS else x
  }
}
