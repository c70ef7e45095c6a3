/** C#'s 32-bit `int` and its unchecked (wrapping) arithmetic. */
module Primitives {

  newtype Int32 = x: int | -0x8000_0000 <= x < 0x8000_0000

  predicate InInt32Range(x: int) {
    -0x8000_0000 <= x < 0x8000_0000
  }

  /** The two's-complement wrap-around that an unchecked C# `int` operation applies to its exact result. */
  function Wrap(x: int): (r: Int32)
    ensures InInt32Range(x) ==> r as int == x
    ensures (x - r as int) % 0x1_0000_0000 == 0
  {
    var shifted := x + 0x8000_0000;
    assert shifted == 0x1_0000_0000 * (shifted / 0x1_0000_0000) + shifted % 0x1_0000_0000;
    (shifted % 0x1_0000_0000 - 0x8000_0000) as Int32
  }

  /** `a - b` in an unchecked C# context. */
  function Sub(a: Int32, b: Int32): Int32 {
    Wrap(a as int - b as int)
  }

  /** `a * b` in an unchecked C# context. */
  function Mul(a: Int32, b: Int32): Int32 {
    Wrap(a as int * b as int)
  }

  /** Wrapping depends only on the value modulo 2^32. */
  lemma WrapPeriodic(x: int, n: int)
    ensures Wrap(x + 0x1_0000_0000 * n) == Wrap(x)
  {
    var s := x + 0x8000_0000;
    var q, m := s / 0x1_0000_0000, s % 0x1_0000_0000;
    assert s == 0x1_0000_0000 * q + m && 0 <= m < 0x1_0000_0000;
    assert s + 0x1_0000_0000 * n == 0x1_0000_0000 * (q + n) + m;
    LinearMod(s + 0x1_0000_0000 * n, q + n, m);
  }

  /** Euclidean division by 2^32 is unique: a quotient and an in-range remainder determine the remainder. */
  lemma LinearMod(t: int, q: int, m: int)
    requires t == 0x1_0000_0000 * q + m && 0 <= m < 0x1_0000_0000
    ensures t % 0x1_0000_0000 == m
  {
  }

  /**
   * `(a - 1) * b` computed in two wrapping steps is the exact product wrapped
   * once, even when `a - 1` itself wraps; so it is exact whenever the exact
   * product fits (when `a - 1` wraps, only `b == 0` fits).
   */
  lemma PredecessorProductExact(a: Int32, b: Int32)
    ensures Mul(Sub(a, 1), b) == Wrap((a as int - 1) * b as int)
    ensures InInt32Range((a as int - 1) * b as int) ==> Mul(Sub(a, 1), b) as int == (a as int - 1) * b as int
  {
    var p := a as int - 1;
    if !InInt32Range(p) {
      assert p == -0x8000_0001;
      assert Sub(a, 1) as int == p + 0x1_0000_0000;
      assert (p + 0x1_0000_0000) * b as int == p * b as int + 0x1_0000_0000 * b as int;
      WrapPeriodic(p * b as int, b as int);
    }
  }
}
