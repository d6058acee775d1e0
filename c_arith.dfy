/**
 * The few C primitives the estimator relies on, stated over Dafny's unbounded
 * integers and exact reals: fabsf, the truncating (int64_t) cast, the
 * wrap-around of a uint32_t counter, and the two-sided clamp written as a
 * pair of `if` statements in the C code.
 */
module CArith {

  const Int64Min: int := -0x8000_0000_0000_0000
  const Int64Max: int := 0x7FFF_FFFF_FFFF_FFFF
  const Uint32Max: int := 0xFFFF_FFFF

  /** A value representable by int64_t. */
  predicate IsInt64(n: int) {
    Int64Min <= n <= Int64Max
  }

  /** A value representable by uint32_t. */
  predicate IsUint32(n: int) {
    0 <= n <= Uint32Max
  }

  /** fabsf */
  function Abs(x: real): (r: real)
    ensures r >= 0.0
    ensures r == x || r == -x
  {
    if x < 0.0 then -x else x
  }

  function Min(a: real, b: real): (r: real)
    ensures r <= a && r <= b && (r == a || r == b)
  {
    if a <= b then a else b
  }

  function Max(a: real, b: real): (r: real)
    ensures r >= a && r >= b && (r == a || r == b)
  {
    if a <= b then b else a
  }

  /**
   * The C conversion of a floating value to an integer type: the fractional
   * part is discarded, i.e. the value is rounded toward zero.
   */
  function TruncToInt(x: real): (n: int)
    ensures 0.0 <= x ==> 0 <= n && n as real <= x < n as real + 1.0
    ensures x < 0.0 ==> n <= 0 && n as real - 1.0 < x <= n as real
  {
    if x >= 0.0 then x.Floor else -((-x).Floor)
  }

  /**
   * `n++` on a uint32_t: one more, wrapping to 0 only from the largest value.
   */
  function Uint32Succ(n: int): (m: int)
    requires IsUint32(n)
    ensures IsUint32(m)
    ensures m == 0 || m == n + 1
    ensures m == 0 <==> n == Uint32Max
  {
    if n == Uint32Max then 0 else n + 1
  }

  /** `n++` on a uint32_t adds one modulo 2^32. */
  lemma Uint32SuccIsModular(n: int)
    requires IsUint32(n)
    ensures Uint32Succ(n) == (n + 1) % (Uint32Max + 1)
  {
  }

  /**
   * `if (v < lo) v = lo; if (v > hi) v = hi;` for a non-empty band.
   */
  function Clamp(v: real, lo: real, hi: real): (r: real)
    requires lo <= hi
    ensures lo <= r <= hi
    ensures lo <= v <= hi ==> r == v
    ensures v < lo ==> r == lo
    ensures v > hi ==> r == hi
  {
    if v < lo then lo else if v > hi then hi else v
  }

  lemma MulNonNegative(x: real, y: real)
    requires 0.0 <= x && 0.0 <= y
    ensures 0.0 <= x * y
  {
  }

  /** Moving from a toward b by a fraction in [0, 1] of the gap stays between a and b. */
  lemma PartOfGap(a: real, b: real, w: real)
    requires 0.0 <= w <= 1.0
    ensures Min(a, b) <= a + w * (b - a) <= Max(a, b)
  {
    var g := if a <= b then b - a else a - b;
    MulNonNegative(w, g);
    MulNonNegative(1.0 - w, g);
    assert (1.0 - w) * g == g - w * g;
    assert w * (b - a) == if a <= b then w * g else -(w * g);
  }
}
