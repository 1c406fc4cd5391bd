/**
 * The integer corner of ECMAScript Number arithmetic that the colour hash
 * uses. Every value involved is an integer below 2^53 in magnitude, so a
 * double holds it exactly and Dafny's unbounded `int` models it without loss.
 */
module JsNumber {

  const TwoTo31: int := 0x8000_0000
  const TwoTo32: int := 0x1_0000_0000

  predicate IsInt32(x: int) { -TwoTo31 <= x < TwoTo31 }

  /** The abstract operation ToInt32 (section 7.1.6 of ECMA-262) on an integer value. */
  function ToInt32(x: int): (r: int)
    ensures IsInt32(r)
    ensures (x - r) % TwoTo32 == 0
  {
    var m := x % TwoTo32;
    if m >= TwoTo31 then m - TwoTo32 else m
  }

  /** ToInt32 picks the one 32-bit value congruent to its argument modulo 2^32. */
  lemma ToInt32Unique(x: int, r: int)
    requires IsInt32(r) && (x - r) % TwoTo32 == 0
    ensures ToInt32(x) == r
  {
    var q := (x - r) / TwoTo32;
    assert x == r + q * TwoTo32;
    var t := ToInt32(x);
    var p := (x - t) / TwoTo32;
    assert x == t + p * TwoTo32;
    assert t - r == (q - p) * TwoTo32;
  }

  function Pow2(n: nat): (r: nat)
    ensures r >= 1
  {
    if n == 0 then 1 else 2 * Pow2(n - 1)
  }

  lemma MultipleIsCongruent(n: int)
    ensures (n * TwoTo32) % TwoTo32 == 0
  {
  }

  /** Congruence modulo 2^32 survives multiplication by the same factor. */
  lemma CongruentTimes(x: int, y: int, k: int)
    requires (x - y) % TwoTo32 == 0
    ensures (x * k - y * k) % TwoTo32 == 0
  {
    var q := (x - y) / TwoTo32;
    assert x - y == q * TwoTo32;
    assert x * k - y * k == (x - y) * k;
    assert x * k - y * k == (q * k) * TwoTo32;
    MultipleIsCongruent(q * k);
  }

  /** Congruence modulo 2^32 is transitive. */
  lemma CongruentTrans(x: int, y: int, z: int)
    requires (x - y) % TwoTo32 == 0 && (y - z) % TwoTo32 == 0
    ensures (x - z) % TwoTo32 == 0
  {
    var a := (x - y) / TwoTo32;
    var b := (y - z) / TwoTo32;
    assert x - z == (a + b) * TwoTo32;
    MultipleIsCongruent(a + b);
  }

  /**
   * The `<<` operator on integer operands (section 13.9.1 of ECMA-262): the
   * left operand through ToInt32, the shift count taken modulo 32, and the
   * product wrapped back into 32 bits.
   */
  function ShiftLeft(x: int, count: int): (r: int)
    ensures IsInt32(r)
    ensures (x * Pow2(count % 32) - r) % TwoTo32 == 0
  {
    var k := Pow2(count % 32);
    var r := ToInt32(ToInt32(x) * k);
    CongruentTimes(x, ToInt32(x), k);
    CongruentTrans(x * k, ToInt32(x) * k, r);
    r
  }

  /** A shift whose product still fits in 32 bits is a plain multiplication. */
  lemma ShiftLeftNoWrap(x: int, count: int)
    requires 0 <= count < 32
    requires IsInt32(x) && IsInt32(x * Pow2(count))
    ensures ShiftLeft(x, count) == x * Pow2(count)
  {
    var k := Pow2(count);
    assert count % 32 == count;
    assert (x - x) % TwoTo32 == 0;
    ToInt32Unique(x, x);
    assert (x * k - x * k) % TwoTo32 == 0;
    ToInt32Unique(x * k, x * k);
  }

  /** `Math.abs` on an integer value. */
  function Abs(x: int): (r: nat)
    ensures r == x || r == -x
  {
    if x < 0 then -x else x
  }
}
