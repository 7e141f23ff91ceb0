/**
  Unsigned 32-bit arithmetic on non-negative integers: truncation, left
  shift and bitwise or, as C++ computes them on `uint32_t`.
 */
module Bits {

  const U32_MODULUS: nat := 0x1_0000_0000

  /** `static_cast<uint32_t>` of a non-negative value: keep the low 32 bits. */
  function ToU32(x: nat): (r: nat)
    ensures r < U32_MODULUS
  {
    x % U32_MODULUS
  }

  function Pow2(k: nat): (r: nat)
    ensures r >= 1
  {
    if k == 0 then 1 else 2 * Pow2(k - 1)
  }

  /** `x << k` on a uint32: the bits shifted past bit 31 are lost. */
  function ShiftLeft32(x: nat, k: nat): (r: nat)
    ensures r < U32_MODULUS
  {
    (x * Pow2(k)) % U32_MODULUS
  }

  /** Bitwise or of two non-negative integers, bit by bit from the lowest. */
  function BitOr(a: nat, b: nat): nat
    decreases a + b
  {
    if a == 0 then b
    else if b == 0 then a
    else 2 * BitOr(a / 2, b / 2) + (if a % 2 == 1 || b % 2 == 1 then 1 else 0)
  }

  /** 2^32, the modulus of uint32 arithmetic. */
  lemma Pow2Of32()
    ensures Pow2(32) == U32_MODULUS
  {
    assert Pow2(8) == 0x100;
    assert Pow2(16) == 0x1_0000;
    assert Pow2(24) == 0x100_0000;
  }

  /** The or of two k-bit values is a k-bit value. */
  lemma {:induction false} BitOrBelow(a: nat, b: nat, k: nat)
    requires a < Pow2(k) && b < Pow2(k)
    ensures BitOr(a, b) < Pow2(k)
  {
    if a != 0 && b != 0 {
      assert k > 0;
      BitOrBelow(a / 2, b / 2, k - 1);
    }
  }

  /** Or-ing a value into bits that are clear is adding it. */
  lemma {:induction false} BitOrDisjoint(x: nat, y: nat, k: nat)
    requires y < Pow2(k)
    ensures BitOr(x * Pow2(k), y) == x * Pow2(k) + y
  {
    if k == 0 || x == 0 || y == 0 {
    } else {
      var half := Pow2(k - 1);
      assert x * Pow2(k) == 2 * (x * half);
      assert (x * Pow2(k)) / 2 == x * half;
      assert (x * Pow2(k)) % 2 == 0;
      BitOrDisjoint(x, y / 2, k - 1);
    }
  }
}
