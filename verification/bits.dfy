/** Fixed-width unsigned integers and the bitwise operators the interpreter uses.

    Bytes and words are kept as bounded integers; every wrap-around of the 8- and 16-bit
    machine arithmetic is written out with `%`. The bitwise operators are defined one bit
    at a time, least significant bit first, and characterised by `Bit`. */
module Bits {

  /** An unsigned 8-bit value. */
  type u8 = x: int | 0 <= x < 0x100

  /** An unsigned 16-bit value. */
  type u16 = x: int | 0 <= x < 0x1_0000

  function Pow2(k: nat): (p: nat)
    ensures p >= 1
  {
    if k == 0 then 1 else 2 * Pow2(k - 1)
  }

  /** Bit `k` of `v`, where bit 0 is the least significant one. */
  predicate Bit(v: nat, k: nat)
  {
    if k == 0 then v % 2 == 1 else Bit(v / 2, k - 1)
  }

  function And(a: nat, b: nat): (r: nat)
    ensures r <= a && r <= b
  {
    if a == 0 || b == 0 then 0
    else 2 * And(a / 2, b / 2) + (if a % 2 == 1 && b % 2 == 1 then 1 else 0)
  }

  function Or(a: nat, b: nat): nat
  {
    if a == 0 then b
    else if b == 0 then a
    else 2 * Or(a / 2, b / 2) + (if a % 2 == 1 || b % 2 == 1 then 1 else 0)
  }

  function Xor(a: nat, b: nat): nat
  {
    if a == 0 then b
    else if b == 0 then a
    else 2 * Xor(a / 2, b / 2) + (if a % 2 != b % 2 then 1 else 0)
  }

  lemma {:induction false} ZeroHasNoBits(k: nat)
    ensures !Bit(0, k)
  {
    if k > 0 {
      ZeroHasNoBits(k - 1);
    }
  }

  /** Bit `k` of `a & b` is set iff it is set in both operands. */
  lemma {:induction false} AndBit(a: nat, b: nat, k: nat)
    ensures Bit(And(a, b), k) <==> Bit(a, k) && Bit(b, k)
  {
    if a == 0 || b == 0 {
      ZeroHasNoBits(k);
    } else if k > 0 {
      AndBit(a / 2, b / 2, k - 1);
    }
  }

  /** Bit `k` of `a | b` is set iff it is set in either operand. */
  lemma {:induction false} OrBit(a: nat, b: nat, k: nat)
    ensures Bit(Or(a, b), k) <==> Bit(a, k) || Bit(b, k)
  {
    if a == 0 || b == 0 {
      ZeroHasNoBits(k);
    } else if k > 0 {
      OrBit(a / 2, b / 2, k - 1);
    }
  }

  /** Bit `k` of `a ^ b` is set iff it is set in exactly one operand. */
  lemma {:induction false} XorBit(a: nat, b: nat, k: nat)
    ensures Bit(Xor(a, b), k) <==> Bit(a, k) != Bit(b, k)
  {
    if a == 0 || b == 0 {
      ZeroHasNoBits(k);
    } else if k > 0 {
      XorBit(a / 2, b / 2, k - 1);
    }
  }

  lemma {:induction false} OrBelow(a: nat, b: nat, w: nat)
    requires a < Pow2(w) && b < Pow2(w)
    ensures Or(a, b) < Pow2(w)
  {
    if a != 0 && b != 0 {
      OrBelow(a / 2, b / 2, w - 1);
    }
  }

  lemma {:induction false} XorBelow(a: nat, b: nat, w: nat)
    requires a < Pow2(w) && b < Pow2(w)
    ensures Xor(a, b) < Pow2(w)
  {
    if a != 0 && b != 0 {
      XorBelow(a / 2, b / 2, w - 1);
    }
  }

  /** `a & (1 << j)` is nonzero iff bit `j` of `a` is set. */
  lemma {:induction false} AndPow2(a: nat, j: nat)
    ensures And(a, Pow2(j)) != 0 <==> Bit(a, j)
  {
    if a == 0 {
      ZeroHasNoBits(j);
    } else if j > 0 {
      AndPow2(a / 2, j - 1);
    }
  }

  /** A natural number is determined by its bits. */
  lemma {:induction false} BitsEqual(a: nat, b: nat)
    requires forall k: nat :: Bit(a, k) <==> Bit(b, k)
    ensures a == b
    decreases a + b
  {
    if a != 0 || b != 0 {
      assert Bit(a, 0) <==> Bit(b, 0);
      forall k: nat ensures Bit(a / 2, k) <==> Bit(b / 2, k) {
        assert Bit(a, k + 1) <==> Bit(b, k + 1);
      }
      BitsEqual(a / 2, b / 2);
    }
  }

  /** Bit 7 of a byte is set exactly when the byte is at least 0x80. */
  lemma TopBit(v: u8)
    ensures Bit(v, 7) <==> v >= 0x80
  {
    assert Bit(v, 7) == Bit(v / 2, 6) == Bit(v / 4, 5) == Bit(v / 8, 4) == Bit(v / 16, 3);
    assert Bit(v / 16, 3) == Bit(v / 32, 2) == Bit(v / 64, 1) == Bit(v / 128, 0);
  }

  lemma AndBits(a: nat, b: nat)
    ensures forall k :: Bit(And(a, b), k) <==> Bit(a, k) && Bit(b, k)
  {
    forall k ensures Bit(And(a, b), k) <==> Bit(a, k) && Bit(b, k) {
      AndBit(a, b, k);
    }
  }

  lemma OrBits(a: nat, b: nat)
    ensures forall k :: Bit(Or(a, b), k) <==> Bit(a, k) || Bit(b, k)
  {
    forall k ensures Bit(Or(a, b), k) <==> Bit(a, k) || Bit(b, k) {
      OrBit(a, b, k);
    }
  }

  lemma XorBits(a: nat, b: nat)
    ensures forall k :: Bit(Xor(a, b), k) <==> Bit(a, k) != Bit(b, k)
  {
    forall k ensures Bit(Xor(a, b), k) <==> Bit(a, k) != Bit(b, k) {
      XorBit(a, b, k);
    }
  }

  /** The bitwise operators of Rust's `u8`. */
  function And8(a: u8, b: u8): u8
  {
    And(a, b)
  }

  function Or8(a: u8, b: u8): u8
  {
    OrBelow(a, b, 8);
    Or(a, b)
  }

  function Xor8(a: u8, b: u8): u8
  {
    XorBelow(a, b, 8);
    Xor(a, b)
  }

  /** `u8::wrapping_add`. */
  function WrappingAdd8(a: u8, b: u8): u8
  {
    (a + b) % 0x100
  }

  /** `u16::wrapping_add` and `u16::wrapping_sub`. */
  function WrappingAdd16(a: u16, b: u16): u16
  {
    (a + b) % 0x1_0000
  }

  function WrappingSub16(a: u16, b: u16): u16
  {
    (a - b) % 0x1_0000
  }

  /** `u8::overflowing_add`: the wrapped sum and whether the true sum left the 8-bit range. */
  function OverflowingAdd8(a: u8, b: u8): (u8, bool)
  {
    ((a + b) % 0x100, a + b > 0xFF)
  }

  /** `u8::overflowing_sub`: the wrapped difference and whether the true difference is negative. */
  function OverflowingSub8(a: u8, b: u8): (u8, bool)
  {
    ((a - b) % 0x100, a - b < 0)
  }
}
