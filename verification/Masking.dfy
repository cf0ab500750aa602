/** Exclusive or of bytes, as used to mask frame payloads. */
module Masking {
  import opened Bytes

  /** Exclusive or of the low `bits` bits of two numbers. */
  function XorBits(a: nat, b: nat, bits: nat): (r: nat)
    ensures r < Pow2(bits)
  {
    if bits == 0 then 0
    else 2 * XorBits(a / 2, b / 2, bits - 1) + (if a % 2 == b % 2 then 0 else 1)
  }

  lemma {:induction false} XorBitsUndo(a: nat, m: nat, bits: nat)
    requires a < Pow2(bits)
    ensures XorBits(XorBits(a, m, bits), m, bits) == a
  {
    if bits != 0 {
      XorBitsUndo(a / 2, m / 2, bits - 1);
      assert XorBits(a, m, bits) / 2 == XorBits(a / 2, m / 2, bits - 1);
    }
  }

  /** Binary digit `k` of a number, the lowest being digit 0. */
  function Bit(n: nat, k: nat): (b: nat)
    ensures b < 2
  {
    if k == 0 then n % 2 else Bit(n / 2, k - 1)
  }

  /** Each digit is 1 exactly where the digits of the two numbers differ. */
  lemma {:induction false} XorBitsExactly(a: nat, b: nat, bits: nat, k: nat)
    requires k < bits
    ensures Bit(XorBits(a, b, bits), k) == 1 <==> Bit(a, k) != Bit(b, k)
  {
    hide XorBits;
    XorBitsNext(a, b, bits);
    if k != 0 {
      XorBitsExactly(a / 2, b / 2, bits - 1, k - 1);
    }
  }

  lemma XorBitsNext(a: nat, b: nat, bits: nat)
    requires bits != 0
    ensures var r := XorBits(a, b, bits);
            r / 2 == XorBits(a / 2, b / 2, bits - 1) && (r % 2 == 1 <==> a % 2 != b % 2)
  {
  }

  lemma EightBits()
    ensures Pow2(8) == 256
  {
    assert Pow2(4) == 16;
    assert Pow2(8) == 2 * 2 * 2 * 2 * Pow2(4);
  }

  function Xor(a: byte, b: byte): byte {
    EightBits();
    XorBits(a, b, 8)
  }

  lemma XorUndo(a: byte, m: byte)
    ensures Xor(Xor(a, m), m) == a
  {
    EightBits();
    XorBitsUndo(a, m, 8);
  }

  /** A byte of the result has a 1 exactly where the two bytes differ. */
  lemma XorExactly(a: byte, b: byte, k: nat)
    requires k < 8
    ensures Bit(Xor(a, b), k) == 1 <==> Bit(a, k) != Bit(b, k)
  {
    XorBitsExactly(a, b, 8, k);
  }
}
