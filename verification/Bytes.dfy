/** Byte strings, fixed-width big-endian numbers and the exclusive-or of bytes:
    the vocabulary shared by the codecs and the hash functions. */
module Bytes {

  type byte = x: int | 0 <= x < 256

  /** A `std::string` or `std::vector<uint8_t>`. */
  type Str = seq<byte>

  const TWO_32: nat := 0x1_0000_0000
  const TWO_64: nat := 0x1_0000_0000_0000_0000

  /** No string is longer: differences of positions in it are signed 64-bit numbers. */
  const MAX_SIZE: nat := 0x7FFF_FFFF_FFFF_FFFF

  /** The bytes of a C++ string literal. */
  function Ascii(text: string): (s: Str)
    ensures |s| == |text|
  {
    seq(|text|, i requires 0 <= i < |text| => text[i] as int % 256)
  }

  function Pow2(k: nat): (p: nat)
    ensures p > 0
  {
    if k == 0 then 1 else 2 * Pow2(k - 1)
  }

  function Pow256(k: nat): (p: nat)
    ensures p > 0
  {
    if k == 0 then 1 else 256 * Pow256(k - 1)
  }

  /** The low `width` bytes of `n`, most significant byte first. */
  function BigEndian(n: nat, width: nat): (s: Str)
    ensures |s| == width
  {
    if width == 0 then [] else BigEndian(n / 256, width - 1) + [n % 256]
  }

  function FromBigEndian(s: Str): nat {
    if s == [] then 0 else FromBigEndian(s[..|s| - 1]) * 256 + s[|s| - 1]
  }

  lemma {:induction false} FromBigEndianBound(s: Str)
    ensures FromBigEndian(s) < Pow256(|s|)
  {
    if s != [] {
      FromBigEndianBound(s[..|s| - 1]);
    }
  }

  /** Reading back `width` bytes recovers the number modulo 256 to the `width`. */
  lemma {:induction false} BigEndianRoundTrip(n: nat, width: nat)
    requires n < Pow256(width)
    ensures FromBigEndian(BigEndian(n, width)) == n
  {
    hide BigEndian, FromBigEndian, Pow256;
    Pow256Next(width);
    BigEndianNext(n, width);
    if width == 0 {
      FromNothing();
    } else {
      QuotientBelow(n, Pow256(width - 1));
      BigEndianRoundTrip(n / 256, width - 1);
      FromNext(BigEndian(n / 256, width - 1), n % 256);
    }
  }

  lemma {:induction false} FromBigEndianRoundTrip(s: Str)
    ensures BigEndian(FromBigEndian(s), |s|) == s
  {
    hide BigEndian, FromBigEndian;
    BigEndianNext(FromBigEndian(s), |s|);
    if s != [] {
      var front, b := s[..|s| - 1], s[|s| - 1];
      FromBigEndianRoundTrip(front);
      assert s == front + [b];
      FromNext(front, b);
      QuotientOf(FromBigEndian(front), b);
    }
  }

  lemma Pow256Next(k: nat)
    ensures Pow256(k) == if k == 0 then 1 else 256 * Pow256(k - 1)
  {
  }

  lemma BigEndianNext(n: nat, width: nat)
    ensures BigEndian(n, width) == if width == 0 then [] else BigEndian(n / 256, width - 1) + [n % 256]
  {
  }

  lemma FromNothing()
    ensures FromBigEndian([]) == 0
  {
  }

  lemma FromNext(s: Str, b: byte)
    ensures FromBigEndian(s + [b]) == FromBigEndian(s) * 256 + b
  {
    assert (s + [b])[..|s|] == s;
  }

  lemma QuotientBelow(n: nat, p: nat)
    requires n < 256 * p
    ensures n / 256 < p && n / 256 * 256 + n % 256 == n
  {
  }

  lemma QuotientOf(q: nat, b: byte)
    ensures (q * 256 + b) / 256 == q && (q * 256 + b) % 256 == b
  {
  }

  lemma Pow256Two()
    ensures Pow256(2) == 0x1_0000
  {
    assert Pow256(1) == 256;
  }

  lemma Pow256Eight()
    ensures Pow256(8) == TWO_64
  {
    assert Pow256(4) == TWO_32;
    assert Pow256(8) == 256 * 256 * 256 * 256 * Pow256(4);
  }

  /** `n >> (8 * k)` on an unsigned integer: the low byte dropped `k` times. */
  function ShiftBytes(n: nat, k: nat): nat {
    if k == 0 then n else ShiftBytes(n, k - 1) / 256
  }
}
