/** Message padding of the two hash functions, as in section 5.1.1 of FIPS 180-4. */
module Padding {
  import opened Bytes

  function Zeros(k: nat): (s: Str)
    ensures |s| == k
  {
    seq(k, _ => 0)
  }

  /** How many zero bytes follow the marker byte of an `n`-byte message. */
  function ZeroCount(n: nat): (k: nat)
    ensures k < 64
    ensures (n + 1 + k) % 64 == 56
  {
    (119 - n % 64) % 64
  }

  /** The bit length is kept in 64 bits, so it wraps from 2^61 bytes on. */
  function BitLength(n: nat): (b: nat)
    ensures b < TWO_64
  {
    n * 8 % TWO_64
  }

  function Pad(msg: Str): (block: Str)
    ensures |block| == |msg| + 9 + ZeroCount(|msg|)
  {
    msg + [0x80] + Zeros(ZeroCount(|msg|)) + BigEndian(BitLength(|msg|), 8)
  }

  /** Undoes the padding by reading the bit length from the last eight bytes. */
  function Strip(block: Str): Str
    requires |block| >= 8
  {
    var n := FromBigEndian(block[|block| - 8..]) / 8;
    if n <= |block| then block[..n] else block
  }

  /** The padding both hash functions append in place. */
  method AppendPadding(msg: Str) returns (block: Str)
    ensures block == Pad(msg)
  {
    var bitLength := |msg| * 8 % TWO_64;
    block := msg + [0x80];
    ghost var zeros := 0;
    while |block| % 64 != 56
      invariant zeros <= ZeroCount(|msg|)
      invariant block == msg + [0x80] + Zeros(zeros)
      decreases ZeroCount(|msg|) - zeros
    {
      block := block + [0x00];
      zeros := zeros + 1;
    }
    LeastZeros(|msg|, zeros);
    ghost var filled := block;
    var i := 7;
    while i >= 0
      invariant -1 <= i <= 7
      invariant block == filled + BigEndian(ShiftBytes(bitLength, i + 1), 7 - i)
    {
      block := block + [ShiftBytes(bitLength, i) % 256];
      i := i - 1;
    }
  }

  /** No shorter run of zeros reaches the position of the length field. */
  lemma LeastZeros(n: nat, k: nat)
    requires (n + 1 + k) % 64 == 56
    ensures ZeroCount(n) <= k
  {
  }

  lemma LeastBlocks(n: nat, size: nat)
    requires size % 64 == 0 && size >= n + 9
    ensures n + 9 + ZeroCount(n) <= size
  {
    var k := size - n - 9;
    assert n + 1 + k == size - 8;
    LeastZeros(n, k);
  }

  lemma PadWhole(n: nat)
    ensures (n + 9 + ZeroCount(n)) % 64 == 0
  {
    var k := n + 1 + ZeroCount(n);
    assert k % 64 == 56;
  }

  /** The padded message starts with the message, is a whole number of blocks and
      is no longer than any such string with room for the marker and the length field. */
  lemma PadLeast(msg: Str)
    ensures msg <= Pad(msg) && |Pad(msg)| % 64 == 0
    ensures forall block: Str :: |block| % 64 == 0 && |block| >= |msg| + 9 ==> |Pad(msg)| <= |block|
  {
    hide ZeroCount;
    PadWhole(|msg|);
    forall block: Str | |block| % 64 == 0 && |block| >= |msg| + 9
      ensures |Pad(msg)| <= |block|
    {
      LeastBlocks(|msg|, |block|);
    }
  }

  /** The bytes of a short padded message: after the marker everything but the last two
      bytes is zero. */
  lemma PadSmall(msg: Str)
    requires |msg| < 8192
    ensures var block := Pad(msg);
            && |block| == |msg| + 9 + ZeroCount(|msg|)
            && block[..|msg|] == msg && block[|msg|] == 0x80
            && (forall i :: |msg| < i < |block| - 2 ==> block[i] == 0)
            && block[|block| - 2] == |msg| * 8 / 256 && block[|block| - 1] == |msg| * 8 % 256
  {
    hide ZeroCount;
    var n := |msg| * 8;
    assert BitLength(|msg|) == n;
    SmallField(n);
    var block := Pad(msg);
    assert block[|block| - 8..] == BigEndian(n, 8);
    assert block[..|msg|] == msg;
    forall i | |msg| < i < |block| - 2
      ensures block[i] == 0
    {
      if i >= |block| - 8 {
        assert block[i] == BigEndian(n, 8)[i - (|block| - 8)];
      }
    }
  }

  /** A length below 2^16 takes the last two bytes of its field. */
  lemma SmallField(n: nat)
    requires n < 0x1_0000
    ensures var s := BigEndian(n, 8);
            (forall i :: 0 <= i < 6 ==> s[i] == 0) && s[6] == n / 256 && s[7] == n % 256
  {
    hide BigEndian;
    BigEndianNext(n, 8);
    BigEndianNext(n / 256, 7);
    assert n / 256 / 256 == 0 && n / 256 % 256 == n / 256;
    ZeroField(6);
  }

  lemma {:induction false} ZeroField(width: nat)
    ensures forall i :: 0 <= i < width ==> BigEndian(0, width)[i] == 0
  {
    if width != 0 {
      ZeroField(width - 1);
    }
  }

  lemma BitLengthBytes(n: nat)
    ensures BitLength(n) / 8 <= n
    ensures BitLength(n) / 8 == n <==> n < 0x2000_0000_0000_0000
  {
    assert BitLength(n) / 8 == n % 0x2000_0000_0000_0000;
  }

  /** The length field gives back the message exactly below 2^61 bytes. */
  lemma StripPad(msg: Str)
    ensures Strip(Pad(msg)) == msg <==> |msg| < 0x2000_0000_0000_0000
  {
    hide ZeroCount, BitLength;
    var block := Pad(msg);
    assert block[|block| - 8..] == BigEndian(BitLength(|msg|), 8);
    Pow256Eight();
    BigEndianRoundTrip(BitLength(|msg|), 8);
    BitLengthBytes(|msg|);
    var n := BitLength(|msg|) / 8;
    assert |block[..n]| == n;
    assert block[..|msg|] == msg;
  }

  lemma PadInjective(a: Str, b: Str)
    requires |a| < 0x2000_0000_0000_0000 && |b| < 0x2000_0000_0000_0000
    requires Pad(a) == Pad(b)
    ensures a == b
  {
    StripPad(a);
    StripPad(b);
  }
}
