/** SHA-256: the in-place block loop, the functional definition of section 6.2 of
    FIPS 180-4 that it refines, and the hexadecimal digest text. */
module Sha256 {
  import opened Bytes
  import opened Hex
  import opened Padding
  import opened Words

  // ---- FIPS 180-4, sections 4.1.2 and 6.2 ----

  function BigSigma0(x: word): word { x.RotateRight(2) ^ x.RotateRight(13) ^ x.RotateRight(22) }

  function BigSigma1(x: word): word { x.RotateRight(6) ^ x.RotateRight(11) ^ x.RotateRight(25) }

  function SmallSigma0(x: word): word { x.RotateRight(7) ^ x.RotateRight(18) ^ (x >> 3) }

  function SmallSigma1(x: word): word { x.RotateRight(17) ^ x.RotateRight(19) ^ (x >> 10) }

  const K0: seq<word> := [
    0x428a2f98, 0x71374491, 0xb5c0fbcf, 0xe9b5dba5,
    0x3956c25b, 0x59f111f1, 0x923f82a4, 0xab1c5ed5,
    0xd807aa98, 0x12835b01, 0x243185be, 0x550c7dc3,
    0x72be5d74, 0x80deb1fe, 0x9bdc06a7, 0xc19bf174
  ]

  const K16: seq<word> := [
    0xe49b69c1, 0xefbe4786, 0x0fc19dc6, 0x240ca1cc,
    0x2de92c6f, 0x4a7484aa, 0x5cb0a9dc, 0x76f988da,
    0x983e5152, 0xa831c66d, 0xb00327c8, 0xbf597fc7,
    0xc6e00bf3, 0xd5a79147, 0x06ca6351, 0x14292967
  ]

  const K32: seq<word> := [
    0x27b70a85, 0x2e1b2138, 0x4d2c6dfc, 0x53380d13,
    0x650a7354, 0x766a0abb, 0x81c2c92e, 0x92722c85,
    0xa2bfe8a1, 0xa81a664b, 0xc24b8b70, 0xc76c51a3,
    0xd192e819, 0xd6990624, 0xf40e3585, 0x106aa070
  ]

  const K48: seq<word> := [
    0x19a4c116, 0x1e376c08, 0x2748774c, 0x34b0bcb5,
    0x391c0cb3, 0x4ed8aa4a, 0x5b9cca4f, 0x682e6ff3,
    0x748f82ee, 0x78a5636f, 0x84c87814, 0x8cc70208,
    0x90befffa, 0xa4506ceb, 0xbef9a3f7, 0xc67178f2
  ]

  const K: seq<word> := K0 + K16 + K32 + K48

  const H0: seq<word> := [
    0x6a09e667, 0xbb67ae85, 0x3c6ef372, 0xa54ff53a,
    0x510e527f, 0x9b05688c, 0x1f83d9ab, 0x5be0cd19
  ]

  type State = h: seq<word> | |h| == 8 witness H0

  /** Word `t` of the message schedule. */
  function Schedule(m: Block, t: nat): word
    requires t < 64
  {
    if t < 16 then Join(m[t * 4], m[t * 4 + 1], m[t * 4 + 2], m[t * 4 + 3])
    else
      Sum4(SmallSigma1(Schedule(m, t - 2)), Schedule(m, t - 7), SmallSigma0(Schedule(m, t - 15)), Schedule(m, t - 16))
  }

  datatype Vars = Vars(a: word, b: word, c: word, d: word, e: word, f: word, g: word, h: word)

  /** One round of the compression: step 3 of section 6.2.2. */
  function Round(v: Vars, k: word, w: word): Vars {
    var t1 := Sum5(v.h, BigSigma1(v.e), Ch(v.e, v.f, v.g), k, w);
    var t2 := Sum(BigSigma0(v.a), Maj(v.a, v.b, v.c));
    Vars(Sum(t1, t2), v.a, v.b, v.c, Sum(v.d, t1), v.e, v.f, v.g)
  }

  function Rounds(v: Vars, m: Block, t: nat): Vars
    requires t <= 64
  {
    if t == 0 then v else Round(Rounds(v, m, t - 1), K[t - 1], Schedule(m, t - 1))
  }

  function VarsOf(h: State): Vars {
    Vars(h[0], h[1], h[2], h[3], h[4], h[5], h[6], h[7])
  }

  function Compress(h: State, m: Block): State {
    var v := Rounds(VarsOf(h), m, 64);
    [Sum(h[0], v.a), Sum(h[1], v.b), Sum(h[2], v.c), Sum(h[3], v.d),
     Sum(h[4], v.e), Sum(h[5], v.f), Sum(h[6], v.g), Sum(h[7], v.h)]
  }

  /** The hash value after the first `n` blocks of `msg`. */
  function Fold(h: State, msg: Str, n: nat): State
    requires 64 * n <= |msg|
  {
    if n == 0 then h else Compress(Fold(h, msg, n - 1), msg[64 * (n - 1)..64 * n])
  }

  /** Hashing n1 + n2 blocks is hashing n1 and then n2 from the state reached. */
  lemma {:induction false} FoldSplit(h: State, m1: Str, n1: nat, m2: Str, n2: nat)
    requires |m1| == 64 * n1 && 64 * n2 <= |m2|
    ensures Fold(h, m1 + m2, n1 + n2) == Fold(Fold(h, m1, n1), m2, n2)
  {
    hide Compress;
    if n2 == 0 {
      FoldPrefix(h, m1, m2, n1);
    } else {
      FoldSplit(h, m1, n1, m2, n2 - 1);
      var n := n1 + n2;
      assert (m1 + m2)[64 * (n - 1)..64 * n] == m2[64 * (n2 - 1)..64 * n2];
    }
  }

  lemma {:induction false} FoldPrefix(h: State, msg: Str, tail: Str, n: nat)
    requires 64 * n <= |msg|
    ensures Fold(h, msg + tail, n) == Fold(h, msg, n)
  {
    hide Compress;
    if n != 0 {
      FoldPrefix(h, msg, tail, n - 1);
      assert (msg + tail)[64 * (n - 1)..64 * n] == msg[64 * (n - 1)..64 * n];
    }
  }

  // ---- The in-place implementation ----

  /** Offset of block `i`: the shift `i << 6` is done on a 32-bit unsigned number. */
  function Offset(i: nat): (o: nat)
    ensures o % 64 == 0
  {
    i * 64 % TWO_32
  }

  /** The shift gives the position of the block exactly below 2^26 blocks. */
  lemma OffsetExact(i: nat)
    ensures Offset(i) == 64 * i <==> i < 0x400_0000
  {
  }

  lemma OffsetInside(i: nat, n: nat)
    requires i < n
    ensures Offset(i) + 64 <= 64 * n
  {
  }

  /** What `Transform` computes for any number of blocks. */
  function WrappedFold(h: State, msg: Str, n: nat): State
    requires 64 * n <= |msg|
  {
    if n == 0 then h
    else
      OffsetInside(n - 1, n);
      Compress(WrappedFold(h, msg, n - 1), msg[Offset(n - 1)..Offset(n - 1) + 64])
  }

  lemma {:induction false} WrappedFoldExact(h: State, msg: Str, n: nat)
    requires 64 * n <= |msg| && n <= 0x400_0000
    ensures WrappedFold(h, msg, n) == Fold(h, msg, n)
  {
    hide Compress;
    if n != 0 {
      WrappedFoldExact(h, msg, n - 1);
      OffsetExact(n - 1);
    }
  }

  // The macros of the implementation, with each rotation written as two shifts.

  function Ep0(x: word): word { ((x >> 2) | (x << 30)) ^ ((x >> 13) | (x << 19)) ^ ((x >> 22) | (x << 10)) }

  function Ep1(x: word): word { ((x >> 6) | (x << 26)) ^ ((x >> 11) | (x << 21)) ^ ((x >> 25) | (x << 7)) }

  function Sig0(x: word): word { ((x >> 7) | (x << 25)) ^ ((x >> 18) | (x << 14)) ^ (x >> 3) }

  function Sig1(x: word): word { ((x >> 17) | (x << 15)) ^ ((x >> 19) | (x << 13)) ^ (x >> 10) }

  lemma RotationsByShifts(x: word)
    ensures Ep0(x) == BigSigma0(x) && Ep1(x) == BigSigma1(x)
    ensures Sig0(x) == SmallSigma0(x) && Sig1(x) == SmallSigma1(x)
  {
    assert x.RotateRight(2) == (x >> 2) | (x << 30);
    assert x.RotateRight(13) == (x >> 13) | (x << 19);
    assert x.RotateRight(22) == (x >> 22) | (x << 10);
    assert x.RotateRight(6) == (x >> 6) | (x << 26);
    assert x.RotateRight(11) == (x >> 11) | (x << 21);
    assert x.RotateRight(25) == (x >> 25) | (x << 7);
    assert x.RotateRight(7) == (x >> 7) | (x << 25);
    assert x.RotateRight(18) == (x >> 18) | (x << 14);
    assert x.RotateRight(17) == (x >> 17) | (x << 15);
    assert x.RotateRight(19) == (x >> 19) | (x << 13);
  }

  method LoadWords(message: Str, offset: nat, w: array<word>)
    requires w.Length == 64 && offset + 64 <= |message|
    modifies w
    ensures forall t :: 0 <= t < 16 ==> w[t] == Schedule(message[offset..offset + 64], t)
  {
    hide Join;
    ghost var m: Block := message[offset..offset + 64];
    for j := 0 to 16
      invariant forall t :: 0 <= t < j ==> w[t] == Schedule(m, t)
    {
      w[j] := Join(message[offset + j * 4], message[offset + j * 4 + 1],
                   message[offset + j * 4 + 2], message[offset + j * 4 + 3]);
    }
  }

  method ExtendWords(w: array<word>, ghost m: Block)
    requires w.Length == 64 && forall t :: 0 <= t < 16 ==> w[t] == Schedule(m, t)
    modifies w
    ensures forall t :: 0 <= t < 64 ==> w[t] == Schedule(m, t)
  {
    hide Sum4, Sig0, Sig1, SmallSigma0, SmallSigma1, Join;
    for j := 16 to 64
      invariant forall t :: 0 <= t < j ==> w[t] == Schedule(m, t)
    {
      RotationsByShifts(w[j - 2]);
      RotationsByShifts(w[j - 15]);
      w[j] := Sum4(Sig1(w[j - 2]), w[j - 7], Sig0(w[j - 15]), w[j - 16]);
    }
  }

  ghost predicate Holds(wv: array<word>, v: Vars)
    requires wv.Length == 8
    reads wv
  {
    wv[0] == v.a && wv[1] == v.b && wv[2] == v.c && wv[3] == v.d &&
    wv[4] == v.e && wv[5] == v.f && wv[6] == v.g && wv[7] == v.h
  }

  /** One round on the working array: the eight words shift down one by one. */
  method ShiftRound(wv: array<word>, k: word, w: word, ghost v: Vars)
    requires wv.Length == 8 && Holds(wv, v)
    modifies wv
    ensures Holds(wv, Round(v, k, w))
  {
    hide Sum, Sum5, Ep0, Ep1, BigSigma0, BigSigma1, Ch, Maj;
    RotationsByShifts(wv[4]);
    RotationsByShifts(wv[0]);
    var t1 := Sum5(wv[7], Ep1(wv[4]), Ch(wv[4], wv[5], wv[6]), k, w);
    var t2 := Sum(Ep0(wv[0]), Maj(wv[0], wv[1], wv[2]));
    wv[7] := wv[6];
    wv[6] := wv[5];
    wv[5] := wv[4];
    wv[4] := Sum(wv[3], t1);
    wv[3] := wv[2];
    wv[2] := wv[1];
    wv[1] := wv[0];
    wv[0] := Sum(t1, t2);
  }

  /** The 64 rounds on a copy of the hash value. */
  method RunRounds(h: array<word>, w: array<word>, wv: array<word>, ghost m: Block)
    requires h.Length == 8 && w.Length == 64 && wv.Length == 8 && h != wv && w != wv
    requires forall t :: 0 <= t < 64 ==> w[t] == Schedule(m, t)
    modifies wv
    ensures Holds(wv, Rounds(VarsOf(h[..]), m, 64))
  {
    hide Schedule, Round;
    for j := 0 to 8
      invariant forall t :: 0 <= t < j ==> wv[t] == h[t]
    {
      wv[j] := h[j];
    }
    for j := 0 to 64
      invariant Holds(wv, Rounds(VarsOf(h[..]), m, j))
    {
      ShiftRound(wv, K[j], w[j], Rounds(VarsOf(h[..]), m, j));
    }
  }

  method AddInto(h: array<word>, wv: array<word>)
    requires h.Length == 8 && wv.Length == 8 && h != wv
    modifies h
    ensures forall t :: 0 <= t < 8 ==> h[t] == Sum(old(h[t]), wv[t])
  {
    hide Sum;
    for j := 0 to 8
      invariant forall t :: 0 <= t < 8 ==> h[t] == if t < j then Sum(old(h[t]), wv[t]) else old(h[t])
    {
      h[j] := Sum(h[j], wv[j]);
    }
  }

  /** Folds one block of `message` into `h`. */
  method TransformBlock(message: Str, offset: nat, h: array<word>, w: array<word>, wv: array<word>)
    requires h.Length == 8 && w.Length == 64 && wv.Length == 8 && h != w && h != wv && w != wv
    requires offset + 64 <= |message|
    modifies h, w, wv
    ensures h[..] == Compress(old(h[..]), message[offset..offset + 64])
  {
    hide Sum, Schedule, Rounds, VarsOf;
    LoadWords(message, offset, w);
    ExtendWords(w, message[offset..offset + 64]);
    RunRounds(h, w, wv, message[offset..offset + 64]);
    AddInto(h, wv);
  }

  /** Folds `blocks` blocks of `message` into `h`. */
  method Transform(message: Str, blocks: nat, h: array<word>)
    requires h.Length == 8 && 64 * blocks <= |message| && blocks < TWO_32
    modifies h
    ensures h[..] == WrappedFold(old(h[..]), message, blocks)
  {
    hide Compress;
    var w, wv := new word[64], new word[8];
    for i := 0 to blocks
      invariant h[..] == WrappedFold(old(h[..]), message, i)
    {
      OffsetInside(i, blocks);
      TransformBlock(message, i * 64 % TWO_32, h, w, wv);
    }
  }

  // ---- Whole digests ----

  /** The digest of section 6.2.2 of FIPS 180-4. */
  function Digest(input: Str): State {
    PadLeast(input);
    Fold(H0, Pad(input), |Pad(input)| / 64)
  }

  /** The block count, narrowed to 32 bits. */
  function BlockCount(size: nat): (n: nat)
    ensures n < TWO_32 && 64 * n <= size
  {
    size / 64 % TWO_32
  }

  /** What the implementation computes for any input. */
  function WrappedDigest(input: Str): State {
    WrappedFold(H0, Pad(input), BlockCount(|Pad(input)|))
  }

  lemma DigestExact(input: Str)
    requires |Pad(input)| <= TWO_32
    ensures WrappedDigest(input) == Digest(input)
  {
    hide Fold, WrappedFold, Pad;
    PadLeast(input);
    WrappedFoldExact(H0, Pad(input), |Pad(input)| / 64);
  }

  /** The words of a hash value as unsigned numbers. */
  function Values(h: State): (v: seq<nat>)
    ensures |v| == 8 && AllWords(v)
  {
    seq(8, i requires 0 <= i < 8 => h[i] as nat)
  }

  method PrintWords(h: array<word>) returns (text: Str)
    requires h.Length == 8
    ensures text == WordsText(Values(h[..]))
  {
    ghost var v := Values(h[..]);
    text := [];
    for i := 0 to 8
      invariant text == WordsText(v[..i])
    {
      assert v[..i + 1][..i] == v[..i];
      text := text + WordText(h[i] as nat);
    }
    assert v[..8] == v;
  }

  method Sha256(input: Str) returns (text: Str)
    ensures text == WordsText(Values(WrappedDigest(input)))
  {
    hide WrappedFold, Pad, Values, WordsText;
    var h := new word[8](i requires 0 <= i < 8 => H0[i]);
    var msg := AppendPadding(input);
    PadLeast(input);
    assert h[..] == H0;
    Transform(msg, BlockCount(|msg|), h);
    text := PrintWords(h);
  }
}
