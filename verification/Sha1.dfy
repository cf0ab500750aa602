/** SHA-1: the block loop on local words and arrays, and the functional definition of
    section 6.1 of FIPS 180-4 that it refines. */
module Sha1 {
  import opened Bytes
  import opened Padding
  import opened Words

  // ---- FIPS 180-4, sections 4.1.1, 4.2.1 and 6.1 ----

  function Choice(t: nat, x: word, y: word, z: word): word {
    if t < 20 then Ch(x, y, z) else if 40 <= t < 60 then Maj(x, y, z) else Parity(x, y, z)
  }

  function RoundConstant(t: nat): word {
    if t < 20 then 0x5a827999 else if t < 40 then 0x6ed9eba1 else if t < 60 then 0x8f1bbcdc else 0xca62c1d6
  }

  function Schedule(m: Block, t: nat): word
    requires t < 80
  {
    if t < 16 then Join(m[t * 4], m[t * 4 + 1], m[t * 4 + 2], m[t * 4 + 3])
    else RotL1(Xor4(Schedule(m, t - 3), Schedule(m, t - 8), Schedule(m, t - 14), Schedule(m, t - 16)))
  }

  function Xor4(x: word, y: word, z: word, u: word): word { x ^ y ^ z ^ u }

  function RotL1(x: word): word { x.RotateLeft(1) }

  function RotL5(x: word): word { x.RotateLeft(5) }

  function RotL30(x: word): word { x.RotateLeft(30) }

  datatype Vars = Vars(a: word, b: word, c: word, d: word, e: word)

  const H0 := Vars(0x67452301, 0xefcdab89, 0x98badcfe, 0x10325476, 0xc3d2e1f0)

  function Round(v: Vars, t: nat, w: word): Vars {
    Vars(Sum5(RotL5(v.a), Choice(t, v.b, v.c, v.d), v.e, RoundConstant(t), w), v.a, RotL30(v.b), v.c, v.d)
  }

  function Rounds(v: Vars, m: Block, t: nat): Vars
    requires t <= 80
  {
    if t == 0 then v else Round(Rounds(v, m, t - 1), t - 1, Schedule(m, t - 1))
  }

  function Compress(h: Vars, m: Block): Vars {
    var v := Rounds(h, m, 80);
    Vars(Sum(h.a, v.a), Sum(h.b, v.b), Sum(h.c, v.c), Sum(h.d, v.d), Sum(h.e, v.e))
  }

  function Fold(h: Vars, msg: Str, n: nat): Vars
    requires 64 * n <= |msg|
  {
    if n == 0 then h else Compress(Fold(h, msg, n - 1), msg[64 * (n - 1)..64 * n])
  }

  /** The 20-byte digest: the five words, each most significant byte first. */
  function Digest(msg: Str): (s: Str)
    ensures |s| == 20
  {
    PadLeast(msg);
    var h := Fold(H0, Pad(msg), |Pad(msg)| / 64);
    WordBytes(h.a) + WordBytes(h.b) + WordBytes(h.c) + WordBytes(h.d) + WordBytes(h.e)
  }

  function WordBytes(h: word): (s: Str)
    ensures |s| == 4
  {
    BigEndian(h as nat, 4)
  }

  // ---- The implementation ----

  // The implementation selects with inclusive or.

  function OrCh(b: word, c: word, d: word): word { (b & c) | (!b & d) }

  function OrMaj(b: word, c: word, d: word): word { (b & c) | (b & d) | (c & d) }

  lemma OrIsXorForChoice(b: word, c: word, d: word)
    ensures (b & c) | (!b & d) == (b & c) ^ (!b & d)
  {
  }

  lemma OrIsXorForMajority(b: word, c: word, d: word)
    ensures (b & c) | (b & d) | (c & d) == (b & c) ^ (b & d) ^ (c & d)
  {
  }

  lemma ChoiceByOr(b: word, c: word, d: word)
    ensures OrCh(b, c, d) == Ch(b, c, d)
    ensures OrMaj(b, c, d) == Maj(b, c, d)
  {
    OrIsXorForChoice(b, c, d);
    OrIsXorForMajority(b, c, d);
  }

  lemma RotationsByShifts(x: word)
    ensures (x << 1) | (x >> 31) == RotL1(x)
    ensures (x << 5) | (x >> 27) == RotL5(x)
    ensures (x << 30) | (x >> 2) == RotL30(x)
  {
  }

  method LoadWords(block: Str, chunk: nat, w: array<word>)
    requires w.Length == 80 && chunk + 64 <= |block|
    modifies w
    ensures forall t :: 0 <= t < 16 ==> w[t] == Schedule(block[chunk..chunk + 64], t)
  {
    hide Join;
    ghost var m: Block := block[chunk..chunk + 64];
    for i := 0 to 16
      invariant forall t :: 0 <= t < i ==> w[t] == Schedule(m, t)
    {
      w[i] := Join(block[chunk + i * 4], block[chunk + i * 4 + 1],
                   block[chunk + i * 4 + 2], block[chunk + i * 4 + 3]);
    }
  }

  method RotateWord(x: word) returns (r: word)
    ensures r == RotL1(x)
  {
    RotationsByShifts(x);
    r := (x << 1) | (x >> 31);
  }

  method ExtendWords(w: array<word>, ghost m: Block)
    requires w.Length == 80 && forall t :: 0 <= t < 16 ==> w[t] == Schedule(m, t)
    modifies w
    ensures forall t :: 0 <= t < 80 ==> w[t] == Schedule(m, t)
  {
    hide Join, Xor4, RotL1;
    for i := 16 to 80
      invariant forall t :: 0 <= t < i ==> w[t] == Schedule(m, t)
    {
      var val := Xor4(w[i - 3], w[i - 8], w[i - 14], w[i - 16]);
      var rotated := RotateWord(val);
      w[i] := rotated;
    }
  }

  /** The branch on the round number. */
  method Select(i: nat, b: word, c: word, d: word) returns (f: word, k: word)
    ensures f == Choice(i, b, c, d) && k == RoundConstant(i)
  {
    hide Ch, Maj, Parity, OrCh, OrMaj;
    ChoiceByOr(b, c, d);
    if i < 20 {
      f := OrCh(b, c, d);
      k := 0x5A827999;
    } else if i < 40 {
      f := Parity(b, c, d);
      k := 0x6ED9EBA1;
    } else if i < 60 {
      f := OrMaj(b, c, d);
      k := 0x8F1BBCDC;
    } else {
      f := Parity(b, c, d);
      k := 0xCA62C1D6;
    }
  }

  method RotateVars(a: word, b: word) returns (a5: word, b30: word)
    ensures a5 == RotL5(a) && b30 == RotL30(b)
  {
    RotationsByShifts(a);
    RotationsByShifts(b);
    a5 := (a << 5) | (a >> 27);
    b30 := (b << 30) | (b >> 2);
  }

  /** The 80 rounds on five local words. */
  method RunRounds(h: Vars, w: array<word>, ghost m: Block) returns (v: Vars)
    requires w.Length == 80 && forall t :: 0 <= t < 80 ==> w[t] == Schedule(m, t)
    ensures v == Rounds(h, m, 80)
  {
    hide Sum5, Choice, RoundConstant, RotL5, RotL30, Schedule;
    var a, b, c, d, e := h.a, h.b, h.c, h.d, h.e;
    for i := 0 to 80
      invariant Vars(a, b, c, d, e) == Rounds(h, m, i)
    {
      var f, k := Select(i, b, c, d);
      var a5, b30 := RotateVars(a, b);
      var temp := Sum5(a5, f, e, k, w[i]);
      e := d;
      d := c;
      c := b30;
      b := a;
      a := temp;
    }
    v := Vars(a, b, c, d, e);
  }

  method AddVars(h: Vars, v: Vars, ghost m: Block) returns (r: Vars)
    requires v == Rounds(h, m, 80)
    ensures r == Compress(h, m)
  {
    hide Sum;
    r := Vars(Sum(h.a, v.a), Sum(h.b, v.b), Sum(h.c, v.c), Sum(h.d, v.d), Sum(h.e, v.e));
  }

  method FoldChunks(block: Str) returns (h: Vars)
    requires |block| % 64 == 0
    ensures h == Fold(H0, block, |block| / 64)
  {
    hide Compress, Rounds, Schedule;
    h := H0;
    var w := new word[80];
    var chunk := 0;
    ghost var n := 0;
    while chunk < |block|
      invariant chunk == 64 * n <= |block|
      invariant h == Fold(H0, block, n)
    {
      LoadWords(block, chunk, w);
      ExtendWords(w, block[chunk..chunk + 64]);
      var v := RunRounds(h, w, block[chunk..chunk + 64]);
      h := AddVars(h, v, block[chunk..chunk + 64]);
      chunk := chunk + 64;
      n := n + 1;
    }
  }

  lemma FourBytes(n: nat)
    ensures BigEndian(n, 4) == [ShiftBytes(n, 3) % 256, ShiftBytes(n, 2) % 256, ShiftBytes(n, 1) % 256, n % 256]
  {
    assert BigEndian(ShiftBytes(n, 3), 1) == [ShiftBytes(n, 3) % 256];
    assert BigEndian(ShiftBytes(n, 2), 2) == BigEndian(ShiftBytes(n, 3), 1) + [ShiftBytes(n, 2) % 256];
    assert BigEndian(ShiftBytes(n, 1), 3) == BigEndian(ShiftBytes(n, 2), 2) + [ShiftBytes(n, 1) % 256];
  }

  method PutWord(hash: Str, h: word) returns (r: Str)
    ensures r == hash + WordBytes(h)
  {
    var n := h as nat;
    FourBytes(n);
    r := hash + [ShiftBytes(n, 3) % 256, ShiftBytes(n, 2) % 256, ShiftBytes(n, 1) % 256, n % 256];
  }

  method Sha1(msg: Str) returns (hash: Str)
    ensures hash == Digest(msg)
  {
    hide Fold, Pad, WordBytes;
    var block := AppendPadding(msg);
    PadLeast(msg);
    var h := FoldChunks(block);
    hash := PutWord([], h.a);
    hash := PutWord(hash, h.b);
    hash := PutWord(hash, h.c);
    hash := PutWord(hash, h.d);
    hash := PutWord(hash, h.e);
  }
}
