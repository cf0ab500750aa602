/** Base64: the encoder with its 32-bit accumulator, and section 4 of RFC 4648. */
module Base64 {
  import opened Bytes
  import opened Options

  const EQUALS: byte := '=' as int

  /** Letter `v` of the table "A-Z a-z 0-9 + /". */
  function Letter(v: nat): byte
    requires v < 64
  {
    if v < 26 then 'A' as int + v
    else if v < 52 then 'a' as int + (v - 26)
    else if v < 62 then '0' as int + (v - 52)
    else if v == 62 then '+' as int
    else '/' as int
  }

  // ---- RFC 4648, section 4 ----

  // The four six-bit numbers of a 24-bit group, on its three bytes.

  function First(a: byte): (v: nat)
    ensures v < 64
  {
    a / 4
  }

  function Second(a: byte, b: byte): (v: nat)
    ensures v < 64
  {
    a % 4 * 16 + b / 16
  }

  function Third(b: byte, c: byte): (v: nat)
    ensures v < 64
  {
    b % 16 * 4 + c / 64
  }

  function Fourth(c: byte): (v: nat)
    ensures v < 64
  {
    c % 64
  }

  /** Three bytes as four letters. */
  function Group(a: byte, b: byte, c: byte): Str {
    [Letter(First(a)), Letter(Second(a, b)), Letter(Third(b, c)), Letter(Fourth(c))]
  }

  function Encode(s: Str): Str {
    if |s| == 0 then []
    else if |s| == 1 then [Letter(First(s[0])), Letter(Second(s[0], 0)), EQUALS, EQUALS]
    else if |s| == 2 then [Letter(First(s[0])), Letter(Second(s[0], s[1])), Letter(Third(s[1], 0)), EQUALS]
    else Group(s[0], s[1], s[2]) + Encode(s[3..])
  }

  /** The number a letter stands for, by the ranges of Table 1. */
  function Value(c: byte): (v: Option<nat>)
    ensures v.Some? ==> v.value < 64
  {
    if 'A' as int <= c <= 'Z' as int then Some(c - 'A' as int)
    else if 'a' as int <= c <= 'z' as int then Some(c - 'a' as int + 26)
    else if '0' as int <= c <= '9' as int then Some(c - '0' as int + 52)
    else if c == '+' as int then Some(62)
    else if c == '/' as int then Some(63)
    else None
  }

  // The three bytes of a 24-bit group, from its four six-bit numbers.

  function High(v0: nat, v1: nat): byte
    requires v0 < 64 && v1 < 64
  {
    v0 * 4 + v1 / 16
  }

  function Middle(v1: nat, v2: nat): byte
    requires v1 < 64 && v2 < 64
  {
    v1 % 16 * 16 + v2 / 4
  }

  function Low(v2: nat, v3: nat): byte
    requires v2 < 64 && v3 < 64
  {
    v2 % 4 * 64 + v3
  }

  /** A strict decoder: padding only at the end, and no stray bits under it. */
  function Decode(s: Str): Option<Str> {
    if s == [] then Some([])
    else if |s| < 4 then None
    else
      var (v0, v1, v2, v3) := (Value(s[0]), Value(s[1]), Value(s[2]), Value(s[3]));
      if v0.None? || v1.None? then None
      else if s[2] == EQUALS then
        if |s| == 4 && s[3] == EQUALS && v1.value % 16 == 0 then Some([High(v0.value, v1.value)]) else None
      else if v2.None? then None
      else if s[3] == EQUALS then
        if |s| == 4 && v2.value % 4 == 0 then
          Some([High(v0.value, v1.value), Middle(v1.value, v2.value)])
        else None
      else if v3.None? then None
      else
        var rest := Decode(s[4..]);
        if rest.None? then None
        else Some([High(v0.value, v1.value), Middle(v1.value, v2.value), Low(v2.value, v3.value)] + rest.value)
  }

  lemma ValueOfLetter(v: nat)
    requires v < 64
    ensures Value(Letter(v)) == Some(v) && Letter(v) != EQUALS
  {
  }

  lemma LetterOfValue(c: byte)
    requires Value(c).Some?
    ensures Letter(Value(c).value) == c
  {
  }

  lemma EncodeLength(s: Str)
    ensures |Encode(s)| == (|s| + 2) / 3 * 4
  {
    var n := |s| / 3;
    EncodeQuads(s, n);
    assert (|s| + 2) / 3 == if |s| == 3 * n then n else n + 1;
  }

  lemma {:induction false} EncodeQuads(s: Str, n: nat)
    requires 3 * n <= |s| < 3 * n + 3
    ensures |Encode(s)| == if |s| == 3 * n then 4 * n else 4 * n + 4
  {
    hide Letter, First, Second, Third, Fourth;
    if |s| >= 3 {
      EncodeQuads(s[3..], n - 1);
    }
  }

  /** Splitting three bytes into numbers and joining them again, and the other way around. */
  lemma SplitJoin(a: byte, b: byte, c: byte)
    ensures High(First(a), Second(a, b)) == a
    ensures Middle(Second(a, b), Third(b, c)) == b
    ensures Low(Third(b, c), Fourth(c)) == c
    ensures Second(a, 0) % 16 == 0 && Third(b, 0) % 4 == 0
  {
    assert Second(a, b) / 16 == a % 4 && Second(a, b) % 16 == b / 16;
    assert Third(b, c) / 4 == b % 16 && Third(b, c) % 4 == c / 64;
  }

  lemma JoinSplit(v0: nat, v1: nat, v2: nat, v3: nat)
    requires v0 < 64 && v1 < 64 && v2 < 64 && v3 < 64
    ensures First(High(v0, v1)) == v0
    ensures Second(High(v0, v1), Middle(v1, v2)) == v1
    ensures Third(Middle(v1, v2), Low(v2, v3)) == v2
    ensures Fourth(Low(v2, v3)) == v3
    ensures v1 % 16 == 0 ==> Second(High(v0, v1), 0) == v1
    ensures v2 % 4 == 0 ==> Third(Middle(v1, v2), 0) == v2
  {
  }

  /** The decoder recovers every byte string. */
  lemma {:induction false} DecodeEncode(s: Str)
    ensures Decode(Encode(s)) == Some(s)
  {
    hide Letter, Value, First, Second, Third, Fourth, High, Middle, Low, Group;
    if |s| == 0 {
    } else if |s| == 1 {
      DecodeOne(s);
    } else if |s| == 2 {
      DecodeTwo(s);
    } else {
      hide Encode, Decode;
      EncodeGroup(s);
      DecodeEncode(s[3..]);
      DecodeGroup(s[0], s[1], s[2], Encode(s[3..]));
      assert s == [s[0], s[1], s[2]] + s[3..];
    }
  }

  lemma EncodeGroup(s: Str)
    requires |s| >= 3
    ensures Encode(s) == Group(s[0], s[1], s[2]) + Encode(s[3..])
  {
    hide Group;
  }

  lemma DecodeOne(s: Str)
    requires |s| == 1
    ensures Decode(Encode(s)) == Some(s)
  {
    hide Letter, Value, First, Second, Third, Fourth, High, Middle, Low, Group;
    SplitJoin(s[0], 0, 0);
    ValueOfLetter(First(s[0]));
    ValueOfLetter(Second(s[0], 0));
    assert s == [s[0]];
  }

  lemma DecodeTwo(s: Str)
    requires |s| == 2
    ensures Decode(Encode(s)) == Some(s)
  {
    hide Letter, Value, First, Second, Third, Fourth, High, Middle, Low, Group;
    SplitJoin(s[0], s[1], 0);
    ValueOfLetter(First(s[0]));
    ValueOfLetter(Second(s[0], s[1]));
    ValueOfLetter(Third(s[1], 0));
    assert s == [s[0], s[1]];
  }

  lemma DecodeGroup(a: byte, b: byte, c: byte, rest: Str)
    requires Decode(rest).Some?
    ensures Decode(Group(a, b, c) + rest) == Some([a, b, c] + Decode(rest).value)
  {
    hide Letter, Value, First, Second, Third, Fourth, High, Middle, Low;
    ValueOfLetter(First(a));
    ValueOfLetter(Second(a, b));
    ValueOfLetter(Third(b, c));
    ValueOfLetter(Fourth(c));
    SplitJoin(a, b, c);
    assert (Group(a, b, c) + rest)[4..] == rest;
  }

  /** The decoder accepts nothing else: a text that decodes is the encoding of its value. */
  lemma {:induction false} EncodeDecode(t: Str)
    requires Decode(t).Some?
    ensures Encode(Decode(t).value) == t
  {
    hide Letter, Value, First, Second, Third, Fourth, High, Middle, Low;
    if t != [] {
      LetterOfValue(t[0]);
      LetterOfValue(t[1]);
      var v0, v1 := Value(t[0]).value, Value(t[1]).value;
      if t[2] == EQUALS {
        JoinSplit(v0, v1, 0, 0);
        assert t == [t[0], t[1], EQUALS, EQUALS];
      } else {
        LetterOfValue(t[2]);
        var v2 := Value(t[2]).value;
        if t[3] == EQUALS {
          JoinSplit(v0, v1, v2, 0);
          assert t == [t[0], t[1], t[2], EQUALS];
        } else {
          LetterOfValue(t[3]);
          JoinSplit(v0, v1, v2, Value(t[3]).value);
          EncodeDecode(t[4..]);
          assert Decode(t).value[3..] == Decode(t[4..]).value;
          assert t == [t[0], t[1], t[2], t[3]] + t[4..];
        }
      }
    }
  }

  lemma {:induction false} EncodeAppend(s: Str, n: nat, t: Str)
    requires |s| == 3 * n
    ensures Encode(s + t) == Encode(s) + Encode(t)
  {
    hide Group;
    if n == 0 {
      assert s + t == t;
    } else {
      EncodeAppend(s[3..], n - 1, t);
      assert (s + t)[3..] == s[3..] + t;
    }
  }

  // ---- The table and the test vectors of RFC 4648 ----

  /** Table 1, by rows. */
  lemma Table()
    ensures forall v :: 0 <= v < 13 ==> Letter(v) == Ascii("ABCDEFGHIJKLM")[v]
    ensures forall v :: 0 <= v < 13 ==> Letter(13 + v) == Ascii("NOPQRSTUVWXYZ")[v]
    ensures forall v :: 0 <= v < 13 ==> Letter(26 + v) == Ascii("abcdefghijklm")[v]
    ensures forall v :: 0 <= v < 13 ==> Letter(39 + v) == Ascii("nopqrstuvwxyz")[v]
    ensures forall v :: 0 <= v < 10 ==> Letter(52 + v) == Ascii("0123456789")[v]
    ensures Letter(62) == '+' as int && Letter(63) == '/' as int
  {
    hide Ascii;
    Capitals();
    SmallLetters();
    Digits();
  }

  lemma Capitals()
    ensures forall v :: 0 <= v < 13 ==> Ascii("ABCDEFGHIJKLM")[v] == 'A' as int + v
    ensures forall v :: 0 <= v < 13 ==> Ascii("NOPQRSTUVWXYZ")[v] == 'N' as int + v
  {
  }

  lemma SmallLetters()
    ensures forall v :: 0 <= v < 13 ==> Ascii("abcdefghijklm")[v] == 'a' as int + v
    ensures forall v :: 0 <= v < 13 ==> Ascii("nopqrstuvwxyz")[v] == 'n' as int + v
  {
  }

  lemma Digits()
    ensures forall v :: 0 <= v < 10 ==> Ascii("0123456789")[v] == '0' as int + v
  {
  }

  /** Section 10 of RFC 4648: "foobar" and its prefixes. */
  lemma TestVectors()
    ensures Encode([]) == []
    ensures Encode(Ascii("f")) == Ascii("Zg==")
    ensures Encode(Ascii("fo")) == Ascii("Zm8=")
    ensures Encode(Ascii("foo")) == Ascii("Zm9v")
    ensures Encode(Ascii("foob")) == Ascii("Zm9vYg==")
    ensures Encode(Ascii("fooba")) == Ascii("Zm9vYmE=")
    ensures Encode(Ascii("foobar")) == Ascii("Zm9vYmFy")
  {
    hide Encode, Ascii;
    VectorTexts();
    LongVectorTexts();
    assert Encode([]) == [] by { NoBytes(); }
    ShortVectors();
    GroupVectors();
    WholeGroup(102, 111, 111, []);
    WholeGroup(102, 111, 111, [98]);
    WholeGroup(102, 111, 111, [98, 97]);
    WholeGroup(102, 111, 111, [98, 97, 114]);
    WholeGroup(98, 97, 114, []);
    assert [102, 111, 111] + [] == [102, 111, 111] && [98, 97, 114] + [] == [98, 97, 114];
    assert [102, 111, 111] + [98] == [102, 111, 111, 98];
    assert [102, 111, 111] + [98, 97] == [102, 111, 111, 98, 97];
    assert [102, 111, 111] + [98, 97, 114] == [102, 111, 111, 98, 97, 114];
  }

  lemma VectorTexts()
    ensures Ascii("f") == [102] && Ascii("fo") == [102, 111] && Ascii("foo") == [102, 111, 111]
    ensures Ascii("foob") == [102, 111, 111, 98] && Ascii("fooba") == [102, 111, 111, 98, 97]
    ensures Ascii("foobar") == [102, 111, 111, 98, 97, 114]
    ensures Ascii("Zg==") == [90, 103, 61, 61] && Ascii("Zm8=") == [90, 109, 56, 61]
    ensures Ascii("Zm9v") == [90, 109, 57, 118]
  {
  }

  lemma LongVectorTexts()
    ensures Ascii("Zm9vYg==") == [90, 109, 57, 118] + [89, 103, 61, 61]
    ensures Ascii("Zm9vYmE=") == [90, 109, 57, 118] + [89, 109, 69, 61]
    ensures Ascii("Zm9vYmFy") == [90, 109, 57, 118] + [89, 109, 70, 121]
  {
  }

  lemma NoBytes()
    ensures Encode([]) == []
  {
  }

  lemma ShortVectors()
    ensures Encode([102]) == [90, 103, 61, 61] && Encode([102, 111]) == [90, 109, 56, 61]
    ensures Encode([98]) == [89, 103, 61, 61] && Encode([98, 97]) == [89, 109, 69, 61]
  {
  }

  lemma GroupVectors()
    ensures Group(102, 111, 111) == [90, 109, 57, 118] && Group(98, 97, 114) == [89, 109, 70, 121]
  {
    hide Group, Letter;
    GroupIs(102, 111, 111, 25, 38, 61, 47);
    GroupIs(98, 97, 114, 24, 38, 5, 50);
    LetterVectors();
  }

  lemma LetterVectors()
    ensures Letter(25) == 90 && Letter(38) == 109 && Letter(61) == 57 && Letter(47) == 118
    ensures Letter(24) == 89 && Letter(5) == 70 && Letter(50) == 121
  {
  }

  lemma GroupIs(a: byte, b: byte, c: byte, v0: nat, v1: nat, v2: nat, v3: nat)
    requires v0 == First(a) && v1 == Second(a, b) && v2 == Third(b, c) && v3 == Fourth(c)
    ensures v0 < 64 && v1 < 64 && v2 < 64 && v3 < 64
    ensures Group(a, b, c) == [Letter(v0), Letter(v1), Letter(v2), Letter(v3)]
  {
    hide Letter, First, Second, Third, Fourth;
  }

  /** A whole group in front. */
  lemma WholeGroup(a: byte, b: byte, c: byte, rest: Str)
    ensures Encode([a, b, c] + rest) == Group(a, b, c) + Encode(rest)
  {
    hide Group;
    assert ([a, b, c] + rest)[3..] == rest;
  }

  // ---- The implementation ----

  /** Reduction of a result to a 32-bit two's-complement `int`. */
  function Wrap32(x: int): (r: int)
    ensures -0x8000_0000 <= r < 0x8000_0000
  {
    (x + 0x8000_0000) % TWO_32 - 0x8000_0000
  }

  /** `(val >> shift) & 0x3F`, with the arithmetic shift of a negative `val`. */
  function Sextet(val: int, shift: nat): (v: nat)
    ensures v < 64
  {
    val / Pow2(shift) % 64
  }

  lemma Shifts()
    ensures Pow2(0) == 1 && Pow2(2) == 4 && Pow2(4) == 16 && Pow2(6) == 64
  {
    assert Pow2(2) == 4;
    assert Pow2(4) == 4 * Pow2(2);
    assert Pow2(6) == 4 * Pow2(4);
  }

  /** Wrapping subtracts a whole number of turns. */
  lemma Wrap32Turns(x: int) returns (k: int)
    ensures Wrap32(x) == x - TWO_32 * k
  {
    k := (x + 0x8000_0000) / TWO_32;
  }

  /** The sixteen low bits survive the wrapping shift. */
  lemma LowBits(val: int, c: byte) returns (q: int)
    ensures Wrap32(Wrap32(val * 256) + c) == 65536 * q + val % 256 * 256 + c
  {
    hide Wrap32;
    var k := Wrap32Turns(val * 256);
    var l := Wrap32Turns(Wrap32(val * 256) + c);
    q := val / 256 - 65536 * k - 65536 * l;
  }

  lemma Sextet0(q: int, b: byte, c: byte)
    ensures (65536 * q + b * 256 + c) % 64 == c % 64
  {
  }

  lemma Sextet2(q: int, b: byte, c: byte)
    ensures (65536 * q + b * 256 + c) / 4 % 64 == c / 4
  {
    assert (65536 * q + b * 256 + c) / 4 == 64 * (256 * q + b) + c / 4;
  }

  lemma Sextet4(q: int, b: byte, c: byte)
    ensures (65536 * q + b * 256 + c) / 16 % 64 == b % 4 * 16 + c / 16
  {
    assert (65536 * q + b * 256 + c) / 16 == 64 * (64 * q + b / 4) + (b % 4 * 16 + c / 16);
  }

  lemma Sextet6(q: int, b: byte, c: byte)
    ensures (65536 * q + b * 256 + c) / 64 % 64 == b % 16 * 4 + c / 64
  {
    DropSixBits(1024 * q + 4 * b, c);
    assert 65536 * q + b * 256 + c == 64 * (1024 * q + 4 * b) + c;
    SixLowBits(q, b, c / 64);
  }

  lemma SixLowBits(q: int, b: byte, top: nat)
    requires top < 4
    ensures (1024 * q + 4 * b + top) % 64 == b % 16 * 4 + top
  {
    var high, low := b / 16, b % 16;
    assert b == 16 * high + low;
    LowSix(16 * q + high, low * 4 + top);
  }

  lemma LowSix(x: int, r: nat)
    requires r < 64
    ensures (64 * x + r) % 64 == r
  {
  }

  lemma DropSixBits(x: int, c: byte)
    ensures (64 * x + c) / 64 == x + c / 64
  {
  }

  /** What the six bits at each drift of the accumulator are. */
  lemma SextetsOf(val: int, q: int, b: byte, c: byte)
    requires val == 65536 * q + b * 256 + c
    ensures Sextet(val, 2) == First(c)
    ensures Sextet(val, 4) == Second(b, c)
    ensures Sextet(val, 6) == Third(b, c)
    ensures Sextet(val, 0) == Fourth(c)
  {
    Shifts();
    Sextet0(q, b, c);
    Sextet2(q, b, c);
    Sextet4(q, b, c);
    Sextet6(q, b, c);
  }

  /** What is left over under the padding. */
  lemma SextetsLeft(val: int, c: byte)
    requires val % 256 == c
    ensures Sextet(Wrap32(val * 256), 4) == Second(c, 0)
    ensures Sextet(Wrap32(val * 256), 6) == Third(c, 0)
  {
    var q := LowBits(val, 0);
    var k := Wrap32Turns(val * 256);
    assert Wrap32(Wrap32(val * 256) + 0) == Wrap32(val * 256);
    SextetsOf(Wrap32(val * 256), q, c, 0);
  }

  /** The letters of the bytes after the last whole group. */
  function Partial(s: Str): Str
    requires |s| < 3
  {
    if |s| == 0 then []
    else if |s| == 1 then [Letter(First(s[0]))]
    else [Letter(First(s[0])), Letter(Second(s[0], s[1]))]
  }

  /** The letters the next byte `c` completes, after `phase` bytes of its group ending in `b`. */
  function Letters(phase: nat, b: byte, c: byte): Str {
    if phase == 0 then [Letter(First(c))]
    else if phase == 1 then [Letter(Second(b, c))]
    else [Letter(Third(b, c)), Letter(Fourth(c))]
  }

  /** What the code has written after `i` bytes. */
  ghost function Written(src: Str, i: nat): Str
    requires i <= |src|
  {
    Encode(src[..i - i % 3]) + Partial(src[i - i % 3..i])
  }

  /** The inner loop: one letter, or two when six bits are left over. */
  method PushSextets(base: Str, val: int, start: int) returns (out: Str, valb: int)
    requires start == 2 || start == 4 || start == 6
    ensures valb == if start == 6 then -6 else start - 6
    ensures out == base + if start == 6 then [Letter(Sextet(val, 6)), Letter(Sextet(val, 0))]
                          else [Letter(Sextet(val, start))]
  {
    hide Letter, Sextet;
    out, valb := base, start;
    while valb >= 0
      invariant valb == start || valb == start - 6 || valb == start - 12
      invariant valb == start ==> out == base
      invariant valb == start - 6 ==> out == base + [Letter(Sextet(val, start))]
      invariant valb == start - 12 ==> start == 6 && out == base + [Letter(Sextet(val, 6)), Letter(Sextet(val, 0))]
    {
      out := out + [Letter(Sextet(val, valb))];
      valb := valb - 6;
    }
  }

  /** Padding to a multiple of four. */
  method PushPadding(base: Str) returns (out: Str)
    ensures |out| % 4 == 0 && |out| < |base| + 4 && base <= out
    ensures forall k :: |base| <= k < |out| ==> out[k] == EQUALS
  {
    out := base;
    ghost var left: nat := (4 - |base| % 4) % 4;
    while |out| % 4 != 0
      invariant base <= out && |out| + left < |base| + 4
      invariant (|out| + left) % 4 == 0
      invariant forall k :: |base| <= k < |out| ==> out[k] == EQUALS
      decreases left
    {
      assert left > 0;
      out := out + [EQUALS];
      left := left - 1;
    }
  }

  /** The letter for the bits left over and the padding. */
  method Finish(base: Str, val: int, valb: int, ghost src: Str) returns (out: Str)
    requires base == Written(src, |src|) && valb == 2 * (|src| % 3) - 6
    requires |src| > 0 ==> val % 256 == src[|src| - 1]
    ensures out == Encode(src)
  {
    hide Encode, Wrap32, Letter, Sextet, First, Second, Third, Fourth, Written;
    out := base;
    LastGroup(src);
    EncodedInFours(src);
    if valb > -6 {
      SextetsLeft(val, src[|src| - 1]);
      out := out + [Letter(Sextet(Wrap32(val * 256), valb + 8))];
    }
    out := PushPadding(out);
  }

  method EncodeBytes(src: Str) returns (out: Str)
    ensures out == Encode(src)
  {
    hide Encode, Wrap32, Letters, Letter, Sextet, Written;
    out := [];
    var val, valb := 0, -6;
    EncodeNothing(src);
    for i := 0 to |src|
      invariant valb == 2 * (i % 3) - 6
      invariant out == Written(src, i)
      invariant i > 0 ==> val % 256 == src[i - 1]
    {
      var c := src[i];
      ghost var b := val % 256;
      ghost var q := LowBits(val, c);
      val := Wrap32(Wrap32(val * 256) + c);
      LettersOf(val, q, b, c, i % 3);
      WrittenNext(src, i, b);
      NextPhase(i);
      out, valb := PushSextets(out, val, valb + 8);
    }
    out := Finish(out, val, valb, src);
  }

  lemma NextPhase(i: nat)
    ensures (i + 1) % 3 == if i % 3 == 2 then 0 else i % 3 + 1
  {
  }

  lemma LettersOf(val: int, q: int, b: byte, c: byte, phase: nat)
    requires val == 65536 * q + b * 256 + c && phase < 3
    ensures Letters(phase, b, c)
         == if phase == 2 then [Letter(Sextet(val, 6)), Letter(Sextet(val, 0))]
            else [Letter(Sextet(val, 2 * phase + 2))]
  {
    hide Letter, Sextet, First, Second, Third, Fourth;
    SextetsOf(val, q, b, c);
  }

  lemma WrittenNext(src: Str, i: nat, b: byte)
    requires i < |src| && (i % 3 != 0 ==> b == src[i - 1])
    ensures Written(src, i + 1) == Written(src, i) + Letters(i % 3, b, src[i])
  {
    hide Encode, Partial, Letter, First, Second, Third, Fourth;
    var g := i / 3;
    NextPhase(i);
    assert i - i % 3 == 3 * g;
    if i % 3 == 2 {
      GroupDone(src, g);
      PartialNothing(src, i + 1);
    } else {
      PartialGrows(src, g, i);
    }
  }

  lemma PartialNothing(src: Str, i: nat)
    requires i <= |src|
    ensures src[i..i] == [] && Partial(src[i..i]) == []
  {
  }

  /** The last, incomplete group: its letters so far, one more and the padding. */
  lemma LastGroup(src: Str)
    ensures |src| % 3 == 0 ==> Encode(src) == Written(src, |src|)
    ensures |src| % 3 == 1 ==> Encode(src) == Written(src, |src|) + [Letter(Second(src[|src| - 1], 0)), EQUALS, EQUALS]
    ensures |src| % 3 == 2 ==> Encode(src) == Written(src, |src|) + [Letter(Third(src[|src| - 1], 0)), EQUALS]
  {
    hide Encode, Written, Partial, Letter, Second, Third;
    var whole, tail := WholeAndTail(src);
    EncodeTail(tail);
    var last := if tail == [] then 0 else src[|src| - 1];
    Regroup(Encode(whole), Partial(tail), [Letter(Second(last, 0)), EQUALS, EQUALS]);
    Regroup(Encode(whole), Partial(tail), [Letter(Third(last, 0)), EQUALS]);
    assert Encode(whole) + [] == Encode(whole);
  }

  lemma WholeAndTail(src: Str) returns (whole: Str, tail: Str)
    ensures |tail| == |src| % 3 && (tail != [] ==> tail[|tail| - 1] == src[|src| - 1])
    ensures Encode(src) == Encode(whole) + Encode(tail)
    ensures Written(src, |src|) == Encode(whole) + Partial(tail)
  {
    hide Encode, Partial;
    var n := |src| - |src| % 3;
    whole, tail := src[..n], src[n..];
    assert src == whole + tail && src[n..|src|] == tail;
    assert n == 3 * (|src| / 3);
    EncodeAppend(whole, |src| / 3, tail);
  }

  lemma EncodedInFours(src: Str)
    ensures |Encode(src)| % 4 == 0
  {
    hide Encode;
    var n := |src| / 3;
    EncodeQuads(src, n);
    FourTimes(n);
    FourTimes(n + 1);
  }

  lemma FourTimes(n: nat)
    ensures 4 * n % 4 == 0
  {
  }

  lemma Regroup(a: Str, b: Str, c: Str)
    ensures a + (b + c) == a + b + c
  {
  }

  lemma EncodeNothing(src: Str)
    ensures Written(src, 0) == []
  {
    assert src[..0] == [] && src[0..0] == [];
  }

  lemma Append13(x: byte, y: byte, z: byte, u: byte)
    ensures [x] + [y, z, u] == [x, y, z, u]
  {
    var s: Str := [x] + [y, z, u];
    assert s[0] == x && s[1] == y && s[2] == z && s[3] == u;
  }

  lemma Append22(x: byte, y: byte, z: byte, u: byte)
    ensures [x, y] + [z, u] == [x, y, z, u]
  {
    var s: Str := [x, y] + [z, u];
    assert s[0] == x && s[1] == y && s[2] == z && s[3] == u;
  }

  lemma EncodeTail(s: Str)
    requires |s| < 3
    ensures |s| == 0 ==> Encode(s) == [] && Partial(s) == []
    ensures |s| == 1 ==> Encode(s) == Partial(s) + [Letter(Second(s[0], 0)), EQUALS, EQUALS]
    ensures |s| == 2 ==> Encode(s) == Partial(s) + [Letter(Third(s[1], 0)), EQUALS]
  {
    hide Letter, Group, First, Second, Third, Fourth;
    if |s| == 1 {
      var x, y := Letter(First(s[0])), Letter(Second(s[0], 0));
      assert Encode(s) == [x, y, EQUALS, EQUALS] && Partial(s) == [x];
      Append13(x, y, EQUALS, EQUALS);
    } else if |s| == 2 {
      var x, y, z := Letter(First(s[0])), Letter(Second(s[0], s[1])), Letter(Third(s[1], 0));
      assert Encode(s) == [x, y, z, EQUALS] && Partial(s) == [x, y];
      Append22(x, y, z, EQUALS);
    }
  }

  lemma PartialGrows(src: Str, g: nat, i: nat)
    requires 3 * g <= i < 3 * g + 2 && i < |src|
    ensures Partial(src[3 * g..i + 1])
         == Partial(src[3 * g..i])
          + [Letter(if i == 3 * g then First(src[i]) else Second(src[i - 1], src[i]))]
  {
    hide Letter, First, Second, Third, Fourth;
    var now, next := src[3 * g..i], src[3 * g..i + 1];
    assert next == now + [src[i]];
    if i == 3 * g + 1 {
      assert now == [src[i - 1]];
    }
  }

  lemma GroupDone(src: Str, g: nat)
    requires 3 * g + 3 <= |src|
    ensures Encode(src[..3 * g + 3])
         == Encode(src[..3 * g]) + Partial(src[3 * g..3 * g + 2])
          + [Letter(Third(src[3 * g + 1], src[3 * g + 2])), Letter(Fourth(src[3 * g + 2]))]
  {
    hide Letter, First, Second, Third, Fourth;
    var group := src[3 * g..3 * g + 3];
    EncodeAppend(src[..3 * g], g, group);
    assert src[..3 * g + 3] == src[..3 * g] + group;
    assert Encode(group) == Group(group[0], group[1], group[2]) + Encode([]);
  }
}
