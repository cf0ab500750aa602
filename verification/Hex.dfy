/** Hexadecimal text: what `std::hex` prints with width 8 and fill '0', and what
    `std::stoull` reads back in base 16. */
module Hex {
  import opened Bytes

  function Digit(d: nat): byte
    requires d < 16
  {
    if d < 10 then '0' as int + d else 'a' as int + d - 10
  }

  predicate IsHex(c: byte) {
    '0' as int <= c <= '9' as int || 'a' as int <= c <= 'f' as int
  }

  predicate AllHex(s: Str) {
    forall i :: 0 <= i < |s| ==> IsHex(s[i])
  }

  function DigitValue(c: byte): (d: nat)
    requires IsHex(c)
    ensures d < 16
  {
    if c <= '9' as int then c - '0' as int else c - 'a' as int + 10
  }

  /** The digits of `n` without leading zeros. */
  function Print(n: nat): (s: Str)
    ensures |s| >= 1
  {
    if n < 16 then [Digit(n)] else Print(n / 16) + [Digit(n % 16)]
  }

  function PadLeft(s: Str, width: nat): Str {
    if |s| >= width then s else seq(width - |s|, _ => '0' as int) + s
  }

  function ParseHex(s: Str): nat
    requires AllHex(s)
  {
    if s == [] then 0 else ParseHex(s[..|s| - 1]) * 16 + DigitValue(s[|s| - 1])
  }

  function Pow16(k: nat): nat {
    if k == 0 then 1 else 16 * Pow16(k - 1)
  }

  lemma {:induction false} PrintRoundTrip(n: nat)
    ensures AllHex(Print(n)) && ParseHex(Print(n)) == n
  {
    var s := Print(n);
    if n < 16 {
      assert s[..|s| - 1] == [];
    } else {
      PrintRoundTrip(n / 16);
      assert s[..|s| - 1] == Print(n / 16);
    }
  }

  /** A number below 16^width prints with at most `width` digits. */
  lemma {:induction false} PrintLength(n: nat, width: nat)
    requires width > 0 && n < Pow16(width)
    ensures |Print(n)| <= width
  {
    if n >= 16 {
      PrintLength(n / 16, width - 1);
    }
  }

  lemma {:induction false} ParseLeadingZeros(k: nat, s: Str)
    requires AllHex(s)
    ensures AllHex(seq(k, _ => '0' as int) + s)
    ensures ParseHex(seq(k, _ => '0' as int) + s) == ParseHex(s)
  {
    var zeros: Str := seq(k, _ => '0' as int);
    var t := zeros + s;
    if s != [] {
      ParseLeadingZeros(k, s[..|s| - 1]);
      assert t[..|t| - 1] == zeros + s[..|s| - 1];
    } else if k > 0 {
      ParseLeadingZeros(k - 1, []);
      assert t[..|t| - 1] == seq(k - 1, _ => '0' as int) + [];
    }
  }

  /** A 32-bit number as exactly eight digits. */
  function WordText(n: nat): (s: Str)
    requires n < TWO_32
    ensures |s| == 8
  {
    PowEight();
    PrintLength(n, 8);
    PadLeft(Print(n), 8)
  }

  lemma PowEight()
    ensures Pow16(8) == TWO_32
  {
    assert Pow16(4) == 0x1_0000;
    assert Pow16(8) == 16 * 16 * 16 * 16 * Pow16(4);
  }

  lemma WordTextRoundTrip(n: nat)
    requires n < TWO_32
    ensures AllHex(WordText(n)) && ParseHex(WordText(n)) == n
  {
    PowEight();
    PrintLength(n, 8);
    PrintRoundTrip(n);
    ParseLeadingZeros(8 - |Print(n)|, Print(n));
  }

  /** The last `k` digits of a number. */
  function LastDigits(n: nat, k: nat): Str {
    if k == 0 then [] else LastDigits(n / 16, k - 1) + [Digit(n % 16)]
  }

  lemma {:induction false} LastDigitsZero(k: nat)
    ensures LastDigits(0, k) == seq(k, _ => '0' as int)
  {
    if k != 0 {
      LastDigitsZero(k - 1);
    }
  }

  lemma {:induction false} PaddedIsLast(n: nat, k: nat)
    requires k > 0 && n < Pow16(k)
    ensures PadLeft(Print(n), k) == LastDigits(n, k)
  {
    PrintLength(n, k);
    if n < 16 {
      LastDigitsZero(k - 1);
    } else {
      PrintLength(n / 16, k - 1);
      PaddedIsLast(n / 16, k - 1);
      PadLeftAppend(Print(n / 16), Digit(n % 16), k);
    }
  }

  lemma PadLeftAppend(s: Str, c: byte, k: nat)
    requires k > 0 && |s| <= k - 1
    ensures PadLeft(s + [c], k) == PadLeft(s, k - 1) + [c]
  {
  }

  /** The text of the word with these hexadecimal digits. */
  lemma WordTextIs(n: nat, d0: nat, d1: nat, d2: nat, d3: nat, d4: nat, d5: nat, d6: nat, d7: nat)
    requires d0 < 16 && d1 < 16 && d2 < 16 && d3 < 16 && d4 < 16 && d5 < 16 && d6 < 16 && d7 < 16
    requires n == d0 * 0x1000_0000 + d1 * 0x100_0000 + d2 * 0x10_0000 + d3 * 0x1_0000
                  + d4 * 0x1000 + d5 * 0x100 + d6 * 0x10 + d7
    ensures n < TWO_32
    ensures WordText(n)
         == [Digit(d0), Digit(d1), Digit(d2), Digit(d3), Digit(d4), Digit(d5), Digit(d6), Digit(d7)]
  {
    hide Digit, LastDigits, PadLeft, Print;
    PowEight();
    PaddedIsLast(n, 8);
    NoDigits();
    var n1 := d0;
    var n2 := n1 * 16 + d1;
    var n3 := n2 * 16 + d2;
    var n4 := n3 * 16 + d3;
    var n5 := n4 * 16 + d4;
    var n6 := n5 * 16 + d5;
    var n7 := n6 * 16 + d6;
    assert n == n7 * 16 + d7;
    OneMoreDigit(0, d0, 0, []);
    OneMoreDigit(n1, d1, 1, [Digit(d0)]);
    OneMoreDigit(n2, d2, 2, [Digit(d0), Digit(d1)]);
    OneMoreDigit(n3, d3, 3, [Digit(d0), Digit(d1), Digit(d2)]);
    OneMoreDigit(n4, d4, 4, [Digit(d0), Digit(d1), Digit(d2), Digit(d3)]);
    OneMoreDigit(n5, d5, 5, [Digit(d0), Digit(d1), Digit(d2), Digit(d3), Digit(d4)]);
    OneMoreDigit(n6, d6, 6, [Digit(d0), Digit(d1), Digit(d2), Digit(d3), Digit(d4), Digit(d5)]);
    OneMoreDigit(n7, d7, 7, [Digit(d0), Digit(d1), Digit(d2), Digit(d3), Digit(d4), Digit(d5), Digit(d6)]);
  }

  lemma NoDigits()
    ensures LastDigits(0, 0) == []
  {
  }

  lemma OneMoreDigit(n: nat, d: nat, k: nat, s: Str)
    requires d < 16 && LastDigits(n, k) == s
    ensures LastDigits(n * 16 + d, k + 1) == s + [Digit(d)]
  {
    assert (n * 16 + d) / 16 == n && (n * 16 + d) % 16 == d;
  }

  predicate AllWords(v: seq<nat>) {
    forall i :: 0 <= i < |v| ==> v[i] < TWO_32
  }

  /** 32-bit numbers printed one after the other, eight digits each. */
  function WordsText(v: seq<nat>): (s: Str)
    requires AllWords(v)
    ensures |s| == 8 * |v|
  {
    if v == [] then [] else WordsText(v[..|v| - 1]) + WordText(v[|v| - 1])
  }

  lemma NoWords()
    ensures AllWords([]) && WordsText([]) == []
  {
  }

  lemma WordsTextNext(v: seq<nat>, x: nat)
    requires AllWords(v) && x < TWO_32
    ensures AllWords(v + [x]) && WordsText(v + [x]) == WordsText(v) + WordText(x)
  {
    hide WordText;
    assert (v + [x])[..|v|] == v;
  }

  /** Chunk `i` of the text parses to number `i`. */
  lemma {:induction false} ParseChunk(v: seq<nat>, i: nat)
    requires AllWords(v) && i < |v|
    ensures AllHex(WordsText(v)[8 * i..8 * i + 8])
    ensures ParseHex(WordsText(v)[8 * i..8 * i + 8]) == v[i]
  {
    var last := |v| - 1;
    if i == last {
      WordTextRoundTrip(v[i]);
      assert WordsText(v)[8 * i..8 * i + 8] == WordText(v[i]);
    } else {
      ParseChunk(v[..last], i);
      assert WordsText(v)[8 * i..8 * i + 8] == WordsText(v[..last])[8 * i..8 * i + 8];
    }
  }

  /** The text determines the numbers. */
  lemma WordsTextInjective(u: seq<nat>, v: seq<nat>)
    requires AllWords(u) && AllWords(v) && WordsText(u) == WordsText(v)
    ensures u == v
  {
    forall i | 0 <= i < |u|
      ensures u[i] == v[i]
    {
      ParseChunk(u, i);
      ParseChunk(v, i);
    }
  }
}
