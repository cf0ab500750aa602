/** The opening handshake of section 4.2.2 of RFC 6455. */
module Handshake {
  import opened Bytes
  import opened Options
  import Base64
  import Sha1

  const KEY_NAME: Str := Ascii("sec-websocket-key:")

  /** The name as the code looks for it, with one space. */
  const KEY_HEADER: Str := KEY_NAME + [32]

  const MAGIC: Str := Ascii("258EAFA5-E914-47DA-9") + Ascii("5CA-C5AB0DC85B11")

  const CRLF: Str := [13, 10]

  const RESPONSE_HEAD: Str :=
    Ascii("HTTP/1.1 101 Switching Protocols") + CRLF
    + Ascii("Upgrade: websocket") + CRLF
    + Ascii("Connection: Upgrade") + CRLF
    + Ascii("Sec-WebSocket-Accept: ")

  // ---- Library string functions ----

  /** `std::tolower` in the "C" locale. */
  function ToLower(c: byte): byte {
    if 'A' as int <= c <= 'Z' as int then c + 32 else c
  }

  function Lower(s: Str): (t: Str)
    ensures |t| == |s|
  {
    seq(|s|, i requires 0 <= i < |s| => ToLower(s[i]))
  }

  predicate OccursAt(s: Str, needle: Str, at: nat) {
    at + |needle| <= |s| && s[at..at + |needle|] == needle
  }

  /** `std::string::find`: the first occurrence at or after `from`. */
  function Find(s: Str, needle: Str, from: nat): (r: Option<nat>)
    ensures r.Some? ==> from <= r.value && OccursAt(s, needle, r.value)
    ensures forall i :: from <= i < (if r.Some? then r.value else |s|) ==> !OccursAt(s, needle, i)
    decreases |s| - from
  {
    if from + |needle| > |s| then None
    else if OccursAt(s, needle, from) then Some(from)
    else Find(s, needle, from + 1)
  }

  lemma FindExact(s: Str, needle: Str, from: nat, at: nat)
    requires from <= at && OccursAt(s, needle, at)
    requires forall i :: from <= i < at ==> !OccursAt(s, needle, i)
    ensures Find(s, needle, from) == Some(at)
  {
    FindSome(s, needle, from, at);
  }

  lemma {:induction false} FindSome(s: Str, needle: Str, from: nat, at: nat)
    requires from <= at && OccursAt(s, needle, at)
    ensures Find(s, needle, from).Some?
    decreases at - from
  {
    if !OccursAt(s, needle, from) {
      FindSome(s, needle, from + 1, at);
    }
  }

  /** `std::isspace` in the "C" locale. */
  predicate IsSpace(c: byte) {
    c == 32 || 9 <= c <= 13
  }

  function TrimFront(s: Str): Str {
    if s != [] && IsSpace(s[0]) then TrimFront(s[1..]) else s
  }

  function TrimBack(s: Str): Str {
    if s != [] && IsSpace(s[|s| - 1]) then TrimBack(s[..|s| - 1]) else s
  }

  // ---- The response ----

  /** The text between the key header and the end of its line. */
  function KeyField(request: Str): Option<Str> {
    var at := Find(Lower(request), KEY_HEADER, 0);
    if at.None? then None
    else
      var pos := at.value + |KEY_HEADER|;
      var end := Find(request, CRLF, pos);
      Some(if end.Some? then request[pos..end.value] else request[pos..])
  }

  /** Everything outside `lead..trail` is white space, and neither end of it is. */
  ghost predicate TrimBounds(s: Str, lead: nat, trail: nat) {
    && lead <= trail <= |s|
    && (forall i :: 0 <= i < lead || trail <= i < |s| ==> IsSpace(s[i]))
    && (lead < trail ==> !IsSpace(s[lead]) && !IsSpace(s[trail - 1]))
  }

  /** The two trimming loops leave the part of the text between such bounds, and no
      two bounds give different parts. */
  lemma TrimExact(s: Str, lead: nat, trail: nat)
    requires TrimBounds(s, lead, trail)
    ensures TrimBack(TrimFront(s)) == s[lead..trail]
  {
    if lead == trail {
      TrimFrontTo(s, |s|);
      assert s[lead..trail] == [];
    } else {
      TrimFrontTo(s, lead);
      var t := s[lead..];
      TrimBackTo(t, trail - lead);
      assert t[..trail - lead] == s[lead..trail];
    }
  }

  lemma {:induction false} TrimFrontTo(s: Str, lead: nat)
    requires lead <= |s| && (forall i :: 0 <= i < lead ==> IsSpace(s[i]))
    requires lead < |s| ==> !IsSpace(s[lead])
    ensures TrimFront(s) == s[lead..]
  {
    if lead > 0 {
      TrimFrontTo(s[1..], lead - 1);
    }
  }

  lemma {:induction false} TrimBackTo(s: Str, trail: nat)
    requires trail <= |s| && (forall i :: trail <= i < |s| ==> IsSpace(s[i]))
    requires trail > 0 ==> !IsSpace(s[trail - 1])
    ensures TrimBack(s) == s[..trail]
  {
    if trail < |s| {
      TrimBackTo(s[..|s| - 1], trail);
    } else {
      assert s[..trail] == s;
    }
  }

  /** Such bounds exist for every text. */
  lemma {:induction false} TrimBoundsExist(s: Str) returns (lead: nat, trail: nat)
    ensures TrimBounds(s, lead, trail)
  {
    lead := 0;
    while lead < |s| && IsSpace(s[lead])
      invariant lead <= |s| && forall i :: 0 <= i < lead ==> IsSpace(s[i])
    {
      lead := lead + 1;
    }
    trail := |s|;
    while trail > lead && IsSpace(s[trail - 1])
      invariant lead <= trail <= |s| && forall i :: trail <= i < |s| ==> IsSpace(s[i])
    {
      trail := trail - 1;
    }
  }

  /** Space, tab, line feed, vertical tab, form feed and carriage return around a key are
      trimmed, and nothing else. */
  lemma PaddedKey(before: Str, key: Str, after: Str)
    requires forall c :: c in before + after ==> c in {9, 10, 11, 12, 13, 32}
    requires key != [] && key[0] !in {9, 10, 11, 12, 13, 32} && key[|key| - 1] !in {9, 10, 11, 12, 13, 32}
    ensures TrimBack(TrimFront(before + key + after)) == key
  {
    var s, lead, trail := before + key + after, |before|, |before| + |key|;
    assert s[lead] == key[0] && s[trail - 1] == key[|key| - 1];
    forall i | 0 <= i < lead || trail <= i < |s|
      ensures IsSpace(s[i])
    {
      assert s[i] in before + after by {
        if i < lead {
          assert s[i] == (before + after)[i];
        } else {
          assert s[i] == (before + after)[i - |key|];
        }
      }
    }
    TrimExact(s, lead, trail);
    assert s[lead..trail] == key;
  }

  /** Lower-casing maps the 26 capital letters and nothing else. */
  lemma LowerExactly()
    ensures Lower(Ascii("ABCDEFGHIJKLM")) == Ascii("abcdefghijklm")
    ensures Lower(Ascii("NOPQRSTUVWXYZ")) == Ascii("nopqrstuvwxyz")
    ensures forall c: byte :: ToLower(c) != c ==> 'A' as int <= c <= 'Z' as int
  {
    hide Ascii, Lower;
    LowerFirstHalf();
    LowerSecondHalf();
  }

  lemma LowerFirstHalf()
    ensures Lower(Ascii("ABCDEFGHIJKLM")) == Ascii("abcdefghijklm")
  {
    var s := Ascii("ABCDEFGHIJKLM");
    assert forall i :: 0 <= i < 13 ==> ToLower(s[i]) == Ascii("abcdefghijklm")[i];
  }

  lemma LowerSecondHalf()
    ensures Lower(Ascii("NOPQRSTUVWXYZ")) == Ascii("nopqrstuvwxyz")
  {
    var s := Ascii("NOPQRSTUVWXYZ");
    assert forall i :: 0 <= i < 13 ==> ToLower(s[i]) == Ascii("nopqrstuvwxyz")[i];
  }

  /** The accept value of a key: section 4.2.2, item 5.4. */
  function AcceptValue(key: Str): Str {
    Base64.Encode(Sha1.Digest(key + MAGIC))
  }

  /** It has 28 characters, and a Base64 decoder gets the 20-byte digest back from it. */
  lemma AcceptValueDecodes(key: Str)
    ensures |AcceptValue(key)| == 28
    ensures Base64.Decode(AcceptValue(key)) == Some(Sha1.Digest(key + MAGIC))
  {
    hide Sha1.Digest, Base64.Encode, Base64.Decode;
    Base64.EncodeLength(Sha1.Digest(key + MAGIC));
    Base64.DecodeEncode(Sha1.Digest(key + MAGIC));
  }

  method Trim(s: Str) returns (key: Str)
    ensures key == TrimBack(TrimFront(s))
  {
    key := s;
    while key != [] && IsSpace(key[0])
      invariant TrimFront(key) == TrimFront(s)
      decreases |key|
    {
      key := key[1..];
    }
    while key != [] && IsSpace(key[|key| - 1])
      invariant TrimBack(key) == TrimBack(TrimFront(s))
      decreases |key|
    {
      key := key[..|key| - 1];
    }
  }

  /** The whole response, empty when the request has no key header. */
  function Response(request: Str): Str {
    var field := KeyField(request);
    if field.None? then []
    else RESPONSE_HEAD + AcceptValue(TrimBack(TrimFront(field.value))) + CRLF + CRLF
  }

  method GenerateHandshakeResponse(request: Str) returns (response: Str)
    ensures response == Response(request)
  {
    hide Find, Sha1.Digest, Base64.Encode, TrimFront, TrimBack;
    var reqLower: Str := [];
    for i := 0 to |request|
      invariant reqLower == Lower(request[..i])
    {
      reqLower := reqLower + [ToLower(request[i])];
    }
    assert request[..|request|] == request;
    var posLower := Find(reqLower, KEY_HEADER, 0);
    if posLower.None? {
      return [];
    }
    var pos := posLower.value + |KEY_HEADER|;
    var endPos := Find(request, CRLF, pos);
    var field := if endPos.Some? then request[pos..endPos.value] else request[pos..];
    var key := Trim(field);
    var hash := Sha1.Sha1(key + MAGIC);
    var acceptKey := Base64.EncodeBytes(hash);
    response := RESPONSE_HEAD + acceptKey + CRLF + CRLF;
  }

  /** A request that carries the header, its name in any letter case, is answered from
      exactly the trimmed value on that line. */
  lemma AnswerToHeader(head: Str, name: Str, value: Str, rest: Str) returns (lead: nat, trail: nat)
    requires Lower(name) == KEY_HEADER
    requires forall i :: 0 <= i < |head| ==> !OccursAt(Lower(head + name + value + CRLF + rest), KEY_HEADER, i)
    requires forall i :: 0 <= i < |value| ==> !OccursAt(value + CRLF, CRLF, i)
    ensures TrimBounds(value, lead, trail)
    ensures Response(head + name + value + CRLF + rest)
         == RESPONSE_HEAD + AcceptValue(value[lead..trail]) + CRLF + CRLF
  {
    hide AcceptValue, TrimFront, TrimBack, OccursAt, KeyField, TrimBounds;
    KeyOfHeader(head, name, value, rest);
    lead, trail := TrimBoundsExist(value);
    assert lead <= trail <= |value| by { BoundsInside(value, lead, trail); }
    TrimExact(value, lead, trail);
  }

  lemma BoundsInside(s: Str, lead: nat, trail: nat)
    requires TrimBounds(s, lead, trail)
    ensures lead <= trail <= |s|
  {
  }

  lemma KeyOfHeader(head: Str, name: Str, value: Str, rest: Str)
    requires Lower(name) == KEY_HEADER
    requires forall i :: 0 <= i < |head| ==> !OccursAt(Lower(head + name + value + CRLF + rest), KEY_HEADER, i)
    requires forall i :: 0 <= i < |value| ==> !OccursAt(value + CRLF, CRLF, i)
    ensures KeyField(head + name + value + CRLF + rest) == Some(value)
  {
    hide Find;
    var request := head + name + value + CRLF + rest;
    var pos := |head| + |name|;
    assert Lower(request)[|head|..pos] == Lower(name);
    FindExact(Lower(request), KEY_HEADER, 0, |head|);
    LineEnd(head + name, value, rest);
    assert request[pos..pos + |value|] == value;
  }

  lemma LineEnd(before: Str, value: Str, rest: Str)
    requires forall i :: 0 <= i < |value| ==> !OccursAt(value + CRLF, CRLF, i)
    ensures Find(before + value + CRLF + rest, CRLF, |before|) == Some(|before| + |value|)
  {
    hide Find;
    var s, pos := before + value + CRLF + rest, |before|;
    var end := pos + |value|;
    assert s[end..end + 2] == CRLF;
    forall i | pos <= i < end
      ensures !OccursAt(s, CRLF, i)
    {
      assert s[i..i + 2] == (value + CRLF)[i - pos..i - pos + 2];
      assert !OccursAt(value + CRLF, CRLF, i - pos);
    }
    FindExact(s, CRLF, pos, end);
  }

  /** The first line of what follows the header's name. */
  function FirstLine(tail: Str): Str {
    var end := Find(tail, CRLF, 0);
    if end.Some? then tail[..end.value] else tail
  }

  lemma KeyFieldIsFirstLine(request: Str, at: nat)
    requires Find(Lower(request), KEY_HEADER, 0) == Some(at)
    ensures at + |KEY_HEADER| <= |request|
    ensures KeyField(request) == Some(FirstLine(request[at + |KEY_HEADER|..]))
  {
    hide Find, Lower;
    var pos := at + |KEY_HEADER|;
    assert pos <= |request|;
    FindInTail(request, CRLF, pos);
    var end := Find(request[pos..], CRLF, 0);
    if end.Some? {
      assert request[pos..][..end.value] == request[pos..pos + end.value];
    }
  }

  /** Two requests that differ only in letter case up to the end of the header's name
      get the same response. */
  lemma NameCaseIrrelevant(r1: Str, r2: Str, at: nat)
    requires Lower(r1) == Lower(r2)
    requires Find(Lower(r1), KEY_HEADER, 0) == Some(at)
    requires r1[at + |KEY_HEADER|..] == r2[at + |KEY_HEADER|..]
    ensures Response(r1) == Response(r2)
  {
    hide Find, AcceptValue, TrimFront, TrimBack, KeyField, FirstLine;
    KeyFieldIsFirstLine(r1, at);
    KeyFieldIsFirstLine(r2, at);
  }

  /** The response is empty exactly when nowhere in the request the header's name is
      followed by a space: a header without the optional space gets none. */
  lemma EmptyExactly(request: Str)
    ensures Response(request) == []
       <==> forall i :: 0 <= i <= |request| && OccursAt(Lower(request), KEY_NAME, i)
                        ==> i + |KEY_NAME| == |request| || request[i + |KEY_NAME|] != 32
  {
    hide Find, AcceptValue, TrimFront, TrimBack;
    var lower := Lower(request);
    forall i | 0 <= i <= |request|
      ensures OccursAt(lower, KEY_HEADER, i)
         <==> OccursAt(lower, KEY_NAME, i) && i + |KEY_NAME| < |request| && request[i + |KEY_NAME|] == 32
    {
      HeaderIsNameAndSpace(request, i);
    }
    var found := Find(lower, KEY_HEADER, 0);
    if found.Some? {
      assert OccursAt(lower, KEY_HEADER, found.value);
      assert Response(request) != [];
    } else {
      forall i | 0 <= i <= |request|
        ensures !OccursAt(lower, KEY_HEADER, i)
      {
        if OccursAt(lower, KEY_HEADER, i) {
          FindSome(lower, KEY_HEADER, 0, i);
        }
      }
    }
  }

  /** A request whose only such header has the key right after the colon gets none. */
  lemma KeyAfterColon(head: Str, name: Str, value: Str, rest: Str)
    requires Lower(name) == KEY_NAME && value != [] && value[0] != 32
    requires forall i :: 0 <= i && OccursAt(Lower(head + name + value + rest), KEY_NAME, i) ==> i == |head|
    ensures Response(head + name + value + rest) == []
  {
    hide Response, OccursAt;
    var request := head + name + value + rest;
    assert request[|head| + |name|] == value[0];
    EmptyExactly(request);
  }

  /** For instance this request, though the standard does not ask for the space. */
  lemma NoSpaceRequest()
    ensures Response(Ascii("GET / HTTP/1.1") + CRLF + Ascii("Upgrade: ")
                     + (Ascii("websocket") + CRLF + Ascii("Sec-WebSocket-Key:MDEyMzQ=") + CRLF + CRLF)) == []
  {
    hide Response, OccursAt, Lower, Ascii;
    var head := Ascii("GET / HTTP/1.1") + CRLF + Ascii("Upgrade: ");
    var tail := Ascii("websocket") + CRLF + Ascii("Sec-WebSocket-Key:MDEyMzQ=") + CRLF + CRLF;
    HeadSpaces();
    TailSpaces();
    SpacedAt(head, tail);
  }

  ghost predicate NoSpaces(s: Str, from: nat, to: nat) {
    forall i :: from <= i < to && i < |s| ==> s[i] != 32
  }

  lemma HeadSpaces()
    ensures var head := Ascii("GET / HTTP/1.1") + CRLF + Ascii("Upgrade: ");
            |head| == 25 && head[6] == 72 && NoSpaces(head, 18, 24)
  {
    var line, name := Ascii("GET / HTTP/1.1"), Ascii("Upgrade: ");
    assert line[6] == 72 && |line| == 14;
    assert NoSpaces(name, 0, 8) && |name| == 9;
    HeadOf(line, name);
  }

  lemma HeadOf(line: Str, name: Str)
    requires |line| == 14 && line[6] == 72 && |name| == 9 && NoSpaces(name, 0, 8)
    ensures var head := line + CRLF + name; |head| == 25 && head[6] == 72 && NoSpaces(head, 18, 24)
  {
    var head := line + CRLF + name;
    assert forall i :: 16 <= i < 25 ==> head[i] == name[i - 16];
  }

  lemma TailSpaces()
    ensures var tail := Ascii("websocket") + CRLF + Ascii("Sec-WebSocket-Key:MDEyMzQ=") + CRLF + CRLF;
            NoSpaces(tail, 0, |tail|)
  {
    hide Ascii;
    var word, key := Ascii("websocket"), Ascii("Sec-WebSocket-Key:MDEyMzQ=");
    assert NoSpaces(word, 0, |word|) by { WordSpaces(); }
    assert NoSpaces(key, 0, |key|) by { KeySpaces(); }
  }

  lemma WordSpaces()
    ensures NoSpaces(Ascii("websocket"), 0, 9)
  {
  }

  lemma KeySpaces()
    ensures NoSpaces(Ascii("Sec-WebSocket-Key:MDEyMzQ="), 0, 26)
  {
  }

  lemma NotTheName(request: Str)
    requires |request| > 6 && request[6] == 72
    ensures !OccursAt(Lower(request), KEY_NAME, 6)
  {
    assert Lower(request)[6] == 104 && KEY_NAME[0] == 115;
    if |request| >= 24 {
      assert Lower(request)[6..24][0] == 104;
    }
  }

  lemma SpacedAt(head: Str, tail: Str)
    requires |head| == 25 && head[6] == 72 && NoSpaces(head, 18, 24) && NoSpaces(tail, 0, |tail|)
    ensures Response(head + tail) == []
  {
    hide Response;
    var request := head + tail;
    forall i | 0 <= i <= |request| && OccursAt(Lower(request), KEY_NAME, i)
      ensures i + |KEY_NAME| == |request| || request[i + |KEY_NAME|] != 32
    {
      NotTheName(request);
      if i + 18 < 25 {
        assert request[i + 18] == head[i + 18];
      } else if i + 18 < |request| {
        assert request[i + 18] == tail[i + 18 - 25];
      }
    }
    EmptyExactly(request);
  }

  lemma HeaderIsNameAndSpace(request: Str, i: nat)
    requires i <= |request|
    ensures OccursAt(Lower(request), KEY_HEADER, i)
       <==> OccursAt(Lower(request), KEY_NAME, i)
            && i + |KEY_NAME| < |request| && request[i + |KEY_NAME|] == 32
  {
    var lower, next := Lower(request), i + |KEY_NAME|;
    if next < |request| {
      assert lower[i..next + 1] == lower[i..next] + [lower[next]];
      assert lower[i..next + 1][..|KEY_NAME|] == lower[i..next] && KEY_HEADER[..|KEY_NAME|] == KEY_NAME;
      assert lower[next] == ToLower(request[next]) && KEY_HEADER[|KEY_NAME|] == 32;
    }
  }

  lemma OccursInTail(s: Str, needle: Str, pos: nat, i: nat)
    requires pos <= i && pos <= |s|
    ensures OccursAt(s, needle, i) <==> OccursAt(s[pos..], needle, i - pos)
  {
    if i + |needle| <= |s| {
      assert s[pos..][i - pos..i - pos + |needle|] == s[i..i + |needle|];
    }
  }

  lemma FindInTail(s: Str, needle: Str, pos: nat)
    requires pos <= |s|
    ensures var r := Find(s[pos..], needle, 0);
            Find(s, needle, pos) == if r.Some? then Some(pos + r.value) else None
  {
    hide Find, OccursAt;
    var tail := s[pos..];
    var r := Find(tail, needle, 0);
    if r.Some? {
      var at := pos + r.value;
      OccursInTail(s, needle, pos, at);
      forall i | pos <= i < at
        ensures !OccursAt(s, needle, i)
      {
        OccursInTail(s, needle, pos, i);
      }
      FindExact(s, needle, pos, at);
    } else if Find(s, needle, pos).Some? {
      var at := Find(s, needle, pos).value;
      OccursInTail(s, needle, pos, at);
      FindSome(tail, needle, 0, at - pos);
    }
  }
}
