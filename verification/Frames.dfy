/** WebSocket frames: the encoder, the two decoders, and the wire format of
    sections 5.2 and 5.3 of RFC 6455. */
module Frames {
  import opened Bytes
  import opened Masking
  import opened Options

  // ---- The wire format ----

  datatype LengthForm = Short | Medium | Long

  /** A frame as sent: its first byte, masking key, choice of length field and
      unmasked payload. */
  datatype Frame = Frame(first: byte, key: Option<Str>, form: LengthForm, payload: Str) {
    ghost predicate Valid() {
      && (key.Some? ==> |key.value| == 4)
      && match form
         case Short => |payload| <= 125
         case Medium => |payload| <= 0xFFFF
         case Long => |payload| < TWO_64
    }

    predicate IsData() {
      first % 16 == 1 || first % 16 == 2
    }

    function Data(): seq<Str> {
      if IsData() then [payload] else []
    }

    function LengthField(): Str {
      match form
      case Short => []
      case Medium => BigEndian(|payload|, 2)
      case Long => BigEndian(|payload|, 8)
    }

    function SecondByte(): byte
      requires Valid()
    {
      (if key.Some? then 128 else 0) + match form
                                       case Short => |payload|
                                       case Medium => 126
                                       case Long => 127
    }

    function Wire(): Str
      requires Valid()
    {
      [first, SecondByte()] + LengthField() + KeyBytes(key) + Masked(payload, key)
    }
  }

  /** Masking, which is its own inverse: section 5.3. */
  function Masked(s: Str, key: Option<Str>): (t: Str)
    requires key.Some? ==> |key.value| == 4
    ensures |t| == |s|
  {
    if key.None? then s else seq(|s|, i requires 0 <= i < |s| => Xor(s[i], key.value[i % 4]))
  }

  lemma MaskedTwice(s: Str, key: Option<Str>)
    requires key.Some? ==> |key.value| == 4
    ensures Masked(Masked(s, key), key) == s
  {
    hide Xor;
    if key.Some? {
      forall i | 0 <= i < |s|
        ensures Masked(Masked(s, key), key)[i] == s[i]
      {
        XorUndo(s[i], key.value[i % 4]);
      }
    }
  }

  ghost predicate AllValid(frames: seq<Frame>) {
    forall i :: 0 <= i < |frames| ==> frames[i].Valid()
  }

  function Concat(frames: seq<Frame>): Str
    requires AllValid(frames)
  {
    if frames == [] then [] else frames[0].Wire() + Concat(frames[1..])
  }

  /** The payloads of the text and binary frames. */
  function DataOf(frames: seq<Frame>): seq<Str> {
    if frames == [] then []
    else frames[0].Data() + DataOf(frames[1..])
  }

  // ---- One frame at the front of a buffer ----

  function FormOf(second: byte): LengthForm {
    if second % 128 == 126 then Medium else if second % 128 == 127 then Long else Short
  }

  function LengthBytes(form: LengthForm): nat {
    match form
    case Short => 0
    case Medium => 2
    case Long => 8
  }

  function HeaderLength(second: byte): nat {
    2 + LengthBytes(FormOf(second)) + if second >= 128 then 4 else 0
  }

  function DeclaredLength(s: Str): nat
    requires |s| >= 2 && |s| >= HeaderLength(s[1])
  {
    if FormOf(s[1]).Short? then s[1] % 128 else FromBigEndian(s[2..2 + LengthBytes(FormOf(s[1]))])
  }

  function KeyOf(s: Str): (key: Option<Str>)
    requires |s| >= 2 && |s| >= HeaderLength(s[1])
    ensures key.Some? ==> |key.value| == 4
  {
    var at := 2 + LengthBytes(FormOf(s[1]));
    if s[1] >= 128 then Some(s[at..at + 4]) else None
  }

  /** `TooLong` is the length for which constructing the payload string throws. */
  datatype Parse = Incomplete | TooLong | Complete(frame: Frame, size: nat)

  function ParseFrame(s: Str): (p: Parse)
    ensures p.Complete? ==> 2 <= p.size <= |s|
  {
    if |s| < 2 || |s| < HeaderLength(s[1]) then Incomplete
    else
      var header, length := HeaderLength(s[1]), DeclaredLength(s);
      if |s| < (header + length) % TWO_64 then Incomplete
      else if length > MAX_SIZE || header + length > |s| then TooLong
      else
        Complete(Frame(s[0], KeyOf(s), FormOf(s[1]), Masked(s[header..header + length], KeyOf(s))), header + length)
  }

  /** On a real buffer the second half of the `TooLong` test is implied by the first, and
      the sum of the two lengths has wrapped. */
  lemma TooLongMeansWrapped(s: Str)
    requires |s| <= MAX_SIZE && |s| >= 2 && |s| >= HeaderLength(s[1])
    ensures DeclaredLength(s) < TWO_64
    ensures ParseFrame(s).TooLong? <==> HeaderLength(s[1]) + DeclaredLength(s) >= TWO_64
    ensures ParseFrame(s).TooLong? ==> DeclaredLength(s) > MAX_SIZE
    ensures ParseFrame(s).TooLong? ==> s[1] % 128 == 127
  {
    DeclaredBound(s);
  }

  function KeyBytes(key: Option<Str>): Str {
    if key.Some? then key.value else []
  }

  /** What the parser reads from a header with this length field and key. */
  lemma HeaderRead(first: byte, second: byte, field: Str, key: Option<Str>, rest: Str)
    requires |field| == LengthBytes(FormOf(second)) && (key.Some? <==> second >= 128)
    requires key.Some? ==> |key.value| == 4
    ensures var s := [first, second] + field + KeyBytes(key) + rest;
            var header := 2 + |field| + |KeyBytes(key)|;
            && |s| >= 2 && s[0] == first && s[1] == second
            && HeaderLength(second) == header <= |s| && s[header..] == rest && KeyOf(s) == key
            && DeclaredLength(s) == if FormOf(second).Short? then second % 128 else FromBigEndian(field)
  {
    hide FromBigEndian;
    FieldSlices([first, second], field, KeyBytes(key), rest);
  }

  lemma FieldSlices(a: Str, b: Str, c: Str, d: Str)
    ensures var (s, i, j) := (a + b + c + d, |a| + |b|, |a| + |b| + |c|);
            && (forall k :: 0 <= k < |a| ==> s[k] == a[k])
            && s[|a|..i] == b && s[i..j] == c && s[j..] == d
  {
  }

  /** Every header that declares such a length makes decoding throw, whatever follows it;
      a masking key makes the header longer. */
  lemma HugeLengthThrows(first: byte, key: Option<Str>, length: nat, rest: Str)
    requires key.Some? ==> |key.value| == 4
    requires TWO_64 - 10 - |KeyBytes(key)| <= length < TWO_64 && 14 + |rest| <= MAX_SIZE
    ensures Decode([first, if key.Some? then 255 else 127] + BigEndian(length, 8) + KeyBytes(key) + rest)
         == LengthError
  {
    hide BigEndian, FromBigEndian, KeyOf, DeclaredLength;
    var second := if key.Some? then 255 else 127;
    var s := [first, second] + BigEndian(length, 8) + KeyBytes(key) + rest;
    assert LengthBytes(FormOf(second)) == 8;
    HeaderRead(first, second, BigEndian(length, 8), key, rest);
    Pow256Eight();
    BigEndianRoundTrip(length, 8);
    TooLongMeansWrapped(s);
  }

  /** A buffer of ten bytes on which decoding throws. */
  lemma TenBytesThrow()
    ensures Decode([0x81, 0x7F, 0xFF, 0xFF, 0xFF, 0xFF, 0xFF, 0xFF, 0xFF, 0xFF]) == LengthError
  {
    hide Decode, BigEndian;
    var ones: Str := [0xFF, 0xFF, 0xFF, 0xFF, 0xFF, 0xFF, 0xFF, 0xFF];
    AllOnes(8);
    Pow256Eight();
    assert ones == seq(8, _ => 0xFF);
    HugeLengthThrows(0x81, None, TWO_64 - 1, []);
    assert [0x81, 0x7F] + ones + [] + [] == [0x81, 0x7F, 0xFF, 0xFF, 0xFF, 0xFF, 0xFF, 0xFF, 0xFF, 0xFF];
  }

  lemma {:induction false} AllOnes(n: nat)
    ensures BigEndian(Pow256(n) - 1, n) == seq(n, _ => 0xFF)
  {
    if n != 0 {
      AllOnes(n - 1);
      var p := Pow256(n - 1);
      assert 256 * p - 1 == 256 * (p - 1) + 255;
      assert (256 * (p - 1) + 255) / 256 == p - 1 && (256 * (p - 1) + 255) % 256 == 255;
    }
  }

  lemma DeclaredBound(s: Str)
    requires |s| >= 2 && |s| >= HeaderLength(s[1])
    ensures DeclaredLength(s) < TWO_64
    ensures FormOf(s[1]).Medium? ==> DeclaredLength(s) <= 0xFFFF
    ensures FormOf(s[1]).Short? ==> DeclaredLength(s) <= 125
  {
    Pow256Two();
    Pow256Eight();
    if !FormOf(s[1]).Short? {
      FromBigEndianBound(s[2..2 + LengthBytes(FormOf(s[1]))]);
    }
  }

  /** What the decoder does to a whole buffer. */
  datatype Outcome = Payloads(payloads: seq<Str>) | LengthError

  function Prepend(head: seq<Str>, rest: Outcome): Outcome {
    if rest.LengthError? then LengthError else Payloads(head + rest.payloads)
  }

  function Decode(s: Str): Outcome
    decreases |s|
  {
    match ParseFrame(s)
    case Incomplete => Payloads([])
    case TooLong => LengthError
    case Complete(f, size) => Prepend(f.Data(), Decode(s[size..]))
  }

  // ---- Properties of the decoder ----

  /** The second byte gives the form back, and the length field the payload's length. */
  lemma HeaderOfFrame(f: Frame)
    requires f.Valid()
    ensures FormOf(f.SecondByte()) == f.form && (f.SecondByte() >= 128 <==> f.key.Some?)
    ensures |f.LengthField()| == LengthBytes(f.form)
    ensures |f.payload| == if f.form.Short? then f.SecondByte() % 128 else FromBigEndian(f.LengthField())
  {
    hide BigEndian, FromBigEndian;
    Pow256Two();
    Pow256Eight();
    if !f.form.Short? {
      BigEndianRoundTrip(|f.payload|, LengthBytes(f.form));
    }
  }

  /** A frame on the wire parses to itself, whatever follows it. */
  lemma ParseWire(f: Frame, rest: Str)
    requires f.Valid() && |f.Wire() + rest| <= MAX_SIZE
    ensures ParseFrame(f.Wire() + rest) == Complete(f, |f.Wire()|)
  {
    hide FromBigEndian, Masked, KeyOf, DeclaredLength, FormOf, HeaderLength, f.Wire, f.SecondByte, f.LengthField;
    var payload := Masked(f.payload, f.key);
    HeaderOfFrame(f);
    WireWithRest(f, rest);
    HeaderRead(f.first, f.SecondByte(), f.LengthField(), f.key, payload + rest);
    FrontOfRest(f.Wire() + rest, HeaderLength(f.SecondByte()), payload, rest);
    MaskedTwice(f.payload, f.key);
  }

  lemma WireWithRest(f: Frame, rest: Str)
    requires f.Valid()
    ensures |f.Wire()| == 2 + |f.LengthField()| + |KeyBytes(f.key)| + |f.payload|
    ensures f.Wire() + rest
         == [f.first, f.SecondByte()] + f.LengthField() + KeyBytes(f.key) + (Masked(f.payload, f.key) + rest)
  {
    hide Masked, f.SecondByte, f.LengthField, KeyBytes;
  }

  lemma FrontOfRest(s: Str, at: nat, front: Str, rest: Str)
    requires at <= |s| && s[at..] == front + rest
    ensures at + |front| <= |s| && s[at..at + |front|] == front
  {
    assert s[at..][..|front|] == front;
  }

  lemma FourSlices(s: Str, i: nat, j: nat, k: nat)
    requires 2 <= i <= j <= k <= |s|
    ensures s[..k] == [s[0], s[1]] + s[2..i] + s[i..j] + s[j..k]
  {
  }

  /** Conversely a complete parse is a valid frame whose wire form starts the buffer. */
  lemma ParsedIsWire(s: Str)
    requires ParseFrame(s).Complete?
    ensures var p := ParseFrame(s); p.frame.Valid() && p.frame.Wire() == s[..p.size]
  {
    hide BigEndian, FromBigEndian, Masked, DeclaredLength;
    var f := ParseFrame(s).frame;
    var header, n := HeaderLength(s[1]), LengthBytes(f.form);
    var size := header + DeclaredLength(s);
    DeclaredBound(s);
    MaskedTwice(s[header..size], KeyOf(s));
    FieldOfParsed(s);
    assert f.SecondByte() == s[1];
    FourSlices(s, 2 + n, header, size);
  }

  lemma FieldOfParsed(s: Str)
    requires ParseFrame(s).Complete?
    ensures var f := ParseFrame(s).frame;
            && f.form == FormOf(s[1]) && |f.payload| == DeclaredLength(s)
            && f.LengthField() == s[2..2 + LengthBytes(f.form)]
            && (f.form.Short? ==> |f.payload| == s[1] % 128)
  {
    hide BigEndian, FromBigEndian, Masked, KeyOf;
    var n := LengthBytes(FormOf(s[1]));
    if !FormOf(s[1]).Short? {
      FromBigEndianRoundTrip(s[2..2 + n]);
    }
  }

  /** Any list of frames followed by an incomplete frame decodes to the payloads of its
      data frames, in order. */
  lemma {:induction false} DecodeConcat(frames: seq<Frame>, tail: Str)
    requires AllValid(frames) && |Concat(frames) + tail| <= MAX_SIZE
    requires ParseFrame(tail).Incomplete?
    ensures Decode(Concat(frames) + tail) == Payloads(DataOf(frames))
  {
    hide ParseFrame;
    if frames == [] {
      assert Concat(frames) + tail == tail;
    } else {
      var rest := Concat(frames[1..]) + tail;
      assert Concat(frames) + tail == frames[0].Wire() + rest;
      ParseWire(frames[0], rest);
      assert (frames[0].Wire() + rest)[|frames[0].Wire()|..] == rest;
      DecodeConcat(frames[1..], tail);
    }
  }

  /** Every buffer is a list of frames and a tail that is no frame; the tail alone
      decides whether decoding throws. */
  lemma {:induction false} Split(s: Str) returns (frames: seq<Frame>, tail: Str)
    ensures AllValid(frames) && s == Concat(frames) + tail
    ensures !ParseFrame(tail).Complete?
    ensures Decode(s) == if ParseFrame(tail).TooLong? then LengthError else Payloads(DataOf(frames))
    decreases |s|
  {
    hide ParseFrame;
    var p := ParseFrame(s);
    if p.Complete? {
      ParsedIsWire(s);
      var others;
      others, tail := Split(s[p.size..]);
      frames := [p.frame] + others;
      SplitStep(s, p.size, p.frame, others, tail);
    } else {
      frames, tail := [], s;
      assert Concat(frames) + tail == tail;
    }
  }

  lemma SplitStep(s: Str, size: nat, f: Frame, others: seq<Frame>, tail: Str)
    requires size <= |s| && f.Valid() && AllValid(others)
    requires s[..size] == f.Wire() && s[size..] == Concat(others) + tail
    ensures AllValid([f] + others) && s == Concat([f] + others) + tail
    ensures DataOf([f] + others) == f.Data() + DataOf(others)
  {
    hide f.Wire, f.Data;
    assert ([f] + others)[0] == f && ([f] + others)[1..] == others;
    Rejoin(s, size, Concat(others), tail);
  }

  lemma Rejoin(s: Str, size: nat, middle: Str, tail: Str)
    requires size <= |s| && s[size..] == middle + tail
    ensures s == s[..size] + middle + tail
  {
    assert s == s[..size] + s[size..];
  }

  /** The parse of a frame does not change when more bytes arrive. */
  lemma ParseExtends(s: Str, more: Str)
    requires |s + more| <= MAX_SIZE && !ParseFrame(s).Incomplete?
    ensures ParseFrame(s + more) == ParseFrame(s)
  {
    hide ParseFrame;
    if ParseFrame(s).Complete? {
      CompleteExtends(s, more);
    } else {
      TooLongExtends(s, more);
    }
  }

  lemma CompleteExtends(s: Str, more: Str)
    requires |s + more| <= MAX_SIZE && ParseFrame(s).Complete?
    ensures ParseFrame(s + more) == ParseFrame(s)
  {
    hide ParseFrame, Masked, BigEndian;
    var p := ParseFrame(s);
    ParsedIsWire(s);
    assert s == p.frame.Wire() + s[p.size..];
    assert s + more == p.frame.Wire() + (s[p.size..] + more);
    ParseWire(p.frame, s[p.size..] + more);
    ParseWire(p.frame, s[p.size..]);
  }

  lemma TooLongExtends(s: Str, more: Str)
    requires |s + more| <= MAX_SIZE && ParseFrame(s).TooLong?
    ensures ParseFrame(s + more) == TooLong
  {
    hide DeclaredLength, HeaderLength, KeyOf, Masked;
    HeaderExtends(s, more);
    TooLongMeansWrapped(s);
    TooLongMeansWrapped(s + more);
  }

  lemma HeaderExtends(s: Str, more: Str)
    requires |s| >= 2 && |s| >= HeaderLength(s[1])
    ensures (s + more)[1] == s[1] && DeclaredLength(s + more) == DeclaredLength(s)
  {
    hide FromBigEndian;
    var n := LengthBytes(FormOf(s[1]));
    assert (s + more)[2..2 + n] == s[2..2 + n];
  }

  /** Decoding a prefix gives a prefix of the payloads. */
  lemma {:induction false} DecodePrefix(s: Str, more: Str)
    requires |s + more| <= MAX_SIZE
    ensures Decode(s).LengthError? ==> Decode(s + more).LengthError?
    ensures Decode(s + more).Payloads? ==> Decode(s).payloads <= Decode(s + more).payloads
    decreases |s|
  {
    hide ParseFrame;
    var p := ParseFrame(s);
    if !p.Incomplete? {
      ParseExtends(s, more);
      if p.Complete? {
        assert (s + more)[p.size..] == s[p.size..] + more;
        DecodePrefix(s[p.size..], more);
      }
    }
  }

  // ---- The implementation ----

  /** The extended length, shifted in byte by byte. */
  method ReadLength(data: Str, index: nat, n: nat) returns (length: nat)
    requires index + n <= |data| && n <= 8
    ensures length == FromBigEndian(data[index..index + n]) < TWO_64
  {
    length := 0;
    for i := 0 to n
      invariant length == FromBigEndian(data[index..index + i]) < Pow256(i)
    {
      PowBelow(i);
      length := length * 256 % TWO_64 + data[index + i];
      assert data[index..index + i + 1] == data[index..index + i] + [data[index + i]];
    }
    if n < 8 {
      PowBelow(n);
    } else {
      Pow256Eight();
    }
  }

  lemma PowBelow(i: nat)
    requires i < 8
    ensures 256 * Pow256(i) <= TWO_64
  {
    Pow256Eight();
    PowGrows(i + 1, 8);
  }

  lemma {:induction false} PowGrows(i: nat, j: nat)
    requires i <= j
    ensures Pow256(i) <= Pow256(j)
  {
    if i < j {
      PowGrows(i, j - 1);
    }
  }

  method CopyPayload(data: Str, at: nat, n: nat, key: Option<Str>) returns (payload: Str)
    requires at + n <= |data| && (key.Some? ==> |key.value| == 4)
    ensures payload == Masked(data[at..at + n], key)
  {
    hide Xor;
    payload := [];
    for i := 0 to n
      invariant |payload| == i
      invariant forall j :: 0 <= j < i ==>
                              payload[j] == if key.Some? then Xor(data[at + j], key.value[j % 4]) else data[at + j]
    {
      if key.Some? {
        payload := payload + [Xor(data[at + i], key.value[i % 4])];
      } else {
        payload := payload + [data[at + i]];
      }
    }
  }

  lemma TailSlice(buffer: Str, index: nat, i: nat, j: nat)
    requires i <= j && index + j <= |buffer|
    ensures buffer[index..][i..j] == buffer[index + i..index + j]
    ensures buffer[index..][j..] == buffer[index + j..]
  {
  }

  /** The header of the frame at `index`, unless it is incomplete. */
  method ReadHeader(buffer: Str, index: nat, bytesLeft: nat)
    returns (complete: bool, headerLength: nat, length: nat, key: Option<Str>)
    requires index + bytesLeft == |buffer| && bytesLeft >= 2
    ensures var s := buffer[index..];
            && (complete <==> |s| >= HeaderLength(s[1]))
            && (complete ==> headerLength == HeaderLength(s[1]) && length == DeclaredLength(s) && key == KeyOf(s))
  {
    hide FromBigEndian;
    ghost var s := buffer[index..];
    var second := buffer[index + 1];
    var masked := second >= 128;
    length := second % 128;
    headerLength, key := 2, None;
    if length == 126 {
      headerLength := 4;
    } else if length == 127 {
      headerLength := 10;
    }
    if masked {
      headerLength := headerLength + 4;
    }
    complete := bytesLeft >= headerLength;
    if !complete {
      return;
    }
    var lengthOffset := 2;
    if length == 126 {
      TailSlice(buffer, index, 2, 4);
      length := ReadLength(buffer, index + 2, 2);
      lengthOffset := 4;
    } else if length == 127 {
      TailSlice(buffer, index, 2, 10);
      length := ReadLength(buffer, index + 2, 8);
      lengthOffset := 10;
    }
    if masked {
      TailSlice(buffer, index, lengthOffset, lengthOffset + 4);
      key := Some(buffer[index + lengthOffset..index + lengthOffset + 4]);
    }
  }

  /** One pass of the decoding loop over the frame at `index`: both breaks, the throwing
      string constructor, and the copied payload. */
  method ReadFrame(buffer: Str, index: nat, bytesLeft: nat) returns (p: Parse)
    requires index + bytesLeft == |buffer| <= MAX_SIZE && bytesLeft >= 2
    ensures p == ParseFrame(buffer[index..])
  {
    hide Masked, FromBigEndian, DeclaredLength, KeyOf, HeaderLength;
    var first, second := buffer[index], buffer[index + 1];
    var complete, headerLength, length, key := ReadHeader(buffer, index, bytesLeft);
    if !complete {
      return Incomplete;
    }
    TooLongMeansWrapped(buffer[index..]);
    if bytesLeft < (headerLength + length) % TWO_64 {
      return Incomplete;
    }
    if length > MAX_SIZE {
      return TooLong;
    }
    TailSlice(buffer, index, headerLength, headerLength + length);
    var payload := CopyPayload(buffer, index + headerLength, length, key);
    p := Complete(Frame(first, key, FormOf(second), payload), headerLength + length);
  }

  method DecodeFrames(buffer: Str) returns (outcome: Outcome)
    requires |buffer| <= MAX_SIZE
    ensures outcome == Decode(buffer)
  {
    hide ParseFrame, Prepend;
    var payloads: seq<Str> := [];
    var bytesLeft: nat, index: nat := |buffer|, 0;
    PrependNothing(Decode(buffer));
    assert buffer[0..] == buffer;
    while bytesLeft >= 2
      invariant index + bytesLeft == |buffer|
      invariant Decode(buffer) == Prepend(payloads, Decode(buffer[index..]))
      decreases bytesLeft
    {
      var p := ReadFrame(buffer, index, bytesLeft);
      PrependStop(payloads);
      match p
      case Incomplete =>
        return Payloads(payloads);
      case TooLong =>
        return LengthError;
      case Complete(f, size) =>
        TailSlice(buffer, index, 0, size);
        PrependTwice(payloads, f.Data(), Decode(buffer[index + size..]));
        if f.first % 16 == 1 || f.first % 16 == 2 {
          payloads := payloads + [f.payload];
        } else {
          assert payloads + [] == payloads;
        }
        index := index + size;
        bytesLeft := bytesLeft - size;
    }
    NoHeader(buffer[index..]);
    PrependStop(payloads);
    outcome := Payloads(payloads);
  }

  lemma PrependNothing(rest: Outcome)
    ensures Prepend([], rest) == rest
  {
    if rest.Payloads? {
      assert [] + rest.payloads == rest.payloads;
    }
  }

  lemma PrependStop(a: seq<Str>)
    ensures Prepend(a, Payloads([])) == Payloads(a) && Prepend(a, LengthError) == LengthError
  {
    assert a + [] == a;
  }

  lemma PrependTwice(a: seq<Str>, b: seq<Str>, rest: Outcome)
    ensures Prepend(a, Prepend(b, rest)) == Prepend(a + b, rest)
  {
    if rest.Payloads? {
      assert a + (b + rest.payloads) == a + b + rest.payloads;
    }
  }

  lemma NoHeader(s: Str)
    requires |s| < 2
    ensures ParseFrame(s).Incomplete?
  {
  }

  // ---- Encoding and decoding single messages ----

  method EncodeFrame(message: Str) returns (frame: Str)
    ensures frame == Encoded(message)
  {
    frame := [0x81];
    if |message| <= 125 {
      frame := frame + [|message|];
    } else {
      frame := frame + [126];
      frame := frame + [ShiftBytes(|message|, 1) % 256];
      frame := frame + [|message| % 256];
      TwoBytes(|message|);
    }
    frame := frame + message;
  }

  lemma TwoBytes(n: nat)
    ensures BigEndian(n, 2) == [ShiftBytes(n, 1) % 256, n % 256]
  {
    assert BigEndian(n / 256, 1) == [n / 256 % 256];
  }

  /** An unmasked final text frame; the length field keeps two bytes at most. */
  function Encoded(message: Str): Str {
    if |message| <= 125 then [0x81, |message|] + message
    else [0x81, 126] + BigEndian(|message|, 2) + message
  }

  function TextFrame(message: Str): Frame {
    Frame(0x81, None, if |message| <= 125 then Short else Medium, message)
  }

  lemma EncodedIsWire(message: Str)
    requires |message| <= 0xFFFF
    ensures TextFrame(message).Valid() && TextFrame(message).Wire() == Encoded(message)
    ensures TextFrame(message).IsData()
  {
    hide BigEndian;
    assert [] + message == message;
  }

  /** The frame of a message decodes to that message exactly when the length fits in
      the two bytes the encoder has for it. */
  lemma DecodeEncoded(message: Str)
    requires |Encoded(message)| <= MAX_SIZE
    ensures Decode(Encoded(message)) == Payloads([message]) <==> |message| <= 0xFFFF
  {
    if |message| <= 0xFFFF {
      assert EncodedAll([message]) == Encoded(message) by {
        assert [message][1..] == [];
        assert Encoded(message) + [] == Encoded(message);
      }
      DecodeMessages([message]);
    } else {
      TruncatedLength(message);
    }
  }

  /** A longer message comes back cut to the low sixteen bits of its length. */
  lemma TruncatedLength(message: Str)
    requires |message| > 0xFFFF && |Encoded(message)| <= MAX_SIZE
    ensures var d := Decode(Encoded(message));
            d.Payloads? ==> |d.payloads| > 0 && |d.payloads[0]| == |message| % 0x1_0000 < |message|
  {
    hide ParseFrame, Encoded;
    var n := |message| % 0x1_0000;
    var f := Frame(0x81, None, Medium, message[..n]);
    assert f.Valid() && f.IsData();
    CutWire(message, n);
    ParseWire(f, message[n..]);
  }

  lemma CutWire(message: Str, n: nat)
    requires |message| > 0xFFFF && n == |message| % 0x1_0000
    ensures Frame(0x81, None, Medium, message[..n]).Wire() + message[n..] == Encoded(message)
  {
    hide BigEndian;
    LowBytes(|message|);
    var field := BigEndian(|message|, 2);
    assert message == message[..n] + message[n..];
    assert [0x81, 126] + field + [] + message[..n] + message[n..] == [0x81, 126] + field + message;
  }

  lemma LowBytes(n: nat)
    ensures BigEndian(n, 2) == BigEndian(n % 0x1_0000, 2)
  {
    TwoBytes(n);
    TwoBytes(n % 0x1_0000);
    var q, r := n / 0x1_0000, n % 0x1_0000;
    assert n / 256 == 256 * q + r / 256;
  }

  function EncodedAll(messages: seq<Str>): Str {
    if messages == [] then [] else Encoded(messages[0]) + EncodedAll(messages[1..])
  }

  /** Any list of messages of at most 65535 bytes survives encoding and decoding. */
  lemma DecodeMessages(messages: seq<Str>)
    requires forall i :: 0 <= i < |messages| ==> |messages[i]| <= 0xFFFF
    requires |EncodedAll(messages)| <= MAX_SIZE
    ensures Decode(EncodedAll(messages)) == Payloads(messages)
  {
    hide ParseFrame;
    var frames := EncodedFrames(messages);
    NoHeader([]);
    assert Concat(frames) + [] == EncodedAll(messages);
    DecodeConcat(frames, []);
  }

  lemma {:induction false} EncodedFrames(messages: seq<Str>) returns (frames: seq<Frame>)
    requires forall i :: 0 <= i < |messages| ==> |messages[i]| <= 0xFFFF
    ensures AllValid(frames) && Concat(frames) == EncodedAll(messages) && DataOf(frames) == messages
  {
    hide Encoded;
    if messages == [] {
      frames := [];
    } else {
      EncodedIsWire(messages[0]);
      var others := EncodedFrames(messages[1..]);
      frames := [TextFrame(messages[0])] + others;
      assert frames[1..] == others;
    }
  }

  // ---- The single-frame decoder ----

  /** `OutOfRange` is the exception of `substr` past the end. */
  datatype Single = Message(text: Str) | OutOfRange

  method Unmask(s: Str, mask: Str) returns (decoded: Str)
    requires |mask| == 4
    ensures decoded == Masked(s, Some(mask))
  {
    hide Xor;
    decoded := s;
    for i := 0 to |decoded|
      invariant |decoded| == |s|
      invariant forall j :: 0 <= j < |s| ==> decoded[j] == if j < i then Xor(s[j], mask[j % 4]) else s[j]
    {
      decoded := decoded[i := Xor(decoded[i], mask[i % 4])];
    }
  }

  method DecodeFrame(frame: Str) returns (r: Single)
    ensures r == DecodedSingle(frame)
  {
    if |frame| < 2 {
      return Message([]);
    }
    var length := frame[1] % 128;
    var offset := 2;
    if length == 126 {
      offset := 4;
    } else if length == 127 {
      offset := 10;
    }
    var masked := frame[1] >= 128;
    var mask := [];
    if masked {
      if offset > |frame| {
        return OutOfRange;
      }
      mask := frame[offset..if offset + 4 <= |frame| then offset + 4 else |frame|];
      offset := offset + 4;
    }
    if offset > |frame| {
      return Message([]);
    }
    var decoded := frame[offset..];
    if masked {
      decoded := Unmask(decoded, mask);
    }
    return Message(decoded);
  }

  /** It takes everything after the header as payload, whatever length is declared. */
  function DecodedSingle(s: Str): Single {
    if |s| < 2 then Message([])
    else
      var offset := 2 + LengthBytes(FormOf(s[1]));
      if s[1] >= 128 && offset > |s| then OutOfRange
      else if HeaderLength(s[1]) > |s| then Message([])
      else Message(Masked(s[HeaderLength(s[1])..], KeyOf(s)))
  }

  /** So it recovers every encoded message, even those the other decoder cuts. */
  lemma DecodeSingleEncoded(message: Str)
    ensures DecodedSingle(Encoded(message)) == Message(message)
  {
    hide BigEndian;
    var s := Encoded(message);
    assert s[HeaderLength(s[1])..] == message;
  }

  /** The two decoders agree on a buffer that is exactly one data frame. */
  lemma DecodersAgree(f: Frame)
    requires f.Valid() && f.IsData() && |f.Wire()| <= MAX_SIZE
    ensures Decode(f.Wire()) == Payloads([f.payload])
    ensures DecodedSingle(f.Wire()) == Message(f.payload)
  {
    hide Masked, BigEndian, FromBigEndian;
    NoHeader([]);
    assert [f][1..] == [];
    assert Concat([f]) + [] == f.Wire();
    DecodeConcat([f], []);
    ParseWire(f, []);
    assert f.Wire() + [] == f.Wire();
  }
}
