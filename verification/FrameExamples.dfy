/** The examples of section 5.7 of RFC 6455, and which opcodes the decoder delivers. */
module FrameExamples {
  import opened Bytes
  import opened Frames
  import opened Masking
  import opened Options

  const HELLO: Str := [0x48, 0x65, 0x6C, 0x6C, 0x6F]

  const KEY: Str := [0x37, 0xFA, 0x21, 0x3D]

  const MASKED_HELLO: Str := [0x7F, 0x9F, 0x4D, 0x51, 0x58]

  lemma HelloIsText()
    ensures HELLO == Ascii("Hello")
  {
  }

  /** Of one whole frame exactly text (1) and binary (2) payloads are delivered, whatever
      the other bits of the first byte say. */
  lemma OpcodeDecides(f: Frame)
    requires f.Valid() && |f.Wire()| <= MAX_SIZE
    ensures Decode(f.Wire()) == Payloads(if f.first % 16 == 1 || f.first % 16 == 2 then [f.payload] else [])
  {
    hide ParseFrame, f.Wire;
    NoHeader([]);
    assert [f][1..] == [];
    assert Concat([f]) + [] == f.Wire();
    DecodeConcat([f], []);
  }

  /** The same for the bytes of an unmasked frame. */
  lemma UnmaskedDecodes(first: byte, field: Str, payload: Str)
    requires |payload| <= 0x1_0000
    requires field == if |payload| <= 125 then [|payload|]
                      else if |payload| <= 0xFFFF then [126] + BigEndian(|payload|, 2)
                      else [127] + BigEndian(|payload|, 8)
    ensures Decode([first] + field + payload)
         == Payloads(if first % 16 == 1 || first % 16 == 2 then [payload] else [])
  {
    hide ParseFrame, Decode, BigEndian;
    var form := if |payload| <= 125 then Short else if |payload| <= 0xFFFF then Medium else Long;
    var f := Frame(first, None, form, payload);
    WireOfUnmasked(f, field);
    OpcodeDecides(f);
  }

  lemma WireOfUnmasked(f: Frame, field: Str)
    requires f.Valid() && f.key == None && field == [f.SecondByte()] + f.LengthField()
    ensures f.Wire() == [f.first] + field + f.payload
  {
    hide BigEndian, f.LengthField, f.SecondByte;
    assert [f.first, f.SecondByte()] + f.LengthField() + [] == [f.first] + field;
  }

  /** A single-frame unmasked text message, a ping, and the two frames of a fragmented
      message, of which the decoder drops the continuation. */
  lemma UnmaskedExamples()
    ensures Decode([0x81, 0x05, 0x48, 0x65, 0x6C, 0x6C, 0x6F]) == Payloads([HELLO])
    ensures Decode([0x89, 0x05, 0x48, 0x65, 0x6C, 0x6C, 0x6F]) == Payloads([])
    ensures Decode([0x01, 0x03, 0x48, 0x65, 0x6C]) == Payloads([[0x48, 0x65, 0x6C]])
    ensures Decode([0x80, 0x02, 0x6C, 0x6F]) == Payloads([])
  {
    hide Decode;
    UnmaskedDecodes(0x81, [5], HELLO);
    assert [0x81] + [5] + HELLO == [0x81, 0x05, 0x48, 0x65, 0x6C, 0x6C, 0x6F];
    UnmaskedDecodes(0x89, [5], HELLO);
    assert [0x89] + [5] + HELLO == [0x89, 0x05, 0x48, 0x65, 0x6C, 0x6C, 0x6F];
    UnmaskedDecodes(0x01, [3], [0x48, 0x65, 0x6C]);
    assert [0x01] + [3] + [0x48, 0x65, 0x6C] == [0x01, 0x03, 0x48, 0x65, 0x6C];
    UnmaskedDecodes(0x80, [2], [0x6C, 0x6F]);
    assert [0x80] + [2] + [0x6C, 0x6F] == [0x80, 0x02, 0x6C, 0x6F];
  }

  /** 256 bytes and 64 kilobytes of binary data in a single unmasked frame. */
  lemma LongExamples(small: Str, large: Str)
    requires |small| == 256 && |large| == 0x1_0000
    ensures Decode([0x82, 0x7E, 0x01, 0x00] + small) == Payloads([small])
    ensures Decode([0x82, 0x7F, 0x00, 0x00, 0x00, 0x00, 0x00, 0x01, 0x00, 0x00] + large) == Payloads([large])
  {
    hide Decode;
    LengthExamples();
    UnmaskedDecodes(0x82, [126] + BigEndian(256, 2), small);
    assert [0x82] + [126, 1, 0] == [0x82, 0x7E, 0x01, 0x00];
    UnmaskedDecodes(0x82, [127] + BigEndian(0x1_0000, 8), large);
    assert [0x82] + [127, 0, 0, 0, 0, 0, 1, 0, 0]
        == [0x82, 0x7F, 0x00, 0x00, 0x00, 0x00, 0x00, 0x01, 0x00, 0x00];
  }

  lemma LengthExamples()
    ensures [126] + BigEndian(256, 2) == [126, 1, 0]
    ensures [127] + BigEndian(0x1_0000, 8) == [127, 0, 0, 0, 0, 0, 1, 0, 0]
  {
    assert BigEndian(1, 6) == [0, 0, 0, 0, 0, 1];
  }

  /** The masked text message and the masked pong; the single-frame decoder reads the
      former alike. */
  lemma MaskedExamples()
    ensures Decode([0x81, 0x85, 0x37, 0xFA, 0x21, 0x3D, 0x7F, 0x9F, 0x4D, 0x51, 0x58]) == Payloads([HELLO])
    ensures Decode([0x8A, 0x85, 0x37, 0xFA, 0x21, 0x3D, 0x7F, 0x9F, 0x4D, 0x51, 0x58]) == Payloads([])
    ensures DecodedSingle([0x81, 0x85, 0x37, 0xFA, 0x21, 0x3D, 0x7F, 0x9F, 0x4D, 0x51, 0x58]) == Message(HELLO)
  {
    hide Decode, DecodedSingle;
    MaskedWire(0x81);
    MaskedWire(0x8A);
    OpcodeDecides(Frame(0x81, Some(KEY), Short, HELLO));
    OpcodeDecides(Frame(0x8A, Some(KEY), Short, HELLO));
    DecodersAgree(Frame(0x81, Some(KEY), Short, HELLO));
  }

  lemma MaskedWire(first: byte)
    ensures var f := Frame(first, Some(KEY), Short, HELLO);
            f.Valid() && f.Wire() == [first, 0x85, 0x37, 0xFA, 0x21, 0x3D, 0x7F, 0x9F, 0x4D, 0x51, 0x58]
  {
    hide Masked;
    HelloMasked();
    var f := Frame(first, Some(KEY), Short, HELLO);
    assert f.LengthField() == [] && KeyBytes(f.key) == KEY && f.SecondByte() == 0x85;
    assert [first, 0x85] + [] + KEY + MASKED_HELLO
        == [first, 0x85, 0x37, 0xFA, 0x21, 0x3D, 0x7F, 0x9F, 0x4D, 0x51, 0x58];
  }

  lemma HelloMasked()
    ensures Masked(HELLO, Some(KEY)) == MASKED_HELLO
  {
    hide Xor;
    XorH();
    XorE();
    XorL();
    XorL2();
    XorO();
    var m := Masked(HELLO, Some(KEY));
    assert m[0] == 0x7F && m[1] == 0x9F && m[2] == 0x4D && m[3] == 0x51 && m[4] == 0x58;
  }

  lemma XorH()
    ensures Xor(0x48, 0x37) == 0x7F
  {
    hide XorBits;
    XorNothing();
    XorNext(0, 0, 1, 0);
    XorNext(1, 0, 2, 1);
    XorNext(2, 1, 3, 3);
    XorNext(4, 3, 4, 7);
    XorNext(9, 6, 5, 15);
    XorNext(18, 13, 6, 31);
    XorNext(36, 27, 7, 63);
    XorNext(72, 55, 8, 127);
  }

  lemma XorE()
    ensures Xor(0x65, 0xFA) == 0x9F
  {
    hide XorBits;
    XorNothing();
    XorNext(0, 1, 1, 1);
    XorNext(1, 3, 2, 2);
    XorNext(3, 7, 3, 4);
    XorNext(6, 15, 4, 9);
    XorNext(12, 31, 5, 19);
    XorNext(25, 62, 6, 39);
    XorNext(50, 125, 7, 79);
    XorNext(101, 250, 8, 159);
  }

  lemma XorL()
    ensures Xor(0x6C, 0x21) == 0x4D
  {
    hide XorBits;
    XorNothing();
    XorNext(0, 0, 1, 0);
    XorNext(1, 0, 2, 1);
    XorNext(3, 1, 3, 2);
    XorNext(6, 2, 4, 4);
    XorNext(13, 4, 5, 9);
    XorNext(27, 8, 6, 19);
    XorNext(54, 16, 7, 38);
    XorNext(108, 33, 8, 77);
  }

  lemma XorL2()
    ensures Xor(0x6C, 0x3D) == 0x51
  {
    hide XorBits;
    XorNothing();
    XorNext(0, 0, 1, 0);
    XorNext(1, 0, 2, 1);
    XorNext(3, 1, 3, 2);
    XorNext(6, 3, 4, 5);
    XorNext(13, 7, 5, 10);
    XorNext(27, 15, 6, 20);
    XorNext(54, 30, 7, 40);
    XorNext(108, 61, 8, 81);
  }

  lemma XorO()
    ensures Xor(0x6F, 0x37) == 0x58
  {
    hide XorBits;
    XorNothing();
    XorNext(0, 0, 1, 0);
    XorNext(1, 0, 2, 1);
    XorNext(3, 1, 3, 2);
    XorNext(6, 3, 4, 5);
    XorNext(13, 6, 5, 11);
    XorNext(27, 13, 6, 22);
    XorNext(55, 27, 7, 44);
    XorNext(111, 55, 8, 88);
  }

  lemma XorNothing()
    ensures XorBits(0, 0, 0) == 0
  {
  }

  /** One more digit, which says whether those of `a` and `b` differ. */
  lemma XorNext(a: nat, b: nat, bits: nat, r: nat)
    requires bits > 0 && XorBits(a / 2, b / 2, bits - 1) == r / 2
    requires r % 2 == 1 <==> a % 2 != b % 2
    ensures XorBits(a, b, bits) == r
  {
    hide XorBits;
    XorBitsNext(a, b, bits);
  }

  /** Two bytes announcing a masked frame with a longer length make the single-frame
      decoder throw; unmasked they give an empty message. */
  lemma TwoByteExamples()
    ensures DecodedSingle([0x81, 0xFE]) == OutOfRange && DecodedSingle([0x81, 0x7E]) == Message([])
  {
  }

  /** The encoder sends the first example. */
  lemma EncodedExample()
    ensures Encoded(HELLO) == [0x81, 0x05, 0x48, 0x65, 0x6C, 0x6C, 0x6F]
  {
  }
}
