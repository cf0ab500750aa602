/** The example handshake of section 1.3 of RFC 6455. */
module HandshakeExample {
  import opened Base64
  import opened Bytes
  import opened Handshake
  import opened Sha1Vectors
  import Sha1

  const SAMPLE_ACCEPT: Str := Ascii("s3pPLMBiTxaQ") + Ascii("9kYGzzhZRbK+xOo=")

  lemma Groups0()
    ensures Group(0xb3, 0x7a, 0x4f) == [115, 51, 112, 80]
    ensures Group(0x2c, 0xc0, 0x62) == [76, 77, 66, 105]
  {
    hide Group, Letter;
    GroupIs(0xb3, 0x7a, 0x4f, 44, 55, 41, 15);
    GroupIs(0x2c, 0xc0, 0x62, 11, 12, 1, 34);
    Letters0();
  }

  lemma Letters0()
    ensures Letter(1) == 66 && Letter(11) == 76 && Letter(12) == 77 && Letter(15) == 80
    ensures Letter(34) == 105 && Letter(41) == 112 && Letter(44) == 115 && Letter(55) == 51
  {
  }

  lemma Groups2()
    ensures Group(0x4f, 0x16, 0x90) == [84, 120, 97, 81]
    ensures Group(0xf6, 0x46, 0x06) == [57, 107, 89, 71]
  {
    hide Group, Letter;
    GroupIs(0x4f, 0x16, 0x90, 19, 49, 26, 16);
    GroupIs(0xf6, 0x46, 0x06, 61, 36, 24, 6);
    Letters2();
  }

  lemma Letters2()
    ensures Letter(6) == 71 && Letter(16) == 81 && Letter(19) == 84 && Letter(24) == 89
    ensures Letter(26) == 97 && Letter(36) == 107 && Letter(49) == 120 && Letter(61) == 57
  {
  }

  lemma Groups4()
    ensures Group(0xcf, 0x38, 0x59) == [122, 122, 104, 90]
    ensures Group(0x45, 0xb2, 0xbe) == [82, 98, 75, 43]
  {
    hide Group, Letter;
    GroupIs(0xcf, 0x38, 0x59, 51, 51, 33, 25);
    GroupIs(0x45, 0xb2, 0xbe, 17, 27, 10, 62);
    Letters4();
  }

  lemma Letters4()
    ensures Letter(10) == 75 && Letter(17) == 82 && Letter(25) == 90 && Letter(27) == 98
    ensures Letter(33) == 104 && Letter(51) == 122 && Letter(62) == 43
  {
  }

  lemma LastBytes()
    ensures Encode([0xc4, 0xea]) == [120, 79, 111, 61]
  {
  }

  lemma AcceptBytes()
    ensures Ascii("s3pPLMBiTxaQ")
         == [115, 51, 112, 80, 76, 77, 66, 105, 84, 120, 97, 81]
    ensures Ascii("9kYGzzhZRbK+xOo=")
         == [57, 107, 89, 71, 122, 122, 104, 90, 82, 98, 75, 43, 120, 79, 111, 61]
  {
  }


  lemma Encoded0()
    ensures Encode([0xb3, 0x7a, 0x4f, 0x2c, 0xc0, 0x62, 0x4f, 0x16, 0x90])
         == [115, 51, 112, 80, 76, 77, 66, 105, 84, 120, 97, 81]
  {
    hide Encode, Group;
    Encoded1();
    Groups0();
    WholeGroup(0xb3, 0x7a, 0x4f, [0x2c, 0xc0, 0x62, 0x4f, 0x16, 0x90]);
    assert [0xb3, 0x7a, 0x4f] + [0x2c, 0xc0, 0x62, 0x4f, 0x16, 0x90]
        == [0xb3, 0x7a, 0x4f, 0x2c, 0xc0, 0x62, 0x4f, 0x16, 0x90];
  }

  lemma Encoded1()
    ensures Encode([0x2c, 0xc0, 0x62, 0x4f, 0x16, 0x90])
         == [76, 77, 66, 105, 84, 120, 97, 81]
  {
    hide Encode, Group;
    Encoded2();
    Groups0();
    WholeGroup(0x2c, 0xc0, 0x62, [0x4f, 0x16, 0x90]);
    assert [0x2c, 0xc0, 0x62] + [0x4f, 0x16, 0x90]
        == [0x2c, 0xc0, 0x62, 0x4f, 0x16, 0x90];
  }

  lemma Encoded2()
    ensures Encode([0x4f, 0x16, 0x90])
         == [84, 120, 97, 81]
  {
    hide Encode, Group;
    NoBytes();
    Groups2();
    WholeGroup(0x4f, 0x16, 0x90, []);
    assert [0x4f, 0x16, 0x90] + []
        == [0x4f, 0x16, 0x90];
  }

  lemma Encoded3()
    ensures Encode([0xf6, 0x46, 0x06, 0xcf, 0x38, 0x59, 0x45, 0xb2, 0xbe, 0xc4, 0xea])
         == [57, 107, 89, 71, 122, 122, 104, 90, 82, 98, 75, 43, 120, 79, 111, 61]
  {
    hide Encode, Group;
    Encoded4();
    Groups2();
    WholeGroup(0xf6, 0x46, 0x06, [0xcf, 0x38, 0x59, 0x45, 0xb2, 0xbe, 0xc4, 0xea]);
    assert [0xf6, 0x46, 0x06] + [0xcf, 0x38, 0x59, 0x45, 0xb2, 0xbe, 0xc4, 0xea]
        == [0xf6, 0x46, 0x06, 0xcf, 0x38, 0x59, 0x45, 0xb2, 0xbe, 0xc4, 0xea];
  }

  lemma Encoded4()
    ensures Encode([0xcf, 0x38, 0x59, 0x45, 0xb2, 0xbe, 0xc4, 0xea])
         == [122, 122, 104, 90, 82, 98, 75, 43, 120, 79, 111, 61]
  {
    hide Encode, Group;
    Encoded5();
    Groups4();
    WholeGroup(0xcf, 0x38, 0x59, [0x45, 0xb2, 0xbe, 0xc4, 0xea]);
    assert [0xcf, 0x38, 0x59] + [0x45, 0xb2, 0xbe, 0xc4, 0xea]
        == [0xcf, 0x38, 0x59, 0x45, 0xb2, 0xbe, 0xc4, 0xea];
  }

  lemma Encoded5()
    ensures Encode([0x45, 0xb2, 0xbe, 0xc4, 0xea])
         == [82, 98, 75, 43, 120, 79, 111, 61]
  {
    hide Encode, Group;
    LastBytes();
    Groups4();
    WholeGroup(0x45, 0xb2, 0xbe, [0xc4, 0xea]);
    assert [0x45, 0xb2, 0xbe] + [0xc4, 0xea]
        == [0x45, 0xb2, 0xbe, 0xc4, 0xea];
  }

  /** The Base64 text of the digest. */
  lemma SampleEncoded()
    ensures Encode([0xb3, 0x7a, 0x4f, 0x2c, 0xc0, 0x62, 0x4f, 0x16, 0x90, 0xf6,
                    0x46, 0x06, 0xcf, 0x38, 0x59, 0x45, 0xb2, 0xbe, 0xc4, 0xea]) == SAMPLE_ACCEPT
  {
    hide Encode, Ascii, Group;
    Encoded0();
    Encoded3();
    AcceptBytes();
    var front := [0xb3, 0x7a, 0x4f, 0x2c, 0xc0, 0x62, 0x4f, 0x16, 0x90];
    var back := [0xf6, 0x46, 0x06, 0xcf, 0x38, 0x59, 0x45, 0xb2, 0xbe, 0xc4, 0xea];
    EncodeAppend(front, 3, back);
    assert front + back
        == [0xb3, 0x7a, 0x4f, 0x2c, 0xc0, 0x62, 0x4f, 0x16, 0x90, 0xf6,
            0x46, 0x06, 0xcf, 0x38, 0x59, 0x45, 0xb2, 0xbe, 0xc4, 0xea];
  }

  /** The accept value of the sample key. */
  lemma AcceptOfSample()
    ensures AcceptValue(SAMPLE_KEY) == SAMPLE_ACCEPT
  {
    hide Sha1.Digest, Encode, Ascii;
    assert MAGIC == GUID;
    DigestOfSample();
    SampleEncoded();
  }

  /** A request that carries the sample key, with white space around it, gets the response
      given there. */
  lemma SampleResponse(head: Str, before: Str, after: Str, rest: Str)
    requires forall c :: c in before + after ==> c in {9, 11, 12, 32}
    requires var request := head + Ascii("Sec-WebSocket-Key: ") + (before + SAMPLE_KEY + after) + CRLF + rest;
             forall i :: 0 <= i < |head| ==> !OccursAt(Lower(request), KEY_HEADER, i)
    ensures Response(head + Ascii("Sec-WebSocket-Key: ") + (before + SAMPLE_KEY + after) + CRLF + rest)
         == Ascii("HTTP/1.1 101 Switching Protocols") + [13, 10]
            + Ascii("Upgrade: websocket") + [13, 10]
            + Ascii("Connection: Upgrade") + [13, 10]
            + Ascii("Sec-WebSocket-Accept: ") + SAMPLE_ACCEPT + [13, 10] + [13, 10]
  {
    hide Ascii, Lower, OccursAt, TrimFront, TrimBack, TrimBounds, AcceptValue, Response, KEY_HEADER;
    var value := before + SAMPLE_KEY + after;
    NameIsKeyHeader();
    SampleEnds();
    PaddedKey(before, SAMPLE_KEY, after);
    NoLineEnd(before, after);
    var lead, trail := AnswerToHeader(head, Ascii("Sec-WebSocket-Key: "), value, rest);
    assert value[lead..trail] == SAMPLE_KEY by {
      assert lead <= trail <= |value| by { BoundsInside(value, lead, trail); }
      TrimExact(value, lead, trail);
    }
    AcceptOfSample();
  }

  lemma NameIsKeyHeader()
    ensures Lower(Ascii("Sec-WebSocket-Key: ")) == KEY_HEADER
  {
    var name := Ascii("Sec-WebSocket-Key: ");
    assert forall i :: 0 <= i < 19 ==> ToLower(name[i]) == KEY_HEADER[i];
  }

  lemma SampleEnds()
    ensures SAMPLE_KEY != [] && SAMPLE_KEY[0] == 100 && SAMPLE_KEY[|SAMPLE_KEY| - 1] == 61
    ensures forall i :: 0 <= i < |SAMPLE_KEY| ==> SAMPLE_KEY[i] > 32
  {
    KeyBytes();
  }

  lemma NoLineEnd(before: Str, after: Str)
    requires forall c :: c in before + after ==> c in {9, 11, 12, 32}
    ensures var value := before + SAMPLE_KEY + after;
            forall i :: 0 <= i < |value| ==> !OccursAt(value + CRLF, CRLF, i)
  {
    hide SAMPLE_KEY;
    SampleEnds();
    var value := before + SAMPLE_KEY + after;
    forall i | 0 <= i < |value|
      ensures !OccursAt(value + CRLF, CRLF, i)
    {
      assert value[i] != 13 by {
        if i < |before| {
          assert value[i] == (before + after)[i];
          assert value[i] in before + after;
        } else if i >= |before| + |SAMPLE_KEY| {
          assert value[i] == (before + after)[i - |SAMPLE_KEY|];
          assert value[i] in before + after;
        }
      }
      assert (value + CRLF)[i] == value[i] && CRLF[0] == 13;
      FirstOf(value + CRLF, i);
    }
  }

  lemma FirstOf(s: Str, i: nat)
    ensures OccursAt(s, CRLF, i) ==> s[i] == CRLF[0]
  {
    if OccursAt(s, CRLF, i) {
      assert s[i] == s[i..i + 2][0];
    }
  }
}
