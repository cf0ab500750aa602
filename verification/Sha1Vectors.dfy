/** The test vector of section 1.3 of RFC 6455 for SHA-1: the sample key with the GUID, in
    two blocks, computed round by round. */
module Sha1Vectors {
  import opened Bytes
  import opened Padding
  import opened Sha1
  import opened Words

  const SAMPLE_KEY: Str := Ascii("dGhlIHNhbXBsZSBub25jZQ==")

  const GUID_FRONT: Str := Ascii("258EAFA5-E914-47DA-9")

  const GUID_BACK: Str := Ascii("5CA-C5AB0DC85B11")

  const GUID: Str := GUID_FRONT + GUID_BACK

  // ---- Steps of a computation on literal words ----

  ghost predicate At(m: Block, t: nat, x: word) {
    t < 80 && Schedule(m, t) == x
  }

  ghost predicate After(s: Vars, m: Block, t: nat, v: Vars) {
    t <= 80 && Rounds(s, m, t) == v
  }

  ghost predicate WordsAre(m: Block, t: nat, w0: word, w1: word, w2: word, w3: word, w4: word, w5: word, w6: word,
                           w7: word, w8: word, w9: word, w10: word, w11: word, w12: word, w13: word, w14: word,
                           w15: word)
  {
    && At(m, t, w0) && At(m, t + 1, w1) && At(m, t + 2, w2) && At(m, t + 3, w3)
    && At(m, t + 4, w4) && At(m, t + 5, w5) && At(m, t + 6, w6) && At(m, t + 7, w7)
    && At(m, t + 8, w8) && At(m, t + 9, w9) && At(m, t + 10, w10) && At(m, t + 11, w11)
    && At(m, t + 12, w12) && At(m, t + 13, w13) && At(m, t + 14, w14) && At(m, t + 15, w15)
  }

  /** One word of the message schedule. */
  lemma Next(m: Block, t: nat, x3: word, x8: word, x14: word, x16: word, x: word)
    requires 16 <= t < 80 && At(m, t - 3, x3) && At(m, t - 8, x8) && At(m, t - 14, x14) && At(m, t - 16, x16)
    requires RotL1(Xor4(x3, x8, x14, x16)) == x
    ensures At(m, t, x)
  {
    hide RotL1, Xor4;
  }

  // One round makes one new word and rotates one. The selection and the constant depend
  // on the round number.

  lemma TurnCh(s: Vars, m: Block, t: nat, a: word, b: word, c: word, d: word, e: word, w: word, a': word, c': word)
    requires t < 20 && After(s, m, t, Vars(a, b, c, d, e)) && At(m, t, w)
    requires Sum5((a << 5) | (a >> 27), (b & c) ^ (!b & d), e, 0x5a827999, w) == a'
    requires (b << 30) | (b >> 2) == c'
    ensures After(s, m, t + 1, Vars(a', a, c', c, d))
  {
    hide At, After, Choice, RotL5, RotL30, Sum5;
    RotationsByShifts(a);
    RotationsByShifts(b);
    Chosen(t, b, c, d);
    Turned(s, m, t, a, b, c, d, e, w, RotL5(a), Choice(t, b, c, d), 0x5a827999, a', c');
  }

  lemma TurnXor(s: Vars, m: Block, t: nat, a: word, b: word, c: word, d: word, e: word, w: word, a': word, c': word)
    requires 20 <= t < 40 && After(s, m, t, Vars(a, b, c, d, e)) && At(m, t, w)
    requires Sum5((a << 5) | (a >> 27), b ^ c ^ d, e, 0x6ed9eba1, w) == a'
    requires (b << 30) | (b >> 2) == c'
    ensures After(s, m, t + 1, Vars(a', a, c', c, d))
  {
    hide At, After, Choice, RotL5, RotL30, Sum5;
    RotationsByShifts(a);
    RotationsByShifts(b);
    Chosen(t, b, c, d);
    Turned(s, m, t, a, b, c, d, e, w, RotL5(a), Choice(t, b, c, d), 0x6ed9eba1, a', c');
  }

  lemma TurnMaj(s: Vars, m: Block, t: nat, a: word, b: word, c: word, d: word, e: word, w: word, a': word, c': word)
    requires 40 <= t < 60 && After(s, m, t, Vars(a, b, c, d, e)) && At(m, t, w)
    requires Sum5((a << 5) | (a >> 27), (b & c) ^ (b & d) ^ (c & d), e, 0x8f1bbcdc, w) == a'
    requires (b << 30) | (b >> 2) == c'
    ensures After(s, m, t + 1, Vars(a', a, c', c, d))
  {
    hide At, After, Choice, RotL5, RotL30, Sum5;
    RotationsByShifts(a);
    RotationsByShifts(b);
    Chosen(t, b, c, d);
    Turned(s, m, t, a, b, c, d, e, w, RotL5(a), Choice(t, b, c, d), 0x8f1bbcdc, a', c');
  }

  lemma TurnEnd(s: Vars, m: Block, t: nat, a: word, b: word, c: word, d: word, e: word, w: word, a': word, c': word)
    requires 60 <= t < 80 && After(s, m, t, Vars(a, b, c, d, e)) && At(m, t, w)
    requires Sum5((a << 5) | (a >> 27), b ^ c ^ d, e, 0xca62c1d6, w) == a'
    requires (b << 30) | (b >> 2) == c'
    ensures After(s, m, t + 1, Vars(a', a, c', c, d))
  {
    hide At, After, Choice, RotL5, RotL30, Sum5;
    RotationsByShifts(a);
    RotationsByShifts(b);
    Chosen(t, b, c, d);
    Turned(s, m, t, a, b, c, d, e, w, RotL5(a), Choice(t, b, c, d), 0xca62c1d6, a', c');
  }

  lemma Turned(s: Vars, m: Block, t: nat, a: word, b: word, c: word, d: word, e: word, w: word,
               r: word, f: word, k: word, a': word, c': word)
    requires t < 80 && After(s, m, t, Vars(a, b, c, d, e)) && At(m, t, w)
    requires RotL5(a) == r && RotL30(b) == c' && Choice(t, b, c, d) == f && RoundConstant(t) == k
    requires Sum5(r, f, e, k, w) == a'
    ensures After(s, m, t + 1, Vars(a', a, c', c, d))
  {
    hide Schedule, RotL5, RotL30, Choice, RoundConstant, Sum5;
  }

  lemma Chosen(t: nat, b: word, c: word, d: word)
    ensures t < 20 ==> Choice(t, b, c, d) == (b & c) ^ (!b & d)
    ensures 20 <= t < 40 || 60 <= t < 80 ==> Choice(t, b, c, d) == b ^ c ^ d
    ensures 40 <= t < 60 ==> Choice(t, b, c, d) == (b & c) ^ (b & d) ^ (c & d)
  {
  }

  lemma Start(s: Vars, m: Block)
    ensures After(s, m, 0, s)
  {
  }

  /** The additions after the last round. */
  lemma Added(h: Vars, m: Block, v: Vars, r: Vars)
    requires After(h, m, 80, v)
    requires r == Vars(Sum(h.a, v.a), Sum(h.b, v.b), Sum(h.c, v.c), Sum(h.d, v.d), Sum(h.e, v.e))
    ensures Compress(h, m) == r
  {
    hide Rounds, Sum;
  }

  /** The first words of a block are its bytes. */
  lemma FirstWord(m: Block, t: nat, b0: byte, b1: byte, b2: byte, b3: byte, x: word)
    requires t < 16 && m[4 * t] == b0 && m[4 * t + 1] == b1 && m[4 * t + 2] == b2 && m[4 * t + 3] == b3
    requires Join(b0, b1, b2, b3) == x
    ensures At(m, t, x)
  {
    hide Join;
  }

  lemma ZeroWords(m: Block, from: nat, to: nat)
    requires from <= to <= 16 && forall i :: 4 * from <= i < 4 * to ==> m[i] == 0
    ensures forall t :: from <= t < to ==> At(m, t, 0)
  {
    hide At;
    forall t | from <= t < to
      ensures At(m, t, 0)
    {
      JoinZeros();
      FirstWord(m, t, 0, 0, 0, 0, 0);
    }
  }

  lemma JoinZeros()
    ensures Join(0, 0, 0, 0) == 0
  {
  }

  // ---- The block of key and GUID ----

  lemma FirstWords16(m: Block)
    requires WordsAre(m, 0,
                      0x6447686c, 0x49484e68, 0x62584273, 0x5a534275, 0x6232356a, 0x5a513d3d, 0x32353845, 0x41464135,
                      0x2d453931, 0x342d3437, 0x44412d39, 0x3543412d, 0x43354142, 0x30444338, 0x35423131, 0x80000000)
    ensures WordsAre(m, 16,
                     0x363ca02c, 0x24e81236, 0x8856b441, 0x06fb3c92, 0x6fb4bcb6, 0x460b16e3, 0x599219ae, 0x35bf9369,
                     0x3267458e, 0xf828fd04, 0x753a96a7, 0x6336f612, 0xc3d66383, 0x06eb86f9, 0x73b4fd42, 0xa503c5b8)
  {
    hide At;
    Next(m, 16, 0x30444338, 0x2d453931, 0x62584273, 0x6447686c, 0x363ca02c);
    Next(m, 17, 0x35423131, 0x342d3437, 0x5a534275, 0x49484e68, 0x24e81236);
    Next(m, 18, 0x80000000, 0x44412d39, 0x6232356a, 0x62584273, 0x8856b441);
    Next(m, 19, 0x363ca02c, 0x3543412d, 0x5a513d3d, 0x5a534275, 0x06fb3c92);
    Next(m, 20, 0x24e81236, 0x43354142, 0x32353845, 0x6232356a, 0x6fb4bcb6);
    Next(m, 21, 0x8856b441, 0x30444338, 0x41464135, 0x5a513d3d, 0x460b16e3);
    Next(m, 22, 0x06fb3c92, 0x35423131, 0x2d453931, 0x32353845, 0x599219ae);
    Next(m, 23, 0x6fb4bcb6, 0x80000000, 0x342d3437, 0x41464135, 0x35bf9369);
    Next(m, 24, 0x460b16e3, 0x363ca02c, 0x44412d39, 0x2d453931, 0x3267458e);
    Next(m, 25, 0x599219ae, 0x24e81236, 0x3543412d, 0x342d3437, 0xf828fd04);
    Next(m, 26, 0x35bf9369, 0x8856b441, 0x43354142, 0x44412d39, 0x753a96a7);
    Next(m, 27, 0x3267458e, 0x06fb3c92, 0x30444338, 0x3543412d, 0x6336f612);
    Next(m, 28, 0xf828fd04, 0x6fb4bcb6, 0x35423131, 0x43354142, 0xc3d66383);
    Next(m, 29, 0x753a96a7, 0x460b16e3, 0x80000000, 0x30444338, 0x06eb86f9);
    Next(m, 30, 0x6336f612, 0x599219ae, 0x363ca02c, 0x35423131, 0x73b4fd42);
    Next(m, 31, 0xc3d66383, 0x35bf9369, 0x24e81236, 0x80000000, 0xa503c5b8);
  }

  lemma FirstWords32(m: Block)
    requires WordsAre(m, 16,
                      0x363ca02c, 0x24e81236, 0x8856b441, 0x06fb3c92, 0x6fb4bcb6, 0x460b16e3, 0x599219ae, 0x35bf9369,
                      0x3267458e, 0xf828fd04, 0x753a96a7, 0x6336f612, 0xc3d66383, 0x06eb86f9, 0x73b4fd42, 0xa503c5b8)
    ensures WordsAre(m, 32,
                     0x15cdae35, 0x531e5dc5, 0x6fb6b7d0, 0x6c16e4ac, 0x4ddd36bd, 0x35d36946, 0xe8ae8b9c, 0x4a933ad0,
                     0xce8628b4, 0x415dba9e, 0x2792f049, 0x8e9b79e7, 0x79c425c5, 0x6353b49d, 0x00994218, 0x8a950ed1)
  {
    hide At;
    Next(m, 32, 0x06eb86f9, 0x3267458e, 0x8856b441, 0x363ca02c, 0x15cdae35);
    Next(m, 33, 0x73b4fd42, 0xf828fd04, 0x06fb3c92, 0x24e81236, 0x531e5dc5);
    Next(m, 34, 0xa503c5b8, 0x753a96a7, 0x6fb4bcb6, 0x8856b441, 0x6fb6b7d0);
    Next(m, 35, 0x15cdae35, 0x6336f612, 0x460b16e3, 0x06fb3c92, 0x6c16e4ac);
    Next(m, 36, 0x531e5dc5, 0xc3d66383, 0x599219ae, 0x6fb4bcb6, 0x4ddd36bd);
    Next(m, 37, 0x6fb6b7d0, 0x06eb86f9, 0x35bf9369, 0x460b16e3, 0x35d36946);
    Next(m, 38, 0x6c16e4ac, 0x73b4fd42, 0x3267458e, 0x599219ae, 0xe8ae8b9c);
    Next(m, 39, 0x4ddd36bd, 0xa503c5b8, 0xf828fd04, 0x35bf9369, 0x4a933ad0);
    Next(m, 40, 0x35d36946, 0x15cdae35, 0x753a96a7, 0x3267458e, 0xce8628b4);
    Next(m, 41, 0xe8ae8b9c, 0x531e5dc5, 0x6336f612, 0xf828fd04, 0x415dba9e);
    Next(m, 42, 0x4a933ad0, 0x6fb6b7d0, 0xc3d66383, 0x753a96a7, 0x2792f049);
    Next(m, 43, 0xce8628b4, 0x6c16e4ac, 0x06eb86f9, 0x6336f612, 0x8e9b79e7);
    Next(m, 44, 0x415dba9e, 0x4ddd36bd, 0x73b4fd42, 0xc3d66383, 0x79c425c5);
    Next(m, 45, 0x2792f049, 0x35d36946, 0xa503c5b8, 0x06eb86f9, 0x6353b49d);
    Next(m, 46, 0x8e9b79e7, 0xe8ae8b9c, 0x15cdae35, 0x73b4fd42, 0x00994218);
    Next(m, 47, 0x79c425c5, 0x4a933ad0, 0x531e5dc5, 0xa503c5b8, 0x8a950ed1);
  }

  lemma FirstWords48(m: Block)
    requires WordsAre(m, 32,
                      0x15cdae35, 0x531e5dc5, 0x6fb6b7d0, 0x6c16e4ac, 0x4ddd36bd, 0x35d36946, 0xe8ae8b9c, 0x4a933ad0,
                      0xce8628b4, 0x415dba9e, 0x2792f049, 0x8e9b79e7, 0x79c425c5, 0x6353b49d, 0x00994218, 0x8a950ed1)
    ensures WordsAre(m, 48,
                     0xaf5d0b99, 0xfd9883de, 0x1ed8ffeb, 0xf007ff28, 0x425e3674, 0x059631c0, 0xad6c3c31, 0x860b71d7,
                     0x87bfc548, 0x3e64f92d, 0x8d0ab761, 0x34e1ee35, 0x0acf5108, 0xc2b479da, 0x6c93370a, 0xf7935ba1)
  {
    hide At;
    Next(m, 48, 0x6353b49d, 0xce8628b4, 0x6fb6b7d0, 0x15cdae35, 0xaf5d0b99);
    Next(m, 49, 0x00994218, 0x415dba9e, 0x6c16e4ac, 0x531e5dc5, 0xfd9883de);
    Next(m, 50, 0x8a950ed1, 0x2792f049, 0x4ddd36bd, 0x6fb6b7d0, 0x1ed8ffeb);
    Next(m, 51, 0xaf5d0b99, 0x8e9b79e7, 0x35d36946, 0x6c16e4ac, 0xf007ff28);
    Next(m, 52, 0xfd9883de, 0x79c425c5, 0xe8ae8b9c, 0x4ddd36bd, 0x425e3674);
    Next(m, 53, 0x1ed8ffeb, 0x6353b49d, 0x4a933ad0, 0x35d36946, 0x059631c0);
    Next(m, 54, 0xf007ff28, 0x00994218, 0xce8628b4, 0xe8ae8b9c, 0xad6c3c31);
    Next(m, 55, 0x425e3674, 0x8a950ed1, 0x415dba9e, 0x4a933ad0, 0x860b71d7);
    Next(m, 56, 0x059631c0, 0xaf5d0b99, 0x2792f049, 0xce8628b4, 0x87bfc548);
    Next(m, 57, 0xad6c3c31, 0xfd9883de, 0x8e9b79e7, 0x415dba9e, 0x3e64f92d);
    Next(m, 58, 0x860b71d7, 0x1ed8ffeb, 0x79c425c5, 0x2792f049, 0x8d0ab761);
    Next(m, 59, 0x87bfc548, 0xf007ff28, 0x6353b49d, 0x8e9b79e7, 0x34e1ee35);
    Next(m, 60, 0x3e64f92d, 0x425e3674, 0x00994218, 0x79c425c5, 0x0acf5108);
    Next(m, 61, 0x8d0ab761, 0x059631c0, 0x8a950ed1, 0x6353b49d, 0xc2b479da);
    Next(m, 62, 0x34e1ee35, 0xad6c3c31, 0xaf5d0b99, 0x00994218, 0x6c93370a);
    Next(m, 63, 0x0acf5108, 0x860b71d7, 0xfd9883de, 0x8a950ed1, 0xf7935ba1);
  }

  lemma FirstWords64(m: Block)
    requires WordsAre(m, 48,
                      0xaf5d0b99, 0xfd9883de, 0x1ed8ffeb, 0xf007ff28, 0x425e3674, 0x059631c0, 0xad6c3c31, 0x860b71d7,
                      0x87bfc548, 0x3e64f92d, 0x8d0ab761, 0x34e1ee35, 0x0acf5108, 0xc2b479da, 0x6c93370a, 0xf7935ba1)
    ensures WordsAre(m, 64,
                     0xe91c91c1, 0xbed165a2, 0x4c3e4abe, 0x50d96238, 0xb6587dde, 0x1a2ee6e6, 0x2d335896, 0xf3495d0b,
                     0xf30e0a1d, 0x32ce5459, 0x7165e3b8, 0xab05ff94, 0xc5949f0b, 0xbcd84e4a, 0x07720392, 0xff3ff806)
  {
    hide At;
    Next(m, 64, 0xc2b479da, 0x87bfc548, 0x1ed8ffeb, 0xaf5d0b99, 0xe91c91c1);
    Next(m, 65, 0x6c93370a, 0x3e64f92d, 0xf007ff28, 0xfd9883de, 0xbed165a2);
    Next(m, 66, 0xf7935ba1, 0x8d0ab761, 0x425e3674, 0x1ed8ffeb, 0x4c3e4abe);
    Next(m, 67, 0xe91c91c1, 0x34e1ee35, 0x059631c0, 0xf007ff28, 0x50d96238);
    Next(m, 68, 0xbed165a2, 0x0acf5108, 0xad6c3c31, 0x425e3674, 0xb6587dde);
    Next(m, 69, 0x4c3e4abe, 0xc2b479da, 0x860b71d7, 0x059631c0, 0x1a2ee6e6);
    Next(m, 70, 0x50d96238, 0x6c93370a, 0x87bfc548, 0xad6c3c31, 0x2d335896);
    Next(m, 71, 0xb6587dde, 0xf7935ba1, 0x3e64f92d, 0x860b71d7, 0xf3495d0b);
    Next(m, 72, 0x1a2ee6e6, 0xe91c91c1, 0x8d0ab761, 0x87bfc548, 0xf30e0a1d);
    Next(m, 73, 0x2d335896, 0xbed165a2, 0x34e1ee35, 0x3e64f92d, 0x32ce5459);
    Next(m, 74, 0xf3495d0b, 0x4c3e4abe, 0x0acf5108, 0x8d0ab761, 0x7165e3b8);
    Next(m, 75, 0xf30e0a1d, 0x50d96238, 0xc2b479da, 0x34e1ee35, 0xab05ff94);
    Next(m, 76, 0x32ce5459, 0xb6587dde, 0x6c93370a, 0x0acf5108, 0xc5949f0b);
    Next(m, 77, 0x7165e3b8, 0x1a2ee6e6, 0xf7935ba1, 0xc2b479da, 0xbcd84e4a);
    Next(m, 78, 0xab05ff94, 0x2d335896, 0xe91c91c1, 0x6c93370a, 0x07720392);
    Next(m, 79, 0xc5949f0b, 0xf3495d0b, 0xbed165a2, 0xf7935ba1, 0xff3ff806);
  }

  lemma FirstRounds0(s: Vars, m: Block)
    requires After(s, m, 0, Vars(0x67452301, 0xefcdab89, 0x98badcfe, 0x10325476, 0xc3d2e1f0))
    requires WordsAre(m, 0,
                      0x6447686c, 0x49484e68, 0x62584273, 0x5a534275, 0x6232356a, 0x5a513d3d, 0x32353845, 0x41464135,
                      0x2d453931, 0x342d3437, 0x44412d39, 0x3543412d, 0x43354142, 0x30444338, 0x35423131, 0x80000000)
    ensures After(s, m, 16, Vars(0xa004c468, 0xe922cc9d, 0xab86825b, 0xd86f6caf, 0x8d33ae61))
  {
    hide At, After;
    TurnCh(s, m, 0, 0x67452301, 0xefcdab89, 0x98badcfe, 0x10325476, 0xc3d2e1f0, 0x6447686c, 0x03fc011f, 0x7bf36ae2);
    TurnCh(s, m, 1, 0x03fc011f, 0x67452301, 0x7bf36ae2, 0x98badcfe, 0x10325476, 0x49484e68, 0x2f793f55, 0x59d148c0);
    TurnCh(s, m, 2, 0x2f793f55, 0x03fc011f, 0x59d148c0, 0x7bf36ae2, 0x98badcfe, 0x62584273, 0xbe90ee8f, 0xc0ff0047);
    TurnCh(s, m, 3, 0xbe90ee8f, 0x2f793f55, 0xc0ff0047, 0x59d148c0, 0x7bf36ae2, 0x5a534275, 0x53e039ac, 0x4bde4fd5);
    TurnCh(s, m, 4, 0x53e039ac, 0xbe90ee8f, 0x4bde4fd5, 0xc0ff0047, 0x59d148c0, 0x6232356a, 0xdd8c7c12, 0xefa43ba3);
    TurnCh(s, m, 5, 0xdd8c7c12, 0x53e039ac, 0xefa43ba3, 0x4bde4fd5, 0xc0ff0047, 0x5a513d3d, 0x7320b969, 0x14f80e6b);
    TurnCh(s, m, 6, 0x7320b969, 0xdd8c7c12, 0x14f80e6b, 0xefa43ba3, 0x4bde4fd5, 0x32353845, 0x73553e84, 0xb7631f04);
    TurnCh(s, m, 7, 0x73553e84, 0x7320b969, 0xb7631f04, 0x14f80e6b, 0xefa43ba3, 0x41464135, 0x2e0ce601, 0x5cc82e5a);
    TurnCh(s, m, 8, 0x2e0ce601, 0x73553e84, 0x5cc82e5a, 0xb7631f04, 0x14f80e6b, 0x2d453931, 0x32beb05a, 0x1cd54fa1);
    TurnCh(s, m, 9, 0x32beb05a, 0x2e0ce601, 0x1cd54fa1, 0x5cc82e5a, 0xb7631f04, 0x342d3437, 0xfaad2675, 0x4b833980);
    TurnCh(s, m, 10, 0xfaad2675, 0x32beb05a, 0x4b833980, 0x1cd54fa1, 0x5cc82e5a, 0x44412d39, 0x5ff4238c, 0x8cafac16);
    TurnCh(s, m, 11, 0x5ff4238c, 0xfaad2675, 0x8cafac16, 0x4b833980, 0x1cd54fa1, 0x3543412d, 0x34ceb986, 0x7eab499d);
    TurnCh(s, m, 12, 0x34ceb986, 0x5ff4238c, 0x7eab499d, 0x8cafac16, 0x4b833980, 0x43354142, 0x61bdb2bf, 0x17fd08e3);
    TurnCh(s, m, 13, 0x61bdb2bf, 0x34ceb986, 0x17fd08e3, 0x7eab499d, 0x8cafac16, 0x30444338, 0xae1a096e, 0x8d33ae61);
    TurnCh(s, m, 14, 0xae1a096e, 0x61bdb2bf, 0x8d33ae61, 0x17fd08e3, 0x7eab499d, 0x35423131, 0xe922cc9d, 0xd86f6caf);
    TurnCh(s, m, 15, 0xe922cc9d, 0xae1a096e, 0xd86f6caf, 0x8d33ae61, 0x17fd08e3, 0x80000000, 0xa004c468, 0xab86825b);
  }

  lemma FirstRounds16(s: Vars, m: Block)
    requires After(s, m, 16, Vars(0xa004c468, 0xe922cc9d, 0xab86825b, 0xd86f6caf, 0x8d33ae61))
    requires WordsAre(m, 16,
                      0x363ca02c, 0x24e81236, 0x8856b441, 0x06fb3c92, 0x6fb4bcb6, 0x460b16e3, 0x599219ae, 0x35bf9369,
                      0x3267458e, 0xf828fd04, 0x753a96a7, 0x6336f612, 0xc3d66383, 0x06eb86f9, 0x73b4fd42, 0xa503c5b8)
    ensures After(s, m, 32, Vars(0xa6680a1f, 0xb7dabc8b, 0x4206d8f9, 0xc6aec70d, 0x95c7df60))
  {
    hide At, After;
    TurnCh(s, m, 16, 0xa004c468, 0xe922cc9d, 0xab86825b, 0xd86f6caf, 0x8d33ae61, 0x363ca02c, 0xd7daf575, 0x7a48b327);
    TurnCh(s, m, 17, 0xd7daf575, 0xa004c468, 0x7a48b327, 0xab86825b, 0xd86f6caf, 0x24e81236, 0x7ebb296b, 0x2801311a);
    TurnCh(s, m, 18, 0x7ebb296b, 0xd7daf575, 0x2801311a, 0x7a48b327, 0xab86825b, 0x8856b441, 0x8dc510b6, 0x75f6bd5d);
    TurnCh(s, m, 19, 0x8dc510b6, 0x7ebb296b, 0x75f6bd5d, 0x2801311a, 0x7a48b327, 0x06fb3c92, 0x091ab97c, 0xdfaeca5a);
    TurnXor(s, m, 20, 0x091ab97c, 0x8dc510b6, 0xdfaeca5a, 0x75f6bd5d, 0x2801311a, 0x6fb4bcb6, 0x518470a3, 0xa371442d);
    TurnXor(s, m, 21, 0x518470a3, 0x091ab97c, 0xa371442d, 0xdfaeca5a, 0x75f6bd5d, 0x460b16e3, 0xd12f0b56, 0x0246ae5f);
    TurnXor(s, m, 22, 0xd12f0b56, 0x518470a3, 0x0246ae5f, 0xa371442d, 0xdfaeca5a, 0x599219ae, 0xbeafd554, 0xd4611c28);
    TurnXor(s, m, 23, 0xbeafd554, 0xd12f0b56, 0xd4611c28, 0x0246ae5f, 0xa371442d, 0x35bf9369, 0x250e26ef, 0xb44bc2d5);
    TurnXor(s, m, 24, 0x250e26ef, 0xbeafd554, 0xb44bc2d5, 0xd4611c28, 0x0246ae5f, 0x3267458e, 0x23d1c91b, 0x2fabf555);
    TurnXor(s, m, 25, 0x23d1c91b, 0x250e26ef, 0x2fabf555, 0xb44bc2d5, 0xd4611c28, 0xf828fd04, 0x748b39a0, 0xc94389bb);
    TurnXor(s, m, 26, 0x748b39a0, 0x23d1c91b, 0xc94389bb, 0x2fabf555, 0xb44bc2d5, 0x753a96a7, 0xef012f20, 0xc8f47246);
    TurnXor(s, m, 27, 0xef012f20, 0x748b39a0, 0xc8f47246, 0xc94389bb, 0x2fabf555, 0x6336f612, 0x571f7d82, 0x1d22ce68);
    TurnXor(s, m, 28, 0x571f7d82, 0xef012f20, 0x1d22ce68, 0xc8f47246, 0xc94389bb, 0xc3d66383, 0x1abb1c37, 0x3bc04bc8);
    TurnXor(s, m, 29, 0x1abb1c37, 0x571f7d82, 0x3bc04bc8, 0x1d22ce68, 0xc8f47246, 0x06eb86f9, 0x081b63e5, 0x95c7df60);
    TurnXor(s, m, 30, 0x081b63e5, 0x1abb1c37, 0x95c7df60, 0x3bc04bc8, 0x1d22ce68, 0x73b4fd42, 0xb7dabc8b, 0xc6aec70d);
    TurnXor(s, m, 31, 0xb7dabc8b, 0x081b63e5, 0xc6aec70d, 0x95c7df60, 0x3bc04bc8, 0xa503c5b8, 0xa6680a1f, 0x4206d8f9);
  }

  lemma FirstRounds32(s: Vars, m: Block)
    requires After(s, m, 32, Vars(0xa6680a1f, 0xb7dabc8b, 0x4206d8f9, 0xc6aec70d, 0x95c7df60))
    requires WordsAre(m, 32,
                      0x15cdae35, 0x531e5dc5, 0x6fb6b7d0, 0x6c16e4ac, 0x4ddd36bd, 0x35d36946, 0xe8ae8b9c, 0x4a933ad0,
                      0xce8628b4, 0x415dba9e, 0x2792f049, 0x8e9b79e7, 0x79c425c5, 0x6353b49d, 0x00994218, 0x8a950ed1)
    ensures After(s, m, 48, Vars(0xabe1748a, 0xdee4b7a8, 0x5cbfccd3, 0x97d7cd14, 0xdb71a8f5))
  {
    hide At, After;
    TurnXor(s, m, 32, 0xa6680a1f, 0xb7dabc8b, 0x4206d8f9, 0xc6aec70d, 0x95c7df60, 0x15cdae35, 0x1ae360a9, 0xedf6af22);
    TurnXor(s, m, 33, 0x1ae360a9, 0xa6680a1f, 0xedf6af22, 0x4206d8f9, 0xc6aec70d, 0x531e5dc5, 0xeeaba35a, 0xe99a0287);
    TurnXor(s, m, 34, 0xeeaba35a, 0x1ae360a9, 0xe99a0287, 0xedf6af22, 0x4206d8f9, 0x6fb6b7d0, 0x149bb4d3, 0x46b8d82a);
    TurnXor(s, m, 35, 0x149bb4d3, 0xeeaba35a, 0x46b8d82a, 0xe99a0287, 0xedf6af22, 0x6c16e4ac, 0x9de793c8, 0xbbaae8d6);
    TurnXor(s, m, 36, 0x9de793c8, 0x149bb4d3, 0xbbaae8d6, 0x46b8d82a, 0xe99a0287, 0x4ddd36bd, 0x4ccd2227, 0xc526ed34);
    TurnXor(s, m, 37, 0x4ccd2227, 0x9de793c8, 0xc526ed34, 0xbbaae8d6, 0x46b8d82a, 0x35d36946, 0x68760824, 0x2779e4f2);
    TurnXor(s, m, 38, 0x68760824, 0x4ccd2227, 0x2779e4f2, 0xc526ed34, 0xbbaae8d6, 0xe8ae8b9c, 0xd0869081, 0xd3334889);
    TurnXor(s, m, 39, 0xd0869081, 0x68760824, 0xd3334889, 0x2779e4f2, 0xc526ed34, 0x4a933ad0, 0x2ba2c83e, 0x1a1d8209);
    TurnMaj(s, m, 40, 0x2ba2c83e, 0xd0869081, 0x1a1d8209, 0xd3334889, 0x2779e4f2, 0xce8628b4, 0xcb8c52d0, 0x7421a420);
    TurnMaj(s, m, 41, 0xcb8c52d0, 0x2ba2c83e, 0x7421a420, 0x1a1d8209, 0xd3334889, 0x415dba9e, 0x4f589a44, 0x8ae8b20f);
    TurnMaj(s, m, 42, 0x4f589a44, 0xcb8c52d0, 0x8ae8b20f, 0x7421a420, 0x1a1d8209, 0x2792f049, 0x868829b7, 0x32e314b4);
    TurnMaj(s, m, 43, 0x868829b7, 0x4f589a44, 0x32e314b4, 0x8ae8b20f, 0x7421a420, 0x8e9b79e7, 0x6dc6a3d7, 0x13d62691);
    TurnMaj(s, m, 44, 0x6dc6a3d7, 0x868829b7, 0x13d62691, 0x32e314b4, 0x8ae8b20f, 0x79c425c5, 0x5f5f3452, 0xe1a20a6d);
    TurnMaj(s, m, 45, 0x5f5f3452, 0x6dc6a3d7, 0xe1a20a6d, 0x13d62691, 0x32e314b4, 0x6353b49d, 0x72ff334d, 0xdb71a8f5);
    TurnMaj(s, m, 46, 0x72ff334d, 0x5f5f3452, 0xdb71a8f5, 0xe1a20a6d, 0x13d62691, 0x00994218, 0xdee4b7a8, 0x97d7cd14);
    TurnMaj(s, m, 47, 0xdee4b7a8, 0x72ff334d, 0x97d7cd14, 0xdb71a8f5, 0xe1a20a6d, 0x8a950ed1, 0xabe1748a, 0x5cbfccd3);
  }

  lemma FirstRounds48(s: Vars, m: Block)
    requires After(s, m, 48, Vars(0xabe1748a, 0xdee4b7a8, 0x5cbfccd3, 0x97d7cd14, 0xdb71a8f5))
    requires WordsAre(m, 48,
                      0xaf5d0b99, 0xfd9883de, 0x1ed8ffeb, 0xf007ff28, 0x425e3674, 0x059631c0, 0xad6c3c31, 0x860b71d7,
                      0x87bfc548, 0x3e64f92d, 0x8d0ab761, 0x34e1ee35, 0x0acf5108, 0xc2b479da, 0x6c93370a, 0xf7935ba1)
    ensures After(s, m, 64, Vars(0x685e2ff6, 0x840054d3, 0xe43c0363, 0x3350802e, 0x921cb616))
  {
    hide At, After;
    TurnMaj(s, m, 48, 0xabe1748a, 0xdee4b7a8, 0x5cbfccd3, 0x97d7cd14, 0xdb71a8f5, 0xaf5d0b99, 0x7510d04f, 0x37b92dea);
    TurnMaj(s, m, 49, 0x7510d04f, 0xabe1748a, 0x37b92dea, 0x5cbfccd3, 0x97d7cd14, 0xfd9883de, 0x065f8486, 0xaaf85d22);
    TurnMaj(s, m, 50, 0x065f8486, 0x7510d04f, 0xaaf85d22, 0x37b92dea, 0x5cbfccd3, 0x1ed8ffeb, 0x0e5d77c4, 0xdd443413);
    TurnMaj(s, m, 51, 0x0e5d77c4, 0x065f8486, 0xdd443413, 0xaaf85d22, 0x37b92dea, 0xf007ff28, 0x10e7f671, 0x8197e121);
    TurnMaj(s, m, 52, 0x10e7f671, 0x0e5d77c4, 0x8197e121, 0xdd443413, 0xaaf85d22, 0x425e3674, 0x26c69395, 0x03975df1);
    TurnMaj(s, m, 53, 0x26c69395, 0x10e7f671, 0x03975df1, 0x8197e121, 0xdd443413, 0x059631c0, 0x4c608ac4, 0x4439fd9c);
    TurnMaj(s, m, 54, 0x4c608ac4, 0x26c69395, 0x4439fd9c, 0x03975df1, 0x8197e121, 0xad6c3c31, 0x50c9104c, 0x49b1a4e5);
    TurnMaj(s, m, 55, 0x50c9104c, 0x4c608ac4, 0x49b1a4e5, 0x4439fd9c, 0x03975df1, 0x860b71d7, 0x7e1242f2, 0x131822b1);
    TurnMaj(s, m, 56, 0x7e1242f2, 0x50c9104c, 0x131822b1, 0x49b1a4e5, 0x4439fd9c, 0x87bfc548, 0x6ef6fef4, 0x14324413);
    TurnMaj(s, m, 57, 0x6ef6fef4, 0x7e1242f2, 0x14324413, 0x131822b1, 0x49b1a4e5, 0x3e64f92d, 0x0c247c2e, 0x9f8490bc);
    TurnMaj(s, m, 58, 0x0c247c2e, 0x6ef6fef4, 0x9f8490bc, 0x14324413, 0x131822b1, 0x8d0ab761, 0xd284f163, 0x1bbdbfbd);
    TurnMaj(s, m, 59, 0xd284f163, 0x0c247c2e, 0x1bbdbfbd, 0x9f8490bc, 0x14324413, 0x34e1ee35, 0x4872d85a, 0x83091f0b);
    TurnEnd(s, m, 60, 0x4872d85a, 0xd284f163, 0x83091f0b, 0x1bbdbfbd, 0x9f8490bc, 0x0acf5108, 0xcd4200b8, 0xf4a13c58);
    TurnEnd(s, m, 61, 0xcd4200b8, 0x4872d85a, 0xf4a13c58, 0x83091f0b, 0x1bbdbfbd, 0xc2b479da, 0x90f00d8f, 0x921cb616);
    TurnEnd(s, m, 62, 0x90f00d8f, 0xcd4200b8, 0x921cb616, 0xf4a13c58, 0x83091f0b, 0x6c93370a, 0x840054d3, 0x3350802e);
    TurnEnd(s, m, 63, 0x840054d3, 0x90f00d8f, 0x3350802e, 0x921cb616, 0xf4a13c58, 0xf7935ba1, 0x685e2ff6, 0xe43c0363);
  }

  lemma FirstRounds64(s: Vars, m: Block)
    requires After(s, m, 64, Vars(0x685e2ff6, 0x840054d3, 0xe43c0363, 0x3350802e, 0x921cb616))
    requires WordsAre(m, 64,
                      0xe91c91c1, 0xbed165a2, 0x4c3e4abe, 0x50d96238, 0xb6587dde, 0x1a2ee6e6, 0x2d335896, 0xf3495d0b,
                      0xf30e0a1d, 0x32ce5459, 0x7165e3b8, 0xab05ff94, 0xc5949f0b, 0xbcd84e4a, 0x07720392, 0xff3ff806)
    ensures After(s, m, 80, Vars(0xf48a5426, 0x835995e1, 0x25c11efb, 0x4a45c402, 0x9a73c2f2))
  {
    hide At, After;
    TurnEnd(s, m, 64, 0x685e2ff6, 0x840054d3, 0xe43c0363, 0x3350802e, 0x921cb616, 0xe91c91c1, 0xa4cee018, 0xe1001534);
    TurnEnd(s, m, 65, 0xa4cee018, 0x685e2ff6, 0xe1001534, 0xe43c0363, 0x3350802e, 0xbed165a2, 0xc3c2e45b, 0x9a178bfd);
    TurnEnd(s, m, 66, 0xc3c2e45b, 0xa4cee018, 0x9a178bfd, 0xe1001534, 0xe43c0363, 0x4c3e4abe, 0x53131a40, 0x2933b806);
    TurnEnd(s, m, 67, 0x53131a40, 0xc3c2e45b, 0x2933b806, 0x9a178bfd, 0xe1001534, 0x50d96238, 0xcf8658ec, 0xf0f0b916);
    TurnEnd(s, m, 68, 0xcf8658ec, 0x53131a40, 0xf0f0b916, 0x2933b806, 0x9a178bfd, 0xb6587dde, 0x966e049a, 0x14c4c690);
    TurnEnd(s, m, 69, 0x966e049a, 0xcf8658ec, 0x14c4c690, 0xf0f0b916, 0x2933b806, 0x1a2ee6e6, 0x07381b7e, 0x33e1963b);
    TurnEnd(s, m, 70, 0x07381b7e, 0x966e049a, 0x33e1963b, 0x14c4c690, 0xf0f0b916, 0x2d335896, 0x80d59773, 0xa59b8126);
    TurnEnd(s, m, 71, 0x80d59773, 0x07381b7e, 0xa59b8126, 0x33e1963b, 0x14c4c690, 0xf3495d0b, 0x7e65e044, 0x81ce06df);
    TurnEnd(s, m, 72, 0x7e65e044, 0x80d59773, 0x81ce06df, 0xa59b8126, 0x33e1963b, 0xf30e0a1d, 0x628e7b47, 0xe03565dc);
    TurnEnd(s, m, 73, 0x628e7b47, 0x7e65e044, 0xe03565dc, 0x81ce06df, 0xa59b8126, 0x32ce5459, 0x143a8388, 0x1f997811);
    TurnEnd(s, m, 74, 0x143a8388, 0x628e7b47, 0x1f997811, 0xe03565dc, 0x81ce06df, 0x7165e3b8, 0xe20983f9, 0xd8a39ed1);
    TurnEnd(s, m, 75, 0xe20983f9, 0x143a8388, 0xd8a39ed1, 0x1f997811, 0xe03565dc, 0xab05ff94, 0x69cf0bca, 0x050ea0e2);
    TurnEnd(s, m, 76, 0x69cf0bca, 0xe20983f9, 0x050ea0e2, 0xd8a39ed1, 0x1f997811, 0xc5949f0b, 0x29171009, 0x788260fe);
    TurnEnd(s, m, 77, 0x29171009, 0x69cf0bca, 0x788260fe, 0x050ea0e2, 0xd8a39ed1, 0xbcd84e4a, 0x97047bec, 0x9a73c2f2);
    TurnEnd(s, m, 78, 0x97047bec, 0x29171009, 0x9a73c2f2, 0x788260fe, 0x050ea0e2, 0x07720392, 0x835995e1, 0x4a45c402);
    TurnEnd(s, m, 79, 0x835995e1, 0x97047bec, 0x4a45c402, 0x9a73c2f2, 0x788260fe, 0xff3ff806, 0xf48a5426, 0x25c11efb);
  }

  lemma FirstCompressed(h: Vars, m: Block)
    requires h == Vars(0x67452301, 0xefcdab89, 0x98badcfe, 0x10325476, 0xc3d2e1f0)
    requires WordsAre(m, 0,
                      0x6447686c, 0x49484e68, 0x62584273, 0x5a534275, 0x6232356a, 0x5a513d3d, 0x32353845, 0x41464135,
                      0x2d453931, 0x342d3437, 0x44412d39, 0x3543412d, 0x43354142, 0x30444338, 0x35423131, 0x80000000)
    ensures Compress(h, m) == Vars(0x5bcf7727, 0x7327416a, 0xbe7bfbf9, 0x5a781878, 0x5e46a4e2)
  {
    hide WordsAre, After, Compress;
    Start(h, m);
    FirstWords16(m);
    FirstWords32(m);
    FirstWords48(m);
    FirstWords64(m);
    FirstRounds0(h, m);
    FirstRounds16(h, m);
    FirstRounds32(h, m);
    FirstRounds48(h, m);
    FirstRounds64(h, m);
    FirstSums(h, m);
  }

  lemma FirstSums(h: Vars, m: Block)
    requires h == Vars(0x67452301, 0xefcdab89, 0x98badcfe, 0x10325476, 0xc3d2e1f0)
    requires After(h, m, 80, Vars(0xf48a5426, 0x835995e1, 0x25c11efb, 0x4a45c402, 0x9a73c2f2))
    ensures Compress(h, m) == Vars(0x5bcf7727, 0x7327416a, 0xbe7bfbf9, 0x5a781878, 0x5e46a4e2)
  {
    hide After, Compress;
    Added(h, m, Vars(0xf48a5426, 0x835995e1, 0x25c11efb, 0x4a45c402, 0x9a73c2f2),
          Vars(0x5bcf7727, 0x7327416a, 0xbe7bfbf9, 0x5a781878, 0x5e46a4e2));
  }

  // ---- The block of padding ----

  lemma SecondWords16(m: Block)
    requires WordsAre(m, 0,
                      0x00000000, 0x00000000, 0x00000000, 0x00000000, 0x00000000, 0x00000000, 0x00000000, 0x00000000,
                      0x00000000, 0x00000000, 0x00000000, 0x00000000, 0x00000000, 0x00000000, 0x00000000, 0x000001e0)
    ensures WordsAre(m, 16,
                     0x00000000, 0x00000000, 0x000003c0, 0x00000000, 0x00000000, 0x00000780, 0x00000000, 0x000003c0,
                     0x00000f00, 0x00000000, 0x00000000, 0x00001e00, 0x00000000, 0x00000cc0, 0x00003c00, 0x00000440)
  {
    hide At;
    Next(m, 16, 0x00000000, 0x00000000, 0x00000000, 0x00000000, 0x00000000);
    Next(m, 17, 0x00000000, 0x00000000, 0x00000000, 0x00000000, 0x00000000);
    Next(m, 18, 0x000001e0, 0x00000000, 0x00000000, 0x00000000, 0x000003c0);
    Next(m, 19, 0x00000000, 0x00000000, 0x00000000, 0x00000000, 0x00000000);
    Next(m, 20, 0x00000000, 0x00000000, 0x00000000, 0x00000000, 0x00000000);
    Next(m, 21, 0x000003c0, 0x00000000, 0x00000000, 0x00000000, 0x00000780);
    Next(m, 22, 0x00000000, 0x00000000, 0x00000000, 0x00000000, 0x00000000);
    Next(m, 23, 0x00000000, 0x000001e0, 0x00000000, 0x00000000, 0x000003c0);
    Next(m, 24, 0x00000780, 0x00000000, 0x00000000, 0x00000000, 0x00000f00);
    Next(m, 25, 0x00000000, 0x00000000, 0x00000000, 0x00000000, 0x00000000);
    Next(m, 26, 0x000003c0, 0x000003c0, 0x00000000, 0x00000000, 0x00000000);
    Next(m, 27, 0x00000f00, 0x00000000, 0x00000000, 0x00000000, 0x00001e00);
    Next(m, 28, 0x00000000, 0x00000000, 0x00000000, 0x00000000, 0x00000000);
    Next(m, 29, 0x00000000, 0x00000780, 0x000001e0, 0x00000000, 0x00000cc0);
    Next(m, 30, 0x00001e00, 0x00000000, 0x00000000, 0x00000000, 0x00003c00);
    Next(m, 31, 0x00000000, 0x000003c0, 0x00000000, 0x000001e0, 0x00000440);
  }

  lemma SecondWords32(m: Block)
    requires WordsAre(m, 16,
                      0x00000000, 0x00000000, 0x000003c0, 0x00000000, 0x00000000, 0x00000780, 0x00000000, 0x000003c0,
                      0x00000f00, 0x00000000, 0x00000000, 0x00001e00, 0x00000000, 0x00000cc0, 0x00003c00, 0x00000440)
    ensures WordsAre(m, 32,
                     0x00000000, 0x00007800, 0x00000f00, 0x00003300, 0x0000f000, 0x00000f00, 0x00000000, 0x0001ef00,
                     0x00000000, 0x0000cc00, 0x0003c000, 0x00004380, 0x00000000, 0x00078f00, 0x0000ff00, 0x00032680)
  {
    hide At;
    Next(m, 32, 0x00000cc0, 0x00000f00, 0x000003c0, 0x00000000, 0x00000000);
    Next(m, 33, 0x00003c00, 0x00000000, 0x00000000, 0x00000000, 0x00007800);
    Next(m, 34, 0x00000440, 0x00000000, 0x00000000, 0x000003c0, 0x00000f00);
    Next(m, 35, 0x00000000, 0x00001e00, 0x00000780, 0x00000000, 0x00003300);
    Next(m, 36, 0x00007800, 0x00000000, 0x00000000, 0x00000000, 0x0000f000);
    Next(m, 37, 0x00000f00, 0x00000cc0, 0x000003c0, 0x00000780, 0x00000f00);
    Next(m, 38, 0x00003300, 0x00003c00, 0x00000f00, 0x00000000, 0x00000000);
    Next(m, 39, 0x0000f000, 0x00000440, 0x00000000, 0x000003c0, 0x0001ef00);
    Next(m, 40, 0x00000f00, 0x00000000, 0x00000000, 0x00000f00, 0x00000000);
    Next(m, 41, 0x00000000, 0x00007800, 0x00001e00, 0x00000000, 0x0000cc00);
    Next(m, 42, 0x0001ef00, 0x00000f00, 0x00000000, 0x00000000, 0x0003c000);
    Next(m, 43, 0x00000000, 0x00003300, 0x00000cc0, 0x00001e00, 0x00004380);
    Next(m, 44, 0x0000cc00, 0x0000f000, 0x00003c00, 0x00000000, 0x00000000);
    Next(m, 45, 0x0003c000, 0x00000f00, 0x00000440, 0x00000cc0, 0x00078f00);
    Next(m, 46, 0x00004380, 0x00000000, 0x00000000, 0x00003c00, 0x0000ff00);
    Next(m, 47, 0x00000000, 0x0001ef00, 0x00007800, 0x00000440, 0x00032680);
  }

  lemma SecondWords48(m: Block)
    requires WordsAre(m, 32,
                      0x00000000, 0x00007800, 0x00000f00, 0x00003300, 0x0000f000, 0x00000f00, 0x00000000, 0x0001ef00,
                      0x00000000, 0x0000cc00, 0x0003c000, 0x00004380, 0x00000000, 0x00078f00, 0x0000ff00, 0x00032680)
    ensures WordsAre(m, 48,
                     0x000f0000, 0x0000f000, 0x00003300, 0x001eff00, 0x00000000, 0x000cb800, 0x003c0000, 0x00040b00,
                     0x0000f000, 0x0078ff00, 0x000ff000, 0x00338700, 0x00f00000, 0x000fc300, 0x0000f000, 0x01efbb00)
  {
    hide At;
    Next(m, 48, 0x00078f00, 0x00000000, 0x00000f00, 0x00000000, 0x000f0000);
    Next(m, 49, 0x0000ff00, 0x0000cc00, 0x00003300, 0x00007800, 0x0000f000);
    Next(m, 50, 0x00032680, 0x0003c000, 0x0000f000, 0x00000f00, 0x00003300);
    Next(m, 51, 0x000f0000, 0x00004380, 0x00000f00, 0x00003300, 0x001eff00);
    Next(m, 52, 0x0000f000, 0x00000000, 0x00000000, 0x0000f000, 0x00000000);
    Next(m, 53, 0x00003300, 0x00078f00, 0x0001ef00, 0x00000f00, 0x000cb800);
    Next(m, 54, 0x001eff00, 0x0000ff00, 0x00000000, 0x00000000, 0x003c0000);
    Next(m, 55, 0x00000000, 0x00032680, 0x0000cc00, 0x0001ef00, 0x00040b00);
    Next(m, 56, 0x000cb800, 0x000f0000, 0x0003c000, 0x00000000, 0x0000f000);
    Next(m, 57, 0x003c0000, 0x0000f000, 0x00004380, 0x0000cc00, 0x0078ff00);
    Next(m, 58, 0x00040b00, 0x00003300, 0x00000000, 0x0003c000, 0x000ff000);
    Next(m, 59, 0x0000f000, 0x001eff00, 0x00078f00, 0x00004380, 0x00338700);
    Next(m, 60, 0x0078ff00, 0x00000000, 0x0000ff00, 0x00000000, 0x00f00000);
    Next(m, 61, 0x000ff000, 0x000cb800, 0x00032680, 0x00078f00, 0x000fc300);
    Next(m, 62, 0x00338700, 0x003c0000, 0x000f0000, 0x0000ff00, 0x0000f000);
    Next(m, 63, 0x00f00000, 0x00040b00, 0x0000f000, 0x00032680, 0x01efbb00);
  }

  lemma SecondWords64(m: Block)
    requires WordsAre(m, 48,
                      0x000f0000, 0x0000f000, 0x00003300, 0x001eff00, 0x00000000, 0x000cb800, 0x003c0000, 0x00040b00,
                      0x0000f000, 0x0078ff00, 0x000ff000, 0x00338700, 0x00f00000, 0x000fc300, 0x0000f000, 0x01efbb00)
    ensures WordsAre(m, 64,
                     0x00000000, 0x00cc0000, 0x03c0f000, 0x00438000, 0x00000000, 0x078f0000, 0x00ff0000, 0x03269e00,
                     0x0f000000, 0x00f0f000, 0x00333c00, 0x1eff8800, 0x00000000, 0x0cb88800, 0x3c00f000, 0x040a4a00)
  {
    hide At;
    Next(m, 64, 0x000fc300, 0x0000f000, 0x00003300, 0x000f0000, 0x00000000);
    Next(m, 65, 0x0000f000, 0x0078ff00, 0x001eff00, 0x0000f000, 0x00cc0000);
    Next(m, 66, 0x01efbb00, 0x000ff000, 0x00000000, 0x00003300, 0x03c0f000);
    Next(m, 67, 0x00000000, 0x00338700, 0x000cb800, 0x001eff00, 0x00438000);
    Next(m, 68, 0x00cc0000, 0x00f00000, 0x003c0000, 0x00000000, 0x00000000);
    Next(m, 69, 0x03c0f000, 0x000fc300, 0x00040b00, 0x000cb800, 0x078f0000);
    Next(m, 70, 0x00438000, 0x0000f000, 0x0000f000, 0x003c0000, 0x00ff0000);
    Next(m, 71, 0x00000000, 0x01efbb00, 0x0078ff00, 0x00040b00, 0x03269e00);
    Next(m, 72, 0x078f0000, 0x00000000, 0x000ff000, 0x0000f000, 0x0f000000);
    Next(m, 73, 0x00ff0000, 0x00cc0000, 0x00338700, 0x0078ff00, 0x00f0f000);
    Next(m, 74, 0x03269e00, 0x03c0f000, 0x00f00000, 0x000ff000, 0x00333c00);
    Next(m, 75, 0x0f000000, 0x00438000, 0x000fc300, 0x00338700, 0x1eff8800);
    Next(m, 76, 0x00f0f000, 0x00000000, 0x0000f000, 0x00f00000, 0x00000000);
    Next(m, 77, 0x00333c00, 0x078f0000, 0x01efbb00, 0x000fc300, 0x0cb88800);
    Next(m, 78, 0x1eff8800, 0x00ff0000, 0x00000000, 0x0000f000, 0x3c00f000);
    Next(m, 79, 0x00000000, 0x03269e00, 0x00cc0000, 0x01efbb00, 0x040a4a00);
  }

  lemma SecondRounds0(s: Vars, m: Block)
    requires After(s, m, 0, Vars(0x5bcf7727, 0x7327416a, 0xbe7bfbf9, 0x5a781878, 0x5e46a4e2))
    requires WordsAre(m, 0,
                      0x00000000, 0x00000000, 0x00000000, 0x00000000, 0x00000000, 0x00000000, 0x00000000, 0x00000000,
                      0x00000000, 0x00000000, 0x00000000, 0x00000000, 0x00000000, 0x00000000, 0x00000000, 0x000001e0)
    ensures After(s, m, 16, Vars(0x986df268, 0x990b7be7, 0xab50fce7, 0x195db4b7, 0x4941806b))
  {
    hide At, After;
    TurnCh(s, m, 0, 0x5bcf7727, 0x7327416a, 0xbe7bfbf9, 0x5a781878, 0x5e46a4e2, 0x00000000, 0x6d335cde, 0x9cc9d05a);
    TurnCh(s, m, 1, 0x6d335cde, 0x5bcf7727, 0x9cc9d05a, 0xbe7bfbf9, 0x5a781878, 0x00000000, 0x186006b8, 0xd6f3ddc9);
    TurnCh(s, m, 2, 0x186006b8, 0x6d335cde, 0xd6f3ddc9, 0x9cc9d05a, 0xbe7bfbf9, 0x00000000, 0xf9fb295d, 0x9b4cd737);
    TurnCh(s, m, 3, 0xf9fb295d, 0x186006b8, 0x9b4cd737, 0xd6f3ddc9, 0x9cc9d05a, 0x00000000, 0x15855523, 0x061801ae);
    TurnCh(s, m, 4, 0x15855523, 0xf9fb295d, 0x061801ae, 0x9b4cd737, 0xd6f3ddc9, 0x00000000, 0xe43dd2f2, 0x7e7eca57);
    TurnCh(s, m, 5, 0xe43dd2f2, 0x15855523, 0x7e7eca57, 0x061801ae, 0x9b4cd737, 0x00000000, 0x93a5efbb, 0xc5615548);
    TurnCh(s, m, 6, 0x93a5efbb, 0xe43dd2f2, 0xc5615548, 0x7e7eca57, 0x061801ae, 0x00000000, 0xb3bbcafe, 0xb90f74bc);
    TurnCh(s, m, 7, 0xb3bbcafe, 0x93a5efbb, 0xb90f74bc, 0xc5615548, 0x7e7eca57, 0x00000000, 0x25c018be, 0xe4e97bee);
    TurnCh(s, m, 8, 0x25c018be, 0xb3bbcafe, 0xe4e97bee, 0xb90f74bc, 0xc5615548, 0x00000000, 0x80946593, 0xaceef2bf);
    TurnCh(s, m, 9, 0x80946593, 0x25c018be, 0xaceef2bf, 0xe4e97bee, 0xb90f74bc, 0x00000000, 0x0b0814c3, 0x8970062f);
    TurnCh(s, m, 10, 0x0b0814c3, 0x80946593, 0x8970062f, 0xaceef2bf, 0xe4e97bee, 0x00000000, 0x4ce92417, 0xe0251964);
    TurnCh(s, m, 11, 0x4ce92417, 0x0b0814c3, 0xe0251964, 0x8970062f, 0xaceef2bf, 0x00000000, 0x250601ad, 0xc2c20530);
    TurnCh(s, m, 12, 0x250601ad, 0x4ce92417, 0xc2c20530, 0xe0251964, 0x8970062f, 0x00000000, 0x6576d2dc, 0xd33a4905);
    TurnCh(s, m, 13, 0x6576d2dc, 0x250601ad, 0xd33a4905, 0xc2c20530, 0xe0251964, 0x00000000, 0xad43f39e, 0x4941806b);
    TurnCh(s, m, 14, 0xad43f39e, 0x6576d2dc, 0x4941806b, 0xd33a4905, 0xc2c20530, 0x00000000, 0x990b7be7, 0x195db4b7);
    TurnCh(s, m, 15, 0x990b7be7, 0xad43f39e, 0x195db4b7, 0x4941806b, 0xd33a4905, 0x000001e0, 0x986df268, 0xab50fce7);
  }

  lemma SecondRounds16(s: Vars, m: Block)
    requires After(s, m, 16, Vars(0x986df268, 0x990b7be7, 0xab50fce7, 0x195db4b7, 0x4941806b))
    requires WordsAre(m, 16,
                      0x00000000, 0x00000000, 0x000003c0, 0x00000000, 0x00000000, 0x00000780, 0x00000000, 0x000003c0,
                      0x00000f00, 0x00000000, 0x00000000, 0x00001e00, 0x00000000, 0x00000cc0, 0x00003c00, 0x00000440)
    ensures After(s, m, 32, Vars(0x3cf6eb58, 0xf4ddd7b7, 0xc90fb815, 0xbd5f2d4f, 0xe4c9f7db))
  {
    hide At, After;
    TurnCh(s, m, 16, 0x986df268, 0x990b7be7, 0xab50fce7, 0x195db4b7, 0x4941806b, 0x00000000, 0x3ad7440e, 0xe642def9);
    TurnCh(s, m, 17, 0x3ad7440e, 0x986df268, 0xe642def9, 0xab50fce7, 0x195db4b7, 0x00000000, 0x72198f06, 0x261b7c9a);
    TurnCh(s, m, 18, 0x72198f06, 0x3ad7440e, 0x261b7c9a, 0xe642def9, 0xab50fce7, 0x000003c0, 0x2f193a09, 0x8eb5d103);
    TurnCh(s, m, 19, 0x2f193a09, 0x72198f06, 0x8eb5d103, 0x261b7c9a, 0xe642def9, 0x00000000, 0x2a008b51, 0x9c8663c1);
    TurnXor(s, m, 20, 0x2a008b51, 0x2f193a09, 0x9c8663c1, 0x8eb5d103, 0x261b7c9a, 0x00000000, 0x12315b2b, 0x4bc64e82);
    TurnXor(s, m, 21, 0x12315b2b, 0x2a008b51, 0x4bc64e82, 0x9c8663c1, 0x8eb5d103, 0x00000780, 0x40fbcf98, 0x4a8022d4);
    TurnXor(s, m, 22, 0x40fbcf98, 0x12315b2b, 0x4a8022d4, 0x4bc64e82, 0x9c8663c1, 0x00000000, 0x3e5179e7, 0xc48c56ca);
    TurnXor(s, m, 23, 0x3e5179e7, 0x40fbcf98, 0xc48c56ca, 0x4a8022d4, 0x4bc64e82, 0x000003c0, 0x53c73650, 0x103ef3e6);
    TurnXor(s, m, 24, 0x53c73650, 0x3e5179e7, 0x103ef3e6, 0xc48c56ca, 0x4a8022d4, 0x00000f00, 0x1d24c44a, 0xcf945e79);
    TurnXor(s, m, 25, 0x1d24c44a, 0x53c73650, 0xcf945e79, 0x103ef3e6, 0xc48c56ca, 0x00000000, 0x646c677d, 0x14f1cd94);
    TurnXor(s, m, 26, 0x646c677d, 0x1d24c44a, 0x14f1cd94, 0xcf945e79, 0x103ef3e6, 0x00000000, 0xd2e726da, 0x87493112);
    TurnXor(s, m, 27, 0xd2e726da, 0x646c677d, 0x87493112, 0x14f1cd94, 0xcf945e79, 0x00001e00, 0x9327df6f, 0x591b19df);
    TurnXor(s, m, 28, 0x9327df6f, 0xd2e726da, 0x591b19df, 0x87493112, 0x14f1cd94, 0x00000000, 0xf57cb53e, 0xb4b9c9b6);
    TurnXor(s, m, 29, 0xf57cb53e, 0x9327df6f, 0xb4b9c9b6, 0x591b19df, 0x87493112, 0x00000cc0, 0x243ee057, 0xe4c9f7db);
    TurnXor(s, m, 30, 0x243ee057, 0xf57cb53e, 0xe4c9f7db, 0xb4b9c9b6, 0x591b19df, 0x00003c00, 0xf4ddd7b7, 0xbd5f2d4f);
    TurnXor(s, m, 31, 0xf4ddd7b7, 0x243ee057, 0xbd5f2d4f, 0xe4c9f7db, 0xb4b9c9b6, 0x00000440, 0x3cf6eb58, 0xc90fb815);
  }

  lemma SecondRounds32(s: Vars, m: Block)
    requires After(s, m, 32, Vars(0x3cf6eb58, 0xf4ddd7b7, 0xc90fb815, 0xbd5f2d4f, 0xe4c9f7db))
    requires WordsAre(m, 32,
                      0x00000000, 0x00007800, 0x00000f00, 0x00003300, 0x0000f000, 0x00000f00, 0x00000000, 0x0001ef00,
                      0x00000000, 0x0000cc00, 0x0003c000, 0x00004380, 0x00000000, 0x00078f00, 0x0000ff00, 0x00032680)
    ensures After(s, m, 48, Vars(0xa3ef857e, 0xc8cda3da, 0xcef6480e, 0xff1ef4d7, 0xc7a4d2b3))
  {
    hide At, After;
    TurnXor(s, m, 32, 0x3cf6eb58, 0xf4ddd7b7, 0xc90fb815, 0xbd5f2d4f, 0xe4c9f7db, 0x00000000, 0x730e9170, 0xfd3775ed);
    TurnXor(s, m, 33, 0x730e9170, 0x3cf6eb58, 0xfd3775ed, 0xc90fb815, 0xbd5f2d4f, 0x00007800, 0x96d9e59e, 0x0f3dbad6);
    TurnXor(s, m, 34, 0x96d9e59e, 0x730e9170, 0x0f3dbad6, 0xfd3775ed, 0xc90fb815, 0x00000f00, 0x942ac4d3, 0x1cc3a45c);
    TurnXor(s, m, 35, 0x942ac4d3, 0x96d9e59e, 0x1cc3a45c, 0x0f3dbad6, 0xfd3775ed, 0x00003300, 0x76922a14, 0xa5b67967);
    TurnXor(s, m, 36, 0x76922a14, 0x942ac4d3, 0xa5b67967, 0x1cc3a45c, 0x0f3dbad6, 0x0000f000, 0x7dbcf2ed, 0xe50ab134);
    TurnXor(s, m, 37, 0x7dbcf2ed, 0x76922a14, 0xe50ab134, 0xa5b67967, 0x1cc3a45c, 0x00000f00, 0x796adef3, 0x1da48a85);
    TurnXor(s, m, 38, 0x796adef3, 0x7dbcf2ed, 0x1da48a85, 0xe50ab134, 0xa5b67967, 0x00000000, 0xc6ff0cd3, 0x5f6f3cbb);
    TurnXor(s, m, 39, 0xc6ff0cd3, 0x796adef3, 0x5f6f3cbb, 0x1da48a85, 0xe50ab134, 0x0001ef00, 0x6f698f1a, 0xde5ab7bc);
    TurnMaj(s, m, 40, 0x6f698f1a, 0xc6ff0cd3, 0xde5ab7bc, 0x5f6f3cbb, 0x1da48a85, 0x00000000, 0x78716769, 0xf1bfc334);
    TurnMaj(s, m, 41, 0x78716769, 0x6f698f1a, 0xf1bfc334, 0xde5ab7bc, 0x5f6f3cbb, 0x0000cc00, 0xfc343a02, 0x9bda63c6);
    TurnMaj(s, m, 42, 0xfc343a02, 0x78716769, 0x9bda63c6, 0xf1bfc334, 0xde5ab7bc, 0x0003c000, 0xedfcd85b, 0x5e1c59da);
    TurnMaj(s, m, 43, 0xedfcd85b, 0xfc343a02, 0x5e1c59da, 0x9bda63c6, 0xf1bfc334, 0x00004380, 0x1e934acf, 0xbf0d0e80);
    TurnMaj(s, m, 44, 0x1e934acf, 0xedfcd85b, 0xbf0d0e80, 0x5e1c59da, 0x9bda63c6, 0x00000000, 0xfc7bd35f, 0xfb7f3616);
    TurnMaj(s, m, 45, 0xfc7bd35f, 0x1e934acf, 0xfb7f3616, 0xbf0d0e80, 0x5e1c59da, 0x00078f00, 0x3bd9203b, 0xc7a4d2b3);
    TurnMaj(s, m, 46, 0x3bd9203b, 0xfc7bd35f, 0xc7a4d2b3, 0xfb7f3616, 0xbf0d0e80, 0x0000ff00, 0xc8cda3da, 0xff1ef4d7);
    TurnMaj(s, m, 47, 0xc8cda3da, 0x3bd9203b, 0xff1ef4d7, 0xc7a4d2b3, 0xfb7f3616, 0x00032680, 0xa3ef857e, 0xcef6480e);
  }

  lemma SecondRounds48(s: Vars, m: Block)
    requires After(s, m, 48, Vars(0xa3ef857e, 0xc8cda3da, 0xcef6480e, 0xff1ef4d7, 0xc7a4d2b3))
    requires WordsAre(m, 48,
                      0x000f0000, 0x0000f000, 0x00003300, 0x001eff00, 0x00000000, 0x000cb800, 0x003c0000, 0x00040b00,
                      0x0000f000, 0x0078ff00, 0x000ff000, 0x00338700, 0x00f00000, 0x000fc300, 0x0000f000, 0x01efbb00)
    ensures After(s, m, 64, Vars(0xa5937450, 0xd5ef1ed7, 0xc444cbe3, 0xddd22788, 0x558467c6))
  {
    hide At, After;
    TurnMaj(s, m, 48, 0xa3ef857e, 0xc8cda3da, 0xcef6480e, 0xff1ef4d7, 0xc7a4d2b3, 0x000f0000, 0xa39f2041, 0xb23368f6);
    TurnMaj(s, m, 49, 0xa39f2041, 0xa3ef857e, 0xb23368f6, 0xcef6480e, 0xff1ef4d7, 0x0000f000, 0xa516f265, 0xa8fbe15f);
    TurnMaj(s, m, 50, 0xa516f265, 0xa39f2041, 0xa8fbe15f, 0xb23368f6, 0xcef6480e, 0x00003300, 0xa3abe4f5, 0x68e7c810);
    TurnMaj(s, m, 51, 0xa3abe4f5, 0xa516f265, 0x68e7c810, 0xa8fbe15f, 0xb23368f6, 0x001eff00, 0x5fe2a3db, 0x6945bc99);
    TurnMaj(s, m, 52, 0x5fe2a3db, 0xa3abe4f5, 0x6945bc99, 0x68e7c810, 0xa8fbe15f, 0x00000000, 0x9e540637, 0x68eaf93d);
    TurnMaj(s, m, 53, 0x9e540637, 0x5fe2a3db, 0x68eaf93d, 0x6945bc99, 0x68e7c810, 0x000cb800, 0x2c73bd78, 0xd7f8a8f6);
    TurnMaj(s, m, 54, 0x2c73bd78, 0x9e540637, 0xd7f8a8f6, 0x68eaf93d, 0x6945bc99, 0x003c0000, 0x660dd0b1, 0xe795018d);
    TurnMaj(s, m, 55, 0x660dd0b1, 0x2c73bd78, 0xe795018d, 0xd7f8a8f6, 0x68eaf93d, 0x00040b00, 0xa1b68141, 0x0b1cef5e);
    TurnMaj(s, m, 56, 0xa1b68141, 0x660dd0b1, 0x0b1cef5e, 0xe795018d, 0xd7f8a8f6, 0x0000f000, 0x05033fa3, 0x5983742c);
    TurnMaj(s, m, 57, 0x05033fa3, 0xa1b68141, 0x5983742c, 0x0b1cef5e, 0xe795018d, 0x0078ff00, 0x21289715, 0x686da050);
    TurnMaj(s, m, 58, 0x21289715, 0x05033fa3, 0x686da050, 0x5983742c, 0x0b1cef5e, 0x000ff000, 0x085eb2fe, 0xc140cfe8);
    TurnMaj(s, m, 59, 0x085eb2fe, 0x21289715, 0xc140cfe8, 0x686da050, 0x5983742c, 0x00338700, 0x56119f19, 0x484a25c5);
    TurnEnd(s, m, 60, 0x56119f19, 0x085eb2fe, 0x484a25c5, 0xc140cfe8, 0x686da050, 0x00f00000, 0x77489e23, 0x8217acbf);
    TurnEnd(s, m, 61, 0x77489e23, 0x56119f19, 0x8217acbf, 0x484a25c5, 0xc140cfe8, 0x000fc300, 0x11132f8f, 0x558467c6);
    TurnEnd(s, m, 62, 0x11132f8f, 0x77489e23, 0x558467c6, 0x8217acbf, 0x484a25c5, 0x0000f000, 0xd5ef1ed7, 0xddd22788);
    TurnEnd(s, m, 63, 0xd5ef1ed7, 0x11132f8f, 0xddd22788, 0x558467c6, 0x8217acbf, 0x01efbb00, 0xa5937450, 0xc444cbe3);
  }

  lemma SecondRounds64(s: Vars, m: Block)
    requires After(s, m, 64, Vars(0xa5937450, 0xd5ef1ed7, 0xc444cbe3, 0xddd22788, 0x558467c6))
    requires WordsAre(m, 64,
                      0x00000000, 0x00cc0000, 0x03c0f000, 0x00438000, 0x00000000, 0x078f0000, 0x00ff0000, 0x03269e00,
                      0x0f000000, 0x00f0f000, 0x00333c00, 0x1eff8800, 0x00000000, 0x0cb88800, 0x3c00f000, 0x040a4a00)
    ensures After(s, m, 80, Vars(0x57aad805, 0x4d3b0dac, 0xd27a4a0d, 0x74c040cd, 0x54782008))
  {
    hide At, After;
    TurnEnd(s, m, 64, 0xa5937450, 0xd5ef1ed7, 0xc444cbe3, 0xddd22788, 0x558467c6, 0x00000000, 0x9ecfa66c, 0xf57bc7b5);
    TurnEnd(s, m, 65, 0x9ecfa66c, 0xa5937450, 0xf57bc7b5, 0xc444cbe3, 0xddd22788, 0x00cc0000, 0x17a22ef7, 0x2964dd14);
    TurnEnd(s, m, 66, 0x17a22ef7, 0x9ecfa66c, 0x2964dd14, 0xf57bc7b5, 0xc444cbe3, 0x03c0f000, 0xc97f1968, 0x27b3e99b);
    TurnEnd(s, m, 67, 0xc97f1968, 0x17a22ef7, 0x27b3e99b, 0x2964dd14, 0xf57bc7b5, 0x00438000, 0x097a511c, 0xc5e88bbd);
    TurnEnd(s, m, 68, 0x097a511c, 0xc97f1968, 0xc5e88bbd, 0x27b3e99b, 0x2964dd14, 0x00000000, 0x4e363db9, 0x325fc65a);
    TurnEnd(s, m, 69, 0x4e363db9, 0x097a511c, 0x325fc65a, 0xc5e88bbd, 0x27b3e99b, 0x078f0000, 0xbf3a7f95, 0x025e9447);
    TurnEnd(s, m, 70, 0xbf3a7f95, 0x4e363db9, 0x025e9447, 0x325fc65a, 0xc5e88bbd, 0x00ff0000, 0xf6d1afee, 0x538d8f6e);
    TurnEnd(s, m, 71, 0xf6d1afee, 0xbf3a7f95, 0x538d8f6e, 0x025e9447, 0x325fc65a, 0x03269e00, 0xc90888ca, 0x6fce9fe5);
    TurnEnd(s, m, 72, 0xc90888ca, 0xf6d1afee, 0x6fce9fe5, 0x538d8f6e, 0x025e9447, 0x0f000000, 0xc7652edb, 0xbdb46bfb);
    TurnEnd(s, m, 73, 0xc7652edb, 0xc90888ca, 0xbdb46bfb, 0x6fce9fe5, 0x538d8f6e, 0x00f0f000, 0x26f99990, 0xb2422232);
    TurnEnd(s, m, 74, 0x26f99990, 0xc7652edb, 0xb2422232, 0xbdb46bfb, 0x6fce9fe5, 0x00333c00, 0xe22b36d1, 0xf1d94bb6);
    TurnEnd(s, m, 75, 0xe22b36d1, 0x26f99990, 0xf1d94bb6, 0xb2422232, 0xbdb46bfb, 0x1eff8800, 0x51e08021, 0x09be6664);
    TurnEnd(s, m, 76, 0x51e08021, 0xe22b36d1, 0x09be6664, 0xf1d94bb6, 0xb2422232, 0x00000000, 0xd3010335, 0x788acdb4);
    TurnEnd(s, m, 77, 0xd3010335, 0x51e08021, 0x788acdb4, 0x09be6664, 0xf1d94bb6, 0x0cb88800, 0x49e92837, 0x54782008);
    TurnEnd(s, m, 78, 0x49e92837, 0xd3010335, 0x54782008, 0x788acdb4, 0x09be6664, 0x3c00f000, 0x4d3b0dac, 0x74c040cd);
    TurnEnd(s, m, 79, 0x4d3b0dac, 0x49e92837, 0x74c040cd, 0x54782008, 0x788acdb4, 0x040a4a00, 0x57aad805, 0xd27a4a0d);
  }

  lemma SecondCompressed(h: Vars, m: Block)
    requires h == Vars(0x5bcf7727, 0x7327416a, 0xbe7bfbf9, 0x5a781878, 0x5e46a4e2)
    requires WordsAre(m, 0,
                      0x00000000, 0x00000000, 0x00000000, 0x00000000, 0x00000000, 0x00000000, 0x00000000, 0x00000000,
                      0x00000000, 0x00000000, 0x00000000, 0x00000000, 0x00000000, 0x00000000, 0x00000000, 0x000001e0)
    ensures Compress(h, m) == Vars(0xb37a4f2c, 0xc0624f16, 0x90f64606, 0xcf385945, 0xb2bec4ea)
  {
    hide WordsAre, After, Compress;
    Start(h, m);
    SecondWords16(m);
    SecondWords32(m);
    SecondWords48(m);
    SecondWords64(m);
    SecondRounds0(h, m);
    SecondRounds16(h, m);
    SecondRounds32(h, m);
    SecondRounds48(h, m);
    SecondRounds64(h, m);
    SecondSums(h, m);
  }

  lemma SecondSums(h: Vars, m: Block)
    requires h == Vars(0x5bcf7727, 0x7327416a, 0xbe7bfbf9, 0x5a781878, 0x5e46a4e2)
    requires After(h, m, 80, Vars(0x57aad805, 0x4d3b0dac, 0xd27a4a0d, 0x74c040cd, 0x54782008))
    ensures Compress(h, m) == Vars(0xb37a4f2c, 0xc0624f16, 0x90f64606, 0xcf385945, 0xb2bec4ea)
  {
    hide After, Compress;
    Added(h, m, Vars(0x57aad805, 0x4d3b0dac, 0xd27a4a0d, 0x74c040cd, 0x54782008),
          Vars(0xb37a4f2c, 0xc0624f16, 0x90f64606, 0xcf385945, 0xb2bec4ea));
  }

  // ---- The digest ----

  lemma KeyBytes()
    ensures |SAMPLE_KEY| == 24
    ensures SAMPLE_KEY[0] == 100 && SAMPLE_KEY[1] == 71 && SAMPLE_KEY[2] == 104 && SAMPLE_KEY[3] == 108
    ensures SAMPLE_KEY[4] == 73 && SAMPLE_KEY[5] == 72 && SAMPLE_KEY[6] == 78 && SAMPLE_KEY[7] == 104
    ensures SAMPLE_KEY[8] == 98 && SAMPLE_KEY[9] == 88 && SAMPLE_KEY[10] == 66 && SAMPLE_KEY[11] == 115
    ensures SAMPLE_KEY[12] == 90 && SAMPLE_KEY[13] == 83 && SAMPLE_KEY[14] == 66 && SAMPLE_KEY[15] == 117
    ensures SAMPLE_KEY[16] == 98 && SAMPLE_KEY[17] == 50 && SAMPLE_KEY[18] == 53 && SAMPLE_KEY[19] == 106
    ensures SAMPLE_KEY[20] == 90 && SAMPLE_KEY[21] == 81 && SAMPLE_KEY[22] == 61 && SAMPLE_KEY[23] == 61
  {
  }

  lemma GuidFront()
    ensures |GUID_FRONT| == 20
    ensures GUID_FRONT[0] == 50 && GUID_FRONT[1] == 53 && GUID_FRONT[2] == 56 && GUID_FRONT[3] == 69
    ensures GUID_FRONT[4] == 65 && GUID_FRONT[5] == 70 && GUID_FRONT[6] == 65 && GUID_FRONT[7] == 53
    ensures GUID_FRONT[8] == 45 && GUID_FRONT[9] == 69 && GUID_FRONT[10] == 57 && GUID_FRONT[11] == 49
    ensures GUID_FRONT[12] == 52 && GUID_FRONT[13] == 45 && GUID_FRONT[14] == 52 && GUID_FRONT[15] == 55
    ensures GUID_FRONT[16] == 68 && GUID_FRONT[17] == 65 && GUID_FRONT[18] == 45 && GUID_FRONT[19] == 57
  {
  }

  lemma GuidBack()
    ensures |GUID_BACK| == 16
    ensures GUID_BACK[0] == 53 && GUID_BACK[1] == 67 && GUID_BACK[2] == 65 && GUID_BACK[3] == 45
    ensures GUID_BACK[4] == 67 && GUID_BACK[5] == 53 && GUID_BACK[6] == 65 && GUID_BACK[7] == 66
    ensures GUID_BACK[8] == 48 && GUID_BACK[9] == 68 && GUID_BACK[10] == 67 && GUID_BACK[11] == 56
    ensures GUID_BACK[12] == 53 && GUID_BACK[13] == 66 && GUID_BACK[14] == 49 && GUID_BACK[15] == 49
  {
  }

  lemma BlockBytes(m: Str)
    requires m == Pad(SAMPLE_KEY + GUID)[..64]
    ensures |m| == 64 && |SAMPLE_KEY| == 24 && |GUID_FRONT| == 20 && |GUID_BACK| == 16
    ensures forall j :: 0 <= j < 24 ==> m[j] == SAMPLE_KEY[j]
    ensures forall j :: 24 <= j < 44 ==> m[j] == GUID_FRONT[j - 24]
    ensures forall j :: 44 <= j < 60 ==> m[j] == GUID_BACK[j - 44]
    ensures m[60] == 128 && m[61] == 0 && m[62] == 0 && m[63] == 0
  {
    hide Pad, SAMPLE_KEY, GUID_FRONT, GUID_BACK;
    KeySizes();
    var msg := SAMPLE_KEY + GUID;
    PadSmall(msg);
    assert forall j :: 0 <= j < 60 ==> m[j] == Pad(msg)[..60][j];
  }

  lemma KeySizes()
    ensures |SAMPLE_KEY| == 24 && |GUID_FRONT| == 20 && |GUID_BACK| == 16 && |GUID| == 36
  {
  }

  lemma KeyWords(m: Block)
    requires m == Pad(SAMPLE_KEY + GUID)[..64]
    ensures At(m, 0, 0x6447686c)
    ensures At(m, 1, 0x49484e68)
    ensures At(m, 2, 0x62584273)
    ensures At(m, 3, 0x5a534275)
    ensures At(m, 4, 0x6232356a)
    ensures At(m, 5, 0x5a513d3d)
  {
    hide At, Pad, Join, SAMPLE_KEY, GUID_FRONT, GUID_BACK;
    BlockBytes(m);
    KeyBytes();
    Joins0();
    FirstWord(m, 0, 100, 71, 104, 108, 0x6447686c);
    FirstWord(m, 1, 73, 72, 78, 104, 0x49484e68);
    FirstWord(m, 2, 98, 88, 66, 115, 0x62584273);
    FirstWord(m, 3, 90, 83, 66, 117, 0x5a534275);
    FirstWord(m, 4, 98, 50, 53, 106, 0x6232356a);
    FirstWord(m, 5, 90, 81, 61, 61, 0x5a513d3d);
  }

  lemma Joins0()
    ensures Join(100, 71, 104, 108) == 0x6447686c
    ensures Join(73, 72, 78, 104) == 0x49484e68
    ensures Join(98, 88, 66, 115) == 0x62584273
    ensures Join(90, 83, 66, 117) == 0x5a534275
    ensures Join(98, 50, 53, 106) == 0x6232356a
    ensures Join(90, 81, 61, 61) == 0x5a513d3d
  {
  }

  lemma GuidWords(m: Block)
    requires m == Pad(SAMPLE_KEY + GUID)[..64]
    ensures At(m, 6, 0x32353845)
    ensures At(m, 7, 0x41464135)
    ensures At(m, 8, 0x2d453931)
    ensures At(m, 9, 0x342d3437)
    ensures At(m, 10, 0x44412d39)
  {
    hide At, Pad, Join, SAMPLE_KEY, GUID_FRONT, GUID_BACK;
    BlockBytes(m);
    GuidFront();
    Joins6();
    FirstWord(m, 6, 50, 53, 56, 69, 0x32353845);
    FirstWord(m, 7, 65, 70, 65, 53, 0x41464135);
    FirstWord(m, 8, 45, 69, 57, 49, 0x2d453931);
    FirstWord(m, 9, 52, 45, 52, 55, 0x342d3437);
    FirstWord(m, 10, 68, 65, 45, 57, 0x44412d39);
  }

  lemma Joins6()
    ensures Join(50, 53, 56, 69) == 0x32353845
    ensures Join(65, 70, 65, 53) == 0x41464135
    ensures Join(45, 69, 57, 49) == 0x2d453931
    ensures Join(52, 45, 52, 55) == 0x342d3437
    ensures Join(68, 65, 45, 57) == 0x44412d39
  {
  }

  lemma TailWords(m: Block)
    requires m == Pad(SAMPLE_KEY + GUID)[..64]
    ensures At(m, 11, 0x3543412d)
    ensures At(m, 12, 0x43354142)
    ensures At(m, 13, 0x30444338)
    ensures At(m, 14, 0x35423131)
    ensures At(m, 15, 0x80000000)
  {
    hide At, Pad, Join, SAMPLE_KEY, GUID_FRONT, GUID_BACK;
    BlockBytes(m);
    GuidBack();
    Joins11();
    FirstWord(m, 11, 53, 67, 65, 45, 0x3543412d);
    FirstWord(m, 12, 67, 53, 65, 66, 0x43354142);
    FirstWord(m, 13, 48, 68, 67, 56, 0x30444338);
    FirstWord(m, 14, 53, 66, 49, 49, 0x35423131);
    FirstWord(m, 15, 128, 0, 0, 0, 0x80000000);
  }

  lemma Joins11()
    ensures Join(53, 67, 65, 45) == 0x3543412d
    ensures Join(67, 53, 65, 66) == 0x43354142
    ensures Join(48, 68, 67, 56) == 0x30444338
    ensures Join(53, 66, 49, 49) == 0x35423131
    ensures Join(128, 0, 0, 0) == 0x80000000 && Join(0, 0, 1, 224) == 0x1e0
  {
  }

  lemma FirstBlock(m: Block)
    requires m == Pad(SAMPLE_KEY + GUID)[..64]
    ensures WordsAre(m, 0,
                     0x6447686c, 0x49484e68, 0x62584273, 0x5a534275, 0x6232356a, 0x5a513d3d, 0x32353845, 0x41464135,
                     0x2d453931, 0x342d3437, 0x44412d39, 0x3543412d, 0x43354142, 0x30444338, 0x35423131, 0x80000000)
  {
    hide At, Pad, SAMPLE_KEY, GUID;
    KeyWords(m);
    GuidWords(m);
    TailWords(m);
  }

  lemma SecondBlock(m: Block)
    requires m == Pad(SAMPLE_KEY + GUID)[64..]
    ensures WordsAre(m, 0,
                     0x00000000, 0x00000000, 0x00000000, 0x00000000, 0x00000000, 0x00000000, 0x00000000, 0x00000000,
                     0x00000000, 0x00000000, 0x00000000, 0x00000000, 0x00000000, 0x00000000, 0x00000000, 0x000001e0)
  {
    hide At, Pad, Join, SAMPLE_KEY, GUID_FRONT, GUID_BACK;
    KeySizes();
    Joins11();
    PadSmall(SAMPLE_KEY + GUID);
    ZeroWords(m, 0, 15);
    FirstWord(m, 15, 0, 0, 1, 224, 0x1e0);
  }

  lemma TwoBlocks(m: Str)
    requires |m| == 128
    ensures Fold(H0, m, 2) == Compress(Compress(H0, m[..64]), m[64..])
  {
    hide Compress;
    assert m[0..64] == m[..64] && m[64..128] == m[64..];
    assert Fold(H0, m, 0) == H0;
    assert Fold(H0, m, 1) == Compress(H0, m[..64]);
  }

  /** The five words the sample key and the GUID hash to. */
  lemma SampleFold()
    ensures |Pad(SAMPLE_KEY + GUID)| == 128
    ensures Fold(H0, Pad(SAMPLE_KEY + GUID), 2)
         == Vars(0xb37a4f2c, 0xc0624f16, 0x90f64606, 0xcf385945, 0xb2bec4ea)
  {
    hide Fold, Pad, Compress, WordsAre, SAMPLE_KEY, GUID;
    SampleSize();
    var block := Pad(SAMPLE_KEY + GUID);
    FirstBlock(block[..64]);
    SecondBlock(block[64..]);
    FirstCompressed(H0, block[..64]);
    SecondCompressed(Compress(H0, block[..64]), block[64..]);
    TwoBlocks(block);
  }

  lemma SampleSize()
    ensures |Pad(SAMPLE_KEY + GUID)| == 128
  {
    hide Pad, SAMPLE_KEY, GUID;
    KeySizes();
    PadSmall(SAMPLE_KEY + GUID);
  }

  /** The digest given there. */
  lemma DigestOfSample()
    ensures Digest(SAMPLE_KEY + GUID)
         == [0xb3, 0x7a, 0x4f, 0x2c, 0xc0, 0x62, 0x4f, 0x16, 0x90, 0xf6,
             0x46, 0x06, 0xcf, 0x38, 0x59, 0x45, 0xb2, 0xbe, 0xc4, 0xea]
  {
    hide Digest, Fold, Pad, SAMPLE_KEY, GUID, WordBytes;
    SampleFold();
    DigestBytes(SAMPLE_KEY + GUID, Fold(H0, Pad(SAMPLE_KEY + GUID), 2));
    BytesOf(0xb37a4f2c, 0xb3, 0x7a, 0x4f, 0x2c);
    BytesOf(0xc0624f16, 0xc0, 0x62, 0x4f, 0x16);
    BytesOf(0x90f64606, 0x90, 0xf6, 0x46, 0x06);
    BytesOf(0xcf385945, 0xcf, 0x38, 0x59, 0x45);
    BytesOf(0xb2bec4ea, 0xb2, 0xbe, 0xc4, 0xea);
  }

  lemma DigestBytes(msg: Str, h: Vars)
    requires |Pad(msg)| == 128 && h == Fold(H0, Pad(msg), 2)
    ensures Digest(msg) == WordBytes(h.a) + WordBytes(h.b) + WordBytes(h.c) + WordBytes(h.d) + WordBytes(h.e)
  {
    hide Fold, Pad, WordBytes;
  }

  lemma BytesOf(x: word, b0: byte, b1: byte, b2: byte, b3: byte)
    requires x as nat == ((b0 * 256 + b1) * 256 + b2) * 256 + b3
    ensures WordBytes(x) == [b0, b1, b2, b3]
  {
    hide BigEndian;
    FourBytes(b0, b1, b2, b3);
  }

  lemma FourBytes(b0: byte, b1: byte, b2: byte, b3: byte)
    ensures BigEndian(((b0 * 256 + b1) * 256 + b2) * 256 + b3, 4) == [b0, b1, b2, b3]
  {
    hide BigEndian;
    NextByte(b0 * 256 + b1, b2, 2, [b0, b1]) by {
      NextByte(b0, b1, 1, [b0]) by { NextByte(0, b0, 0, []) by { NoByte(); } }
    }
    NextByte((b0 * 256 + b1) * 256 + b2, b3, 3, [b0, b1, b2]);
  }

  lemma NoByte()
    ensures BigEndian(0, 0) == []
  {
  }

  lemma NextByte(n: nat, b: byte, k: nat, s: Str)
    requires BigEndian(n, k) == s
    ensures BigEndian(n * 256 + b, k + 1) == s + [b]
  {
    hide BigEndian;
    BigEndianNext(n * 256 + b, k + 1);
    QuotientOf(n, b);
  }
}
