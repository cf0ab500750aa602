/** Test vectors of SHA-256, computed round by round: "abc", and the 64 bytes of its
    padded block taken as a message of two blocks. */
module Sha256Vectors {
  import opened Bytes
  import opened Hex
  import opened Padding
  import opened Sha256
  import opened Words

  // ---- Steps of a computation on literal words ----

  ghost predicate At(m: Block, t: nat, x: word) {
    t < 64 && Schedule(m, t) == x
  }

  ghost predicate ConstantAt(t: nat, k: word) {
    t < 64 && K[t] == k
  }

  ghost predicate After(s: Vars, m: Block, t: nat, v: Vars) {
    t <= 64 && Rounds(s, m, t) == v
  }

  ghost predicate WordsAre(m: Block, t: nat, w0: word, w1: word, w2: word, w3: word, w4: word, w5: word, w6: word,
                           w7: word, w8: word, w9: word, w10: word, w11: word, w12: word, w13: word, w14: word,
                           w15: word)
  {
    && At(m, t, w0) && At(m, t + 1, w1) && At(m, t + 2, w2) && At(m, t + 3, w3)
    && At(m, t + 4, w4) && At(m, t + 5, w5) && At(m, t + 6, w6) && At(m, t + 7, w7)
    && At(m, t + 8, w8) && At(m, t + 9, w9) && At(m, t + 10, w10) && At(m, t + 11, w11)
    && At(m, t + 12, w12) && At(m, t + 13, w13) && At(m, t + 14, w14) && At(m, t + 15, w15)
  }

  ghost predicate ConstantsAre(t: nat, k0: word, k1: word, k2: word, k3: word, k4: word, k5: word, k6: word,
                               k7: word, k8: word, k9: word, k10: word, k11: word, k12: word, k13: word, k14: word,
                               k15: word)
  {
    && ConstantAt(t, k0) && ConstantAt(t + 1, k1) && ConstantAt(t + 2, k2) && ConstantAt(t + 3, k3)
    && ConstantAt(t + 4, k4) && ConstantAt(t + 5, k5) && ConstantAt(t + 6, k6) && ConstantAt(t + 7, k7)
    && ConstantAt(t + 8, k8) && ConstantAt(t + 9, k9) && ConstantAt(t + 10, k10) && ConstantAt(t + 11, k11)
    && ConstantAt(t + 12, k12) && ConstantAt(t + 13, k13) && ConstantAt(t + 14, k14) && ConstantAt(t + 15, k15)
  }

  /** One word of the message schedule. */
  lemma Next(m: Block, t: nat, x2: word, x7: word, x15: word, x16: word, x: word)
    requires 16 <= t < 64 && At(m, t - 2, x2) && At(m, t - 7, x7) && At(m, t - 15, x15) && At(m, t - 16, x16)
    requires Sum4(SmallSigma1(x2), x7, SmallSigma0(x15), x16) == x
    ensures At(m, t, x)
  {
    hide Sum4, SmallSigma0, SmallSigma1;
  }

  /** One round; it makes two new words. */
  lemma Turn(s: Vars, m: Block, t: nat, a: word, b: word, c: word, d: word, e: word, f: word, g: word, h: word,
             k: word, w: word, a': word, e': word)
    requires t < 64 && After(s, m, t, Vars(a, b, c, d, e, f, g, h)) && ConstantAt(t, k) && At(m, t, w)
    requires Round(Vars(a, b, c, d, e, f, g, h), k, w) == Vars(a', a, b, c, e', e, f, g)
    ensures After(s, m, t + 1, Vars(a', a, b, c, e', e, f, g))
  {
    hide K, Round, Schedule;
  }

  lemma Start(s: Vars, m: Block)
    ensures After(s, m, 0, s)
  {
  }

  /** The additions after the last round. */
  lemma Added(h: State, m: Block, v: Vars, r: State)
    requires After(VarsOf(h), m, 64, v)
    requires r == [Sum(h[0], v.a), Sum(h[1], v.b), Sum(h[2], v.c), Sum(h[3], v.d),
                   Sum(h[4], v.e), Sum(h[5], v.f), Sum(h[6], v.g), Sum(h[7], v.h)]
    ensures Compress(h, m) == r
  {
    hide Rounds, Sum;
  }

  /** The first words of a block are its bytes. */
  lemma FirstWord(m: Block, t: nat, b0: byte, b1: byte, b2: byte, b3: byte, x: word)
    requires t < 16 && m[4 * t] == b0 && m[4 * t + 1] == b1 && m[4 * t + 2] == b2 && m[4 * t + 3] == b3
    requires Join(b0, b1, b2, b3) == x
    ensures At(m, t, x)
  {
    hide Join;
  }

  lemma ZeroWords(m: Block, from: nat, to: nat)
    requires from <= to <= 16 && forall i :: 4 * from <= i < 4 * to ==> m[i] == 0
    ensures forall t :: from <= t < to ==> At(m, t, 0)
  {
    forall t | from <= t < to
      ensures At(m, t, 0)
    {
      FirstWord(m, t, 0, 0, 0, 0, 0);
    }
  }

  // ---- The constants ----

  lemma Rows()
    ensures |K0| == 16 && |K16| == 16 && |K32| == 16 && |K48| == 16
  {
  }

  lemma Constants0()
    ensures ConstantsAre(0,
                         0x428a2f98, 0x71374491, 0xb5c0fbcf, 0xe9b5dba5, 0x3956c25b, 0x59f111f1, 0x923f82a4, 0xab1c5ed5,
                         0xd807aa98, 0x12835b01, 0x243185be, 0x550c7dc3, 0x72be5d74, 0x80deb1fe, 0x9bdc06a7, 0xc19bf174)
  {
    hide K, K0, K16, K32, K48;
    RowOf0();
    Row0();
  }

  lemma RowOf0()
    ensures |K0| == 16 && |K| == 64 && forall i :: 0 <= i < 16 ==> K[0 + i] == K0[i]
  {
    hide K0, K16, K32, K48;
    Rows();
  }

  lemma Row0()
    ensures K0[0] == 0x428a2f98 && K0[1] == 0x71374491 && K0[2] == 0xb5c0fbcf && K0[3] == 0xe9b5dba5
    ensures K0[4] == 0x3956c25b && K0[5] == 0x59f111f1 && K0[6] == 0x923f82a4 && K0[7] == 0xab1c5ed5
    ensures K0[8] == 0xd807aa98 && K0[9] == 0x12835b01 && K0[10] == 0x243185be && K0[11] == 0x550c7dc3
    ensures K0[12] == 0x72be5d74 && K0[13] == 0x80deb1fe && K0[14] == 0x9bdc06a7 && K0[15] == 0xc19bf174
  {
  }

  lemma Constants16()
    ensures ConstantsAre(16,
                         0xe49b69c1, 0xefbe4786, 0x0fc19dc6, 0x240ca1cc, 0x2de92c6f, 0x4a7484aa, 0x5cb0a9dc, 0x76f988da,
                         0x983e5152, 0xa831c66d, 0xb00327c8, 0xbf597fc7, 0xc6e00bf3, 0xd5a79147, 0x06ca6351, 0x14292967)
  {
    hide K, K0, K16, K32, K48;
    RowOf16();
    Row16();
  }

  lemma RowOf16()
    ensures |K16| == 16 && |K| == 64 && forall i :: 0 <= i < 16 ==> K[16 + i] == K16[i]
  {
    hide K0, K16, K32, K48;
    Rows();
  }

  lemma Row16()
    ensures K16[0] == 0xe49b69c1 && K16[1] == 0xefbe4786 && K16[2] == 0x0fc19dc6 && K16[3] == 0x240ca1cc
    ensures K16[4] == 0x2de92c6f && K16[5] == 0x4a7484aa && K16[6] == 0x5cb0a9dc && K16[7] == 0x76f988da
    ensures K16[8] == 0x983e5152 && K16[9] == 0xa831c66d && K16[10] == 0xb00327c8 && K16[11] == 0xbf597fc7
    ensures K16[12] == 0xc6e00bf3 && K16[13] == 0xd5a79147 && K16[14] == 0x06ca6351 && K16[15] == 0x14292967
  {
  }

  lemma Constants32()
    ensures ConstantsAre(32,
                         0x27b70a85, 0x2e1b2138, 0x4d2c6dfc, 0x53380d13, 0x650a7354, 0x766a0abb, 0x81c2c92e, 0x92722c85,
                         0xa2bfe8a1, 0xa81a664b, 0xc24b8b70, 0xc76c51a3, 0xd192e819, 0xd6990624, 0xf40e3585, 0x106aa070)
  {
    hide K, K0, K16, K32, K48;
    RowOf32();
    Row32();
  }

  lemma RowOf32()
    ensures |K32| == 16 && |K| == 64 && forall i :: 0 <= i < 16 ==> K[32 + i] == K32[i]
  {
    hide K0, K16, K32, K48;
    Rows();
  }

  lemma Row32()
    ensures K32[0] == 0x27b70a85 && K32[1] == 0x2e1b2138 && K32[2] == 0x4d2c6dfc && K32[3] == 0x53380d13
    ensures K32[4] == 0x650a7354 && K32[5] == 0x766a0abb && K32[6] == 0x81c2c92e && K32[7] == 0x92722c85
    ensures K32[8] == 0xa2bfe8a1 && K32[9] == 0xa81a664b && K32[10] == 0xc24b8b70 && K32[11] == 0xc76c51a3
    ensures K32[12] == 0xd192e819 && K32[13] == 0xd6990624 && K32[14] == 0xf40e3585 && K32[15] == 0x106aa070
  {
  }

  lemma Constants48()
    ensures ConstantsAre(48,
                         0x19a4c116, 0x1e376c08, 0x2748774c, 0x34b0bcb5, 0x391c0cb3, 0x4ed8aa4a, 0x5b9cca4f, 0x682e6ff3,
                         0x748f82ee, 0x78a5636f, 0x84c87814, 0x8cc70208, 0x90befffa, 0xa4506ceb, 0xbef9a3f7, 0xc67178f2)
  {
    hide K, K0, K16, K32, K48;
    RowOf48();
    Row48();
  }

  lemma RowOf48()
    ensures |K48| == 16 && |K| == 64 && forall i :: 0 <= i < 16 ==> K[48 + i] == K48[i]
  {
    hide K0, K16, K32, K48;
    Rows();
  }

  lemma Row48()
    ensures K48[0] == 0x19a4c116 && K48[1] == 0x1e376c08 && K48[2] == 0x2748774c && K48[3] == 0x34b0bcb5
    ensures K48[4] == 0x391c0cb3 && K48[5] == 0x4ed8aa4a && K48[6] == 0x5b9cca4f && K48[7] == 0x682e6ff3
    ensures K48[8] == 0x748f82ee && K48[9] == 0x78a5636f && K48[10] == 0x84c87814 && K48[11] == 0x8cc70208
    ensures K48[12] == 0x90befffa && K48[13] == 0xa4506ceb && K48[14] == 0xbef9a3f7 && K48[15] == 0xc67178f2
  {
  }

  // ---- The block of "abc" ----

  lemma AbcWords16(m: Block)
    requires WordsAre(m, 0,
                      0x61626380, 0x00000000, 0x00000000, 0x00000000, 0x00000000, 0x00000000, 0x00000000, 0x00000000,
                      0x00000000, 0x00000000, 0x00000000, 0x00000000, 0x00000000, 0x00000000, 0x00000000, 0x00000018)
    ensures WordsAre(m, 16,
                     0x61626380, 0x000f0000, 0x7da86405, 0x600003c6, 0x3e9d7b78, 0x0183fc00, 0x12dcbfdb, 0xe2e2c38e,
                     0xc8215c1a, 0xb73679a2, 0xe5bc3909, 0x32663c5b, 0x9d209d67, 0xec8726cb, 0x702138a4, 0xd3b7973b)
  {
    hide At;
    Next(m, 16, 0x00000000, 0x00000000, 0x00000000, 0x61626380, 0x61626380);
    Next(m, 17, 0x00000018, 0x00000000, 0x00000000, 0x00000000, 0x000f0000);
    Next(m, 18, 0x61626380, 0x00000000, 0x00000000, 0x00000000, 0x7da86405);
    Next(m, 19, 0x000f0000, 0x00000000, 0x00000000, 0x00000000, 0x600003c6);
    Next(m, 20, 0x7da86405, 0x00000000, 0x00000000, 0x00000000, 0x3e9d7b78);
    Next(m, 21, 0x600003c6, 0x00000000, 0x00000000, 0x00000000, 0x0183fc00);
    Next(m, 22, 0x3e9d7b78, 0x00000018, 0x00000000, 0x00000000, 0x12dcbfdb);
    Next(m, 23, 0x0183fc00, 0x61626380, 0x00000000, 0x00000000, 0xe2e2c38e);
    Next(m, 24, 0x12dcbfdb, 0x000f0000, 0x00000000, 0x00000000, 0xc8215c1a);
    Next(m, 25, 0xe2e2c38e, 0x7da86405, 0x00000000, 0x00000000, 0xb73679a2);
    Next(m, 26, 0xc8215c1a, 0x600003c6, 0x00000000, 0x00000000, 0xe5bc3909);
    Next(m, 27, 0xb73679a2, 0x3e9d7b78, 0x00000000, 0x00000000, 0x32663c5b);
    Next(m, 28, 0xe5bc3909, 0x0183fc00, 0x00000000, 0x00000000, 0x9d209d67);
    Next(m, 29, 0x32663c5b, 0x12dcbfdb, 0x00000000, 0x00000000, 0xec8726cb);
    Next(m, 30, 0x9d209d67, 0xe2e2c38e, 0x00000018, 0x00000000, 0x702138a4);
    Next(m, 31, 0xec8726cb, 0xc8215c1a, 0x61626380, 0x00000018, 0xd3b7973b);
  }

  lemma AbcWords32(m: Block)
    requires WordsAre(m, 16,
                      0x61626380, 0x000f0000, 0x7da86405, 0x600003c6, 0x3e9d7b78, 0x0183fc00, 0x12dcbfdb, 0xe2e2c38e,
                      0xc8215c1a, 0xb73679a2, 0xe5bc3909, 0x32663c5b, 0x9d209d67, 0xec8726cb, 0x702138a4, 0xd3b7973b)
    ensures WordsAre(m, 32,
                     0x93f5997f, 0x3b68ba73, 0xaff4ffc1, 0xf10a5c62, 0x0a8b3996, 0x72af830a, 0x9409e33e, 0x24641522,
                     0x9f47bf94, 0xf0a64f5a, 0x3e246a79, 0x27333ba3, 0x0c4763f2, 0x840abf27, 0x7a290d5d, 0x065c43da)
  {
    hide At;
    Next(m, 32, 0x702138a4, 0xb73679a2, 0x000f0000, 0x61626380, 0x93f5997f);
    Next(m, 33, 0xd3b7973b, 0xe5bc3909, 0x7da86405, 0x000f0000, 0x3b68ba73);
    Next(m, 34, 0x93f5997f, 0x32663c5b, 0x600003c6, 0x7da86405, 0xaff4ffc1);
    Next(m, 35, 0x3b68ba73, 0x9d209d67, 0x3e9d7b78, 0x600003c6, 0xf10a5c62);
    Next(m, 36, 0xaff4ffc1, 0xec8726cb, 0x0183fc00, 0x3e9d7b78, 0x0a8b3996);
    Next(m, 37, 0xf10a5c62, 0x702138a4, 0x12dcbfdb, 0x0183fc00, 0x72af830a);
    Next(m, 38, 0x0a8b3996, 0xd3b7973b, 0xe2e2c38e, 0x12dcbfdb, 0x9409e33e);
    Next(m, 39, 0x72af830a, 0x93f5997f, 0xc8215c1a, 0xe2e2c38e, 0x24641522);
    Next(m, 40, 0x9409e33e, 0x3b68ba73, 0xb73679a2, 0xc8215c1a, 0x9f47bf94);
    Next(m, 41, 0x24641522, 0xaff4ffc1, 0xe5bc3909, 0xb73679a2, 0xf0a64f5a);
    Next(m, 42, 0x9f47bf94, 0xf10a5c62, 0x32663c5b, 0xe5bc3909, 0x3e246a79);
    Next(m, 43, 0xf0a64f5a, 0x0a8b3996, 0x9d209d67, 0x32663c5b, 0x27333ba3);
    Next(m, 44, 0x3e246a79, 0x72af830a, 0xec8726cb, 0x9d209d67, 0x0c4763f2);
    Next(m, 45, 0x27333ba3, 0x9409e33e, 0x702138a4, 0xec8726cb, 0x840abf27);
    Next(m, 46, 0x0c4763f2, 0x24641522, 0xd3b7973b, 0x702138a4, 0x7a290d5d);
    Next(m, 47, 0x840abf27, 0x9f47bf94, 0x93f5997f, 0xd3b7973b, 0x065c43da);
  }

  lemma AbcWords48(m: Block)
    requires WordsAre(m, 32,
                      0x93f5997f, 0x3b68ba73, 0xaff4ffc1, 0xf10a5c62, 0x0a8b3996, 0x72af830a, 0x9409e33e, 0x24641522,
                      0x9f47bf94, 0xf0a64f5a, 0x3e246a79, 0x27333ba3, 0x0c4763f2, 0x840abf27, 0x7a290d5d, 0x065c43da)
    ensures WordsAre(m, 48,
                     0xfb3e89cb, 0xcc7617db, 0xb9e66c34, 0xa9993667, 0x84badedd, 0xc21462bc, 0x1487472c, 0xb20f7a99,
                     0xef57b9cd, 0xebe6b238, 0x9fe3095e, 0x78bc8d4b, 0xa43fcf15, 0x668b2ff8, 0xeeaba2cc, 0x12b1edeb)
  {
    hide At;
    Next(m, 48, 0x7a290d5d, 0xf0a64f5a, 0x3b68ba73, 0x93f5997f, 0xfb3e89cb);
    Next(m, 49, 0x065c43da, 0x3e246a79, 0xaff4ffc1, 0x3b68ba73, 0xcc7617db);
    Next(m, 50, 0xfb3e89cb, 0x27333ba3, 0xf10a5c62, 0xaff4ffc1, 0xb9e66c34);
    Next(m, 51, 0xcc7617db, 0x0c4763f2, 0x0a8b3996, 0xf10a5c62, 0xa9993667);
    Next(m, 52, 0xb9e66c34, 0x840abf27, 0x72af830a, 0x0a8b3996, 0x84badedd);
    Next(m, 53, 0xa9993667, 0x7a290d5d, 0x9409e33e, 0x72af830a, 0xc21462bc);
    Next(m, 54, 0x84badedd, 0x065c43da, 0x24641522, 0x9409e33e, 0x1487472c);
    Next(m, 55, 0xc21462bc, 0xfb3e89cb, 0x9f47bf94, 0x24641522, 0xb20f7a99);
    Next(m, 56, 0x1487472c, 0xcc7617db, 0xf0a64f5a, 0x9f47bf94, 0xef57b9cd);
    Next(m, 57, 0xb20f7a99, 0xb9e66c34, 0x3e246a79, 0xf0a64f5a, 0xebe6b238);
    Next(m, 58, 0xef57b9cd, 0xa9993667, 0x27333ba3, 0x3e246a79, 0x9fe3095e);
    Next(m, 59, 0xebe6b238, 0x84badedd, 0x0c4763f2, 0x27333ba3, 0x78bc8d4b);
    Next(m, 60, 0x9fe3095e, 0xc21462bc, 0x840abf27, 0x0c4763f2, 0xa43fcf15);
    Next(m, 61, 0x78bc8d4b, 0x1487472c, 0x7a290d5d, 0x840abf27, 0x668b2ff8);
    Next(m, 62, 0xa43fcf15, 0xb20f7a99, 0x065c43da, 0x7a290d5d, 0xeeaba2cc);
    Next(m, 63, 0x668b2ff8, 0xef57b9cd, 0xfb3e89cb, 0x065c43da, 0x12b1edeb);
  }

  lemma AbcRounds0(s: Vars, m: Block)
    requires After(s, m, 0,
                   Vars(0x6a09e667, 0xbb67ae85, 0x3c6ef372, 0xa54ff53a, 0x510e527f, 0x9b05688c, 0x1f83d9ab, 0x5be0cd19))
    requires WordsAre(m, 0,
                      0x61626380, 0x00000000, 0x00000000, 0x00000000, 0x00000000, 0x00000000, 0x00000000, 0x00000000,
                      0x00000000, 0x00000000, 0x00000000, 0x00000000, 0x00000000, 0x00000000, 0x00000000, 0x00000018)
    ensures After(s, m, 16,
                  Vars(0xb0fa238e, 0xc0645fde, 0xd932eb16, 0x87912990, 0x07590dcd, 0x0b92f20c, 0x745a48de, 0x1e578218))
  {
    hide At, After, ConstantAt;
    Constants0();
    Turn(s, m, 0, 0x6a09e667, 0xbb67ae85, 0x3c6ef372, 0xa54ff53a, 0x510e527f, 0x9b05688c, 0x1f83d9ab, 0x5be0cd19,
         0x428a2f98, 0x61626380, 0x5d6aebcd, 0xfa2a4622);
    Turn(s, m, 1, 0x5d6aebcd, 0x6a09e667, 0xbb67ae85, 0x3c6ef372, 0xfa2a4622, 0x510e527f, 0x9b05688c, 0x1f83d9ab,
         0x71374491, 0x00000000, 0x5a6ad9ad, 0x78ce7989);
    Turn(s, m, 2, 0x5a6ad9ad, 0x5d6aebcd, 0x6a09e667, 0xbb67ae85, 0x78ce7989, 0xfa2a4622, 0x510e527f, 0x9b05688c,
         0xb5c0fbcf, 0x00000000, 0xc8c347a7, 0xf92939eb);
    Turn(s, m, 3, 0xc8c347a7, 0x5a6ad9ad, 0x5d6aebcd, 0x6a09e667, 0xf92939eb, 0x78ce7989, 0xfa2a4622, 0x510e527f,
         0xe9b5dba5, 0x00000000, 0xd550f666, 0x24e00850);
    Turn(s, m, 4, 0xd550f666, 0xc8c347a7, 0x5a6ad9ad, 0x5d6aebcd, 0x24e00850, 0xf92939eb, 0x78ce7989, 0xfa2a4622,
         0x3956c25b, 0x00000000, 0x04409a6a, 0x43ada245);
    Turn(s, m, 5, 0x04409a6a, 0xd550f666, 0xc8c347a7, 0x5a6ad9ad, 0x43ada245, 0x24e00850, 0xf92939eb, 0x78ce7989,
         0x59f111f1, 0x00000000, 0x2b4209f5, 0x714260ad);
    Turn(s, m, 6, 0x2b4209f5, 0x04409a6a, 0xd550f666, 0xc8c347a7, 0x714260ad, 0x43ada245, 0x24e00850, 0xf92939eb,
         0x923f82a4, 0x00000000, 0xe5030380, 0x9b27a401);
    Turn(s, m, 7, 0xe5030380, 0x2b4209f5, 0x04409a6a, 0xd550f666, 0x9b27a401, 0x714260ad, 0x43ada245, 0x24e00850,
         0xab1c5ed5, 0x00000000, 0x85a07b5f, 0x0c657a79);
    Turn(s, m, 8, 0x85a07b5f, 0xe5030380, 0x2b4209f5, 0x04409a6a, 0x0c657a79, 0x9b27a401, 0x714260ad, 0x43ada245,
         0xd807aa98, 0x00000000, 0x8e04ecb9, 0x32ca2d8c);
    Turn(s, m, 9, 0x8e04ecb9, 0x85a07b5f, 0xe5030380, 0x2b4209f5, 0x32ca2d8c, 0x0c657a79, 0x9b27a401, 0x714260ad,
         0x12835b01, 0x00000000, 0x8c87346b, 0x1cc92596);
    Turn(s, m, 10, 0x8c87346b, 0x8e04ecb9, 0x85a07b5f, 0xe5030380, 0x1cc92596, 0x32ca2d8c, 0x0c657a79, 0x9b27a401,
         0x243185be, 0x00000000, 0x4798a3f4, 0x436b23e8);
    Turn(s, m, 11, 0x4798a3f4, 0x8c87346b, 0x8e04ecb9, 0x85a07b5f, 0x436b23e8, 0x1cc92596, 0x32ca2d8c, 0x0c657a79,
         0x550c7dc3, 0x00000000, 0xf71fc5a9, 0x816fd6e9);
    Turn(s, m, 12, 0xf71fc5a9, 0x4798a3f4, 0x8c87346b, 0x8e04ecb9, 0x816fd6e9, 0x436b23e8, 0x1cc92596, 0x32ca2d8c,
         0x72be5d74, 0x00000000, 0x87912990, 0x1e578218);
    Turn(s, m, 13, 0x87912990, 0xf71fc5a9, 0x4798a3f4, 0x8c87346b, 0x1e578218, 0x816fd6e9, 0x436b23e8, 0x1cc92596,
         0x80deb1fe, 0x00000000, 0xd932eb16, 0x745a48de);
    Turn(s, m, 14, 0xd932eb16, 0x87912990, 0xf71fc5a9, 0x4798a3f4, 0x745a48de, 0x1e578218, 0x816fd6e9, 0x436b23e8,
         0x9bdc06a7, 0x00000000, 0xc0645fde, 0x0b92f20c);
    Turn(s, m, 15, 0xc0645fde, 0xd932eb16, 0x87912990, 0xf71fc5a9, 0x0b92f20c, 0x745a48de, 0x1e578218, 0x816fd6e9,
         0xc19bf174, 0x00000018, 0xb0fa238e, 0x07590dcd);
  }

  lemma AbcRounds16(s: Vars, m: Block)
    requires After(s, m, 16,
                   Vars(0xb0fa238e, 0xc0645fde, 0xd932eb16, 0x87912990, 0x07590dcd, 0x0b92f20c, 0x745a48de, 0x1e578218))
    requires WordsAre(m, 16,
                      0x61626380, 0x000f0000, 0x7da86405, 0x600003c6, 0x3e9d7b78, 0x0183fc00, 0x12dcbfdb, 0xe2e2c38e,
                      0xc8215c1a, 0xb73679a2, 0xe5bc3909, 0x32663c5b, 0x9d209d67, 0xec8726cb, 0x702138a4, 0xd3b7973b)
    ensures After(s, m, 32,
                  Vars(0x73b33bf5, 0xea992a22, 0xa0060b30, 0x363482c9, 0xba591112, 0x0109ab3a, 0xade79437, 0x6112a3b7))
  {
    hide At, After, ConstantAt;
    Constants16();
    Turn(s, m, 16, 0xb0fa238e, 0xc0645fde, 0xd932eb16, 0x87912990, 0x07590dcd, 0x0b92f20c, 0x745a48de, 0x1e578218,
         0xe49b69c1, 0x61626380, 0x21da9a9b, 0x8034229c);
    Turn(s, m, 17, 0x21da9a9b, 0xb0fa238e, 0xc0645fde, 0xd932eb16, 0x8034229c, 0x07590dcd, 0x0b92f20c, 0x745a48de,
         0xefbe4786, 0x000f0000, 0xc2fbd9d1, 0x846ee454);
    Turn(s, m, 18, 0xc2fbd9d1, 0x21da9a9b, 0xb0fa238e, 0xc0645fde, 0x846ee454, 0x8034229c, 0x07590dcd, 0x0b92f20c,
         0x0fc19dc6, 0x7da86405, 0xfe777bbf, 0xcc899961);
    Turn(s, m, 19, 0xfe777bbf, 0xc2fbd9d1, 0x21da9a9b, 0xb0fa238e, 0xcc899961, 0x846ee454, 0x8034229c, 0x07590dcd,
         0x240ca1cc, 0x600003c6, 0xe1f20c33, 0xb0638179);
    Turn(s, m, 20, 0xe1f20c33, 0xfe777bbf, 0xc2fbd9d1, 0x21da9a9b, 0xb0638179, 0xcc899961, 0x846ee454, 0x8034229c,
         0x2de92c6f, 0x3e9d7b78, 0x9dc68b63, 0x8ada8930);
    Turn(s, m, 21, 0x9dc68b63, 0xe1f20c33, 0xfe777bbf, 0xc2fbd9d1, 0x8ada8930, 0xb0638179, 0xcc899961, 0x846ee454,
         0x4a7484aa, 0x0183fc00, 0xc2606d6d, 0xe1257970);
    Turn(s, m, 22, 0xc2606d6d, 0x9dc68b63, 0xe1f20c33, 0xfe777bbf, 0xe1257970, 0x8ada8930, 0xb0638179, 0xcc899961,
         0x5cb0a9dc, 0x12dcbfdb, 0xa7a3623f, 0x49f5114a);
    Turn(s, m, 23, 0xa7a3623f, 0xc2606d6d, 0x9dc68b63, 0xe1f20c33, 0x49f5114a, 0xe1257970, 0x8ada8930, 0xb0638179,
         0x76f988da, 0xe2e2c38e, 0xc5d53d8d, 0xaa47c347);
    Turn(s, m, 24, 0xc5d53d8d, 0xa7a3623f, 0xc2606d6d, 0x9dc68b63, 0xaa47c347, 0x49f5114a, 0xe1257970, 0x8ada8930,
         0x983e5152, 0xc8215c1a, 0x1c2c2838, 0x2823ef91);
    Turn(s, m, 25, 0x1c2c2838, 0xc5d53d8d, 0xa7a3623f, 0xc2606d6d, 0x2823ef91, 0xaa47c347, 0x49f5114a, 0xe1257970,
         0xa831c66d, 0xb73679a2, 0xcde8037d, 0x14383d8e);
    Turn(s, m, 26, 0xcde8037d, 0x1c2c2838, 0xc5d53d8d, 0xa7a3623f, 0x14383d8e, 0x2823ef91, 0xaa47c347, 0x49f5114a,
         0xb00327c8, 0xe5bc3909, 0xb62ec4bc, 0xc74c6516);
    Turn(s, m, 27, 0xb62ec4bc, 0xcde8037d, 0x1c2c2838, 0xc5d53d8d, 0xc74c6516, 0x14383d8e, 0x2823ef91, 0xaa47c347,
         0xbf597fc7, 0x32663c5b, 0x77d37528, 0xedffbff8);
    Turn(s, m, 28, 0x77d37528, 0xb62ec4bc, 0xcde8037d, 0x1c2c2838, 0xedffbff8, 0xc74c6516, 0x14383d8e, 0x2823ef91,
         0xc6e00bf3, 0x9d209d67, 0x363482c9, 0x6112a3b7);
    Turn(s, m, 29, 0x363482c9, 0x77d37528, 0xb62ec4bc, 0xcde8037d, 0x6112a3b7, 0xedffbff8, 0xc74c6516, 0x14383d8e,
         0xd5a79147, 0xec8726cb, 0xa0060b30, 0xade79437);
    Turn(s, m, 30, 0xa0060b30, 0x363482c9, 0x77d37528, 0xb62ec4bc, 0xade79437, 0x6112a3b7, 0xedffbff8, 0xc74c6516,
         0x06ca6351, 0x702138a4, 0xea992a22, 0x0109ab3a);
    Turn(s, m, 31, 0xea992a22, 0xa0060b30, 0x363482c9, 0x77d37528, 0x0109ab3a, 0xade79437, 0x6112a3b7, 0xedffbff8,
         0x14292967, 0xd3b7973b, 0x73b33bf5, 0xba591112);
  }

  lemma AbcRounds32(s: Vars, m: Block)
    requires After(s, m, 32,
                   Vars(0x73b33bf5, 0xea992a22, 0xa0060b30, 0x363482c9, 0xba591112, 0x0109ab3a, 0xade79437, 0x6112a3b7))
    requires WordsAre(m, 32,
                      0x93f5997f, 0x3b68ba73, 0xaff4ffc1, 0xf10a5c62, 0x0a8b3996, 0x72af830a, 0x9409e33e, 0x24641522,
                      0x9f47bf94, 0xf0a64f5a, 0x3e246a79, 0x27333ba3, 0x0c4763f2, 0x840abf27, 0x7a290d5d, 0x065c43da)
    ensures After(s, m, 48,
                  Vars(0x4172328d, 0xa14c14b0, 0x72ab4b91, 0x26628815, 0xfecf0bc6, 0xd57b94a9, 0xb7755da1, 0xa80f11f0))
  {
    hide At, After, ConstantAt;
    Constants32();
    Turn(s, m, 32, 0x73b33bf5, 0xea992a22, 0xa0060b30, 0x363482c9, 0xba591112, 0x0109ab3a, 0xade79437, 0x6112a3b7,
         0x27b70a85, 0x93f5997f, 0x98e12507, 0x9cd9f5f6);
    Turn(s, m, 33, 0x98e12507, 0x73b33bf5, 0xea992a22, 0xa0060b30, 0x9cd9f5f6, 0xba591112, 0x0109ab3a, 0xade79437,
         0x2e1b2138, 0x3b68ba73, 0xfe604df5, 0x59249dd3);
    Turn(s, m, 34, 0xfe604df5, 0x98e12507, 0x73b33bf5, 0xea992a22, 0x59249dd3, 0x9cd9f5f6, 0xba591112, 0x0109ab3a,
         0x4d2c6dfc, 0xaff4ffc1, 0xa9a7738c, 0x085f3833);
    Turn(s, m, 35, 0xa9a7738c, 0xfe604df5, 0x98e12507, 0x73b33bf5, 0x085f3833, 0x59249dd3, 0x9cd9f5f6, 0xba591112,
         0x53380d13, 0xf10a5c62, 0x65a0cfe4, 0xf4b002d6);
    Turn(s, m, 36, 0x65a0cfe4, 0xa9a7738c, 0xfe604df5, 0x98e12507, 0xf4b002d6, 0x085f3833, 0x59249dd3, 0x9cd9f5f6,
         0x650a7354, 0x0a8b3996, 0x41a65cb1, 0x0772a26b);
    Turn(s, m, 37, 0x41a65cb1, 0x65a0cfe4, 0xa9a7738c, 0xfe604df5, 0x0772a26b, 0xf4b002d6, 0x085f3833, 0x59249dd3,
         0x766a0abb, 0x72af830a, 0x34df1604, 0xa507a53d);
    Turn(s, m, 38, 0x34df1604, 0x41a65cb1, 0x65a0cfe4, 0xa9a7738c, 0xa507a53d, 0x0772a26b, 0xf4b002d6, 0x085f3833,
         0x81c2c92e, 0x9409e33e, 0x6dc57a8a, 0xf0781bc8);
    Turn(s, m, 39, 0x6dc57a8a, 0x34df1604, 0x41a65cb1, 0x65a0cfe4, 0xf0781bc8, 0xa507a53d, 0x0772a26b, 0xf4b002d6,
         0x92722c85, 0x24641522, 0x79ea687a, 0x1efbc0a0);
    Turn(s, m, 40, 0x79ea687a, 0x6dc57a8a, 0x34df1604, 0x41a65cb1, 0x1efbc0a0, 0xf0781bc8, 0xa507a53d, 0x0772a26b,
         0xa2bfe8a1, 0x9f47bf94, 0xd6670766, 0x26352d63);
    Turn(s, m, 41, 0xd6670766, 0x79ea687a, 0x6dc57a8a, 0x34df1604, 0x26352d63, 0x1efbc0a0, 0xf0781bc8, 0xa507a53d,
         0xa81a664b, 0xf0a64f5a, 0xdf46652f, 0x838b2711);
    Turn(s, m, 42, 0xdf46652f, 0xd6670766, 0x79ea687a, 0x6dc57a8a, 0x838b2711, 0x26352d63, 0x1efbc0a0, 0xf0781bc8,
         0xc24b8b70, 0x3e246a79, 0x17aa0dfe, 0xdecd4715);
    Turn(s, m, 43, 0x17aa0dfe, 0xdf46652f, 0xd6670766, 0x79ea687a, 0xdecd4715, 0x838b2711, 0x26352d63, 0x1efbc0a0,
         0xc76c51a3, 0x27333ba3, 0x9d4baf93, 0xfda24c2e);
    Turn(s, m, 44, 0x9d4baf93, 0x17aa0dfe, 0xdf46652f, 0xd6670766, 0xfda24c2e, 0xdecd4715, 0x838b2711, 0x26352d63,
         0xd192e819, 0x0c4763f2, 0x26628815, 0xa80f11f0);
    Turn(s, m, 45, 0x26628815, 0x9d4baf93, 0x17aa0dfe, 0xdf46652f, 0xa80f11f0, 0xfda24c2e, 0xdecd4715, 0x838b2711,
         0xd6990624, 0x840abf27, 0x72ab4b91, 0xb7755da1);
    Turn(s, m, 46, 0x72ab4b91, 0x26628815, 0x9d4baf93, 0x17aa0dfe, 0xb7755da1, 0xa80f11f0, 0xfda24c2e, 0xdecd4715,
         0xf40e3585, 0x7a290d5d, 0xa14c14b0, 0xd57b94a9);
    Turn(s, m, 47, 0xa14c14b0, 0x72ab4b91, 0x26628815, 0x9d4baf93, 0xd57b94a9, 0xb7755da1, 0xa80f11f0, 0xfda24c2e,
         0x106aa070, 0x065c43da, 0x4172328d, 0xfecf0bc6);
  }

  lemma AbcRounds48(s: Vars, m: Block)
    requires After(s, m, 48,
                   Vars(0x4172328d, 0xa14c14b0, 0x72ab4b91, 0x26628815, 0xfecf0bc6, 0xd57b94a9, 0xb7755da1, 0xa80f11f0))
    requires WordsAre(m, 48,
                      0xfb3e89cb, 0xcc7617db, 0xb9e66c34, 0xa9993667, 0x84badedd, 0xc21462bc, 0x1487472c, 0xb20f7a99,
                      0xef57b9cd, 0xebe6b238, 0x9fe3095e, 0x78bc8d4b, 0xa43fcf15, 0x668b2ff8, 0xeeaba2cc, 0x12b1edeb)
    ensures After(s, m, 64,
                  Vars(0x506e3058, 0xd39a2165, 0x04d24d6c, 0xb85e2ce9, 0x5ef50f24, 0xfb121210, 0x948d25b6, 0x961f4894))
  {
    hide At, After, ConstantAt;
    Constants48();
    Turn(s, m, 48, 0x4172328d, 0xa14c14b0, 0x72ab4b91, 0x26628815, 0xfecf0bc6, 0xd57b94a9, 0xb7755da1, 0xa80f11f0,
         0x19a4c116, 0xfb3e89cb, 0x05757ceb, 0xbd714038);
    Turn(s, m, 49, 0x05757ceb, 0x4172328d, 0xa14c14b0, 0x72ab4b91, 0xbd714038, 0xfecf0bc6, 0xd57b94a9, 0xb7755da1,
         0x1e376c08, 0xcc7617db, 0xf11bfaa8, 0x6e5c390c);
    Turn(s, m, 50, 0xf11bfaa8, 0x05757ceb, 0x4172328d, 0xa14c14b0, 0x6e5c390c, 0xbd714038, 0xfecf0bc6, 0xd57b94a9,
         0x2748774c, 0xb9e66c34, 0x7a0508a1, 0x52f1ccf7);
    Turn(s, m, 51, 0x7a0508a1, 0xf11bfaa8, 0x05757ceb, 0x4172328d, 0x52f1ccf7, 0x6e5c390c, 0xbd714038, 0xfecf0bc6,
         0x34b0bcb5, 0xa9993667, 0x886e7a22, 0x49231c1e);
    Turn(s, m, 52, 0x886e7a22, 0x7a0508a1, 0xf11bfaa8, 0x05757ceb, 0x49231c1e, 0x52f1ccf7, 0x6e5c390c, 0xbd714038,
         0x391c0cb3, 0x84badedd, 0x101fd28f, 0x529e7d00);
    Turn(s, m, 53, 0x101fd28f, 0x886e7a22, 0x7a0508a1, 0xf11bfaa8, 0x529e7d00, 0x49231c1e, 0x52f1ccf7, 0x6e5c390c,
         0x4ed8aa4a, 0xc21462bc, 0xf5702fdb, 0x9f4787c3);
    Turn(s, m, 54, 0xf5702fdb, 0x101fd28f, 0x886e7a22, 0x7a0508a1, 0x9f4787c3, 0x529e7d00, 0x49231c1e, 0x52f1ccf7,
         0x5b9cca4f, 0x1487472c, 0x3ec45cdb, 0xe50e1b4f);
    Turn(s, m, 55, 0x3ec45cdb, 0xf5702fdb, 0x101fd28f, 0x886e7a22, 0xe50e1b4f, 0x9f4787c3, 0x529e7d00, 0x49231c1e,
         0x682e6ff3, 0xb20f7a99, 0x38cc9913, 0x54cb266b);
    Turn(s, m, 56, 0x38cc9913, 0x3ec45cdb, 0xf5702fdb, 0x101fd28f, 0x54cb266b, 0xe50e1b4f, 0x9f4787c3, 0x529e7d00,
         0x748f82ee, 0xef57b9cd, 0xfcd1887b, 0x9b5e906c);
    Turn(s, m, 57, 0xfcd1887b, 0x38cc9913, 0x3ec45cdb, 0xf5702fdb, 0x9b5e906c, 0x54cb266b, 0xe50e1b4f, 0x9f4787c3,
         0x78a5636f, 0xebe6b238, 0xc062d46f, 0x7e44008e);
    Turn(s, m, 58, 0xc062d46f, 0xfcd1887b, 0x38cc9913, 0x3ec45cdb, 0x7e44008e, 0x9b5e906c, 0x54cb266b, 0xe50e1b4f,
         0x84c87814, 0x9fe3095e, 0xffb70472, 0x6d83bfc6);
    Turn(s, m, 59, 0xffb70472, 0xc062d46f, 0xfcd1887b, 0x38cc9913, 0x6d83bfc6, 0x7e44008e, 0x9b5e906c, 0x54cb266b,
         0x8cc70208, 0x78bc8d4b, 0xb6ae8fff, 0xb21bad3d);
    Turn(s, m, 60, 0xb6ae8fff, 0xffb70472, 0xc062d46f, 0xfcd1887b, 0xb21bad3d, 0x6d83bfc6, 0x7e44008e, 0x9b5e906c,
         0x90befffa, 0xa43fcf15, 0xb85e2ce9, 0x961f4894);
    Turn(s, m, 61, 0xb85e2ce9, 0xb6ae8fff, 0xffb70472, 0xc062d46f, 0x961f4894, 0xb21bad3d, 0x6d83bfc6, 0x7e44008e,
         0xa4506ceb, 0x668b2ff8, 0x04d24d6c, 0x948d25b6);
    Turn(s, m, 62, 0x04d24d6c, 0xb85e2ce9, 0xb6ae8fff, 0xffb70472, 0x948d25b6, 0x961f4894, 0xb21bad3d, 0x6d83bfc6,
         0xbef9a3f7, 0xeeaba2cc, 0xd39a2165, 0xfb121210);
    Turn(s, m, 63, 0xd39a2165, 0x04d24d6c, 0xb85e2ce9, 0xb6ae8fff, 0xfb121210, 0x948d25b6, 0x961f4894, 0xb21bad3d,
         0xc67178f2, 0x12b1edeb, 0x506e3058, 0x5ef50f24);
  }

  lemma AbcCompressed(h: State, m: Block)
    requires VarsOf(h)
          == Vars(0x6a09e667, 0xbb67ae85, 0x3c6ef372, 0xa54ff53a, 0x510e527f, 0x9b05688c, 0x1f83d9ab, 0x5be0cd19)
    requires WordsAre(m, 0,
                      0x61626380, 0x00000000, 0x00000000, 0x00000000, 0x00000000, 0x00000000, 0x00000000, 0x00000000,
                      0x00000000, 0x00000000, 0x00000000, 0x00000000, 0x00000000, 0x00000000, 0x00000000, 0x00000018)
    ensures Compress(h, m)
         == [0xba7816bf, 0x8f01cfea, 0x414140de, 0x5dae2223, 0xb00361a3, 0x96177a9c, 0xb410ff61, 0xf20015ad]
  {
    hide WordsAre, After, VarsOf, Compress;
    var s := VarsOf(h);
    Start(s, m);
    AbcWords16(m);
    AbcWords32(m);
    AbcWords48(m);
    AbcRounds0(s, m);
    AbcRounds16(s, m);
    AbcRounds32(s, m);
    AbcRounds48(s, m);
    AbcSums(h, m);
  }

  lemma AbcSums(h: State, m: Block)
    requires VarsOf(h)
          == Vars(0x6a09e667, 0xbb67ae85, 0x3c6ef372, 0xa54ff53a, 0x510e527f, 0x9b05688c, 0x1f83d9ab, 0x5be0cd19)
    requires After(VarsOf(h), m, 64,
                   Vars(0x506e3058, 0xd39a2165, 0x04d24d6c, 0xb85e2ce9, 0x5ef50f24, 0xfb121210, 0x948d25b6, 0x961f4894))
    ensures Compress(h, m)
         == [0xba7816bf, 0x8f01cfea, 0x414140de, 0x5dae2223, 0xb00361a3, 0x96177a9c, 0xb410ff61, 0xf20015ad]
  {
    hide After, Compress;
    Added(h, m, Vars(0x506e3058, 0xd39a2165, 0x04d24d6c, 0xb85e2ce9, 0x5ef50f24, 0xfb121210, 0x948d25b6, 0x961f4894),
          [0xba7816bf, 0x8f01cfea, 0x414140de, 0x5dae2223, 0xb00361a3, 0x96177a9c, 0xb410ff61, 0xf20015ad]);
  }

  // ---- The second block of the longer message ----

  lemma SecondWords16(m: Block)
    requires WordsAre(m, 0,
                      0x80000000, 0x00000000, 0x00000000, 0x00000000, 0x00000000, 0x00000000, 0x00000000, 0x00000000,
                      0x00000000, 0x00000000, 0x00000000, 0x00000000, 0x00000000, 0x00000000, 0x00000000, 0x00000200)
    ensures WordsAre(m, 16,
                     0x80000000, 0x01400000, 0x00205000, 0x00005088, 0x22000800, 0x22550014, 0x05089742, 0xa0000020,
                     0x5a880000, 0x005c9400, 0x0016d49d, 0xfa801f00, 0xd33225d0, 0x11675959, 0xf6e6bfda, 0xb30c1549)
  {
    hide At;
    Next(m, 16, 0x00000000, 0x00000000, 0x00000000, 0x80000000, 0x80000000);
    Next(m, 17, 0x00000200, 0x00000000, 0x00000000, 0x00000000, 0x01400000);
    Next(m, 18, 0x80000000, 0x00000000, 0x00000000, 0x00000000, 0x00205000);
    Next(m, 19, 0x01400000, 0x00000000, 0x00000000, 0x00000000, 0x00005088);
    Next(m, 20, 0x00205000, 0x00000000, 0x00000000, 0x00000000, 0x22000800);
    Next(m, 21, 0x00005088, 0x00000000, 0x00000000, 0x00000000, 0x22550014);
    Next(m, 22, 0x22000800, 0x00000200, 0x00000000, 0x00000000, 0x05089742);
    Next(m, 23, 0x22550014, 0x80000000, 0x00000000, 0x00000000, 0xa0000020);
    Next(m, 24, 0x05089742, 0x01400000, 0x00000000, 0x00000000, 0x5a880000);
    Next(m, 25, 0xa0000020, 0x00205000, 0x00000000, 0x00000000, 0x005c9400);
    Next(m, 26, 0x5a880000, 0x00005088, 0x00000000, 0x00000000, 0x0016d49d);
    Next(m, 27, 0x005c9400, 0x22000800, 0x00000000, 0x00000000, 0xfa801f00);
    Next(m, 28, 0x0016d49d, 0x22550014, 0x00000000, 0x00000000, 0xd33225d0);
    Next(m, 29, 0xfa801f00, 0x05089742, 0x00000000, 0x00000000, 0x11675959);
    Next(m, 30, 0xd33225d0, 0xa0000020, 0x00000200, 0x00000000, 0xf6e6bfda);
    Next(m, 31, 0x11675959, 0x5a880000, 0x80000000, 0x00000200, 0xb30c1549);
  }

  lemma SecondWords32(m: Block)
    requires WordsAre(m, 16,
                      0x80000000, 0x01400000, 0x00205000, 0x00005088, 0x22000800, 0x22550014, 0x05089742, 0xa0000020,
                      0x5a880000, 0x005c9400, 0x0016d49d, 0xfa801f00, 0xd33225d0, 0x11675959, 0xf6e6bfda, 0xb30c1549)
    ensures WordsAre(m, 32,
                     0x08b2b050, 0x9d7c4c27, 0x0ce2a393, 0x88e6e1ea, 0xa52b4335, 0x67a16f49, 0xd732016f, 0x4eeb2e91,
                     0x5dbf55e5, 0x8eee2335, 0xe2bc5ec2, 0xa83f4394, 0x45ad78f7, 0x36f3d0cd, 0xd99c05e8, 0xb0511dc7)
  {
    hide At;
    Next(m, 32, 0xf6e6bfda, 0x005c9400, 0x01400000, 0x80000000, 0x08b2b050);
    Next(m, 33, 0xb30c1549, 0x0016d49d, 0x00205000, 0x01400000, 0x9d7c4c27);
    Next(m, 34, 0x08b2b050, 0xfa801f00, 0x00005088, 0x00205000, 0x0ce2a393);
    Next(m, 35, 0x9d7c4c27, 0xd33225d0, 0x22000800, 0x00005088, 0x88e6e1ea);
    Next(m, 36, 0x0ce2a393, 0x11675959, 0x22550014, 0x22000800, 0xa52b4335);
    Next(m, 37, 0x88e6e1ea, 0xf6e6bfda, 0x05089742, 0x22550014, 0x67a16f49);
    Next(m, 38, 0xa52b4335, 0xb30c1549, 0xa0000020, 0x05089742, 0xd732016f);
    Next(m, 39, 0x67a16f49, 0x08b2b050, 0x5a880000, 0xa0000020, 0x4eeb2e91);
    Next(m, 40, 0xd732016f, 0x9d7c4c27, 0x005c9400, 0x5a880000, 0x5dbf55e5);
    Next(m, 41, 0x4eeb2e91, 0x0ce2a393, 0x0016d49d, 0x005c9400, 0x8eee2335);
    Next(m, 42, 0x5dbf55e5, 0x88e6e1ea, 0xfa801f00, 0x0016d49d, 0xe2bc5ec2);
    Next(m, 43, 0x8eee2335, 0xa52b4335, 0xd33225d0, 0xfa801f00, 0xa83f4394);
    Next(m, 44, 0xe2bc5ec2, 0x67a16f49, 0x11675959, 0xd33225d0, 0x45ad78f7);
    Next(m, 45, 0xa83f4394, 0xd732016f, 0xf6e6bfda, 0x11675959, 0x36f3d0cd);
    Next(m, 46, 0x45ad78f7, 0x4eeb2e91, 0xb30c1549, 0xf6e6bfda, 0xd99c05e8);
    Next(m, 47, 0x36f3d0cd, 0x5dbf55e5, 0x08b2b050, 0xb30c1549, 0xb0511dc7);
  }

  lemma SecondWords48(m: Block)
    requires WordsAre(m, 32,
                      0x08b2b050, 0x9d7c4c27, 0x0ce2a393, 0x88e6e1ea, 0xa52b4335, 0x67a16f49, 0xd732016f, 0x4eeb2e91,
                      0x5dbf55e5, 0x8eee2335, 0xe2bc5ec2, 0xa83f4394, 0x45ad78f7, 0x36f3d0cd, 0xd99c05e8, 0xb0511dc7)
    ensures WordsAre(m, 48,
                     0x69bc7ac4, 0xbd11375b, 0xe3ba71e5, 0x3b209ff2, 0x18feee17, 0xe25ad9e7, 0x13375046, 0x0515089d,
                     0x4f0d0f04, 0x2627484e, 0x310128d2, 0xc668b434, 0x420841cc, 0x62d311b8, 0xe59ba771, 0x85a7a484)
  {
    hide At;
    Next(m, 48, 0xd99c05e8, 0x8eee2335, 0x9d7c4c27, 0x08b2b050, 0x69bc7ac4);
    Next(m, 49, 0xb0511dc7, 0xe2bc5ec2, 0x0ce2a393, 0x9d7c4c27, 0xbd11375b);
    Next(m, 50, 0x69bc7ac4, 0xa83f4394, 0x88e6e1ea, 0x0ce2a393, 0xe3ba71e5);
    Next(m, 51, 0xbd11375b, 0x45ad78f7, 0xa52b4335, 0x88e6e1ea, 0x3b209ff2);
    Next(m, 52, 0xe3ba71e5, 0x36f3d0cd, 0x67a16f49, 0xa52b4335, 0x18feee17);
    Next(m, 53, 0x3b209ff2, 0xd99c05e8, 0xd732016f, 0x67a16f49, 0xe25ad9e7);
    Next(m, 54, 0x18feee17, 0xb0511dc7, 0x4eeb2e91, 0xd732016f, 0x13375046);
    Next(m, 55, 0xe25ad9e7, 0x69bc7ac4, 0x5dbf55e5, 0x4eeb2e91, 0x0515089d);
    Next(m, 56, 0x13375046, 0xbd11375b, 0x8eee2335, 0x5dbf55e5, 0x4f0d0f04);
    Next(m, 57, 0x0515089d, 0xe3ba71e5, 0xe2bc5ec2, 0x8eee2335, 0x2627484e);
    Next(m, 58, 0x4f0d0f04, 0x3b209ff2, 0xa83f4394, 0xe2bc5ec2, 0x310128d2);
    Next(m, 59, 0x2627484e, 0x18feee17, 0x45ad78f7, 0xa83f4394, 0xc668b434);
    Next(m, 60, 0x310128d2, 0xe25ad9e7, 0x36f3d0cd, 0x45ad78f7, 0x420841cc);
    Next(m, 61, 0xc668b434, 0x13375046, 0xd99c05e8, 0x36f3d0cd, 0x62d311b8);
    Next(m, 62, 0x420841cc, 0x0515089d, 0xb0511dc7, 0xd99c05e8, 0xe59ba771);
    Next(m, 63, 0x62d311b8, 0x4f0d0f04, 0x69bc7ac4, 0xb0511dc7, 0x85a7a484);
  }

  lemma SecondRounds0(s: Vars, m: Block)
    requires After(s, m, 0,
                   Vars(0xba7816bf, 0x8f01cfea, 0x414140de, 0x5dae2223, 0xb00361a3, 0x96177a9c, 0xb410ff61, 0xf20015ad))
    requires WordsAre(m, 0,
                      0x80000000, 0x00000000, 0x00000000, 0x00000000, 0x00000000, 0x00000000, 0x00000000, 0x00000000,
                      0x00000000, 0x00000000, 0x00000000, 0x00000000, 0x00000000, 0x00000000, 0x00000000, 0x00000200)
    ensures After(s, m, 16,
                  Vars(0x2897f7c3, 0x5143ba9a, 0x0de49840, 0xaeb159e0, 0xe57ac04f, 0xfcadba3a, 0xcc53b6bf, 0x316dcb6d))
  {
    hide At, After, ConstantAt;
    Constants0();
    Turn(s, m, 0, 0xba7816bf, 0x8f01cfea, 0x414140de, 0x5dae2223, 0xb00361a3, 0x96177a9c, 0xb410ff61, 0xf20015ad,
         0x428a2f98, 0x80000000, 0x4a1f8fbb, 0x6153425a);
    Turn(s, m, 1, 0x4a1f8fbb, 0xba7816bf, 0x8f01cfea, 0x414140de, 0x6153425a, 0xb00361a3, 0x96177a9c, 0xb410ff61,
         0x71374491, 0x00000000, 0xc234f4be, 0xa7f947a7);
    Turn(s, m, 2, 0xc234f4be, 0x4a1f8fbb, 0xba7816bf, 0x8f01cfea, 0xa7f947a7, 0x6153425a, 0xb00361a3, 0x96177a9c,
         0xb5c0fbcf, 0x00000000, 0xa4db1091, 0xa2f6723c);
    Turn(s, m, 3, 0xa4db1091, 0xc234f4be, 0x4a1f8fbb, 0xba7816bf, 0xa2f6723c, 0xa7f947a7, 0x6153425a, 0xb00361a3,
         0xe9b5dba5, 0x00000000, 0x8fea522f, 0x06492fc4);
    Turn(s, m, 4, 0x8fea522f, 0xa4db1091, 0xc234f4be, 0x4a1f8fbb, 0x06492fc4, 0xa2f6723c, 0xa7f947a7, 0x6153425a,
         0x3956c25b, 0x00000000, 0x6d711d1a, 0x54c80630);
    Turn(s, m, 5, 0x6d711d1a, 0x8fea522f, 0xa4db1091, 0xc234f4be, 0x54c80630, 0x06492fc4, 0xa2f6723c, 0xa7f947a7,
         0x59f111f1, 0x00000000, 0x71b9c66c, 0xcdf86594);
    Turn(s, m, 6, 0x71b9c66c, 0x6d711d1a, 0x8fea522f, 0xa4db1091, 0xcdf86594, 0x54c80630, 0x06492fc4, 0xa2f6723c,
         0x923f82a4, 0x00000000, 0xcfa93bed, 0x3e76a8bd);
    Turn(s, m, 7, 0xcfa93bed, 0x71b9c66c, 0x6d711d1a, 0x8fea522f, 0x3e76a8bd, 0xcdf86594, 0x54c80630, 0x06492fc4,
         0xab1c5ed5, 0x00000000, 0x4c8ca40d, 0x66525244);
    Turn(s, m, 8, 0x4c8ca40d, 0xcfa93bed, 0x71b9c66c, 0x6d711d1a, 0x66525244, 0x3e76a8bd, 0xcdf86594, 0x54c80630,
         0xd807aa98, 0x00000000, 0xdc89964d, 0xba7794a6);
    Turn(s, m, 9, 0xdc89964d, 0x4c8ca40d, 0xcfa93bed, 0x71b9c66c, 0xba7794a6, 0x66525244, 0x3e76a8bd, 0xcdf86594,
         0x12835b01, 0x00000000, 0xec6229a9, 0xae7c831b);
    Turn(s, m, 10, 0xec6229a9, 0xdc89964d, 0x4c8ca40d, 0xcfa93bed, 0xae7c831b, 0xba7794a6, 0x66525244, 0x3e76a8bd,
         0x243185be, 0x00000000, 0x0c26a1e3, 0x5055eaf9);
    Turn(s, m, 11, 0x0c26a1e3, 0xec6229a9, 0xdc89964d, 0x4c8ca40d, 0x5055eaf9, 0xae7c831b, 0xba7794a6, 0x66525244,
         0x550c7dc3, 0x00000000, 0x192c6f4a, 0x43002bf1);
    Turn(s, m, 12, 0x192c6f4a, 0x0c26a1e3, 0xec6229a9, 0xdc89964d, 0x43002bf1, 0x5055eaf9, 0xae7c831b, 0xba7794a6,
         0x72be5d74, 0x00000000, 0xaeb159e0, 0x316dcb6d);
    Turn(s, m, 13, 0xaeb159e0, 0x192c6f4a, 0x0c26a1e3, 0xec6229a9, 0x316dcb6d, 0x43002bf1, 0x5055eaf9, 0xae7c831b,
         0x80deb1fe, 0x00000000, 0x0de49840, 0xcc53b6bf);
    Turn(s, m, 14, 0x0de49840, 0xaeb159e0, 0x192c6f4a, 0x0c26a1e3, 0xcc53b6bf, 0x316dcb6d, 0x43002bf1, 0x5055eaf9,
         0x9bdc06a7, 0x00000000, 0x5143ba9a, 0xfcadba3a);
    Turn(s, m, 15, 0x5143ba9a, 0x0de49840, 0xaeb159e0, 0x192c6f4a, 0xfcadba3a, 0xcc53b6bf, 0x316dcb6d, 0x43002bf1,
         0xc19bf174, 0x00000200, 0x2897f7c3, 0xe57ac04f);
  }

  lemma SecondRounds16(s: Vars, m: Block)
    requires After(s, m, 16,
                   Vars(0x2897f7c3, 0x5143ba9a, 0x0de49840, 0xaeb159e0, 0xe57ac04f, 0xfcadba3a, 0xcc53b6bf, 0x316dcb6d))
    requires WordsAre(m, 16,
                      0x80000000, 0x01400000, 0x00205000, 0x00005088, 0x22000800, 0x22550014, 0x05089742, 0xa0000020,
                      0x5a880000, 0x005c9400, 0x0016d49d, 0xfa801f00, 0xd33225d0, 0x11675959, 0xf6e6bfda, 0xb30c1549)
    ensures After(s, m, 32,
                  Vars(0x8814267e, 0x4f13b0ce, 0xe66be014, 0x39516650, 0x56665421, 0xb15ef81c, 0xe003cf9a, 0x1e19fd37))
  {
    hide At, After, ConstantAt;
    Constants16();
    Turn(s, m, 16, 0x2897f7c3, 0x5143ba9a, 0x0de49840, 0xaeb159e0, 0xe57ac04f, 0xfcadba3a, 0xcc53b6bf, 0x316dcb6d,
         0xe49b69c1, 0x80000000, 0x42e7c042, 0xbbeda973);
    Turn(s, m, 17, 0x42e7c042, 0x2897f7c3, 0x5143ba9a, 0x0de49840, 0xbbeda973, 0xe57ac04f, 0xfcadba3a, 0xcc53b6bf,
         0xefbe4786, 0x01400000, 0x0779e444, 0xc6eb9b9d);
    Turn(s, m, 18, 0x0779e444, 0x42e7c042, 0x2897f7c3, 0x5143ba9a, 0xc6eb9b9d, 0xbbeda973, 0xe57ac04f, 0xfcadba3a,
         0x0fc19dc6, 0x00205000, 0xe95f6656, 0x733be9eb);
    Turn(s, m, 19, 0xe95f6656, 0x0779e444, 0x42e7c042, 0x2897f7c3, 0x733be9eb, 0xc6eb9b9d, 0xbbeda973, 0xe57ac04f,
         0x240ca1cc, 0x00005088, 0x1ac766b0, 0x0a65b162);
    Turn(s, m, 20, 0x1ac766b0, 0xe95f6656, 0x0779e444, 0x42e7c042, 0x0a65b162, 0x733be9eb, 0xc6eb9b9d, 0xbbeda973,
         0x2de92c6f, 0x22000800, 0xa33e2ba7, 0xac1ab599);
    Turn(s, m, 21, 0xa33e2ba7, 0x1ac766b0, 0xe95f6656, 0x0779e444, 0xac1ab599, 0x0a65b162, 0x733be9eb, 0xc6eb9b9d,
         0x4a7484aa, 0x22550014, 0x6071b35d, 0x6f302357);
    Turn(s, m, 22, 0x6071b35d, 0xa33e2ba7, 0x1ac766b0, 0xe95f6656, 0x6f302357, 0xac1ab599, 0x0a65b162, 0x733be9eb,
         0x5cb0a9dc, 0x05089742, 0xd73ca808, 0x99eacfce);
    Turn(s, m, 23, 0xd73ca808, 0x6071b35d, 0xa33e2ba7, 0x1ac766b0, 0x99eacfce, 0x6f302357, 0xac1ab599, 0x0a65b162,
         0x76f988da, 0xa0000020, 0xefc93aa5, 0xa02a458d);
    Turn(s, m, 24, 0xefc93aa5, 0xd73ca808, 0x6071b35d, 0xa33e2ba7, 0xa02a458d, 0x99eacfce, 0x6f302357, 0xac1ab599,
         0x983e5152, 0x5a880000, 0x71e33ac3, 0xa37004fe);
    Turn(s, m, 25, 0x71e33ac3, 0xefc93aa5, 0xd73ca808, 0x6071b35d, 0xa37004fe, 0xa02a458d, 0x99eacfce, 0x6f302357,
         0xa831c66d, 0x005c9400, 0x2c36a581, 0x0e36d1ef);
    Turn(s, m, 26, 0x2c36a581, 0x71e33ac3, 0xefc93aa5, 0xd73ca808, 0x0e36d1ef, 0xa37004fe, 0xa02a458d, 0x99eacfce,
         0xb00327c8, 0x0016d49d, 0xb264c221, 0x5e2b6343);
    Turn(s, m, 27, 0xb264c221, 0x2c36a581, 0x71e33ac3, 0xefc93aa5, 0x5e2b6343, 0x0e36d1ef, 0xa37004fe, 0xa02a458d,
         0xbf597fc7, 0xfa801f00, 0x991bbb89, 0x69e22e46);
    Turn(s, m, 28, 0x991bbb89, 0xb264c221, 0x2c36a581, 0x71e33ac3, 0x69e22e46, 0x5e2b6343, 0x0e36d1ef, 0xa37004fe,
         0xc6e00bf3, 0xd33225d0, 0x39516650, 0x1e19fd37);
    Turn(s, m, 29, 0x39516650, 0x991bbb89, 0xb264c221, 0x2c36a581, 0x1e19fd37, 0x69e22e46, 0x5e2b6343, 0x0e36d1ef,
         0xd5a79147, 0x11675959, 0xe66be014, 0xe003cf9a);
    Turn(s, m, 30, 0xe66be014, 0x39516650, 0x991bbb89, 0xb264c221, 0xe003cf9a, 0x1e19fd37, 0x69e22e46, 0x5e2b6343,
         0x06ca6351, 0xf6e6bfda, 0x4f13b0ce, 0xb15ef81c);
    Turn(s, m, 31, 0x4f13b0ce, 0xe66be014, 0x39516650, 0x991bbb89, 0xb15ef81c, 0xe003cf9a, 0x1e19fd37, 0x69e22e46,
         0x14292967, 0xb30c1549, 0x8814267e, 0x56665421);
  }

  lemma SecondRounds32(s: Vars, m: Block)
    requires After(s, m, 32,
                   Vars(0x8814267e, 0x4f13b0ce, 0xe66be014, 0x39516650, 0x56665421, 0xb15ef81c, 0xe003cf9a, 0x1e19fd37))
    requires WordsAre(m, 32,
                      0x08b2b050, 0x9d7c4c27, 0x0ce2a393, 0x88e6e1ea, 0xa52b4335, 0x67a16f49, 0xd732016f, 0x4eeb2e91,
                      0x5dbf55e5, 0x8eee2335, 0xe2bc5ec2, 0xa83f4394, 0x45ad78f7, 0x36f3d0cd, 0xd99c05e8, 0xb0511dc7)
    ensures After(s, m, 48,
                  Vars(0xc3d72580, 0x16b6789f, 0x845d3d7b, 0x22c92115, 0xc8f0d9c8, 0x07ba06f7, 0xd8f0d203, 0xb60e61ec))
  {
    hide At, After, ConstantAt;
    Constants32();
    Turn(s, m, 32, 0x8814267e, 0x4f13b0ce, 0xe66be014, 0x39516650, 0x56665421, 0xb15ef81c, 0xe003cf9a, 0x1e19fd37,
         0x27b70a85, 0x08b2b050, 0xc0a12c53, 0x6a763f27);
    Turn(s, m, 33, 0xc0a12c53, 0x8814267e, 0x4f13b0ce, 0xe66be014, 0x6a763f27, 0x56665421, 0xb15ef81c, 0xe003cf9a,
         0x2e1b2138, 0x9d7c4c27, 0x9f7d3c3d, 0xa7d0f6d4);
    Turn(s, m, 34, 0x9f7d3c3d, 0xc0a12c53, 0x8814267e, 0x4f13b0ce, 0xa7d0f6d4, 0x6a763f27, 0x56665421, 0xb15ef81c,
         0x4d2c6dfc, 0x0ce2a393, 0xd94d8280, 0x2d68c434);
    Turn(s, m, 35, 0xd94d8280, 0x9f7d3c3d, 0xc0a12c53, 0x8814267e, 0x2d68c434, 0xa7d0f6d4, 0x6a763f27, 0x56665421,
         0x53380d13, 0x88e6e1ea, 0x69fb2c0d, 0x04427cd1);
    Turn(s, m, 36, 0x69fb2c0d, 0xd94d8280, 0x9f7d3c3d, 0xc0a12c53, 0x04427cd1, 0x2d68c434, 0xa7d0f6d4, 0x6a763f27,
         0x650a7354, 0xa52b4335, 0xcbaf828c, 0xdc2dd155);
    Turn(s, m, 37, 0xcbaf828c, 0x69fb2c0d, 0xd94d8280, 0x9f7d3c3d, 0xdc2dd155, 0x04427cd1, 0x2d68c434, 0xa7d0f6d4,
         0x766a0abb, 0x67a16f49, 0x78b76ed7, 0xb5bd9997);
    Turn(s, m, 38, 0x78b76ed7, 0xcbaf828c, 0x69fb2c0d, 0xd94d8280, 0xb5bd9997, 0xdc2dd155, 0x04427cd1, 0x2d68c434,
         0x81c2c92e, 0xd732016f, 0xaca680ae, 0xa70790b5);
    Turn(s, m, 39, 0xaca680ae, 0x78b76ed7, 0xcbaf828c, 0x69fb2c0d, 0xa70790b5, 0xb5bd9997, 0xdc2dd155, 0x04427cd1,
         0x92722c85, 0x4eeb2e91, 0x43b4505a, 0x90a97a2c);
    Turn(s, m, 40, 0x43b4505a, 0xaca680ae, 0x78b76ed7, 0xcbaf828c, 0x90a97a2c, 0xa70790b5, 0xb5bd9997, 0xdc2dd155,
         0xa2bfe8a1, 0x5dbf55e5, 0x5164e9b9, 0xf0dfcaad);
    Turn(s, m, 41, 0x5164e9b9, 0x43b4505a, 0xaca680ae, 0x78b76ed7, 0xf0dfcaad, 0x90a97a2c, 0xa70790b5, 0xb5bd9997,
         0xa81a664b, 0x8eee2335, 0xddc1c444, 0x8a9f1e55);
    Turn(s, m, 42, 0xddc1c444, 0x5164e9b9, 0x43b4505a, 0xaca680ae, 0x8a9f1e55, 0xf0dfcaad, 0x90a97a2c, 0xa70790b5,
         0xc24b8b70, 0xe2bc5ec2, 0x140f3733, 0x5c896b21);
    Turn(s, m, 43, 0x140f3733, 0xddc1c444, 0x5164e9b9, 0x43b4505a, 0x5c896b21, 0x8a9f1e55, 0xf0dfcaad, 0x90a97a2c,
         0xc76c51a3, 0xa83f4394, 0xe4ae4535, 0x92d50e79);
    Turn(s, m, 44, 0xe4ae4535, 0x140f3733, 0xddc1c444, 0x5164e9b9, 0x92d50e79, 0x5c896b21, 0x8a9f1e55, 0xf0dfcaad,
         0xd192e819, 0x45ad78f7, 0x22c92115, 0xb60e61ec);
    Turn(s, m, 45, 0x22c92115, 0xe4ae4535, 0x140f3733, 0xddc1c444, 0xb60e61ec, 0x92d50e79, 0x5c896b21, 0x8a9f1e55,
         0xd6990624, 0x36f3d0cd, 0x845d3d7b, 0xd8f0d203);
    Turn(s, m, 46, 0x845d3d7b, 0x22c92115, 0xe4ae4535, 0x140f3733, 0xd8f0d203, 0xb60e61ec, 0x92d50e79, 0x5c896b21,
         0xf40e3585, 0xd99c05e8, 0x16b6789f, 0x07ba06f7);
    Turn(s, m, 47, 0x16b6789f, 0x845d3d7b, 0x22c92115, 0xe4ae4535, 0x07ba06f7, 0xd8f0d203, 0xb60e61ec, 0x92d50e79,
         0x106aa070, 0xb0511dc7, 0xc3d72580, 0xc8f0d9c8);
  }

  lemma SecondRounds48(s: Vars, m: Block)
    requires After(s, m, 48,
                   Vars(0xc3d72580, 0x16b6789f, 0x845d3d7b, 0x22c92115, 0xc8f0d9c8, 0x07ba06f7, 0xd8f0d203, 0xb60e61ec))
    requires WordsAre(m, 48,
                      0x69bc7ac4, 0xbd11375b, 0xe3ba71e5, 0x3b209ff2, 0x18feee17, 0xe25ad9e7, 0x13375046, 0x0515089d,
                      0x4f0d0f04, 0x2627484e, 0x310128d2, 0xc668b434, 0x420841cc, 0x62d311b8, 0xe59ba771, 0x85a7a484)
    ensures After(s, m, 64,
                  Vars(0x788d9eaa, 0xa251249b, 0x0b2def38, 0xddadfffe, 0xad1ca229, 0xa02392bd, 0x0fa54248, 0x3251ddc8))
  {
    hide At, After, ConstantAt;
    Constants48();
    Turn(s, m, 48, 0xc3d72580, 0x16b6789f, 0x845d3d7b, 0x22c92115, 0xc8f0d9c8, 0x07ba06f7, 0xd8f0d203, 0xb60e61ec,
         0x19a4c116, 0x69bc7ac4, 0x73b2ec12, 0xcf3efab6);
    Turn(s, m, 49, 0x73b2ec12, 0xc3d72580, 0x16b6789f, 0x845d3d7b, 0xcf3efab6, 0xc8f0d9c8, 0x07ba06f7, 0xd8f0d203,
         0x1e376c08, 0xbd11375b, 0x1b087568, 0x13dfd6f4);
    Turn(s, m, 50, 0x1b087568, 0x73b2ec12, 0xc3d72580, 0x16b6789f, 0x13dfd6f4, 0xcf3efab6, 0xc8f0d9c8, 0x07ba06f7,
         0x2748774c, 0xe3ba71e5, 0x9f0c1501, 0xd5d8c32b);
    Turn(s, m, 51, 0x9f0c1501, 0x1b087568, 0x73b2ec12, 0xc3d72580, 0xd5d8c32b, 0x13dfd6f4, 0xcf3efab6, 0xc8f0d9c8,
         0x34b0bcb5, 0x3b209ff2, 0x95b1ef7d, 0x3ee4a4a1);
    Turn(s, m, 52, 0x95b1ef7d, 0x9f0c1501, 0x1b087568, 0x73b2ec12, 0x3ee4a4a1, 0xd5d8c32b, 0x13dfd6f4, 0xcf3efab6,
         0x391c0cb3, 0x18feee17, 0x12097bfd, 0x0d76d2a0);
    Turn(s, m, 53, 0x12097bfd, 0x95b1ef7d, 0x9f0c1501, 0x1b087568, 0x0d76d2a0, 0x3ee4a4a1, 0xd5d8c32b, 0x13dfd6f4,
         0x4ed8aa4a, 0xe25ad9e7, 0xe6ebbcdf, 0xac6577ce);
    Turn(s, m, 54, 0xe6ebbcdf, 0x12097bfd, 0x95b1ef7d, 0x9f0c1501, 0xac6577ce, 0x0d76d2a0, 0x3ee4a4a1, 0xd5d8c32b,
         0x5b9cca4f, 0x13375046, 0x9dd25676, 0xf47dc389);
    Turn(s, m, 55, 0x9dd25676, 0xe6ebbcdf, 0x12097bfd, 0x95b1ef7d, 0xf47dc389, 0xac6577ce, 0x0d76d2a0, 0x3ee4a4a1,
         0x682e6ff3, 0x0515089d, 0xb6034d9c, 0x57501ca2);
    Turn(s, m, 56, 0xb6034d9c, 0x9dd25676, 0xe6ebbcdf, 0x12097bfd, 0x57501ca2, 0xf47dc389, 0xac6577ce, 0x0d76d2a0,
         0x748f82ee, 0x4f0d0f04, 0x85b9323b, 0x94ac3fb5);
    Turn(s, m, 57, 0x85b9323b, 0xb6034d9c, 0x9dd25676, 0xe6ebbcdf, 0x94ac3fb5, 0x57501ca2, 0xf47dc389, 0xac6577ce,
         0x78a5636f, 0x2627484e, 0x6091e575, 0x1d6fbcc5);
    Turn(s, m, 58, 0x6091e575, 0x85b9323b, 0xb6034d9c, 0x9dd25676, 0x1d6fbcc5, 0x94ac3fb5, 0x57501ca2, 0xf47dc389,
         0x84c87814, 0x310128d2, 0x1438202d, 0xd95e6916);
    Turn(s, m, 59, 0x1438202d, 0x6091e575, 0x85b9323b, 0xb6034d9c, 0xd95e6916, 0x1d6fbcc5, 0x94ac3fb5, 0x57501ca2,
         0x8cc70208, 0xc668b434, 0x4898285f, 0x54fc3824);
    Turn(s, m, 60, 0x4898285f, 0x1438202d, 0x6091e575, 0x85b9323b, 0x54fc3824, 0xd95e6916, 0x1d6fbcc5, 0x94ac3fb5,
         0x90befffa, 0x420841cc, 0xddadfffe, 0x3251ddc8);
    Turn(s, m, 61, 0xddadfffe, 0x4898285f, 0x1438202d, 0x6091e575, 0x3251ddc8, 0x54fc3824, 0xd95e6916, 0x1d6fbcc5,
         0xa4506ceb, 0x62d311b8, 0x0b2def38, 0x0fa54248);
    Turn(s, m, 62, 0x0b2def38, 0xddadfffe, 0x4898285f, 0x1438202d, 0x0fa54248, 0x3251ddc8, 0x54fc3824, 0xd95e6916,
         0xbef9a3f7, 0xe59ba771, 0xa251249b, 0xa02392bd);
    Turn(s, m, 63, 0xa251249b, 0x0b2def38, 0xddadfffe, 0x4898285f, 0xa02392bd, 0x0fa54248, 0x3251ddc8, 0x54fc3824,
         0xc67178f2, 0x85a7a484, 0x788d9eaa, 0xad1ca229);
  }

  lemma SecondCompressed(h: State, m: Block)
    requires VarsOf(h)
          == Vars(0xba7816bf, 0x8f01cfea, 0x414140de, 0x5dae2223, 0xb00361a3, 0x96177a9c, 0xb410ff61, 0xf20015ad)
    requires WordsAre(m, 0,
                      0x80000000, 0x00000000, 0x00000000, 0x00000000, 0x00000000, 0x00000000, 0x00000000, 0x00000000,
                      0x00000000, 0x00000000, 0x00000000, 0x00000000, 0x00000000, 0x00000000, 0x00000000, 0x00000200)
    ensures Compress(h, m)
         == [0x3305b569, 0x3152f485, 0x4c6f3016, 0x3b5c2221, 0x5d2003cc, 0x363b0d59, 0xc3b641a9, 0x2451f375]
  {
    hide WordsAre, After, VarsOf, Compress;
    var s := VarsOf(h);
    Start(s, m);
    SecondWords16(m);
    SecondWords32(m);
    SecondWords48(m);
    SecondRounds0(s, m);
    SecondRounds16(s, m);
    SecondRounds32(s, m);
    SecondRounds48(s, m);
    SecondSums(h, m);
  }

  lemma SecondSums(h: State, m: Block)
    requires VarsOf(h)
          == Vars(0xba7816bf, 0x8f01cfea, 0x414140de, 0x5dae2223, 0xb00361a3, 0x96177a9c, 0xb410ff61, 0xf20015ad)
    requires After(VarsOf(h), m, 64,
                   Vars(0x788d9eaa, 0xa251249b, 0x0b2def38, 0xddadfffe, 0xad1ca229, 0xa02392bd, 0x0fa54248, 0x3251ddc8))
    ensures Compress(h, m)
         == [0x3305b569, 0x3152f485, 0x4c6f3016, 0x3b5c2221, 0x5d2003cc, 0x363b0d59, 0xc3b641a9, 0x2451f375]
  {
    hide After, Compress;
    Added(h, m, Vars(0x788d9eaa, 0xa251249b, 0x0b2def38, 0xddadfffe, 0xad1ca229, 0xa02392bd, 0x0fa54248, 0x3251ddc8),
          [0x3305b569, 0x3152f485, 0x4c6f3016, 0x3b5c2221, 0x5d2003cc, 0x363b0d59, 0xc3b641a9, 0x2451f375]);
  }

  // ---- Digests ----

  lemma AbcBlock(m: Block)
    requires m == Pad(Ascii("abc"))
    ensures WordsAre(m, 0,
                     0x61626380, 0x00000000, 0x00000000, 0x00000000, 0x00000000, 0x00000000, 0x00000000, 0x00000000,
                     0x00000000, 0x00000000, 0x00000000, 0x00000000, 0x00000000, 0x00000000, 0x00000000, 0x00000018)
  {
    hide At, Pad, Join;
    var msg := Ascii("abc");
    assert msg == [97, 98, 99];
    PadSmall(msg);
    FirstWord(m, 0, 97, 98, 99, 128, 0x61626380) by { JoinAbc(); }
    ZeroWords(m, 1, 15);
    FirstWord(m, 15, 0, 0, 0, 24, 0x18) by { JoinAbc(); }
  }

  lemma JoinAbc()
    ensures Join(97, 98, 99, 128) == 0x61626380 && Join(0, 0, 0, 24) == 0x18
    ensures Join(128, 0, 0, 0) == 0x80000000 && Join(0, 0, 2, 0) == 0x200
  {
  }

  /** The digest of "abc". */
  lemma DigestOfAbc()
    ensures Digest(Ascii("abc"))
         == [0xba7816bf, 0x8f01cfea, 0x414140de, 0x5dae2223, 0xb00361a3, 0x96177a9c, 0xb410ff61, 0xf20015ad]
  {
    hide Digest, Pad, Compress, WordsAre, VarsOf, H0, Ascii;
    var m := Pad(Ascii("abc"));
    AbcSize();
    AbcBlock(m);
    InitialVars();
    AbcCompressed(H0, m);
    DigestOne(Ascii("abc"));
  }

  lemma AbcSize()
    ensures |Pad(Ascii("abc"))| == 64 && |Pad(Pad(Ascii("abc")))| == 128
    ensures Pad(Pad(Ascii("abc")))[..64] == Pad(Ascii("abc"))
  {
    hide Pad;
    PadSmall(Ascii("abc"));
    PadSmall(Pad(Ascii("abc")));
  }

  lemma InitialVars()
    ensures |H0| == 8
    ensures VarsOf(H0)
         == Vars(0x6a09e667, 0xbb67ae85, 0x3c6ef372, 0xa54ff53a, 0x510e527f, 0x9b05688c, 0x1f83d9ab, 0x5be0cd19)
  {
  }

  lemma DigestOne(msg: Str)
    requires |Pad(msg)| == 64
    ensures Digest(msg) == Compress(H0, Pad(msg))
  {
    hide Fold, Pad, Compress;
    OneBlock(Pad(msg));
  }

  lemma DigestTwo(msg: Str)
    requires |Pad(msg)| == 128
    ensures Digest(msg) == Compress(Compress(H0, Pad(msg)[..64]), Pad(msg)[64..])
  {
    hide Fold, Pad, Compress;
    TwoBlocks(Pad(msg));
  }

  lemma OneBlock(m: Str)
    requires |m| == 64
    ensures Fold(H0, m, 1) == Compress(H0, m)
  {
    hide Compress;
    assert m[0..64] == m;
    assert Fold(H0, m, 0) == H0;
  }

  lemma TwoBlocks(m: Str)
    requires |m| == 128
    ensures Fold(H0, m, 2) == Compress(Compress(H0, m[..64]), m[64..])
  {
    hide Compress;
    assert m[0..64] == m[..64] && m[64..128] == m[64..];
    assert Fold(H0, m, 0) == H0;
    assert Fold(H0, m, 1) == Compress(H0, m[..64]);
  }

  lemma SecondBlock(m: Block)
    requires m == Pad(Pad(Ascii("abc")))[64..]
    ensures WordsAre(m, 0,
                     0x80000000, 0x00000000, 0x00000000, 0x00000000, 0x00000000, 0x00000000, 0x00000000, 0x00000000,
                     0x00000000, 0x00000000, 0x00000000, 0x00000000, 0x00000000, 0x00000000, 0x00000000, 0x00000200)
  {
    hide At, Pad, Join;
    PadSmall(Ascii("abc"));
    PadSmall(Pad(Ascii("abc")));
    FirstWord(m, 0, 128, 0, 0, 0, 0x80000000) by { JoinAbc(); }
    ZeroWords(m, 1, 15);
    FirstWord(m, 15, 0, 0, 2, 0, 0x200) by { JoinAbc(); }
  }

  /** The digest of the padded "abc", whose own padding makes a second block. */
  lemma DigestOfTwoBlocks()
    ensures Digest(Pad(Ascii("abc")))
         == [0x3305b569, 0x3152f485, 0x4c6f3016, 0x3b5c2221, 0x5d2003cc, 0x363b0d59, 0xc3b641a9, 0x2451f375]
  {
    hide Digest, Pad, Compress, WordsAre, VarsOf, H0, Ascii;
    var m := Pad(Ascii("abc"));
    AbcSize();
    AbcBlock(m);
    InitialVars();
    AbcCompressed(H0, m);
    SecondBlock(Pad(m)[64..]);
    MiddleVars(Compress(H0, m));
    SecondCompressed(Compress(H0, m), Pad(m)[64..]);
    DigestTwo(m);
  }

  lemma MiddleVars(h: State)
    requires h == [0xba7816bf, 0x8f01cfea, 0x414140de, 0x5dae2223,
                   0xb00361a3, 0x96177a9c, 0xb410ff61, 0xf20015ad]
    ensures VarsOf(h)
         == Vars(0xba7816bf, 0x8f01cfea, 0x414140de, 0x5dae2223, 0xb00361a3, 0x96177a9c, 0xb410ff61, 0xf20015ad)
  {
  }

  /** The digest words as numbers, and the text `Sha256` returns for "abc". */
  lemma ValuesOfAbc()
    ensures Values(WrappedDigest(Ascii("abc")))
         == [0xba7816bf, 0x8f01cfea, 0x414140de, 0x5dae2223, 0xb00361a3, 0x96177a9c, 0xb410ff61, 0xf20015ad]
  {
    hide Digest, WrappedDigest, Pad, Ascii, Values;
    DigestOfAbc();
    AbcSize();
    DigestExact(Ascii("abc"));
    AbcValues();
  }

  lemma TextOfAbc()
    ensures WordsText(Values(WrappedDigest(Ascii("abc"))))
         == Ascii("ba7816bf") + Ascii("8f01cfea") + Ascii("414140de") + Ascii("5dae2223")
            + Ascii("b00361a3") + Ascii("96177a9c") + Ascii("b410ff61") + Ascii("f20015ad")
  {
    hide WrappedDigest, Values, WordText, Ascii;
    ValuesOfAbc();
    EightWords(0xba7816bf, 0x8f01cfea, 0x414140de, 0x5dae2223, 0xb00361a3, 0x96177a9c, 0xb410ff61, 0xf20015ad);
    AbcTexts();
  }

  lemma AbcValues()
    ensures Values([0xba7816bf, 0x8f01cfea, 0x414140de, 0x5dae2223, 0xb00361a3, 0x96177a9c, 0xb410ff61, 0xf20015ad])
         == [0xba7816bf, 0x8f01cfea, 0x414140de, 0x5dae2223, 0xb00361a3, 0x96177a9c, 0xb410ff61, 0xf20015ad]
  {
  }

  lemma AbcTexts()
    ensures WordText(0xba7816bf) == Ascii("ba7816bf") && WordText(0x8f01cfea) == Ascii("8f01cfea")
    ensures WordText(0x414140de) == Ascii("414140de") && WordText(0x5dae2223) == Ascii("5dae2223")
    ensures WordText(0xb00361a3) == Ascii("b00361a3") && WordText(0x96177a9c) == Ascii("96177a9c")
    ensures WordText(0xb410ff61) == Ascii("b410ff61") && WordText(0xf20015ad) == Ascii("f20015ad")
  {
    hide WordText, Ascii;
    Text0(); Text1(); Text2(); Text3(); Text4(); Text5(); Text6(); Text7();
  }

  lemma Text0()
    ensures WordText(0xba7816bf) == Ascii("ba7816bf")
  {
    hide WordText;
    WordTextIs(0xba7816bf, 11, 10, 7, 8, 1, 6, 11, 15);
  }

  lemma Text1()
    ensures WordText(0x8f01cfea) == Ascii("8f01cfea")
  {
    hide WordText;
    WordTextIs(0x8f01cfea, 8, 15, 0, 1, 12, 15, 14, 10);
  }

  lemma Text2()
    ensures WordText(0x414140de) == Ascii("414140de")
  {
    hide WordText;
    WordTextIs(0x414140de, 4, 1, 4, 1, 4, 0, 13, 14);
  }

  lemma Text3()
    ensures WordText(0x5dae2223) == Ascii("5dae2223")
  {
    hide WordText;
    WordTextIs(0x5dae2223, 5, 13, 10, 14, 2, 2, 2, 3);
  }

  lemma Text4()
    ensures WordText(0xb00361a3) == Ascii("b00361a3")
  {
    hide WordText;
    WordTextIs(0xb00361a3, 11, 0, 0, 3, 6, 1, 10, 3);
  }

  lemma Text5()
    ensures WordText(0x96177a9c) == Ascii("96177a9c")
  {
    hide WordText;
    WordTextIs(0x96177a9c, 9, 6, 1, 7, 7, 10, 9, 12);
  }

  lemma Text6()
    ensures WordText(0xb410ff61) == Ascii("b410ff61")
  {
    hide WordText;
    WordTextIs(0xb410ff61, 11, 4, 1, 0, 15, 15, 6, 1);
  }

  lemma Text7()
    ensures WordText(0xf20015ad) == Ascii("f20015ad")
  {
    hide WordText;
    WordTextIs(0xf20015ad, 15, 2, 0, 0, 1, 5, 10, 13);
  }

  lemma EightWords(a: nat, b: nat, c: nat, d: nat, e: nat, f: nat, g: nat, h: nat)
    requires a < TWO_32 && b < TWO_32 && c < TWO_32 && d < TWO_32
    requires e < TWO_32 && f < TWO_32 && g < TWO_32 && h < TWO_32
    ensures AllWords([a, b, c, d, e, f, g, h])
    ensures WordsText([a, b, c, d, e, f, g, h])
         == WordText(a) + WordText(b) + WordText(c) + WordText(d)
            + WordText(e) + WordText(f) + WordText(g) + WordText(h)
  {
    hide WordText, WordsText;
    NoWords();
    FourWords([], a, b, c, d);
    FourWords([a, b, c, d], e, f, g, h);
    assert [] + [a, b, c, d] == [a, b, c, d];
    assert [a, b, c, d] + [e, f, g, h] == [a, b, c, d, e, f, g, h];
    assert [] + WordText(a) == WordText(a);
  }

  lemma FourWords(v: seq<nat>, a: nat, b: nat, c: nat, d: nat)
    requires AllWords(v) && a < TWO_32 && b < TWO_32 && c < TWO_32 && d < TWO_32
    ensures AllWords(v + [a, b, c, d])
    ensures WordsText(v + [a, b, c, d])
         == WordsText(v) + WordText(a) + WordText(b) + WordText(c) + WordText(d)
  {
    hide WordText, WordsText, AllWords;
    WordsTextNext(v, a);
    WordsTextNext(v + [a], b);
    WordsTextNext(v + [a] + [b], c);
    WordsTextNext(v + [a] + [b] + [c], d);
    assert v + [a] + [b] + [c] + [d] == v + [a, b, c, d];
  }
}
