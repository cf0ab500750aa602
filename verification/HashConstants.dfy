/** Where the constants of the hash functions come from: sections 4.2 and 5.3 of
    FIPS 180-4. The list holds the first 64 primes. */
module HashConstants {
  import opened Bytes
  import opened Sha256
  import opened Sha256Vectors
  import opened Words
  import Sha1

  const P0: seq<nat> := [2, 3, 5, 7, 11, 13, 17, 19, 23, 29, 31, 37, 41, 43, 47, 53]

  const P16: seq<nat> := [59, 61, 67, 71, 73, 79, 83, 89, 97, 101, 103, 107, 109, 113, 127, 131]

  const P32: seq<nat> := [137, 139, 149, 151, 157, 163, 167, 173, 179, 181, 191, 193, 197, 199, 211, 223]

  const P48: seq<nat> := [227, 229, 233, 239, 241, 251, 257, 263, 269, 271, 277, 281, 283, 293, 307, 311]

  const PRIMES: seq<nat> := P0 + P16 + P32 + P48

  ghost predicate PrimeAt(t: nat, p: nat) {
    t < |PRIMES| && PRIMES[t] == p
  }

  lemma Primes0()
    ensures |P0| == 16
    ensures PrimeAt(0, 2) && PrimeAt(1, 3) && PrimeAt(2, 5) && PrimeAt(3, 7)
    ensures PrimeAt(4, 11) && PrimeAt(5, 13) && PrimeAt(6, 17) && PrimeAt(7, 19)
    ensures PrimeAt(8, 23) && PrimeAt(9, 29) && PrimeAt(10, 31) && PrimeAt(11, 37)
    ensures PrimeAt(12, 41) && PrimeAt(13, 43) && PrimeAt(14, 47) && PrimeAt(15, 53)
  {
  }

  lemma Primes16()
    ensures |P16| == 16
    ensures PrimeAt(16, 59) && PrimeAt(17, 61) && PrimeAt(18, 67) && PrimeAt(19, 71)
    ensures PrimeAt(20, 73) && PrimeAt(21, 79) && PrimeAt(22, 83) && PrimeAt(23, 89)
    ensures PrimeAt(24, 97) && PrimeAt(25, 101) && PrimeAt(26, 103) && PrimeAt(27, 107)
    ensures PrimeAt(28, 109) && PrimeAt(29, 113) && PrimeAt(30, 127) && PrimeAt(31, 131)
  {
  }

  lemma Primes32()
    ensures |P32| == 16
    ensures PrimeAt(32, 137) && PrimeAt(33, 139) && PrimeAt(34, 149) && PrimeAt(35, 151)
    ensures PrimeAt(36, 157) && PrimeAt(37, 163) && PrimeAt(38, 167) && PrimeAt(39, 173)
    ensures PrimeAt(40, 179) && PrimeAt(41, 181) && PrimeAt(42, 191) && PrimeAt(43, 193)
    ensures PrimeAt(44, 197) && PrimeAt(45, 199) && PrimeAt(46, 211) && PrimeAt(47, 223)
  {
  }

  lemma Primes48()
    ensures |P48| == 16
    ensures PrimeAt(48, 227) && PrimeAt(49, 229) && PrimeAt(50, 233) && PrimeAt(51, 239)
    ensures PrimeAt(52, 241) && PrimeAt(53, 251) && PrimeAt(54, 257) && PrimeAt(55, 263)
    ensures PrimeAt(56, 269) && PrimeAt(57, 271) && PrimeAt(58, 277) && PrimeAt(59, 281)
    ensures PrimeAt(60, 283) && PrimeAt(61, 293) && PrimeAt(62, 307) && PrimeAt(63, 311)
  {
  }

  // ---- The round constants ----

  /** `k` is the first 32 bits of the fraction of the cube root, whose integer part is `c`. */
  ghost predicate CubeRoot(p: nat, c: nat, k: nat) {
    var x := c * TWO_32 + k;
    x * x * x <= p * TWO_32 * TWO_32 * TWO_32 < (x + 1) * (x + 1) * (x + 1)
  }

  ghost predicate CubeFraction(p: nat, k: word) {
    exists c: nat, n: nat :: n == k as nat && CubeRoot(p, c, n)
  }

  lemma FractionIs(t: nat, p: nat, c: nat, k: word, n: nat)
    requires ConstantAt(t, k) && PrimeAt(t, p) && k as nat == n && CubeRoot(p, c, n)
    ensures t < 64 && t < |PRIMES| && CubeFraction(PRIMES[t], K[t])
  {
    hide K, PRIMES;
  }

  lemma Roots0()
    ensures forall t :: 0 <= t < 8 ==> t < 64 && t < |PRIMES| && CubeFraction(PRIMES[t], K[t])
  {
    hide K, PRIMES, CubeFraction, ConstantAt, PrimeAt;
    Constants0();
    Primes0();
    FractionIs(0, 2, 1, 0x428a2f98, 0x428a2f98);
    FractionIs(1, 3, 1, 0x71374491, 0x71374491);
    FractionIs(2, 5, 1, 0xb5c0fbcf, 0xb5c0fbcf);
    FractionIs(3, 7, 1, 0xe9b5dba5, 0xe9b5dba5);
    FractionIs(4, 11, 2, 0x3956c25b, 0x3956c25b);
    FractionIs(5, 13, 2, 0x59f111f1, 0x59f111f1);
    FractionIs(6, 17, 2, 0x923f82a4, 0x923f82a4);
    FractionIs(7, 19, 2, 0xab1c5ed5, 0xab1c5ed5);
  }

  lemma Roots8()
    ensures forall t :: 8 <= t < 16 ==> t < 64 && t < |PRIMES| && CubeFraction(PRIMES[t], K[t])
  {
    hide K, PRIMES, CubeFraction, ConstantAt, PrimeAt;
    Constants0();
    Primes0();
    FractionIs(8, 23, 2, 0xd807aa98, 0xd807aa98);
    FractionIs(9, 29, 3, 0x12835b01, 0x12835b01);
    FractionIs(10, 31, 3, 0x243185be, 0x243185be);
    FractionIs(11, 37, 3, 0x550c7dc3, 0x550c7dc3);
    FractionIs(12, 41, 3, 0x72be5d74, 0x72be5d74);
    FractionIs(13, 43, 3, 0x80deb1fe, 0x80deb1fe);
    FractionIs(14, 47, 3, 0x9bdc06a7, 0x9bdc06a7);
    FractionIs(15, 53, 3, 0xc19bf174, 0xc19bf174);
  }

  lemma Roots16()
    ensures forall t :: 16 <= t < 24 ==> t < 64 && t < |PRIMES| && CubeFraction(PRIMES[t], K[t])
  {
    hide K, PRIMES, CubeFraction, ConstantAt, PrimeAt;
    Constants16();
    Primes16();
    FractionIs(16, 59, 3, 0xe49b69c1, 0xe49b69c1);
    FractionIs(17, 61, 3, 0xefbe4786, 0xefbe4786);
    FractionIs(18, 67, 4, 0x0fc19dc6, 0x0fc19dc6);
    FractionIs(19, 71, 4, 0x240ca1cc, 0x240ca1cc);
    FractionIs(20, 73, 4, 0x2de92c6f, 0x2de92c6f);
    FractionIs(21, 79, 4, 0x4a7484aa, 0x4a7484aa);
    FractionIs(22, 83, 4, 0x5cb0a9dc, 0x5cb0a9dc);
    FractionIs(23, 89, 4, 0x76f988da, 0x76f988da);
  }

  lemma Roots24()
    ensures forall t :: 24 <= t < 32 ==> t < 64 && t < |PRIMES| && CubeFraction(PRIMES[t], K[t])
  {
    hide K, PRIMES, CubeFraction, ConstantAt, PrimeAt;
    Constants16();
    Primes16();
    FractionIs(24, 97, 4, 0x983e5152, 0x983e5152);
    FractionIs(25, 101, 4, 0xa831c66d, 0xa831c66d);
    FractionIs(26, 103, 4, 0xb00327c8, 0xb00327c8);
    FractionIs(27, 107, 4, 0xbf597fc7, 0xbf597fc7);
    FractionIs(28, 109, 4, 0xc6e00bf3, 0xc6e00bf3);
    FractionIs(29, 113, 4, 0xd5a79147, 0xd5a79147);
    FractionIs(30, 127, 5, 0x06ca6351, 0x06ca6351);
    FractionIs(31, 131, 5, 0x14292967, 0x14292967);
  }

  lemma Roots32()
    ensures forall t :: 32 <= t < 40 ==> t < 64 && t < |PRIMES| && CubeFraction(PRIMES[t], K[t])
  {
    hide K, PRIMES, CubeFraction, ConstantAt, PrimeAt;
    Constants32();
    Primes32();
    FractionIs(32, 137, 5, 0x27b70a85, 0x27b70a85);
    FractionIs(33, 139, 5, 0x2e1b2138, 0x2e1b2138);
    FractionIs(34, 149, 5, 0x4d2c6dfc, 0x4d2c6dfc);
    FractionIs(35, 151, 5, 0x53380d13, 0x53380d13);
    FractionIs(36, 157, 5, 0x650a7354, 0x650a7354);
    FractionIs(37, 163, 5, 0x766a0abb, 0x766a0abb);
    FractionIs(38, 167, 5, 0x81c2c92e, 0x81c2c92e);
    FractionIs(39, 173, 5, 0x92722c85, 0x92722c85);
  }

  lemma Roots40()
    ensures forall t :: 40 <= t < 48 ==> t < 64 && t < |PRIMES| && CubeFraction(PRIMES[t], K[t])
  {
    hide K, PRIMES, CubeFraction, ConstantAt, PrimeAt;
    Constants32();
    Primes32();
    FractionIs(40, 179, 5, 0xa2bfe8a1, 0xa2bfe8a1);
    FractionIs(41, 181, 5, 0xa81a664b, 0xa81a664b);
    FractionIs(42, 191, 5, 0xc24b8b70, 0xc24b8b70);
    FractionIs(43, 193, 5, 0xc76c51a3, 0xc76c51a3);
    FractionIs(44, 197, 5, 0xd192e819, 0xd192e819);
    FractionIs(45, 199, 5, 0xd6990624, 0xd6990624);
    FractionIs(46, 211, 5, 0xf40e3585, 0xf40e3585);
    FractionIs(47, 223, 6, 0x106aa070, 0x106aa070);
  }

  lemma Roots48()
    ensures forall t :: 48 <= t < 56 ==> t < 64 && t < |PRIMES| && CubeFraction(PRIMES[t], K[t])
  {
    hide K, PRIMES, CubeFraction, ConstantAt, PrimeAt;
    Constants48();
    Primes48();
    FractionIs(48, 227, 6, 0x19a4c116, 0x19a4c116);
    FractionIs(49, 229, 6, 0x1e376c08, 0x1e376c08);
    FractionIs(50, 233, 6, 0x2748774c, 0x2748774c);
    FractionIs(51, 239, 6, 0x34b0bcb5, 0x34b0bcb5);
    FractionIs(52, 241, 6, 0x391c0cb3, 0x391c0cb3);
    FractionIs(53, 251, 6, 0x4ed8aa4a, 0x4ed8aa4a);
    FractionIs(54, 257, 6, 0x5b9cca4f, 0x5b9cca4f);
    FractionIs(55, 263, 6, 0x682e6ff3, 0x682e6ff3);
  }

  lemma Roots56()
    ensures forall t :: 56 <= t < 64 ==> t < 64 && t < |PRIMES| && CubeFraction(PRIMES[t], K[t])
  {
    hide K, PRIMES, CubeFraction, ConstantAt, PrimeAt;
    Constants48();
    Primes48();
    FractionIs(56, 269, 6, 0x748f82ee, 0x748f82ee);
    FractionIs(57, 271, 6, 0x78a5636f, 0x78a5636f);
    FractionIs(58, 277, 6, 0x84c87814, 0x84c87814);
    FractionIs(59, 281, 6, 0x8cc70208, 0x8cc70208);
    FractionIs(60, 283, 6, 0x90befffa, 0x90befffa);
    FractionIs(61, 293, 6, 0xa4506ceb, 0xa4506ceb);
    FractionIs(62, 307, 6, 0xbef9a3f7, 0xbef9a3f7);
    FractionIs(63, 311, 6, 0xc67178f2, 0xc67178f2);
  }

  /** The constants of SHA-256 are the fractions of the cube roots of the first 64 primes. */
  lemma ConstantsAreCubeRoots()
    ensures |PRIMES| == |K| == 64
    ensures forall t :: 0 <= t < 64 ==> CubeFraction(PRIMES[t], K[t])
  {
    hide CubeFraction;
    ConstantSizes();
    Roots0(); Roots8(); Roots16(); Roots24(); Roots32(); Roots40(); Roots48(); Roots56();
  }

  // ---- The initial hash value ----

  ghost predicate SquareRoot(p: nat, c: nat, k: nat) {
    var x := c * TWO_32 + k;
    x * x <= p * TWO_32 * TWO_32 < (x + 1) * (x + 1)
  }

  ghost predicate SquareFraction(p: nat, k: word) {
    exists c: nat, n: nat :: n == k as nat && SquareRoot(p, c, n)
  }

  lemma SquareIs(t: nat, p: nat, c: nat, k: word, n: nat)
    requires t < |H0| && H0[t] == k && PrimeAt(t, p) && k as nat == n && SquareRoot(p, c, n)
    ensures t < |PRIMES| && SquareFraction(PRIMES[t], H0[t])
  {
    hide H0, PRIMES;
  }

  /** Those of the square roots of the first eight primes make the initial hash value. */
  lemma InitialIsSquareRoots()
    ensures |H0| == 8 && |PRIMES| == 64
    ensures forall t :: 0 <= t < 8 ==> SquareFraction(PRIMES[t], H0[t])
  {
    hide PRIMES, SquareFraction;
    ConstantSizes();
    Primes0();
    SquareIs(0, 2, 1, 0x6a09e667, 0x6a09e667);
    SquareIs(1, 3, 1, 0xbb67ae85, 0xbb67ae85);
    SquareIs(2, 5, 2, 0x3c6ef372, 0x3c6ef372);
    SquareIs(3, 7, 2, 0xa54ff53a, 0xa54ff53a);
    SquareIs(4, 11, 3, 0x510e527f, 0x510e527f);
    SquareIs(5, 13, 3, 0x9b05688c, 0x9b05688c);
    SquareIs(6, 17, 4, 0x1f83d9ab, 0x1f83d9ab);
    SquareIs(7, 19, 4, 0x5be0cd19, 0x5be0cd19);
  }

  lemma ConstantSizes()
    ensures |PRIMES| == 64 && |K| == 64
  {
    hide K;
    RowOf0();
  }

  /** The four constants of SHA-1 are the square roots of 2, 3, 5 and 10 with 30 binary
      places. */
  lemma Sha1ConstantsAreSquareRoots(t: nat)
    requires t < 80
    ensures var (k, n) := (Sha1.RoundConstant(t) as nat,
                           if t < 20 then 2 else if t < 40 then 3 else if t < 60 then 5 else 10);
            k * k <= n * 0x4000_0000 * 0x4000_0000 < (k + 1) * (k + 1)
  {
    assert 0x5a827999 as word as nat == 0x5a827999 && 0x6ed9eba1 as word as nat == 0x6ed9eba1;
    assert 0x8f1bbcdc as word as nat == 0x8f1bbcdc && 0xca62c1d6 as word as nat == 0xca62c1d6;
  }
}
