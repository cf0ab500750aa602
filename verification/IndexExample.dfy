/** The bits of one item, through its digest. */
module IndexExample {
  import opened Bytes
  import opened Index
  import Padding
  import Sha256
  import Sha256Vectors

  /** The seven positions of "abc" are the leading words of its digest modulo the size. */
  lemma PositionsOfAbc(size: nat)
    requires size > 0
    ensures Positions(Ascii("abc"), size, QUERY_HASHES)
         == [0xba7816bf % size, 0x8f01cfea % size, 0x414140de % size, 0x5dae2223 % size,
             0xb00361a3 % size, 0x96177a9c % size, 0xb410ff61 % size]
  {
    hide Sha256.WrappedDigest, Sha256.Values, Ascii;
    Sha256Vectors.ValuesOfAbc();
  }
}
