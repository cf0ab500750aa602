/** 32-bit words and message blocks, shared by the two hash functions. */
module Words {
  import opened Bytes

  type word = bv32

  type Block = b: Str | |b| == 64 witness seq(64, _ => 0)

  // Addition modulo 2^32.

  function Sum(x: word, y: word): word { x + y }

  function Sum4(x: word, y: word, z: word, u: word): word { x + y + z + u }

  function Sum5(x: word, y: word, z: word, u: word, v: word): word { x + y + z + u + v }

  /** The word with these four bytes, most significant first. */
  function Join(b0: byte, b1: byte, b2: byte, b3: byte): word {
    ((b0 as word) << 24) | ((b1 as word) << 16) | ((b2 as word) << 8) | (b3 as word)
  }

  // The logical functions of sections 4.1.1 and 4.1.2 of FIPS 180-4.

  function Ch(x: word, y: word, z: word): word { (x & y) ^ (!x & z) }

  function Parity(x: word, y: word, z: word): word { x ^ y ^ z }

  function Maj(x: word, y: word, z: word): word { (x & y) ^ (x & z) ^ (y & z) }
}
