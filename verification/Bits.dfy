/** The 32-bit words of SHA-256: sections 2.2.2 and 4.1.2 of FIPS 180-4, and what the functions do bit by bit. */
module Bits {
  type Word = bv32

  // section 2.2.2: addition modulo 2^32 (`wrapping_add`), shifts and rotations to the right
  function Plus(x: Word, y: Word): Word { x + y }
  function Shr(x: Word, n: Word): Word requires n < 32 { x >> n }
  function Rotr(x: Word, n: Word): Word requires 0 < n < 32 { (x >> n) | (x << (32 - n)) }

  // section 4.1.2
  function Ch(x: Word, y: Word, z: Word): Word { (x & y) ^ (!x & z) }
  function Maj(x: Word, y: Word, z: Word): Word { (x & y) ^ (x & z) ^ (y & z) }
  function BigSigma0(x: Word): Word { Rotr(x, 2) ^ Rotr(x, 13) ^ Rotr(x, 22) }
  function BigSigma1(x: Word): Word { Rotr(x, 6) ^ Rotr(x, 11) ^ Rotr(x, 25) }
  function SmallSigma0(x: Word): Word { Rotr(x, 7) ^ Rotr(x, 18) ^ Shr(x, 3) }
  function SmallSigma1(x: Word): Word { Rotr(x, 17) ^ Rotr(x, 19) ^ Shr(x, 10) }

  /** `Ch` takes the bits of the second word where the first has ones, those of the third elsewhere. */
  lemma ChChooses(x: Word, y: Word, z: Word)
    ensures Ch(x, y, z) & x == y & x
    ensures Ch(x, y, z) & !x == z & !x
  {}

  /** `Maj` has ones exactly where two of the three words have. */
  lemma MajIsMajority(x: Word, y: Word, z: Word)
    ensures Maj(x, y, z) == (x & y) | (x & z) | (y & z)
  {}

  /** `rotate_right`: all but the low n bits move down by n places, the low n bits move to the top. */
  lemma RotrRotates(x: Word, n: Word)
    requires 0 < n < 32
    ensures Rotr(x, n) & ((1 << (32 - n)) - 1) == x >> n
    ensures Rotr(x, n) >> (32 - n) == x & ((1 << n) - 1)
  {}
}
