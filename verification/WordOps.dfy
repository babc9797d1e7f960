/** The functions of SHA-256 on 32-bit words (FIPS 180-4, sections 3.2 and 4.1.2), and what they do bit by bit. */
module WordOps {
  type Word = bv32

  function Add(x: Word, y: Word): Word {
    x + y
  }

  function Rotr(x: Word, n: Word): Word
    requires 0 < n < 32
  {
    (x >> n) | (x << (32 - n))
  }

  function Shr(x: Word, n: Word): Word
    requires n < 32
  {
    x >> n
  }

  function Xor3(x: Word, y: Word, z: Word): Word {
    x ^ y ^ z
  }

  function Ch(x: Word, y: Word, z: Word): Word {
    (x & y) ^ (!x & z)
  }

  function Maj(x: Word, y: Word, z: Word): Word {
    (x & y) ^ (x & z) ^ (y & z)
  }

  function BigSigma0(x: Word): Word {
    Xor3(Rotr(x, 2), Rotr(x, 13), Rotr(x, 22))
  }

  function BigSigma1(x: Word): Word {
    Xor3(Rotr(x, 6), Rotr(x, 11), Rotr(x, 25))
  }

  function SmallSigma0(x: Word): Word {
    Xor3(Rotr(x, 7), Rotr(x, 18), Shr(x, 3))
  }

  function SmallSigma1(x: Word): Word {
    Xor3(Rotr(x, 17), Rotr(x, 19), Shr(x, 10))
  }

  // What they do, said in other ways. A mask picks some of the bits.

  /** Ch chooses by its first argument. */
  lemma ChChooses(x: Word, y: Word, z: Word, mask: Word)
    ensures x & mask == mask ==> Ch(x, y, z) & mask == y & mask
    ensures x & mask == 0 ==> Ch(x, y, z) & mask == z & mask
  {
  }

  /** Where two of its arguments agree, Maj agrees with them ... */
  lemma MajAgrees12(x: Word, y: Word, z: Word, mask: Word)
    requires x & mask == y & mask
    ensures Maj(x, y, z) & mask == x & mask
  {
  }

  lemma MajAgrees13(x: Word, y: Word, z: Word, mask: Word)
    requires x & mask == z & mask
    ensures Maj(x, y, z) & mask == x & mask
  {
  }

  lemma MajAgrees23(x: Word, y: Word, z: Word, mask: Word)
    requires y & mask == z & mask
    ensures Maj(x, y, z) & mask == y & mask
  {
  }

  /** ... and Xor3 agrees with the third. */
  lemma Xor3Third(x: Word, y: Word, z: Word, mask: Word)
    requires x & mask == y & mask
    ensures Xor3(x, y, z) & mask == z & mask
  {
  }

  lemma Xor3Second(x: Word, y: Word, z: Word, mask: Word)
    requires x & mask == z & mask
    ensures Xor3(x, y, z) & mask == y & mask
  {
  }

  lemma Xor3First(x: Word, y: Word, z: Word, mask: Word)
    requires y & mask == z & mask
    ensures Xor3(x, y, z) & mask == x & mask
  {
  }

  /** By one place a word is halved, and its low bit comes back at the top; n + 1 places are n and one more. */
  lemma RotrOne(x: Word)
    ensures Rotr(x, 1) == x / 2 + (if x % 2 == 1 then 0x8000_0000 else 0)
  {
  }

  lemma RotrNext(x: Word, n: Word)
    requires 0 < n < 31
    ensures Rotr(x, n + 1) == Rotr(Rotr(x, n), 1)
  {
  }

  lemma ShrNext(x: Word, n: Word)
    requires n < 31
    ensures Shr(x, n + 1) == Shr(x, n) / 2 && Shr(x, 0) == x
  {
  }

  lemma Rotations(x: Word)
    ensures Rotr(x, 2) == x.RotateRight(2) && Rotr(x, 6) == x.RotateRight(6) && Rotr(x, 7) == x.RotateRight(7)
    ensures Rotr(x, 11) == x.RotateRight(11) && Rotr(x, 13) == x.RotateRight(13)
    ensures Rotr(x, 17) == x.RotateRight(17) && Rotr(x, 18) == x.RotateRight(18)
    ensures Rotr(x, 19) == x.RotateRight(19) && Rotr(x, 22) == x.RotateRight(22)
    ensures Rotr(x, 25) == x.RotateRight(25)
  {
  }

  /** The four sigma functions and their rotations. */
  lemma SigmaRotations(x: Word)
    ensures BigSigma0(x) == Xor3(x.RotateRight(2), x.RotateRight(13), x.RotateRight(22))
    ensures BigSigma1(x) == Xor3(x.RotateRight(6), x.RotateRight(11), x.RotateRight(25))
    ensures SmallSigma0(x) == Xor3(x.RotateRight(7), x.RotateRight(18), Shr(x, 3))
    ensures SmallSigma1(x) == Xor3(x.RotateRight(17), x.RotateRight(19), Shr(x, 10))
  {
    hide Rotr, Xor3, Shr;
    Rotations(x);
  }
}
