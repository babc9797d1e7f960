/** SHA-256 as FIPS 180-4 defines it: functions and constants (sections 4.1.2, 4.2.2, 5.3.3), padding (5.1.1),
    block parsing (5.2.1) and the hash computation (6.2.2). */
module Sha256 {
  import opened Bytes
  import opened WordOps

  const K_FIRST: seq<Word> := [
    0x428a2f98, 0x71374491, 0xb5c0fbcf, 0xe9b5dba5, 0x3956c25b, 0x59f111f1, 0x923f82a4, 0xab1c5ed5,
    0xd807aa98, 0x12835b01, 0x243185be, 0x550c7dc3, 0x72be5d74, 0x80deb1fe, 0x9bdc06a7, 0xc19bf174]

  const K_SECOND: seq<Word> := [
    0xe49b69c1, 0xefbe4786, 0x0fc19dc6, 0x240ca1cc, 0x2de92c6f, 0x4a7484aa, 0x5cb0a9dc, 0x76f988da,
    0x983e5152, 0xa831c66d, 0xb00327c8, 0xbf597fc7, 0xc6e00bf3, 0xd5a79147, 0x06ca6351, 0x14292967]

  const K_THIRD: seq<Word> := [
    0x27b70a85, 0x2e1b2138, 0x4d2c6dfc, 0x53380d13, 0x650a7354, 0x766a0abb, 0x81c2c92e, 0x92722c85,
    0xa2bfe8a1, 0xa81a664b, 0xc24b8b70, 0xc76c51a3, 0xd192e819, 0xd6990624, 0xf40e3585, 0x106aa070]

  const K_LAST: seq<Word> := [
    0x19a4c116, 0x1e376c08, 0x2748774c, 0x34b0bcb5, 0x391c0cb3, 0x4ed8aa4a, 0x5b9cca4f, 0x682e6ff3,
    0x748f82ee, 0x78a5636f, 0x84c87814, 0x8cc70208, 0x90befffa, 0xa4506ceb, 0xbef9a3f7, 0xc67178f2]

  /** The round constants. */
  const K: seq<Word> := K_FIRST + K_SECOND + K_THIRD + K_LAST

  /** The eight working variables. */
  datatype Vars = Vars(a: Word, b: Word, c: Word, d: Word, e: Word, f: Word, g: Word, h: Word)

  const INITIAL := Vars(0x6a09e667, 0xbb67ae85, 0x3c6ef372, 0xa54ff53a, 0x510e527f, 0x9b05688c, 0x1f83d9ab, 0x5be0cd19)

  type Block = s: seq<Word> | |s| == 16 witness [0, 0, 0, 0, 0, 0, 0, 0, 0, 0, 0, 0, 0, 0, 0, 0]

  /** The message schedule. The standard stops at t = 63. */
  function W(m: Block, t: nat): Word {
    if t < 16 then m[t]
    else Add(Add(Add(SmallSigma1(W(m, t - 2)), W(m, t - 7)), SmallSigma0(W(m, t - 15))), W(m, t - 16))
  }

  function Round(v: Vars, k: Word, w: Word): Vars {
    var t1 := Add(Add(Add(Add(v.h, BigSigma1(v.e)), Ch(v.e, v.f, v.g)), k), w);
    var t2 := Add(BigSigma0(v.a), Maj(v.a, v.b, v.c));
    Vars(Add(t1, t2), v.a, v.b, v.c, Add(v.d, t1), v.e, v.f, v.g)
  }

  /** The schedule of a block, word by word. */
  function Schedule(m: Block): nat -> Word {
    (t: nat) => W(m, t)
  }

  /** The first n rounds under a schedule. */
  function Rounds(v: Vars, schedule: nat -> Word, n: nat): Vars
    requires n <= 64
  {
    if n == 0 then v else Round(Rounds(v, schedule, n - 1), K[n - 1], schedule(n - 1))
  }

  function AddVars(h: Vars, v: Vars): Vars {
    Vars(Add(h.a, v.a), Add(h.b, v.b), Add(h.c, v.c), Add(h.d, v.d),
         Add(h.e, v.e), Add(h.f, v.f), Add(h.g, v.g), Add(h.h, v.h))
  }

  function Compress(h: Vars, m: Block): Vars {
    AddVars(h, Rounds(h, Schedule(m), 64))
  }

  function ByteWord(b: byte): Word {
    (b as bv8) as bv32
  }

  function WordByte(w: Word): byte
    requires w < 0x100
  {
    (w as bv8) as byte
  }

  /** Four bytes as a word, most significant first. */
  function BytesWord(b: bytes): Word
    requires |b| == 4
  {
    (ByteWord(b[0]) << 24) | (ByteWord(b[1]) << 16) | (ByteWord(b[2]) << 8) | ByteWord(b[3])
  }

  function WordBytes(w: Word): (r: bytes)
    ensures |r| == 4
  {
    [WordByte(w >> 24), WordByte((w >> 16) & 0xff), WordByte((w >> 8) & 0xff), WordByte(w & 0xff)]
  }

  function ParseBlock(b: bytes): Block
    requires |b| == 64
  {
    seq(16, i requires 0 <= i < 16 => BytesWord(b[4 * i..4 * i + 4]))
  }

  /** The bytes of n, most significant first, in the given width. */
  function BigEndianBytes(n: nat, width: nat): (r: bytes)
    ensures |r| == width
  {
    if width == 0 then [] else BigEndianBytes(n / 256, width - 1) + [(n % 256) as byte]
  }

  /** The message, a one bit, zeros, and the length of the message in bits as a 64-bit number. */
  function Pad(m: bytes): (r: bytes)
    ensures |r| % 64 == 0 && |r| > 0
  {
    PadLength(|m|);
    m + [0x80] + Zeros((55 - |m|) % 64) + LengthBytes(8 * |m|)
  }

  function LengthBytes(bits: nat): (r: bytes)
    ensures |r| == 8
  {
    BigEndianBytes(bits, 8)
  }

  lemma PadLength(n: nat)
    ensures (n + 1 + (55 - n) % 64 + 8) % 64 == 0
  {
  }

  lemma OneBlockLess(n: nat)
    requires n % 64 == 0 && n > 0
    ensures n >= 64 && (n - 64) % 64 == 0
  {
  }

  function HashBlocks(h: Vars, b: bytes): Vars
    requires |b| % 64 == 0
    decreases |b|
  {
    if b == [] then h else
    OneBlockLess(|b|);
    HashBlocks(Compress(h, ParseBlock(b[..64])), b[64..])
  }

  function Digest(h: Vars): (r: bytes)
    ensures |r| == 32
  {
    WordBytes(h.a) + WordBytes(h.b) + WordBytes(h.c) + WordBytes(h.d) +
    WordBytes(h.e) + WordBytes(h.f) + WordBytes(h.g) + WordBytes(h.h)
  }

  function Sha256(m: bytes): (r: bytes)
    ensures |r| == 32
  {
    Digest(HashBlocks(INITIAL, Pad(m)))
  }

  function DoubleSha256(m: bytes): (r: bytes)
    ensures |r| == 32
  {
    Sha256(Sha256(m))
  }
}
