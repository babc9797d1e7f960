/** The kernels' double hash, with its midstate and its hand-written padding, is double SHA-256 of the header. */
module MidstateProof {
  import opened Bytes
  import opened Sha256
  import opened WordOps
  import opened Kernel
  import Grind

  lemma ByteOfBits(x: bv8)
    ensures (x as byte) as bv8 == x
  {
  }

  lemma NarrowWiden(w: Word)
    requires w < 0x100
    ensures (w as bv8) as bv32 == w
  {
  }

  lemma ByteRoundTrip(w: Word)
    requires w < 0x100
    ensures ByteWord(WordByte(w)) == w
  {
    ByteOfBits(w as bv8);
    NarrowWiden(w);
  }

  lemma JoinBytes(w: Word)
    ensures ((w >> 24) << 24) | (((w >> 16) & 0xff) << 16) | (((w >> 8) & 0xff) << 8) | (w & 0xff) == w
  {
  }

  /** Words survive serialisation. */
  lemma WordRoundTrip(w: Word)
    ensures BytesWord(WordBytes(w)) == w
  {
    hide ByteWord, WordByte;
    ByteRoundTrip(w >> 24);
    ByteRoundTrip((w >> 16) & 0xff);
    ByteRoundTrip((w >> 8) & 0xff);
    ByteRoundTrip(w & 0xff);
    JoinBytes(w);
  }

  lemma PaddingWords()
    ensures BytesWord([0x80, 0, 0, 0]) == 0x80000000 && BytesWord([0, 0, 0, 0]) == 0
    ensures BytesWord([0, 0, 0x02, 0x80]) == 640 && BytesWord([0, 0, 0x01, 0x00]) == 256
  {
  }

  lemma LengthFields()
    ensures LengthBytes(640) == [0, 0, 0, 0, 0, 0, 0x02, 0x80]
    ensures LengthBytes(256) == [0, 0, 0, 0, 0, 0, 0x01, 0x00]
  {
    assert BigEndianBytes(0, 4) == [0, 0, 0, 0];
    assert BigEndianBytes(0, 6) == [0, 0, 0, 0, 0, 0];
    assert BigEndianBytes(2, 7) == BigEndianBytes(0, 6) + [2];
    assert BigEndianBytes(1, 7) == BigEndianBytes(0, 6) + [1];
  }

  lemma PadHeader(header: bytes)
    requires |header| == 80
    ensures Pad(header) == header + [0x80] + Zeros(39) + [0, 0, 0, 0, 0, 0, 0x02, 0x80]
  {
    LengthFields();
  }

  lemma PadDigest(digest: bytes)
    requires |digest| == 32
    ensures Pad(digest) == digest + [0x80] + Zeros(23) + [0, 0, 0, 0, 0, 0, 0x01, 0x00]
  {
    LengthFields();
  }

  lemma OneBlock(h: Vars, b: bytes)
    requires |b| == 64
    ensures HashBlocks(h, b) == Compress(h, ParseBlock(b))
  {
    hide Compress, ParseBlock;
    assert b[..64] == b && b[64..] == [];
  }

  lemma TwoBlocks(h: Vars, b: bytes)
    requires |b| == 128
    ensures HashBlocks(h, b) == Compress(Compress(h, ParseBlock(b[..64])), ParseBlock(b[64..]))
  {
    hide Compress, ParseBlock;
    OneBlock(Compress(h, ParseBlock(b[..64])), b[64..]);
  }

  /** A string of bytes as a string of words. */
  function Words(b: bytes): (w: seq<Word>)
    requires |b| % 4 == 0
    ensures |w| == |b| / 4
    decreases |b|
  {
    if b == [] then [] else [BytesWord(b[..4])] + Words(b[4..])
  }

  lemma {:induction false} WordsAppend(a: bytes, b: bytes)
    requires |a| % 4 == 0 && |b| % 4 == 0
    ensures (|a| + |b|) % 4 == 0 && Words(a + b) == Words(a) + Words(b)
    decreases |a|
  {
    hide BytesWord;
    if a == [] {
      assert a + b == b;
    } else {
      assert (a + b)[..4] == a[..4] && (a + b)[4..] == a[4..] + b;
      WordsAppend(a[4..], b);
    }
  }

  lemma {:induction false} WordsAt(b: bytes, i: nat)
    requires |b| % 4 == 0 && 4 * i < |b|
    ensures Words(b)[i] == BytesWord(b[4 * i..4 * i + 4])
    decreases i
  {
    hide BytesWord;
    if i == 0 {
    } else {
      WordsAt(b[4..], i - 1);
      assert b[4..][4 * (i - 1)..4 * (i - 1) + 4] == b[4 * i..4 * i + 4];
    }
  }

  lemma ParseIsWords(b: bytes)
    requires |b| == 64
    ensures ParseBlock(b) == Words(b)
  {
    hide BytesWord;
    forall i | 0 <= i < 16
      ensures ParseBlock(b)[i] == Words(b)[i]
    {
      WordsAt(b, i);
    }
  }

  lemma OneWord(b: bytes)
    requires |b| == 4
    ensures Words(b) == [BytesWord(b)]
  {
    hide BytesWord;
    assert b[..4] == b && b[4..] == [];
  }

  lemma {:induction false} ZeroWords(n: nat)
    ensures Words(Zeros(4 * n)) == seq(n, _ => 0)
  {
    if n > 0 {
      PaddingWords();
      assert Zeros(4 * n)[..4] == [0, 0, 0, 0] && Zeros(4 * n)[4..] == Zeros(4 * (n - 1));
      ZeroWords(n - 1);
    }
  }

  /** The second block of the padded header is the one the kernels write. */
  lemma TailBlockIsParsed(header: bytes, n: nat)
    requires |header| == 80 && n < NONCES
    ensures ParseBlock(Pad(Grind.WithNonce(header, n))[64..]) ==
            TailBlock(HeaderWord(header, 16), HeaderWord(header, 17), HeaderWord(header, 18), Uint32Word(n))
  {
    hide BytesWord, ByteWord, NonceWord, Uint32Word, Pad, Words;
    var h := Grind.WithNonce(header, n);
    var b := Pad(h)[64..];
    PadHeader(h);
    assert b == header[64..76] + (h[76..80] + ([0x80, 0, 0, 0] + (Zeros(40) + [0, 0, 0x02, 0x80])));
    ParseIsWords(b);
    WordsAppend(Zeros(40), [0, 0, 0x02, 0x80]);
    WordsAppend([0x80, 0, 0, 0], Zeros(40) + [0, 0, 0x02, 0x80]);
    WordsAppend(h[76..80], [0x80, 0, 0, 0] + (Zeros(40) + [0, 0, 0x02, 0x80]));
    WordsAppend(header[64..76], h[76..80] + ([0x80, 0, 0, 0] + (Zeros(40) + [0, 0, 0x02, 0x80])));
    ThreeHeaderWords(header);
    OneWord(h[76..80]);
    OneWord([0x80, 0, 0, 0]);
    OneWord([0, 0, 0x02, 0x80]);
    PaddingWords();
    ZeroWords(10);
    NonceWordIsHeaderWord(header, n);
  }

  lemma ThreeHeaderWords(header: bytes)
    requires |header| == 80
    ensures Words(header[64..76]) == [HeaderWord(header, 16), HeaderWord(header, 17), HeaderWord(header, 18)]
  {
    hide BytesWord, Words;
    var b := header[64..76];
    forall i | 0 <= i < 3
      ensures Words(b)[i] == HeaderWord(header, 16 + i)
    {
      WordsAt(b, i);
      assert b[4 * i..4 * i + 4] == header[4 * (16 + i)..4 * (16 + i) + 4];
    }
  }

  lemma AppendWord(b: bytes, w: Word)
    requires |b| % 4 == 0
    ensures (|b| + 4) % 4 == 0 && Words(b + WordBytes(w)) == Words(b) + [w]
  {
    hide BytesWord, WordBytes, Words;
    WordsAppend(b, WordBytes(w));
    OneWord(WordBytes(w));
    WordRoundTrip(w);
  }

  lemma DigestWords(h: Vars)
    ensures Words(Digest(h)) == [h.a, h.b, h.c, h.d, h.e, h.f, h.g, h.h]
  {
    hide BytesWord, WordBytes, Words;
    var b1 := WordBytes(h.a);
    var b2 := b1 + WordBytes(h.b);
    var b3 := b2 + WordBytes(h.c);
    var b4 := b3 + WordBytes(h.d);
    var b5 := b4 + WordBytes(h.e);
    var b6 := b5 + WordBytes(h.f);
    var b7 := b6 + WordBytes(h.g);
    OneWord(b1);
    WordRoundTrip(h.a);
    AppendWord(b1, h.b);
    AppendWord(b2, h.c);
    AppendWord(b3, h.d);
    AppendWord(b4, h.e);
    AppendWord(b5, h.f);
    AppendWord(b6, h.g);
    AppendWord(b7, h.h);
  }

  lemma DigestPieces(d: bytes)
    requires |d| == 32
    ensures d + [0x80] + Zeros(23) + [0, 0, 0, 0, 0, 0, 0x01, 0x00] ==
            d + ([0x80, 0, 0, 0] + (Zeros(24) + [0, 0, 0x01, 0x00]))
  {
  }

  /** The padded digest is one block, the one the kernels write. */
  lemma DigestBlockIsParsed(h: Vars)
    ensures |Pad(Digest(h))| == 64 && ParseBlock(Pad(Digest(h))) == DigestBlock(h)
  {
    hide BytesWord, Digest, Pad, Words;
    var b := Pad(Digest(h));
    PadDigest(Digest(h));
    var end: bytes := Zeros(24) + [0, 0, 0x01, 0x00];
    assert b == Digest(h) + ([0x80, 0, 0, 0] + end) by { DigestPieces(Digest(h)); }
    ParseIsWords(b);
    WordsAppend(Zeros(24), [0, 0, 0x01, 0x00]);
    WordsAppend([0x80, 0, 0, 0], end);
    WordsAppend(Digest(h), [0x80, 0, 0, 0] + end);
    DigestWords(h);
    OneWord([0x80, 0, 0, 0]);
    OneWord([0, 0, 0x01, 0x00]);
    PaddingWords();
    ZeroWords(6);
  }

  /** The kernels' double hash is double SHA-256 of the header with the nonce in its last four bytes. */
  lemma FastDoubleHashCorrect(header: bytes, n: nat)
    requires |header| == 80 && n < NONCES
    ensures Digest(FastDoubleHash(Midstate(header), HeaderWord(header, 16), HeaderWord(header, 17),
                                  HeaderWord(header, 18), Uint32Word(n))) ==
            DoubleSha256(Grind.WithNonce(header, n))
  {
    hide Compress, ParseBlock, Digest, Pad, TailBlock, DigestBlock, HeaderWord, Uint32Word, HashBlocks;
    var h := Grind.WithNonce(header, n);
    PadHeader(h);
    assert Pad(h)[..64] == header[..64];
    TwoBlocks(INITIAL, Pad(h));
    TailBlockIsParsed(header, n);
    var first := HashBlocks(INITIAL, Pad(h));
    DigestBlockIsParsed(first);
    OneBlock(INITIAL, Pad(Digest(first)));
  }
}
