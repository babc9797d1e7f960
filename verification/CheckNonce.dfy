/** The nonce check of the kernels against Verify (shasolve/hal.go). */
module CheckNonce {
  import opened Bytes
  import opened Sha256
  import opened WordOps
  import opened Kernel
  import opened MidstateProof
  import opened Difficulty
  import opened Grind

  /** Does the header with that nonce have difficulty d in the solver package's sense? */
  predicate Verifies(header: bytes, d: nat, nonce: nat)
    requires |header| == 80 && nonce < NONCES
  {
    TrailingZeros(DoubleSha256(WithNonce(header, nonce))) >= d
  }

  method HeaderHash(header: bytes, nonce: nat) returns (out: bytes)
    requires |header| == 80 && nonce < NONCES
    ensures out == DoubleSha256(WithNonce(header, nonce)) && |out| == 32
  {
    hide DoubleSha256, Uint32Bytes;
    var work := new byte[80](i requires 0 <= i < 80 => header[i]);
    assert work[..] == header;
    PutUint32(work, nonce);
    out := DoubleSha256(work[..]);
  }

  method Verify(header: bytes, difficulty: nat, nonce: nat) returns (zeros: nat, ok: bool)
    requires |header| == 80 && nonce < NONCES
    ensures ok <==> Verifies(header, difficulty, nonce)
    ensures zeros == TrailingZeros(DoubleSha256(WithNonce(header, nonce)))
  {
    var hash := HeaderHash(header, nonce);
    zeros := TrailingZeroBits(hash);
    ok := zeros >= difficulty;
  }

  /** check_nonce of the optimised CUDA kernel: two ring compressions from the midstate. */
  method CheckNonce(mid: array<Word>, w0: Word, w1: Word, w2: Word, nonce: Word, difficulty: nat)
    returns (ok: bool)
    requires mid.Length == 8
    ensures ok <==> HasTrailingZeroBits(FastDoubleHash(VarsOf(mid[..]), w0, w1, w2, nonce), difficulty)
  {
    hide Compress, NonceWord, RingHolds, HasTrailingZeroBits, TailBlock, DigestBlock;
    var h := new Word[8](_ => 0);
    for i := 0 to 8
      invariant h[..i] == mid[..i]
    {
      h[i] := mid[i];
    }
    assert h[..] == mid[..];
    var w := new Word[16](_ => 0);
    PutTail(w, w0, w1, w2, nonce);
    assert w[..] == w[..16];
    CompressRing(h, w);
    var h2 := InitHash();
    PutDigest(w, h);
    assert w[..] == w[..16];
    CompressRing(h2, w);
    var last := h2[..];
    ok := HasTrailingZeroBits(VarsOf(last), difficulty);
  }

  method PutTail(w: array<Word>, w0: Word, w1: Word, w2: Word, nonce: Word)
    requires w.Length >= 16
    modifies w
    ensures w[..16] == TailBlock(w0, w1, w2, nonce)
  {
    hide NonceWord;
    w[0], w[1], w[2], w[3] := w0, w1, w2, NonceWord(nonce);
    w[4] := 0x80000000;
    for i := 5 to 15
      invariant w[0] == w0 && w[1] == w1 && w[2] == w2 && w[3] == NonceWord(nonce) && w[4] == 0x80000000
      invariant forall j :: 5 <= j < i ==> w[j] == 0
    {
      w[i] := 0;
    }
    w[15] := 640;
    TailBlockIs(w[..16], w0, w1, w2, nonce);
  }

  lemma TailBlockIs(w: seq<Word>, w0: Word, w1: Word, w2: Word, nonce: Word)
    requires |w| == 16 && w[0] == w0 && w[1] == w1 && w[2] == w2 && w[3] == NonceWord(nonce)
    requires w[4] == 0x80000000 && (forall j :: 5 <= j < 15 ==> w[j] == 0) && w[15] == 640
    ensures w == TailBlock(w0, w1, w2, nonce)
  {
    hide NonceWord;
  }

  method PutDigest(w: array<Word>, h: array<Word>)
    requires w.Length >= 16 && h.Length == 8 && w != h
    modifies w
    ensures w[..16] == DigestBlock(VarsOf(h[..]))
  {
    for i := 0 to 8
      invariant forall j :: 0 <= j < i ==> w[j] == h[j]
    {
      w[i] := h[i];
    }
    w[8] := 0x80000000;
    for i := 9 to 15
      invariant forall j :: 0 <= j < 8 ==> w[j] == h[j]
      invariant w[8] == 0x80000000
      invariant forall j :: 9 <= j < i ==> w[j] == 0
    {
      w[i] := 0;
    }
    w[15] := 256;
    DigestBlockIs(w[..16], h[..]);
  }

  lemma DigestBlockIs(w: seq<Word>, h: seq<Word>)
    requires |w| == 16 && |h| == 8 && (forall j :: 0 <= j < 8 ==> w[j] == h[j])
    requires w[8] == 0x80000000 && (forall j :: 9 <= j < 15 ==> w[j] == 0) && w[15] == 256
    ensures w == DigestBlock(VarsOf(h))
  {
  }

  /** Kernel correctness: from the midstate and the tail words of a header, the kernels answer as Verify does. */
  lemma CheckNonceIsVerify(header: bytes, n: nat, d: nat)
    requires |header| == 80 && n < NONCES && d <= 96
    ensures HasTrailingZeroBits(FastDoubleHash(Midstate(header), HeaderWord(header, 16), HeaderWord(header, 17),
                                               HeaderWord(header, 18), Uint32Word(n)), d)
            <==> Verifies(header, d, n)
  {
    hide FastDoubleHash, Midstate, HeaderWord, Uint32Word, HasTrailingZeroBits, TrailingZeros, DoubleSha256, WithNonce;
    FastDoubleHashCorrect(header, n);
    KernelTestExact(FastDoubleHash(Midstate(header), HeaderWord(header, 16), HeaderWord(header, 17),
                                   HeaderWord(header, 18), Uint32Word(n)), d);
  }

  /** The whole path, from a header to the answer for one nonce. */
  method PrepareAndCheck(header: bytes, nonce: nat, difficulty: nat) returns (ok: bool)
    requires |header| == 80 && nonce < NONCES && difficulty <= 96
    ensures ok <==> Verifies(header, difficulty, nonce)
  {
    hide FastDoubleHash, Midstate, HeaderWord, Uint32Word, HasTrailingZeroBits, Verifies;
    var mid, tail := PowcoinMidstate(header);
    CheckNonceIsVerify(header, nonce, difficulty);
    ok := CheckNonce(mid, tail[0], tail[1], tail[2], Uint32Word(nonce), difficulty);
  }

  // The plain kernel.

  /** check_nonce of the plain CUDA kernel: three compressions with the full schedule, from the header itself. */
  method CheckNoncePlain(header: bytes, nonce: Word, difficulty: nat) returns (ok: bool)
    requires |header| == 80
    ensures ok <==>
      HasTrailingZeroBits(FastDoubleHash(Midstate(header), HeaderWord(header, 16), HeaderWord(header, 17),
                                         HeaderWord(header, 18), nonce), difficulty)
  {
    hide Compress, NonceWord, W, HasTrailingZeroBits, BytesWord;
    var h := InitHash();
    var w := new Word[64](_ => 0);
    for i := 0 to 16
      invariant VarsOf(h[..]) == INITIAL
      invariant forall j :: 0 <= j < i ==> w[j] == HeaderWord(header, j)
    {
      w[i] := HeaderWord(header, i);
    }
    HeaderBlock(header, w[..16]);
    CompressPlain(h, w);
    PutTail(w, HeaderWord(header, 16), HeaderWord(header, 17), HeaderWord(header, 18), nonce);
    CompressPlain(h, w);
    var h2 := InitHash();
    PutDigest(w, h);
    CompressPlain(h2, w);
    ok := HasTrailingZeroBits(VarsOf(h2[..]), difficulty);
  }
}
