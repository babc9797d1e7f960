/** The search kernels (shasolve/cuda_impl.c, shasolve/metal_impl_darwin.m, shasolve/webgpu.go): the compression
    function with a sixteen-word ring, the midstate, and the nonce check, against FIPS 180-4. */
module Kernel {
  import opened Bytes
  import opened Sha256
  import opened WordOps
  import Grind

  // The ring. Before round i, slot j holds the newest schedule word whose number is j modulo 16.

  function SlotWord(i: nat, j: nat): nat
    requires j < 16
  {
    if i < 16 then j else if j < i % 16 then i - i % 16 + j else i - i % 16 - 16 + j
  }

  lemma SlotBehind(i: nat, k: nat)
    requires 16 <= i && 1 <= k <= 16
    ensures SlotWord(i, (i - k) % 16) == i - k
  {
    var q, r := i / 16, i % 16;
    assert i == 16 * q + r;
    if k <= r {
      assert (16 * q + (r - k)) % 16 == r - k;
    } else {
      assert (16 * (q - 1) + (16 + r - k)) % 16 == (16 + r - k) % 16;
    }
  }

  lemma SlotNext(i: nat, j: nat)
    requires 16 <= i && j < 16
    ensures SlotWord(i + 1, j) == if j == i % 16 then i else SlotWord(i, j)
  {
  }

  lemma SlotFirst(i: nat, j: nat)
    requires i < 16 && j < 16
    ensures SlotWord(i + 1, j) == SlotWord(i, j) == j
  {
  }

  ghost predicate RingHolds(w: seq<Word>, m: Block, i: nat) {
    |w| == 16 && forall j {:trigger w[j]} :: 0 <= j < 16 ==> w[j] == W(m, SlotWord(i, j))
  }

  /** The next schedule word, from the ring alone. */
  function NextInRing(w: seq<Word>, i: nat): Word
    requires |w| == 16 && i >= 16
  {
    Add(Add(Add(SmallSigma1(w[(i - 2) % 16]), w[(i - 7) % 16]), SmallSigma0(w[(i - 15) % 16])), w[i % 16])
  }

  /** What the kernels compute from the ring is the next schedule word. */
  lemma NextIsNext(w: seq<Word>, m: Block, i: nat)
    requires 16 <= i && RingHolds(w, m, i)
    ensures NextInRing(w, i) == W(m, i)
  {
    hide Add, SmallSigma0, SmallSigma1, SlotWord;
    SlotBehind(i, 2);
    SlotBehind(i, 7);
    SlotBehind(i, 15);
    SlotBehind(i, 16);
    assert (i - 16) % 16 == i % 16;
  }

  lemma RingStep(w: seq<Word>, m: Block, i: nat)
    requires 16 <= i && RingHolds(w, m, i)
    ensures NextInRing(w, i) == W(m, i)
    ensures RingHolds(w[i % 16 := W(m, i)], m, i + 1)
  {
    hide W, NextInRing, SlotWord;
    NextIsNext(w, m, i);
    forall j | 0 <= j < 16
      ensures SlotWord(i + 1, j) == if j == i % 16 then i else SlotWord(i, j)
    {
      SlotNext(i, j);
    }
  }

  lemma RingFirst(w: seq<Word>, m: Block, i: nat)
    requires i < 16 && RingHolds(w, m, i)
    ensures w[i] == W(m, i) && RingHolds(w, m, i + 1)
  {
    hide W;
    forall j: nat | j < 16
      ensures SlotWord(i + 1, j) == SlotWord(i, j)
    {
      SlotFirst(i, j);
    }
    SlotFirst(i, i);
  }

  function VarsOf(h: seq<Word>): Vars
    requires |h| == 8
  {
    Vars(h[0], h[1], h[2], h[3], h[4], h[5], h[6], h[7])
  }

  /** nextw of the CUDA and Metal kernels. */
  method NextW(w: array<Word>, i: nat, ghost m: Block) returns (v: Word)
    requires w.Length == 16 && 16 <= i && RingHolds(w[..], m, i)
    modifies w
    ensures v == W(m, i) && RingHolds(w[..], m, i + 1)
  {
    hide Add, SmallSigma0, SmallSigma1, W;
    ghost var ring := w[..];
    RingStep(ring, m, i);
    v := Add(Add(Add(SmallSigma1(w[(i - 2) % 16]), w[(i - 7) % 16]), SmallSigma0(w[(i - 15) % 16])), w[i % 16]);
    w[i % 16] := v;
    assert w[..] == ring[i % 16 := v];
  }

  /** The compression function with the schedule in a ring, in place: the kernels' compress, cpu_compress and
      cpuSHA256Compress. It is the compression function of the standard, and it leaves the last sixteen schedule
      words in the ring. */
  method CompressRing(h: array<Word>, w: array<Word>)
    requires h.Length == 8 && w.Length == 16 && h != w
    modifies h, w
    ensures VarsOf(h[..]) == Compress(VarsOf(old(h[..])), old(w[..]))
    ensures RingHolds(w[..], old(w[..]), 64)
  {
    hide Add, BigSigma0, BigSigma1, Ch, Maj, W, SlotWord, K;
    ghost var m: Block := w[..];
    ghost var start := VarsOf(h[..]);
    var a, b, c, d := h[0], h[1], h[2], h[3];
    var e, f, g, hh := h[4], h[5], h[6], h[7];
    RingStart(m);
    for i := 0 to 64
      invariant h[..] == old(h[..])
      invariant RingHolds(w[..], m, i)
      invariant Vars(a, b, c, d, e, f, g, hh) == Rounds(start, Schedule(m), i)
    {
      var wi;
      if i < 16 {
        RingFirst(w[..], m, i);
        wi := w[i];
      } else {
        wi := NextW(w, i, m);
      }
      var t1 := Add(Add(Add(Add(hh, BigSigma1(e)), Ch(e, f, g)), RoundConstant(i)), wi);
      var t2 := Add(BigSigma0(a), Maj(a, b, c));
      hh, g, f, e, d, c, b, a := g, f, e, Add(d, t1), c, b, a, Add(t1, t2);
    }
    AddInto(h, Vars(a, b, c, d, e, f, g, hh));
  }

  lemma RingStart(m: Block)
    ensures RingHolds(m, m, 0)
  {
  }

  function RoundConstant(i: nat): Word
    requires i < 64
  {
    K[i]
  }

  method AddInto(h: array<Word>, v: Vars)
    requires h.Length == 8
    modifies h
    ensures VarsOf(h[..]) == AddVars(VarsOf(old(h[..])), v)
  {
    hide Add;
    h[0] := Add(h[0], v.a);
    h[1] := Add(h[1], v.b);
    h[2] := Add(h[2], v.c);
    h[3] := Add(h[3], v.d);
    h[4] := Add(h[4], v.e);
    h[5] := Add(h[5], v.f);
    h[6] := Add(h[6], v.g);
    h[7] := Add(h[7], v.h);
  }

  /** The plain form, with all 64 schedule words in an array. */
  method CompressPlain(h: array<Word>, w: array<Word>)
    requires h.Length == 8 && w.Length == 64 && h != w
    modifies h, w
    ensures VarsOf(h[..]) == Compress(VarsOf(old(h[..])), old(w[..16]))
    ensures forall t :: 0 <= t < 64 ==> w[t] == W(old(w[..16]), t)
  {
    hide Add, BigSigma0, BigSigma1, Ch, Maj, SmallSigma0, SmallSigma1, K;
    ghost var m: Block := w[..16];
    ghost var start := VarsOf(h[..]);
    for i := 16 to 64
      invariant h[..] == old(h[..])
      invariant forall t :: 0 <= t < i ==> w[t] == W(m, t)
    {
      w[i] := Add(Add(Add(SmallSigma1(w[i - 2]), w[i - 7]), SmallSigma0(w[i - 15])), w[i - 16]);
    }
    var a, b, c, d := h[0], h[1], h[2], h[3];
    var e, f, g, hh := h[4], h[5], h[6], h[7];
    for i := 0 to 64
      invariant h[..] == old(h[..])
      invariant forall t :: 0 <= t < 64 ==> w[t] == W(m, t)
      invariant Vars(a, b, c, d, e, f, g, hh) == Rounds(start, Schedule(m), i)
    {
      var t1 := Add(Add(Add(Add(hh, BigSigma1(e)), Ch(e, f, g)), RoundConstant(i)), w[i]);
      var t2 := Add(BigSigma0(a), Maj(a, b, c));
      hh, g, f, e, d, c, b, a := g, f, e, Add(d, t1), c, b, a, Add(t1, t2);
    }
    AddInto(h, Vars(a, b, c, d, e, f, g, hh));
  }

  /** The big-endian word number idx of a header. */
  function HeaderWord(header: bytes, idx: nat): Word
    requires |header| == 80 && idx < 20
  {
    BytesWord(header[4 * idx..4 * idx + 4])
  }

  lemma HeaderBlock(header: bytes, w: seq<Word>)
    requires |header| == 80 && |w| == 16 && forall j :: 0 <= j < 16 ==> w[j] == HeaderWord(header, j)
    ensures w == ParseBlock(header[..64])
  {
    hide BytesWord;
    forall i | 0 <= i < 16
      ensures ParseBlock(header[..64])[i] == HeaderWord(header, i)
    {
      assert header[..64][4 * i..4 * i + 4] == header[4 * i..4 * i + 4];
    }
  }

  /** What is hashed before the search starts: the state after the first 64 bytes. */
  function Midstate(header: bytes): Vars
    requires |header| == 80
  {
    Compress(INITIAL, ParseBlock(header[..64]))
  }

  method PowcoinMidstate(header: bytes) returns (mid: array<Word>, tail: seq<Word>)
    requires |header| == 80
    ensures fresh(mid) && mid.Length == 8 && VarsOf(mid[..]) == Midstate(header)
    ensures tail == [HeaderWord(header, 16), HeaderWord(header, 17), HeaderWord(header, 18)]
  {
    hide BytesWord, Compress;
    mid := InitHash();
    var w := new Word[16](_ => 0);
    for i := 0 to 16
      invariant VarsOf(mid[..]) == INITIAL
      invariant forall j :: 0 <= j < i ==> w[j] == HeaderWord(header, j)
    {
      w[i] := HeaderWord(header, i);
    }
    HeaderBlock(header, w[..]);
    CompressRing(mid, w);
    tail := [HeaderWord(header, 16), HeaderWord(header, 17), HeaderWord(header, 18)];
  }

  method InitHash() returns (h: array<Word>)
    ensures fresh(h) && h.Length == 8 && VarsOf(h[..]) == INITIAL
  {
    h := new Word[8];
    h[0], h[1], h[2], h[3] := 0x6a09e667, 0xbb67ae85, 0x3c6ef372, 0xa54ff53a;
    h[4], h[5], h[6], h[7] := 0x510e527f, 0x9b05688c, 0x1f83d9ab, 0x5be0cd19;
  }

  /** The nonce with its bytes reversed, by shifts and masks. */
  function NonceWord(nonce: Word): Word {
    ((nonce & 0xff) << 24) | (((nonce >> 8) & 0xff) << 16) | (((nonce >> 16) & 0xff) << 8) | ((nonce >> 24) & 0xff)
  }

  /** A nonce as the kernels hold it. */
  function Uint32Word(n: nat): Word
    requires n < NONCES
  {
    var b := Grind.Uint32Bytes(n);
    BytesWord([b[3], b[2], b[1], b[0]])
  }

  lemma ReverseBytes(a: Word, b: Word, c: Word, d: Word)
    requires a < 0x100 && b < 0x100 && c < 0x100 && d < 0x100
    ensures NonceWord((d << 24) | (c << 16) | (b << 8) | a) == (a << 24) | (b << 16) | (c << 8) | d
  {
  }

  /** The reversed word is the big-endian word of the nonce's bytes in the header. */
  lemma NonceWordIsHeaderWord(header: bytes, n: nat)
    requires |header| == 80 && n < NONCES
    ensures HeaderWord(Grind.WithNonce(header, n), 19) == NonceWord(Uint32Word(n))
  {
    var b := Grind.Uint32Bytes(n);
    assert Grind.WithNonce(header, n)[76..80] == b;
    ReverseBytes(ByteWord(b[0]), ByteWord(b[1]), ByteWord(b[2]), ByteWord(b[3]));
  }

  /** The second block of a padded 80-byte header, as the kernels write it down. */
  function TailBlock(w0: Word, w1: Word, w2: Word, nonce: Word): Block {
    [w0, w1, w2, NonceWord(nonce), 0x80000000, 0, 0, 0, 0, 0, 0, 0, 0, 0, 0, 640]
  }

  /** The only block of a padded digest. */
  function DigestBlock(h: Vars): Block {
    [h.a, h.b, h.c, h.d, h.e, h.f, h.g, h.h, 0x80000000, 0, 0, 0, 0, 0, 0, 256]
  }

  /** The double hash of a header, from its midstate and its last words. */
  function FastDoubleHash(mid: Vars, w0: Word, w1: Word, w2: Word, nonce: Word): Vars {
    Compress(INITIAL, DigestBlock(Compress(mid, TailBlock(w0, w1, w2, nonce))))
  }
}
