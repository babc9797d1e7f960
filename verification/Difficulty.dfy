/** The solver package's difficulty: trailing zero bits (shasolve/hal.go), the kernels' test on words, and the
    condition that the WebGPU backend generates. */
module Difficulty {
  import opened Bytes
  import opened Sha256
  import opened WordOps
  import opened MidstateProof
  import Grind

  /** How often 2 divides n. */
  function Twos(n: nat): (k: nat)
    requires n > 0
    ensures n % Pow2(k) == 0
  {
    if n % 2 == 1 then 0 else
    var k := Twos(n / 2);
    HalvePower(n, k);
    k + 1
  }

  lemma HalvePower(n: nat, k: nat)
    requires n % 2 == 0
    ensures n % Pow2(k + 1) == 0 <==> n / 2 % Pow2(k) == 0
  {
    var p, h := Pow2(k), n / 2;
    assert Pow2(k + 1) == 2 * p && n == 2 * h;
    DoubleMod(h, p);
  }

  lemma DoubleMod(h: nat, p: nat)
    requires p > 0
    ensures (2 * h) % (2 * p) == 2 * (h % p)
  {
    var q, r := h / p, h % p;
    assert 2 * h == (2 * p) * q + 2 * r;
    QuotientIs(2 * h, 2 * p, q, 2 * r);
  }

  lemma {:induction false} TwosIsMost(n: nat, k: nat)
    requires n > 0
    ensures Twos(n) >= k <==> n % Pow2(k) == 0
  {
    if k == 0 {
    } else if n % 2 == 1 {
      OddNotDivisible(n, k);
    } else {
      TwosIsMost(n / 2, k - 1);
      HalvePower(n, k - 1);
    }
  }

  lemma OddNotDivisible(n: nat, k: nat)
    requires n % 2 == 1 && k > 0
    ensures n % Pow2(k) != 0
  {
    var p := Pow2(k - 1);
    assert Pow2(k) == 2 * p;
    hide Pow2;
    DivisionIs(n, Pow2(k));
    OddRemainder(n, p, n / Pow2(k), n % Pow2(k));
  }

  lemma DivisionIs(n: nat, m: nat)
    requires m > 0
    ensures n / m >= 0 && n == m * (n / m) + n % m
  {
  }

  lemma OddRemainder(n: nat, p: nat, q: nat, r: nat)
    requires n % 2 == 1 && n == (2 * p) * q + r
    ensures r != 0
  {
    assert (2 * p) * q == 2 * (p * q);
  }

  /** bits.TrailingZeros8 */
  function TrailingZeros8(b: byte): (n: nat) {
    if b == 0 then 8 else Twos(b as int)
  }

  lemma TrailingZeros8AtLeast(b: byte, k: nat)
    requires k <= 8
    ensures TrailingZeros8(b) >= k <==> b as int % Pow2(k) == 0
    ensures TrailingZeros8(b) <= 8 && (TrailingZeros8(b) == 8 <==> b == 0)
  {
    SmallPowers();
    hide Pow2, Twos;
    if b == 0 {
      QuotientIs(0, Pow2(k), 0, 0);
    } else {
      TwosIsMost(b as int, k);
      TwosIsMost(b as int, 8);
    }
  }

  /** Zero bits at the end of a byte string, counted from its last byte, low bits first. */
  function TrailingZeros(h: bytes): nat {
    if h == [] then 0
    else if h[|h| - 1] == 0 then 8 + TrailingZeros(h[..|h| - 1])
    else TrailingZeros8(h[|h| - 1])
  }

  method TrailingZeroBits(hash: bytes) returns (count: nat)
    requires |hash| == 32
    ensures count == TrailingZeros(hash)
  {
    count := 0;
    var i := |hash| - 1;
    assert hash[..|hash|] == hash;
    while i >= 0
      invariant -1 <= i < |hash|
      invariant TrailingZeros(hash) == count + TrailingZeros(hash[..i + 1])
    {
      var b := hash[i];
      assert hash[..i + 1][..i] == hash[..i];
      if b == 0 {
        count := count + 8;
        if i == 0 {
          return;
        }
        i := i - 1;
        continue;
      }
      count := count + TrailingZeros8(b);
      return;
    }
  }

  lemma {:induction false} TrailingZerosAppend(a: bytes, b: bytes)
    ensures TrailingZeros(a + b) ==
            if Grind.AllZero(b) then 8 * |b| + TrailingZeros(a) else TrailingZeros(b)
    ensures TrailingZeros(b) <= 8 * |b| && (TrailingZeros(b) == 8 * |b| <==> Grind.AllZero(b))
  {
    if b == [] {
      assert a + b == a;
    } else {
      var n := |b| - 1;
      assert (a + b)[..|a| + n] == a + b[..n] && (a + b)[|a| + n] == b[n];
      TrailingZerosAppend(a, b[..n]);
      TrailingZeros8AtLeast(b[n], 8);
      assert b == b[..n] + [b[n]];
    }
  }

  lemma LastByteDecides(rest: nat, x: byte, d: nat)
    requires d <= 8
    ensures (256 * rest + x as int) % Pow2(d) == x as int % Pow2(d)
  {
    Pow2Add(8 - d, d);
    SmallPowers();
    var p, q := Pow2(d), Pow2(8 - d);
    assert q * p == 256;
    assert 256 * rest == (rest * q) * p;
    DropMultiple(rest * q, x as int, p);
  }

  /** The solver's difficulty d means that the hash, read as a big-endian number, is a multiple of 2^d. */
  lemma {:induction false} TrailingZerosMeaning(h: bytes, d: nat)
    requires d <= 8 * |h|
    ensures TrailingZeros(h) >= d <==> BigEndian(h) % Pow2(d) == 0
  {
    hide Pow2, TrailingZeros8;
    SmallPowers();
    if d > 0 {
      var n := |h| - 1;
      var x, rest := h[n], BigEndian(h[..n]);
      TrailingZeros8AtLeast(x, 8);
      if d <= 8 {
        TrailingZeros8AtLeast(x, d);
        LastByteDecides(rest, x, d);
      } else {
        Pow2Add(d - 8, 8);
        if x == 0 {
          TrailingZerosMeaning(h[..n], d - 8);
          Times256(rest, Pow2(d - 8));
        } else {
          NotMultiple(rest, x as int, Pow2(d - 8));
        }
      }
    }
  }

  lemma DropMultiple(q: nat, x: nat, p: nat)
    requires p > 0
    ensures (q * p + x) % p == x % p
  {
    var r, a := x % p, x / p;
    assert q * p + x == p * (q + a) + r;
    QuotientIs(q * p + x, p, q + a, r);
  }

  lemma Times256(n: nat, p: nat)
    requires p > 0
    ensures (256 * n) % (p * 256) == 0 <==> n % p == 0
  {
    var q, r := n / p, n % p;
    assert 256 * n == (p * 256) * q + 256 * r;
    assert 256 * r < p * 256;
    QuotientIs(256 * n, p * 256, q, 256 * r);
  }

  lemma NotMultiple(n: nat, x: nat, p: nat)
    requires p > 0 && 0 < x < 256
    ensures (256 * n + x) % (p * 256) != 0
  {
    var q := (256 * n + x) / (p * 256);
    Parts(256 * n + x, p * 256);
    assert (p * 256) * q == 256 * (p * q);
  }

  lemma Parts(m: nat, k: nat)
    requires k > 0
    ensures m == k * (m / k) + m % k
  {
  }

  // Words.

  function Mask(n: nat): Word
    requires n < 32
  {
    (1 << n) - 1
  }

  lemma Masks()
    ensures Mask(0) == 0x0 && Mask(1) == 0x1 && Mask(2) == 0x3 && Mask(3) == 0x7
    ensures Mask(4) == 0xf && Mask(5) == 0x1f && Mask(6) == 0x3f && Mask(7) == 0x7f
    ensures Mask(8) == 0xff && Mask(9) == 0x1ff && Mask(10) == 0x3ff && Mask(11) == 0x7ff
    ensures Mask(12) == 0xfff && Mask(13) == 0x1fff && Mask(14) == 0x3fff && Mask(15) == 0x7fff
    ensures Mask(16) == 0xffff && Mask(17) == 0x1ffff && Mask(18) == 0x3ffff && Mask(19) == 0x7ffff
    ensures Mask(20) == 0xfffff && Mask(21) == 0x1fffff && Mask(22) == 0x3fffff && Mask(23) == 0x7fffff
    ensures Mask(24) == 0xffffff && Mask(25) == 0x1ffffff && Mask(26) == 0x3ffffff && Mask(27) == 0x7ffffff
    ensures Mask(28) == 0xfffffff && Mask(29) == 0x1fffffff && Mask(30) == 0x3fffffff && Mask(31) == 0x7fffffff
  {
  }

  function And(w: Word, mask: Word): Word {
    w & mask
  }

  function WordTrailingZero(word: Word, n: nat): bool {
    if n == 0 then true
    else if n >= 32 then word == 0
    else And(word, Mask(n)) == 0
  }

  /** The test of the CUDA and Metal kernels, on the last three words of the hash. */
  function HasTrailingZeroBits(h: Vars, difficulty: nat): bool {
    var r := difficulty;
    if r <= 32 then WordTrailingZero(h.h, r) else
    if h.h != 0 then false else
    var r := r - 32;
    if r <= 32 then WordTrailingZero(h.g, r) else
    if h.g != 0 then false else
    var r := r - 32;
    WordTrailingZero(h.f, r)
  }

  // A word and its four bytes, low byte first.

  predicate LowZero(w: Word, n: nat)
    requires n < 32
  {
    And(w, Mask(n)) == 0
  }

  function Octet(w: Word, i: nat): (x: Word)
    requires i < 4
    ensures x < 0x100
  {
    match i
    case 0 => w & 0xff
    case 1 => (w >> 8) & 0xff
    case 2 => (w >> 16) & 0xff
    case 3 => w >> 24
  }

  function DropByte(w: Word): Word {
    w >> 8
  }

  lemma OctetsOfRest(w: Word)
    ensures Octet(DropByte(w), 0) == Octet(w, 1) && Octet(DropByte(w), 1) == Octet(w, 2)
    ensures Octet(DropByte(w), 2) == Octet(w, 3)
  {
  }

  lemma ZeroOctets(w: Word)
    ensures w == 0 <==> Octet(w, 0) == 0 && Octet(w, 1) == 0 && Octet(w, 2) == 0 && Octet(w, 3) == 0
  {
  }

  lemma BytesAreOctets(w: Word)
    ensures WordBytes(w) ==
            [WordByte(Octet(w, 3)), WordByte(Octet(w, 2)), WordByte(Octet(w, 1)), WordByte(Octet(w, 0))]
  {
    hide WordByte;
  }

  function WithLowByte(mask: Word): Word {
    (mask << 8) | 0xff
  }

  lemma MaskGrows(n: nat)
    requires 8 <= n < 32
    ensures Mask(n) == WithLowByte(Mask(n - 8)) && Mask(n - 8) < 0x100_0000
  {
    hide Mask;
    Masks();
    match n
    case 8 => case 9 => case 10 => case 11 => case 12 => case 13 => case 14 => case 15 => case 16 =>
    case 17 => case 18 => case 19 => case 20 => case 21 => case 22 => case 23 => case 24 =>
    case 25 => case 26 => case 27 => case 28 => case 29 => case 30 => case 31 =>
  }

  lemma LowOctet(w: Word)
    ensures Octet(w, 0) == w & 0xff
  {
  }

  lemma SplitMask(w: Word, mask: Word)
    requires mask < 0x100_0000
    ensures w & ((mask << 8) | 0xff) == 0 <==> w & 0xff == 0 && (w >> 8) & mask == 0
  {
  }

  lemma MaskedByteAndRest(w: Word, mask: Word)
    requires mask < 0x100_0000
    ensures And(w, WithLowByte(mask)) == 0 <==> Octet(w, 0) == 0 && And(DropByte(w), mask) == 0
  {
    LowOctet(w);
    hide Octet;
    SplitMask(w, mask);
  }

  lemma MaskPeelsByte(w: Word, n: nat)
    requires 8 <= n < 32
    ensures LowZero(w, n) <==> Octet(w, 0) == 0 && LowZero(DropByte(w), n - 8)
  {
    hide Mask, And, WithLowByte, Octet, DropByte;
    MaskGrows(n);
    MaskedByteAndRest(w, Mask(n - 8));
  }

  lemma SmallMask(n: nat)
    requires n < 8
    ensures Mask(n) < 0x100
  {
    hide Mask;
    Masks();
    match n
    case 0 => case 1 => case 2 => case 3 => case 4 => case 5 => case 6 => case 7 =>
  }

  lemma MaskedByte(w: Word, mask: Word)
    requires mask < 0x100
    ensures And(w, mask) == 0 <==> And(Octet(w, 0), mask) == 0
  {
  }

  lemma MaskOfByte(w: Word, n: nat)
    requires n < 8
    ensures LowZero(w, n) <==> LowZero(Octet(w, 0), n)
  {
    hide Mask, And, Octet;
    SmallMask(n);
    MaskedByte(w, Mask(n));
  }

  lemma LowBitsOfByte(x: bv8)
    ensures x as int % 2 == 0 <==> x & 0x01 == 0
    ensures x as int % 4 == 0 <==> x & 0x03 == 0
  {
  }

  lemma MiddleBitsOfByte(x: bv8)
    ensures x as int % 8 == 0 <==> x & 0x07 == 0
    ensures x as int % 16 == 0 <==> x & 0x0f == 0
  {
  }

  lemma MoreLowBitsOfByte(x: bv8)
    ensures x as int % 32 == 0 <==> x & 0x1f == 0
    ensures x as int % 64 == 0 <==> x & 0x3f == 0
    ensures x as int % 128 == 0 <==> x & 0x7f == 0
  {
  }

  /** Is the value of the byte a multiple of 2^n? */
  predicate Divides(x: bv8, n: nat)
    requires n < 8
  {
    x as int % Pow2(n) == 0
  }

  lemma DividesByMask(x: bv8)
    ensures Divides(x, 0)
    ensures Divides(x, 1) <==> x & 0x01 == 0
    ensures Divides(x, 2) <==> x & 0x03 == 0
    ensures Divides(x, 3) <==> x & 0x07 == 0
    ensures Divides(x, 4) <==> x & 0x0f == 0
    ensures Divides(x, 5) <==> x & 0x1f == 0
    ensures Divides(x, 6) <==> x & 0x3f == 0
    ensures Divides(x, 7) <==> x & 0x7f == 0
  {
    hide Pow2;
    SmallPowers();
    LowBitsOfByte(x);
    MiddleBitsOfByte(x);
    MoreLowBitsOfByte(x);
  }

  lemma ByteTest(w: Word, n: nat)
    requires w < 0x100 && n < 8
    ensures LowZero(w, n) <==> TrailingZeros8(WordByte(w)) >= n
  {
    TrailingZeros8AtLeast(WordByte(w), n);
    LowZeroDivides(w, n);
  }

  lemma LowZeroDivides(w: Word, n: nat)
    requires w < 0x100 && n < 8
    ensures LowZero(w, n) <==> Divides(w as bv8, n)
  {
    hide Mask, Divides;
    Masks();
    DividesByMask(w as bv8);
    match n
    case 0 => case 1 => case 2 => case 3 => case 4 => case 5 => case 6 => case 7 =>
  }

  lemma ZeroByte(w: Word)
    requires w < 0x100
    ensures WordByte(w) == 0 <==> w == 0
    ensures TrailingZeros8(WordByte(w)) <= 8 && (TrailingZeros8(WordByte(w)) == 8 <==> w == 0)
  {
    ByteRoundTrip(w);
    TrailingZeros8AtLeast(WordByte(w), 8);
  }

  lemma FourBytes(b: bytes)
    requires |b| == 4
    ensures TrailingZeros(b) ==
            if b[3] != 0 then TrailingZeros8(b[3])
            else if b[2] != 0 then 8 + TrailingZeros8(b[2])
            else if b[1] != 0 then 16 + TrailingZeros8(b[1])
            else 24 + TrailingZeros8(b[0])
  {
    hide TrailingZeros8;
    assert TrailingZeros8(0) == 8 by { TrailingZeros8AtLeast(0, 8); }
    var c, d := b[..3], b[..2];
    assert c[..2] == d && d[..1] == b[..1] && b[..1][..0] == [];
    assert TrailingZeros(b[..1]) == TrailingZeros8(b[0]);
    assert TrailingZeros(d) == if b[1] == 0 then 8 + TrailingZeros(b[..1]) else TrailingZeros8(b[1]);
    assert TrailingZeros(c) == if b[2] == 0 then 8 + TrailingZeros(d) else TrailingZeros8(b[2]);
  }

  /** The low n bits of a word, in its bytes. */
  lemma LowZeroInOctets(w: Word, n: nat)
    requires n < 32
    ensures LowZero(w, n) <==>
            (forall i :: 0 <= i < n / 8 ==> Octet(w, i) == 0) && LowZero(Octet(w, n / 8), n % 8)
  {
    hide LowZero, Octet, DropByte;
    var v := DropByte(w);
    var u := DropByte(v);
    OctetsOfRest(w);
    OctetsOfRest(v);
    OctetsOfRest(u);
    if n < 8 {
      MaskOfByte(w, n);
    } else if n < 16 {
      MaskPeelsByte(w, n);
      MaskOfByte(v, n - 8);
    } else if n < 24 {
      MaskPeelsByte(w, n);
      MaskPeelsByte(v, n - 8);
      MaskOfByte(u, n - 16);
    } else {
      MaskPeelsByte(w, n);
      MaskPeelsByte(v, n - 8);
      MaskPeelsByte(u, n - 16);
      MaskOfByte(DropByte(u), n - 24);
    }
  }

  /** A mask test on a word counts the zero bits at the end of its bytes. */
  lemma WordTest(w: Word, n: nat)
    requires n <= 32
    ensures WordTrailingZero(w, n) <==> TrailingZeros(WordBytes(w)) >= n
  {
    hide LowZero, Octet, DropByte, TrailingZeros8, WordByte, TrailingZeros, WordBytes, WordTrailingZero;
    var x0, x1, x2, x3 := Octet(w, 0), Octet(w, 1), Octet(w, 2), Octet(w, 3);
    BytesAreOctets(w);
    FourBytes(WordBytes(w));
    ZeroByte(x0); ZeroByte(x1); ZeroByte(x2); ZeroByte(x3);
    WordTrailingZeroEnds(w);
    if n == 0 {
    } else if n == 32 {
      ZeroOctets(w);
    } else {
      MaskedIsLowZero(w, n);
      LowZeroInOctets(w, n);
      ByteTest(Octet(w, n / 8), n % 8);
      ZeroLow(n % 8);
    }
  }

  lemma WordTrailingZeroEnds(w: Word)
    ensures WordTrailingZero(w, 0) && (WordTrailingZero(w, 32) <==> w == 0)
  {
  }

  lemma MaskedIsLowZero(w: Word, n: nat)
    requires 0 < n < 32
    ensures WordTrailingZero(w, n) == LowZero(w, n)
  {
  }

  lemma ZeroLow(n: nat)
    requires n < 8
    ensures LowZero(0, n)
  {
    hide Mask;
  }

  lemma ZeroWordBytes(w: Word)
    ensures Grind.AllZero(WordBytes(w)) <==> w == 0
  {
    hide WordTrailingZero, WordBytes, TrailingZeros;
    WordTest(w, 32);
    WordTrailingZeroEnds(w);
    TrailingZerosAppend([], WordBytes(w));
  }

  /** The words test of the kernels is the bytes test of the package, on the digest those words make. */
  lemma KernelTestExact(h: Vars, d: nat)
    requires d <= 96
    ensures HasTrailingZeroBits(h, d) <==> TrailingZeros(Digest(h)) >= d
  {
    hide WordTrailingZero, WordBytes, TrailingZeros;
    var a := WordBytes(h.a) + WordBytes(h.b) + WordBytes(h.c) + WordBytes(h.d) + WordBytes(h.e);
    TrailingZerosAppend(a + WordBytes(h.f) + WordBytes(h.g), WordBytes(h.h));
    TrailingZerosAppend(a + WordBytes(h.f), WordBytes(h.g));
    TrailingZerosAppend(a, WordBytes(h.f));
    ZeroWordBytes(h.h);
    ZeroWordBytes(h.g);
    ZeroWordBytes(h.f);
    if d <= 32 {
      WordTest(h.h, d);
    } else if d <= 64 {
      WordTest(h.g, d - 32);
    } else {
      WordTest(h.f, d - 64);
    }
  }

  // The condition that the WebGPU backend writes into its shader.

  datatype WordName = H5 | H6 | H7

  /** A generated comparison: the word, or some of its low bits, must be zero. */
  datatype Condition = IsZero(word: WordName) | Masked(word: WordName, mask: Word)

  function WordOf(n: WordName, h: Vars): Word {
    match n
    case H5 => h.f
    case H6 => h.g
    case H7 => h.h
  }

  predicate Holds(c: Condition, h: Vars) {
    match c
    case IsZero(n) => WordOf(n, h) == 0
    case Masked(n, mask) => And(WordOf(n, h), mask) == 0
  }

  /** The conditions are joined by &&; none at all is the generated text for difficulty 0. */
  predicate AllHold(cs: seq<Condition>, h: Vars) {
    forall c :: c in cs ==> Holds(c, h)
  }

  function Generated(words: seq<WordName>, remaining: nat): seq<Condition> {
    if words == [] || remaining == 0 then []
    else if remaining >= 32 then [IsZero(words[0])] + Generated(words[1..], remaining - 32)
    else [Masked(words[0], Mask(remaining))]
  }

  method BuildWebGPUDifficultyCheck(difficulty: nat) returns (conditions: seq<Condition>)
    ensures conditions == Generated([H7, H6, H5], difficulty)
  {
    hide Mask;
    conditions := [];
    if difficulty == 0 {
      return;
    }
    var remaining := difficulty;
    var words := [H7, H6, H5];
    for i := 0 to |words|
      invariant conditions + Generated(words[i..], remaining) == Generated(words, difficulty)
    {
      if remaining == 0 {
        break;
      }
      assert words[i..][1..] == words[i + 1..];
      if remaining >= 32 {
        conditions := conditions + [IsZero(words[i])];
        remaining := remaining - 32;
        continue;
      }
      var mask := Mask(remaining);
      conditions := conditions + [Masked(words[i], mask)];
      remaining := 0;
      break;
    }
  }

  /** What the words must satisfy, one after the other, for that many remaining bits. */
  predicate LowBitsZero(words: seq<WordName>, h: Vars, remaining: nat) {
    if words == [] || remaining == 0 then true
    else if remaining >= 32 then WordOf(words[0], h) == 0 && LowBitsZero(words[1..], h, remaining - 32)
    else WordTrailingZero(WordOf(words[0], h), remaining)
  }

  lemma {:induction false} GeneratedHolds(words: seq<WordName>, remaining: nat, h: Vars)
    ensures AllHold(Generated(words, remaining), h) <==> LowBitsZero(words, h, remaining)
  {
    hide Mask, Holds, WordTrailingZero, WordOf;
    if words == [] || remaining == 0 {
    } else if remaining >= 32 {
      var c := IsZero(words[0]);
      var rest := Generated(words[1..], remaining - 32);
      GeneratedHolds(words[1..], remaining - 32, h);
      ZeroHolds(words[0], h);
      FirstCondition(c, rest, h);
    } else {
      var c := Masked(words[0], Mask(remaining));
      MaskedHolds(words[0], remaining, h);
      FirstCondition(c, [], h);
      assert [c] + [] == [c];
    }
  }

  lemma FirstCondition(c: Condition, rest: seq<Condition>, h: Vars)
    ensures AllHold([c] + rest, h) <==> Holds(c, h) && AllHold(rest, h)
  {
    hide Holds;
    var cs := [c] + rest;
    assert forall x :: x in cs <==> x == c || x in rest;
    assert c in cs;
  }

  lemma ZeroHolds(n: WordName, h: Vars)
    ensures Holds(IsZero(n), h) <==> WordOf(n, h) == 0
  {
  }

  lemma MaskedHolds(n: WordName, r: nat, h: Vars)
    requires 0 < r < 32
    ensures Holds(Masked(n, Mask(r)), h) <==> WordTrailingZero(WordOf(n, h), r)
  {
    hide Mask, And;
  }

  /** The generated condition is the kernels' test. */
  lemma GeneratedTestExact(h: Vars, d: nat)
    requires d <= 96
    ensures AllHold(Generated([H7, H6, H5], d), h) <==> HasTrailingZeroBits(h, d)
  {
    hide Generated, Mask, WordTrailingZero;
    var w3, w2, w1 := [H7, H6, H5], [H6, H5], [H5];
    GeneratedHolds(w3, d, h);
    assert w3[1..] == w2 && w2[1..] == w1 && w1[1..] == [];
    WordTrailingZeroEnds(h.h);
    WordTrailingZeroEnds(h.g);
    WordTrailingZeroEnds(h.f);
    if 32 <= d {
      assert LowBitsZero(w3, h, d) == (h.h == 0 && LowBitsZero(w2, h, d - 32));
      if 64 <= d {
        assert LowBitsZero(w2, h, d - 32) == (h.g == 0 && LowBitsZero(w1, h, d - 64));
        if d == 96 {
          assert LowBitsZero(w1, h, 32) == (h.f == 0 && LowBitsZero([], h, 0));
        }
      }
    }
  }
}
