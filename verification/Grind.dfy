/** The fake block header, its difficulty test, the sequential search and the witness pieces
    (powcoins/grind.go). */
module Grind {
  import opened Bytes

  /** The four bytes of a uint32, least significant first. */
  function Uint32Bytes(n: nat): (r: bytes)
    requires n < NONCES
    ensures |r| == 4
  {
    [(n % 0x100) as byte, (n / 0x100 % 0x100) as byte, (n / 0x1_0000 % 0x100) as byte, (n / 0x100_0000) as byte]
  }

  lemma LittleEndian4(b: bytes)
    requires |b| == 4
    ensures LittleEndian(b) == b[0] as int + 256 * (b[1] as int + 256 * (b[2] as int + 256 * b[3] as int))
  {
    var c, d, e := b[1..], b[2..], b[3..];
    assert c[1..] == d && d[1..] == e && e[1..] == [];
    assert LittleEndian(e) == b[3] as int;
    assert LittleEndian(d) == b[2] as int + 256 * LittleEndian(e);
    assert LittleEndian(c) == b[1] as int + 256 * LittleEndian(d);
  }

  lemma Digits(n: nat)
    ensures n == n % 0x100 + 256 * (n / 0x100 % 0x100 + 256 * (n / 0x1_0000 % 0x100 + 256 * (n / 0x100_0000)))
  {
    var p := n / 0x100;
    var q := p / 0x100;
    assert n / 0x1_0000 == q && n / 0x100_0000 == q / 0x100;
  }

  lemma Uint32BytesValue(n: nat)
    requires n < NONCES
    ensures LittleEndian(Uint32Bytes(n)) == n
  {
    LittleEndian4(Uint32Bytes(n));
    Digits(n);
  }

  /** A header with the nonce in its last four bytes. */
  function WithNonce(header: bytes, nonce: nat): (r: bytes)
    requires |header| == 80 && nonce < NONCES
    ensures |r| == 80
  {
    header[..76] + Uint32Bytes(nonce)
  }

  lemma WithNonceFields(header: bytes, nonce: nat)
    requires |header| == 80 && nonce < NONCES
    ensures WithNonce(header, nonce)[..76] == header[..76] && LittleEndian(WithNonce(header, nonce)[76..]) == nonce
  {
    hide LittleEndian;
    Uint32BytesValue(nonce);
    assert WithNonce(header, nonce)[76..] == Uint32Bytes(nonce);
  }

  predicate AllZero(b: bytes) {
    forall i :: 0 <= i < |b| ==> b[i] == 0
  }

  /** The last d/8 bytes are zero and the byte before them is below 2^(8 - d%8). */
  predicate ValidPow(hash: bytes, d: nat)
    requires |hash| == 32 && d < 256
  {
    && AllZero(hash[32 - d / 8..])
    && (d % 8 != 0 ==> hash[31 - d / 8] as int < Pow2(8 - d % 8))
  }

  method ValidPowHash(hash: bytes, difficulty: nat) returns (valid: bool)
    requires |hash| == 32 && difficulty < 256
    ensures valid <==> ValidPow(hash, difficulty)
  {
    var fullZeroBytes := difficulty / 8;
    var partialBits := difficulty % 8;
    for i := 0 to fullZeroBytes
      invariant AllZero(hash[32 - i..])
    {
      if hash[31 - i] != 0 {
        assert hash[32 - fullZeroBytes..][fullZeroBytes - 1 - i] == hash[31 - i];
        return false;
      }
      assert hash[31 - i..] == [hash[31 - i]] + hash[32 - i..];
    }
    if partialBits == 0 {
      return true;
    }
    var next := hash[31 - fullZeroBytes];
    return next as int < Pow2(8 - partialBits);
  }

  lemma {:induction false} ZeroIffAllZero(b: bytes)
    ensures LittleEndian(b) == 0 <==> AllZero(b)
  {
    if b != [] {
      ZeroIffAllZero(b[1..]);
      if b[0] == 0 && AllZero(b[1..]) {
        assert b == [b[0]] + b[1..];
      }
    }
  }

  /** With l below p, l + p * x is below p * q exactly when x is below q. */
  lemma BelowProduct(l: nat, p: nat, x: nat, q: nat)
    requires l < p
    ensures l + p * x < p * q <==> x < q
  {
    if x < q {
      assert p * (x + 1) <= p * q;
    } else {
      assert p * q <= p * x;
    }
  }

  /** The difficulty test is a comparison of the hash, read as a little-endian number, with the target. */
  lemma ValidPowIsTarget(hash: bytes, d: nat)
    requires |hash| == 32 && d < 256
    ensures ValidPow(hash, d) <==> LittleEndian(hash) < Pow2(256 - d)
  {
    hide LittleEndian, Pow2;
    var k, r := d / 8, d % 8;
    var low, high := hash[..31 - k], hash[31 - k..];
    var p, x, q := Pow2(8 * (31 - k)), LittleEndian(high), Pow2(8 - r);
    assert hash == low + high;
    LittleEndianAppend(low, high);
    LittleEndianBound(low);
    assert LittleEndian(hash) == LittleEndian(low) + p * x && LittleEndian(low) < p;
    assert Pow2(256 - d) == p * q by {
      Pow2Add(8 * (31 - k), 8 - r);
      assert 8 * (31 - k) + (8 - r) == 256 - d;
    }
    BelowProduct(LittleEndian(low), p, x, q);
    TopByteBelow(high, r);
    assert high[1..] == hash[32 - k..];
  }

  /** The bytes after the first must be zero for the number to be below 2^(8 - r). */
  lemma TopByteBelow(high: bytes, r: nat)
    requires high != [] && r < 8
    ensures LittleEndian(high) < Pow2(8 - r) <==>
            AllZero(high[1..]) && (r != 0 ==> high[0] as int < Pow2(8 - r))
  {
    SmallPowers();
    ZeroIffAllZero(high[1..]);
  }

  /** What copying a slice into a 64-byte field of zeros leaves there. */
  function Field64(signature: bytes): (r: bytes)
    ensures |r| == 64 && (|signature| == 64 ==> r == signature)
  {
    if |signature| >= 64 then signature[..64] else signature + Zeros(64 - |signature|)
  }

  function Mantissa(d: nat): (m: byte)
    requires d <= 280
    ensures m as int == Pow2((280 - d) % 8)
  {
    SmallPowers();
    Pow2((280 - d) % 8) as byte
  }

  /** A version that starts with 0x03, the signature where the two block hashes are, 0x0b, and the target. */
  function FakeHeader(signature: bytes, d: nat): (r: bytes)
    requires d <= 280
    ensures |r| == 80
  {
    [0x03, 0, 0, 0] + Field64(signature) + [0x0b, 0, 0, 0] + [Mantissa(d), 0, 0, ((280 - d) / 8) as byte] + [0, 0, 0, 0]
  }

  method BuildFakeHeader(signature: bytes, difficulty: nat) returns (header: array<byte>)
    requires difficulty <= 280
    ensures fresh(header) && header[..] == FakeHeader(signature, difficulty)
  {
    header := new byte[80](_ => 0);
    header[0] := 0x03;
    var n := if |signature| < 64 then |signature| else 64;
    for i := 0 to n
      invariant header[0] == 0x03 && header[1] == header[2] == header[3] == 0
      invariant forall j :: 4 <= j < 4 + i ==> header[j] == signature[j - 4]
      invariant forall j :: 4 + i <= j < 80 ==> header[j] == 0
    {
      header[4 + i] := signature[i];
    }
    header[68] := 0x0b;
    header[72] := Mantissa(difficulty);
    header[75] := ((280 - difficulty) / 8) as byte;
    forall j | 0 <= j < 80
      ensures header[..][j] == FakeHeader(signature, difficulty)[j]
    {
      if 4 <= j < 68 {
        assert FakeHeader(signature, difficulty)[j] == Field64(signature)[j - 4];
      }
    }
  }

  /** The header, field by field: version 3, the signature, cut off or filled up with zeros, in the place of the two
      hashes, 11 for the time, and a nonce of zero. */
  lemma FakeHeaderFields(signature: bytes, d: nat)
    requires d <= 280
    ensures var h := FakeHeader(signature, d);
            && LittleEndian(h[..4]) == 3 && LittleEndian(h[68..72]) == 11 && LittleEndian(h[76..]) == 0
            && (forall i :: 0 <= i < 64 ==> h[4 + i] == if i < |signature| then signature[i] else 0)
            && h[73] == 0 && h[74] == 0
  {
    var h := FakeHeader(signature, d);
    assert h[..4] == [3, 0, 0, 0] && h[68..72] == [11, 0, 0, 0] && h[76..] == [0, 0, 0, 0];
    LittleEndian4(h[..4]); LittleEndian4(h[68..72]); LittleEndian4(h[76..]);
    hide LittleEndian, FakeHeader;
    forall i | 0 <= i < 64
      ensures h[4 + i] == Field64(signature)[i]
    {
      FieldInHeader(signature, d, i);
    }
  }

  lemma FieldInHeader(signature: bytes, d: nat, i: nat)
    requires d <= 280 && i < 64
    ensures FakeHeader(signature, d)[4 + i] == Field64(signature)[i]
  {
    hide Field64, Mantissa;
  }

  /** The target that bytes 72 to 75 of a header stand for: a three-byte mantissa and a power of 256. */
  function CompactTarget(header: bytes): nat
    requires |header| == 80 && header[75] >= 3
  {
    LittleEndian(header[72..75]) * Pow2(8 * (header[75] as int - 3))
  }

  lemma MantissaValue(d: nat)
    requires d <= 280
    ensures LittleEndian([Mantissa(d), 0, 0]) == Pow2((280 - d) % 8)
  {
    hide Pow2;
    var m := [Mantissa(d), 0, 0];
    assert m[1..] == Zeros(2);
    LittleEndianZeros(2);
  }

  /** The header announces the very target that the difficulty test checks. */
  lemma FakeHeaderTarget(signature: bytes, d: nat, nonce: nat)
    requires d <= 256 && nonce < NONCES
    ensures var h := WithNonce(FakeHeader(signature, d), nonce);
            h[75] >= 3 && CompactTarget(h) == Pow2(256 - d)
  {
    var h := WithNonce(FakeHeader(signature, d), nonce);
    assert h[72..75] == [Mantissa(d), 0, 0] && h[75] as int == (280 - d) / 8;
    hide WithNonce, FakeHeader, Pow2, LittleEndian, Mantissa;
    MantissaValue(d);
    var q, r := (280 - d) / 8, (280 - d) % 8;
    assert r + 8 * (q - 3) == 256 - d;
    Pow2Add(r, 8 * (q - 3));
  }

  datatype GrindResult = GrindResult(header: bytes, hash: bytes, nonce: nat, tries: nat)

  datatype GrindError = BadLength | BadDifficulty | Exhausted(tries: nat) | Cancelled

  function Hash(H: HashFunction, m: bytes): (h: bytes)
    ensures |h| == 32
  {
    H(m)
  }

  predicate Hits(H: HashFunction, header: bytes, d: nat, nonce: nat)
    requires |header| == 80 && d < 256 && nonce < NONCES
  {
    ValidPow(Hash(H, WithNonce(header, nonce)), d)
  }

  predicate NoHitBelow(H: HashFunction, header: bytes, d: nat, end: nat)
    requires |header| == 80 && d < 256 && end <= NONCES
  {
    forall n: nat :: n < end ==> !Hits(H, header, d, n)
  }

  /** The context was asked after each of these misses and was not done. */
  predicate NotDoneBelow(cancelled: nat -> bool, end: nat) {
    forall n: nat :: n < end ==> !cancelled(n)
  }

  lemma ExtendMiss(H: HashFunction, header: bytes, d: nat, n: nat)
    requires |header| == 80 && d < 256 && n < NONCES
    ensures NoHitBelow(H, header, d, n) && !Hits(H, header, d, n) ==> NoHitBelow(H, header, d, n + 1)
  {
  }

  lemma ExtendNotDone(cancelled: nat -> bool, n: nat)
    ensures NotDoneBelow(cancelled, n) && !cancelled(n) ==> NotDoneBelow(cancelled, n + 1)
  {
  }

  lemma NothingTried(H: HashFunction, header: bytes, d: nat, cancelled: nat -> bool)
    requires |header| == 80 && d < 256
    ensures NoHitBelow(H, header, d, 0) && NotDoneBelow(cancelled, 0)
  {
  }

  /** What a search may report: the first hit, or that there is none, or that it was told to stop. */
  ghost predicate Reports(H: HashFunction, header: bytes, d: nat, cancelled: nat -> bool,
                          r: Result<GrindResult, GrindError>)
    requires |header| == 80 && d < 256
  {
    match r
    case Success(g) =>
      && g.nonce < NONCES && g.tries == g.nonce + 1
      && g.header == WithNonce(header, g.nonce) && g.hash == Hash(H, g.header)
      && Hits(H, header, d, g.nonce) && NoHitBelow(H, header, d, g.nonce) && NotDoneBelow(cancelled, g.nonce)
    case Failure(Exhausted(tries)) =>
      tries == NONCES && NoHitBelow(H, header, d, NONCES) && NotDoneBelow(cancelled, NONCES - 1)
    case Failure(Cancelled) =>
      exists k: nat :: k < NONCES - 1 && cancelled(k) && NotDoneBelow(cancelled, k) && NoHitBelow(H, header, d, k + 1)
    case _ => false
  }

  /** The sequential search. The caller's context is polled after every miss but the last. */
  method GrindHeader(H: HashFunction, header: bytes, difficulty: int, cancelled: nat -> bool)
    returns (r: Result<GrindResult, GrindError>)
    ensures |header| != 80 ==> r == Failure(BadLength)
    ensures |header| == 80 && !(0 <= difficulty <= 80) ==> r == Failure(BadDifficulty)
    ensures |header| == 80 && 0 <= difficulty <= 80 ==> Reports(H, header, difficulty, cancelled, r)
  {
    if |header| != 80 {
      return Failure(BadLength);
    }
    if difficulty < 0 || difficulty > 80 {
      return Failure(BadDifficulty);
    }
    hide ValidPow, Uint32Bytes, Hash, NoHitBelow, NotDoneBelow;
    var tries := 0;
    NothingTried(H, header, difficulty, cancelled);
    var work := new byte[80](i requires 0 <= i < 80 => header[i]);
    assert work[..] == header;
    var nonce := 0;
    while true
      invariant 0 <= nonce < NONCES && tries == nonce
      invariant work[..76] == header[..76]
      invariant NoHitBelow(H, header, difficulty, nonce) && NotDoneBelow(cancelled, nonce)
      decreases NONCES - nonce
    {
      PutUint32(work, nonce);
      var candidate := work[..];
      assert candidate == WithNonce(header, nonce);
      var hash := Hash(H, candidate);
      tries := tries + 1;
      var valid := ValidPowHash(hash, difficulty);
      assert valid <==> Hits(H, header, difficulty, nonce);
      if !valid {
        ExtendMiss(H, header, difficulty, nonce);
        ExtendNotDone(cancelled, nonce);
      }
      if valid {
        return Success(GrindResult(candidate, hash, nonce, tries));
      }
      if nonce == NONCES - 1 {
        return Failure(Exhausted(tries));
      }
      if cancelled(nonce) {
        return Failure(Cancelled);
      }
      nonce := nonce + 1;
    }
  }

  /** Writes a nonce into bytes 76 to 79, in place. */
  method PutUint32(work: array<byte>, n: nat)
    requires work.Length == 80 && n < NONCES
    modifies work
    ensures work[..] == WithNonce(old(work[..]), n)
    ensures work[..76] == old(work[..76]) && LittleEndian(work[76..]) == n
  {
    WithNonceFields(work[..], n);
    hide LittleEndian;
    ghost var before := work[..];
    work[76] := (n % 0x100) as byte;
    work[77] := (n / 0x100 % 0x100) as byte;
    work[78] := (n / 0x1_0000 % 0x100) as byte;
    work[79] := (n / 0x100_0000) as byte;
    assert work[..] == WithNonce(before, n);
    assert work[..][76..] == work[76..];
  }

  /** What the witness needs of a ground header. */
  datatype Pieces = Pieces(prefix: bytes, suffix: bytes, hB: bytes, hA: bytes)

  datatype SplitError = NotAHeader | NotDifficultEnough

  function SplitPowWitness(H: HashFunction, header: bytes, d: nat): (r: Result<Pieces, SplitError>)
    requires d < 256
    ensures r == Failure(NotAHeader) <==> |header| != 80
  {
    if |header| != 80 then Failure(NotAHeader) else
    var hash := H(header);
    if !ValidPow(hash, d) then Failure(NotDifficultEnough) else
    var n := 32 - d / 8 - 1;
    Success(Pieces(header[1..4], header[69..], hash[..n], [hash[n]]))
  }

  /** The hash goes back together from its pieces. */
  lemma SplitHash(H: HashFunction, header: bytes, d: nat)
    requires |header| == 80 && d < 256
    ensures SplitPowWitness(H, header, d).Success? <==> LittleEndian(H(header)) < Pow2(256 - d)
    ensures SplitPowWitness(H, header, d).Failure? ==> SplitPowWitness(H, header, d).error == NotDifficultEnough
    ensures SplitPowWitness(H, header, d).Success? ==>
              var p := SplitPowWitness(H, header, d).value;
              && H(header) == p.hB + (p.hA + Zeros(d / 8))
              && |p.hA| == 1 && p.hA[0] as int < Pow2(8 - d % 8)
  {
    var hash := H(header);
    ValidPowIsTarget(hash, d);
    if ValidPow(hash, d) {
      var n := 32 - d / 8 - 1;
      assert hash[n + 1..] == Zeros(d / 8);
      assert hash == hash[..n] + ([hash[n]] + hash[n + 1..]);
      SmallPowers();
    }
  }

  lemma GroundParts(signature: bytes, d: nat, nonce: nat)
    requires |signature| == 64 && d < 256 && nonce < NONCES
    ensures var header := WithNonce(FakeHeader(signature, d), nonce);
            header[..1] == [0x03] && header[4..68] == signature && header[68..69] == [0x0b]
  {
  }

  /** So does a header that was ground from a fake one: the search only touched its last four bytes. */
  lemma SplitHeader(H: HashFunction, signature: bytes, d: nat, nonce: nat)
    requires |signature| == 64 && d < 256 && nonce < NONCES
    ensures var header := WithNonce(FakeHeader(signature, d), nonce);
            var split := SplitPowWitness(H, header, d);
            split.Success? ==>
              && |split.value.prefix| == 3 && |split.value.suffix| == 11
              && header == [0x03] + split.value.prefix + signature + [0x0b] + split.value.suffix
  {
    hide FakeHeader, WithNonce, ValidPow;
    var header := WithNonce(FakeHeader(signature, d), nonce);
    GroundParts(signature, d, nonce);
    assert header == header[..1] + header[1..4] + header[4..68] + header[68..69] + header[69..];
  }

  /** Uncancelled, the search fails only when there is nothing to find. */
  lemma UncancelledSearch(H: HashFunction, header: bytes, d: nat, cancelled: nat -> bool,
                          r: Result<GrindResult, GrindError>)
    requires |header| == 80 && d < 256 && forall k :: !cancelled(k)
    ensures Reports(H, header, d, cancelled, r) ==>
              && (r.Success? <==> exists n: nat :: n < NONCES && Hits(H, header, d, n))
              && (r.Failure? ==> r == Failure(Exhausted(NONCES)))
  {
  }
}
