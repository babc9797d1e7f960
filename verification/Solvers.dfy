/** The solver package as a whole, and how its difficulty relates to the faucet's. */
module Solvers {
  import opened Bytes
  import opened Sha256
  import opened WordOps
  import opened Kernel
  import opened Difficulty
  import opened CheckNonce
  import opened WebGpu
  import opened Race
  import opened Batches
  import opened Search
  import opened Grind
  import opened Claim
  import Script

  /** The nonces that Verify accepts. */
  function Verified(header: bytes, d: nat): nat -> bool
    requires |header| == 80
  {
    (n: nat) => n < NONCES && Verifies(header, d, n)
  }

  /** The nonces that the threads of a kernel accept, given the midstate and the tail words of the header. */
  function KernelAccepts(header: bytes, d: nat): nat -> bool
    requires |header| == 80
  {
    (n: nat) => n < NONCES &&
      HasTrailingZeroBits(FastDoubleHash(Midstate(header), HeaderWord(header, 16), HeaderWord(header, 17),
                                         HeaderWord(header, 18), Uint32Word(n)), d)
  }

  lemma KernelAcceptsVerified(header: bytes, d: nat)
    requires |header| == 80 && d <= 80
    ensures forall n: nat :: KernelAccepts(header, d)(n) == Verified(header, d)(n)
  {
    hide HasTrailingZeroBits, FastDoubleHash, Midstate, HeaderWord, Uint32Word, Verifies;
    forall n: nat
      ensures KernelAccepts(header, d)(n) == Verified(header, d)(n)
    {
      if n < NONCES {
        CheckNonceIsVerify(header, n, d);
      }
    }
  }

  /** The nonces that the threads of a backend accept: WebGPU runs the shader that is generated for the job. */
  function DeviceAccepts(k: Backend, header: bytes, d: nat): nat -> bool
    requires |header| == 80
  {
    if k.WebGpu? then (n: nat) => n < NONCES && ShaderAccepts(header, d, n) else KernelAccepts(header, d)
  }

  /** Every backend accepts exactly what Verify accepts. */
  lemma DeviceAcceptsVerified(k: Backend, header: bytes, d: nat)
    requires |header| == 80 && d <= 80
    ensures forall n: nat :: DeviceAccepts(k, header, d)(n) == Verified(header, d)(n)
  {
    hide KernelAccepts, ShaderAccepts, Verifies;
    KernelAcceptsVerified(header, d);
    forall n: nat
      ensures DeviceAccepts(k, header, d)(n) == Verified(header, d)(n)
    {
      if n < NONCES {
        ShaderIsVerify(header, n, d);
      }
    }
  }

  lemma SameOutcome(k: Backend, f: nat -> bool, g: nat -> bool, start: nat, limit: nat, size: nat,
                    found: nat, tries: nat)
    requires size > 0 && SearchOutcome(k, f, start, limit, size, found, tries) && forall n: nat :: f(n) == g(n)
    ensures SearchOutcome(k, g, start, limit, size, found, tries)
  {
    hide Offset;
  }

  lemma SameSearched(k: Backend, f: nat -> bool, g: nat -> bool, start: nat, limit: nat, size: nat,
                     batches: seq<Batch>, found: nat, tries: nat)
    requires forall n: nat :: f(n) == g(n)
    requires Examined(k, f, batches, found) && Searched(k, f, start, limit, size, batches, found, tries)
    ensures Examined(k, g, batches, found) && Searched(k, g, start, limit, size, batches, found, tries)
  {
    hide Offset;
  }

  datatype SolveError = BadDifficulty | NotFound(tries: nat) | Stopped

  datatype Solved = Solved(header: bytes, hash: bytes, nonce: nat, tries: nat, zeroBits: nat)

  /** Metal does not cap the batch size. */
  function EffectiveBatchSize(k: Backend, solver: nat, job: nat): (b: nat)
    ensures b > 0
    ensures k != Metal ==> b <= 16_776_960
    ensures solver != 0 && (k == Metal || solver <= 16_776_960) ==> b == solver
    ensures solver == 0 && job != 0 && (k == Metal || job <= 16_776_960) ==> b == job
    ensures k != Metal && (solver > 16_776_960 || (solver == 0 && job > 16_776_960)) ==> b == 16_776_960
    ensures solver == 0 && job == 0 ==> b == 16_776_960
  {
    if k.Metal? then (if solver != 0 then solver else if job == 0 then DEFAULT_BATCH_SIZE else job)
    else BatchSize(solver, job)
  }

  /** The search came to an end of its own. */
  predicate Answered(r: Result<Solved, SolveError>) {
    r.Success? || r.error.NotFound?
  }

  function FoundBy(r: Result<Solved, SolveError>): nat {
    if r.Success? then r.value.nonce else NOT_FOUND
  }

  function TriesOf(r: Result<Solved, SolveError>): nat
    requires Answered(r)
  {
    if r.Success? then r.value.tries else r.error.tries
  }

  /** What every result says of its nonce. */
  predicate Proven(header: bytes, difficulty: nat, s: Solved)
    requires |header| == 80
  {
    && s.nonce < NONCES && Verifies(header, difficulty, s.nonce)
    && s.header == WithNonce(header, s.nonce) && s.hash == DoubleSha256(s.header)
    && s.zeroBits == TrailingZeros(s.hash) >= difficulty
  }

  /** result of the solver package. */
  method MakeResult(header: bytes, nonce: nat, tries: nat) returns (s: Solved)
    requires |header| == 80 && nonce < NONCES
    ensures s.nonce == nonce && s.tries == tries && s.header == WithNonce(header, nonce)
    ensures s.hash == DoubleSha256(s.header) && s.zeroBits == TrailingZeros(s.hash)
  {
    hide DoubleSha256, TrailingZeros, WithNonce;
    var hash := HeaderHash(header, nonce);
    var zeros := TrailingZeroBits(hash);
    s := Solved(WithNonce(header, nonce), hash, nonce, tries, zeros);
  }

  lemma HoldsProof(header: bytes, difficulty: nat, s: Solved)
    requires |header| == 80 && s.nonce < NONCES
    ensures s.header == WithNonce(header, s.nonce) && s.hash == DoubleSha256(s.header) &&
            s.zeroBits == TrailingZeros(s.hash) && Verifies(header, difficulty, s.nonce) ==>
              Proven(header, difficulty, s)
  {
    hide DoubleSha256, TrailingZeros, WithNonce;
  }

  lemma SomeLaunched(k: Backend, valid: nat -> bool, start: nat, limit: nat, size: nat, batches: seq<Batch>,
                     found: nat, tries: nat)
    requires start < NONCES && limit > 0 && tries == Min(limit, Offset(|batches|, size))
    requires Searched(k, valid, start, limit, size, batches, found, tries)
    ensures batches != []
  {
  }

  /** Solve of the three parallel backends, on a device whose batches run as its threads do. CUDA and Metal ask the
      context at the start and at the end, WebGPU before every batch. */
  method Solve(k: Backend, header: bytes, difficulty: nat, start: nat, jobLimit: nat, jobBatch: nat,
               solverBatch: nat, device: (nat, nat) -> nat, cancelled: nat -> bool)
    returns (r: Result<Solved, SolveError>, ghost batches: seq<Batch>)
    requires |header| == 80 && start < NONCES && jobBatch < NONCES && solverBatch < NONCES
    requires forall s: nat, c: nat :: DeviceRuns(k, DeviceAccepts(k, header, difficulty), Batch(s, c), device(s, c))
    ensures r == Failure(SolveError.BadDifficulty) <==> difficulty > 80 && (k.WebGpu? || !cancelled(0))
    ensures k.WebGpu? ==> NoneCancelled(cancelled, |batches|)
    ensures k.WebGpu? && r == Failure(Stopped) ==> cancelled(|batches|)
    ensures k.WebGpu? && difficulty <= 80 && cancelled(0) ==> r == Failure(Stopped)
    ensures !k.WebGpu? ==> (r == Failure(Stopped) <==> cancelled(0) || (difficulty <= 80 && cancelled(1)))
    ensures r.Success? ==> Proven(header, difficulty, r.value) && r.value.nonce != NOT_FOUND
    ensures Answered(r) ==>
      Tiles(batches, start, Budget(start, jobLimit), EffectiveBatchSize(k, solverBatch, jobBatch)) &&
      Examined(k, Verified(header, difficulty), batches, FoundBy(r)) &&
      Searched(k, Verified(header, difficulty), start, Budget(start, jobLimit),
               EffectiveBatchSize(k, solverBatch, jobBatch), batches, FoundBy(r), TriesOf(r))
    ensures Answered(r) && start + Budget(start, jobLimit) <= NONCES ==>
      SearchOutcome(k, Verified(header, difficulty), start, Budget(start, jobLimit),
                    EffectiveBatchSize(k, solverBatch, jobBatch), FoundBy(r), TriesOf(r))
  {
    hide SearchOutcome, Searched, Examined, Tiles, DeviceRuns, DeviceAccepts, Proven, Verifies, DoubleSha256,
      TrailingZeros, WithNonce;
    batches := [];
    if !k.WebGpu? && cancelled(0) {
      return Failure(Stopped), batches;
    }
    if difficulty > 80 {
      return Failure(SolveError.BadDifficulty), batches;
    }
    var limit := Budget(start, jobLimit);
    var size := EffectiveBatchSize(k, solverBatch, jobBatch);
    var found, tries, stopped;
    found, tries, stopped, batches :=
      SolveInBatches(k, DeviceAccepts(k, header, difficulty), start, limit, size, device, cancelled);
    if stopped || (!k.WebGpu? && cancelled(1)) {
      return Failure(Stopped), batches;
    }
    if k.WebGpu? {
      SomeLaunched(k, DeviceAccepts(k, header, difficulty), start, limit, size, batches, found, tries);
    }
    DeviceAcceptsVerified(k, header, difficulty);
    SameSearched(k, DeviceAccepts(k, header, difficulty), Verified(header, difficulty), start, limit, size, batches,
                 found, tries);
    if start + limit <= NONCES {
      SameOutcome(k, DeviceAccepts(k, header, difficulty), Verified(header, difficulty), start, limit, size,
                  found, tries);
    }
    if found == NOT_FOUND {
      return Failure(NotFound(tries)), batches;
    }
    assert Verified(header, difficulty)(found);
    var s := MakeResult(header, found, tries);
    HoldsProof(header, difficulty, s);
    return Success(s), batches;
  }

  /** The outcome of the sequential solver, in its own terms. */
  function AsCpuResult(r: Result<Solved, SolveError>): Result<Solution, CpuError>
    requires r != Failure(SolveError.BadDifficulty)
  {
    match r
    case Success(s) => Success(Solution(s.nonce, s.tries))
    case Failure(NotFound(tries)) => Failure(NoSolution(tries))
    case Failure(_) => Failure(CpuError.Cancelled)
  }

  /** Solve of the sequential solver. */
  method SolveSequentially(header: bytes, difficulty: nat, start: nat, jobLimit: nat, cancelled: nat -> bool)
    returns (r: Result<Solved, SolveError>)
    requires |header| == 80 && start < NONCES
    ensures r == Failure(SolveError.BadDifficulty) <==> difficulty > 80
    ensures r.Success? ==> Proven(header, difficulty, r.value)
    ensures difficulty <= 80 ==>
      CpuOutcome(Verified(header, difficulty), start, Budget(start, jobLimit), cancelled, AsCpuResult(r))
  {
    hide Proven, Verifies, DoubleSha256, TrailingZeros, WithNonce;
    if difficulty > 80 {
      return Failure(SolveError.BadDifficulty);
    }
    var c := SolveOnCpu(Verified(header, difficulty), start, jobLimit, cancelled);
    match c {
      case Success(s) =>
        assert Verified(header, difficulty)(s.nonce);
        var solved := MakeResult(header, s.nonce, s.tries);
        HoldsProof(header, difficulty, solved);
        r := Success(solved);
      case Failure(NoSolution(tries)) => r := Failure(NotFound(tries));
      case Failure(Cancelled) => r := Failure(Stopped);
    }
  }

  /** Parallel search agrees with sequential search, for Verify itself. */
  lemma SolversAgree(header: bytes, d: nat, start: nat, limit: nat, size: nat, found: nat, tries: nat,
                     cancelled: nat -> bool, cpu: Result<Solution, CpuError>)
    requires |header| == 80 && start < NONCES && size > 0 && start + limit <= NONCES && forall n :: !cancelled(n)
    ensures SearchOutcome(Cuda, Verified(header, d), start, limit, size, found, tries) &&
            CpuOutcome(Verified(header, d), start, limit, cancelled, cpu) ==>
              && (found != NOT_FOUND <==> cpu.Success? && cpu.value.nonce != NOT_FOUND)
              && ((found != NOT_FOUND <==> cpu.Success?) <==> !OnlyTheSentinel(Verified(header, d), start, limit))
              && (found != NOT_FOUND ==>
                    && found < NONCES && cpu.value.nonce < NONCES
                    && Verifies(header, d, found) && Verifies(header, d, cpu.value.nonce)
                    && (cpu.value.nonce - start) / size == (found - start) / size)
  {
    hide Verifies, SearchOutcome, CpuOutcome, OnlyTheSentinel;
    if SearchOutcome(Cuda, Verified(header, d), start, limit, size, found, tries) &&
       CpuOutcome(Verified(header, d), start, limit, cancelled, cpu) {
      SearchesAgree(Verified(header, d), start, limit, size, found, tries, cancelled, cpu);
    }
  }

  // The two meanings of difficulty: the faucet compares the hash with a target, the solver counts zero bits.

  function Witness(x: byte, k: nat): (h: bytes)
    requires k < 32
    ensures |h| == 32
  {
    Zeros(31 - k) + [x] + Zeros(k)
  }

  lemma WitnessBits(x: byte, k: nat)
    requires k < 32 && x != 0
    ensures TrailingZeros(Witness(x, k)) == 8 * k + TrailingZeros8(x)
    ensures forall r: nat :: 8 * k <= r < 8 * k + 8 ==>
              (ValidPow(Witness(x, k), r) <==> r % 8 == 0 || x as int < Pow2(8 - r % 8))
  {
    hide TrailingZeros8, Pow2;
    var h := Witness(x, k);
    TrailingZerosAppend(Zeros(31 - k) + [x], Zeros(k));
    assert (Zeros(31 - k) + [x])[..31 - k] == Zeros(31 - k);
    assert h[31 - k] == x && h[32 - k..] == Zeros(k);
  }

  lemma OneAnd128()
    ensures TrailingZeros8(1) == 0 && TrailingZeros8(0x80) == 7
  {
    SmallPowers();
    TrailingZeros8AtLeast(1, 1);
    TrailingZeros8AtLeast(0x80, 7);
    TrailingZeros8AtLeast(0x80, 8);
  }

  lemma PowerBounds(r: nat)
    requires 0 < r < 8
    ensures 1 < Pow2(8 - r) <= 0x80
  {
    SmallPowers();
    match r
    case 1 => case 2 => case 3 => case 4 => case 5 => case 6 => case 7 =>
  }

  /** For whole bytes the two tests are the same. */
  lemma SameForWholeBytes(hash: bytes, d: nat)
    requires |hash| == 32 && d < 256 && d % 8 == 0
    ensures ValidPow(hash, d) <==> TrailingZeros(hash) >= d
  {
    hide TrailingZeros;
    var low, high := hash[..32 - d / 8], hash[32 - d / 8..];
    assert hash == low + high;
    TrailingZerosAppend(low, high);
  }

  /** Otherwise neither implies the other. */
  lemma NeitherImpliesOther(d: nat)
    requires d < 256 && d % 8 != 0
    ensures exists h: bytes :: |h| == 32 && ValidPow(h, d) && TrailingZeros(h) < d
    ensures exists h: bytes :: |h| == 32 && TrailingZeros(h) >= d && !ValidPow(h, d)
  {
    hide TrailingZeros, ValidPow, TrailingZeros8, Pow2, Witness;
    var k := d / 8;
    OneAnd128();
    PowerBounds(d % 8);
    WitnessBits(1, k);
    WitnessBits(0x80, k);
    var h1, h2 := Witness(1, k), Witness(0x80, k);
    assert ValidPow(h1, d) && TrailingZeros(h1) < d;
    assert TrailingZeros(h2) >= d && !ValidPow(h2, d);
  }

  /** The solver package's test may stand in for the faucet's exactly at the multiples of 8. */
  lemma TestsAgreeExactly(d: nat)
    requires d < 256
    ensures (forall h: bytes :: |h| == 32 ==> (ValidPow(h, d) <==> TrailingZeros(h) >= d)) <==> d % 8 == 0
    ensures (forall h: bytes :: |h| == 32 && TrailingZeros(h) >= d ==> ValidPow(h, d)) <==> d % 8 == 0
  {
    hide TrailingZeros, ValidPow;
    if d % 8 == 0 {
      forall h: bytes | |h| == 32
        ensures ValidPow(h, d) <==> TrailingZeros(h) >= d
      {
        SameForWholeBytes(h, d);
      }
    } else {
      NeitherImpliesOther(d);
    }
  }

  /** So a header that meets the solver's test is sure to yield a witness, whatever the hash function, exactly at the
      multiples of 8. */
  lemma SplitSafeExactly(d: nat)
    requires d < 256
    ensures (forall H: HashFunction, header: bytes :: |header| == 80 && TrailingZeros(H(header)) >= d ==>
               SplitPowWitness(H, header, d).Success?) <==> d % 8 == 0
  {
    hide TrailingZeros, ValidPow;
    if d % 8 == 0 {
      forall H: HashFunction, header: bytes | |header| == 80 && TrailingZeros(H(header)) >= d
        ensures SplitPowWitness(H, header, d).Success?
      {
        SameForWholeBytes(H(header), d);
      }
    } else {
      NeitherImpliesOther(d);
      var h: bytes :| |h| == 32 && TrailingZeros(h) >= d && !ValidPow(h, d);
      var H: HashFunction := (m: bytes) => h;
      assert H(Zeros(80)) == h;
      assert !SplitPowWitness(H, Zeros(80), d).Success?;
    }
  }

  /** The solvers that a claim may be given: the sequential one, or a backend with a batch size of its own (0 for none)
      and a device. */
  datatype Solver = Cpu | Parallel(k: Backend, batchSize: nat, device: (nat, nat) -> nat)

  /** The device of a parallel solver runs as the threads of its backend do on that job. */
  ghost predicate Works(s: Solver, header: bytes, d: nat)
    requires |header| == 80
  {
    s.Parallel? ==>
      s.batchSize < NONCES &&
      forall from: nat, c: nat ::
        DeviceRuns(s.k, DeviceAccepts(s.k, header, d), Batch(from, c), s.device(from, c))
  }

  /** Some nonce below the end gives a header that Verify accepts. */
  ghost predicate Solvable(header: bytes, d: nat, end: nat)
    requires |header| == 80 && end <= NONCES
  {
    exists n: nat :: n < end && Verifies(header, d, n)
  }

  /** What a claim's parallel search reports: it covers all the nonces, in batches of the solver's own size if it has
      one. */
  ghost predicate SolverOutcome(s: Solver, header: bytes, d: nat, found: nat, tries: nat)
    requires |header| == 80 && s.Parallel?
  {
    SearchOutcome(s.k, Verified(header, d), 0, NONCES, EffectiveBatchSize(s.k, s.batchSize, 0), found, tries)
  }

  /** The job of a claim starts at nonce 0, and states neither a limit nor a batch size. */
  method SolveClaim(s: Solver, header: bytes, d: nat, cancelled: nat -> bool) returns (r: Result<Solved, SolveError>)
    requires |header| == 80 && d <= 80 && Works(s, header, d)
    ensures r.Success? ==> Proven(header, d, r.value)
    ensures r != Failure(SolveError.BadDifficulty)
    ensures s.Cpu? ==> CpuOutcome(Verified(header, d), 0, NONCES, cancelled, AsCpuResult(r))
    ensures s.Cpu? && (forall i :: !cancelled(i)) ==>
      (r.Success? <==> Solvable(header, d, NONCES))
    ensures s.Parallel? && Answered(r) ==> SolverOutcome(s, header, d, FoundBy(r), TriesOf(r))
    ensures s.Parallel? && (forall i :: !cancelled(i)) ==> Answered(r)
    ensures s.Parallel? && cancelled(0) ==> r == Failure(Stopped)
    ensures s.Parallel? && s.k == Cuda && (forall i :: !cancelled(i)) ==>
      (r.Success? <==> Solvable(header, d, NOT_FOUND))
  {
    hide SearchOutcome, Searched, Examined, Tiles, DeviceRuns, DeviceAccepts, Proven, Verifies, CpuOutcome;
    match s {
      case Cpu =>
        r := SolveSequentially(header, d, 0, 0, cancelled);
        CpuFindsAll(header, d, cancelled, r);
      case Parallel(k, batchSize, device) =>
        ghost var batches;
        r, batches := Solve(k, header, d, 0, 0, 0, batchSize, device, cancelled);
        if k == Cuda && Answered(r) {
          CudaFindsAll(header, d, EffectiveBatchSize(k, batchSize, 0), FoundBy(r), TriesOf(r));
        }
    }
  }

  lemma CudaFindsAll(header: bytes, d: nat, size: nat, found: nat, tries: nat)
    requires |header| == 80 && size > 0
    requires SearchOutcome(Cuda, Verified(header, d), 0, NONCES, size, found, tries)
    ensures found != NOT_FOUND <==> Solvable(header, d, NOT_FOUND)
  {
    hide Verifies, Offset;
    if found == NOT_FOUND {
      forall n: nat | n < NOT_FOUND
        ensures !Verifies(header, d, n)
      {
        assert !Verified(header, d)(n);
      }
    } else {
      assert Verified(header, d)(found);
    }
  }

  lemma CpuFindsAll(header: bytes, d: nat, cancelled: nat -> bool, r: Result<Solved, SolveError>)
    requires |header| == 80 && d <= 80 && r != Failure(SolveError.BadDifficulty)
    requires CpuOutcome(Verified(header, d), 0, Budget(0, 0), cancelled, AsCpuResult(r))
    ensures (forall i :: !cancelled(i)) ==>
              (r.Success? <==> Solvable(header, d, NONCES))
  {
    hide Verifies;
    if r.Success? {
      assert Verified(header, d)(r.value.nonce);
    } else if r.error.NotFound? {
      forall n: nat | n < NONCES
        ensures !Verifies(header, d, n)
      {
        assert !Verified(header, d)(n);
      }
    }
  }

  function NonceIn(answer: Option<nat>): nat {
    if answer.Some? then answer.value else NOT_FOUND
  }

  /** What becomes of a claim whose header an external solver has ground: it yields a witness exactly when the hash
      happens to be below the target too, which is certain when the difficulty is a multiple of 8. */
  method ClaimWithSolver(s: Solver, signature: bytes, key: bytes, d: nat, cancelled: nat -> bool)
    returns (r: Result<Script.Stack, ClaimError>, answer: Option<nat>)
    requires |signature| == 64 && d <= 80 && Works(s, FakeHeader(signature, d), d)
    ensures answer.Some? ==> answer.value < NONCES && Verifies(FakeHeader(signature, d), d, answer.value)
    ensures s.Cpu? && (forall i :: !cancelled(i)) ==>
      (answer.Some? <==> Solvable(FakeHeader(signature, d), d, NONCES))
    ensures s.Parallel? && (forall i :: !cancelled(i)) ==>
      exists tries: nat :: SolverOutcome(s, FakeHeader(signature, d), d, NonceIn(answer), tries)
    ensures s.Parallel? && s.k == Cuda && (forall i :: !cancelled(i)) ==>
      (answer.Some? <==> Solvable(FakeHeader(signature, d), d, NOT_FOUND))
    ensures r.Failure? ==> r.error == if answer.None? then NotGround else NotSplit
    ensures r.Success? <==>
      answer.Some? && ValidPow(DoubleSha256(WithNonce(FakeHeader(signature, d), answer.value)), d)
    ensures answer.Some? && d % 8 == 0 ==> r.Success?
  {
    hide DoubleSha256, TrailingZeros, FakeHeader, Works, ValidPow, WithNonce, SolverOutcome, CpuOutcome;
    var header := FakeHeader(signature, d);
    var solved := SolveClaim(s, header, d, cancelled);
    answer := if solved.Success? then Some(solved.value.nonce) else None;
    if s.Parallel? && Answered(solved) {
      assert SolverOutcome(s, header, d, NonceIn(answer), TriesOf(solved));
    }
    if answer.Some? && d % 8 == 0 {
      SameForWholeBytes(DoubleSha256(WithNonce(header, answer.value)), d);
    }
    ghost var n;
    r, n := BuildWitness(DoubleSha256, signature, key, d, External(answer));
  }
}
