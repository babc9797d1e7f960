/** The sequential solver (shasolve/cpu.go), and the agreement of the parallel solvers with it. */
module Search {
  import opened Bytes
  import opened Race
  import opened Batches

  datatype CpuError = NoSolution(tries: nat) | Cancelled

  datatype Solution = Solution(nonce: nat, tries: nat)

  predicate NoneBefore(valid: nat -> bool, start: nat, end: nat) {
    forall n: nat :: start <= n < end ==> !valid(n)
  }

  /** The context, which is asked before each nonce, was not done. */
  predicate NotDone(cancelled: nat -> bool, start: nat, end: nat) {
    forall n: nat :: start <= n < end ==> !cancelled(n)
  }

  /** The first valid nonce and how many were tried, or that there is none, or that the context ended; it is heeded
      the first time. */
  ghost predicate CpuOutcome(valid: nat -> bool, start: nat, limit: nat, cancelled: nat -> bool,
                             r: Result<Solution, CpuError>)
  {
    match r
    case Success(s) =>
      && start <= s.nonce < SearchEnd(start, limit) && valid(s.nonce) && NoneBefore(valid, start, s.nonce)
      && s.tries == s.nonce - start + 1 && NotDone(cancelled, start, s.nonce + 1)
    case Failure(NoSolution(tries)) =>
      && NoneBefore(valid, start, SearchEnd(start, limit)) && tries == SearchEnd(start, limit) - start
      && NotDone(cancelled, start, SearchEnd(start, limit))
    case Failure(Cancelled) =>
      exists n: nat :: start <= n < SearchEnd(start, limit) &&
                       cancelled(n) && NotDone(cancelled, start, n) && NoneBefore(valid, start, n)
  }

  lemma ExtendNone(valid: nat -> bool, start: nat, n: nat)
    requires NoneBefore(valid, start, n) && !valid(n)
    ensures NoneBefore(valid, start, n + 1)
  {
  }

  method SolveOnCpu(valid: nat -> bool, start: nat, jobLimit: nat, cancelled: nat -> bool)
    returns (r: Result<Solution, CpuError>)
    requires start < NONCES
    ensures CpuOutcome(valid, start, Budget(start, jobLimit), cancelled, r)
  {
    hide NoneBefore;
    var limit := Budget(start, jobLimit);
    var tries := 0;
    var nonce := start;
    NoneAtStart(valid, start);
    while tries < limit
      invariant nonce == start + tries && nonce < NONCES && tries <= limit
      invariant NoneBefore(valid, start, nonce) && NotDone(cancelled, start, nonce)
      decreases NONCES - nonce
    {
      if cancelled(nonce) {
        return Failure(Cancelled);
      }
      tries := tries + 1;
      if valid(nonce) {
        return Success(Solution(nonce, tries));
      }
      ExtendNone(valid, start, nonce);
      if nonce == NOT_FOUND {
        return Failure(NoSolution(tries));
      }
      nonce := nonce + 1;
    }
    return Failure(NoSolution(tries));
  }

  lemma NoneAtStart(valid: nat -> bool, start: nat)
    ensures NoneBefore(valid, start, start)
  {
  }

  /** The range reaches the sentinel, and nothing before it is valid. */
  predicate OnlyTheSentinel(valid: nat -> bool, start: nat, limit: nat) {
    start + limit == NONCES && valid(NOT_FOUND) && NoneBefore(valid, start, NOT_FOUND)
  }

  /** Under CUDA's swap the search in batches finds a nonce exactly when the sequential search does, unless the
      only valid nonce is the sentinel; and the two nonces are in the same batch. */
  lemma SearchesAgree(valid: nat -> bool, start: nat, limit: nat, size: nat, found: nat, tries: nat,
                      cancelled: nat -> bool, r: Result<Solution, CpuError>)
    requires start < NONCES && 0 < size && start + limit <= NONCES
    requires SearchOutcome(Cuda, valid, start, limit, size, found, tries)
    requires CpuOutcome(valid, start, limit, cancelled, r) && forall n :: !cancelled(n)
    ensures found != NOT_FOUND <==> r.Success? && r.value.nonce != NOT_FOUND
    ensures (found != NOT_FOUND <==> r.Success?) <==> !OnlyTheSentinel(valid, start, limit)
    ensures found != NOT_FOUND ==>
      valid(found) && valid(r.value.nonce) && r.value.nonce <= found &&
      (r.value.nonce - start) / size == (found - start) / size
  {
    if found != NOT_FOUND {
      var i := (found - start) / size;
      var least := r.value.nonce;
      assert least >= start + Offset(i, size);
      SameBatch(start, size, i, least, found);
    }
  }

  lemma SameBatch(start: nat, size: nat, i: nat, n: nat, m: nat)
    requires size > 0 && start <= n <= m && i == (m - start) / size && n >= start + Offset(i, size)
    ensures (n - start) / size == i
  {
    hide Offset;
    DivisionBounds(m - start, size);
    BatchIndex(i, size, n - start - Offset(i, size));
  }

  lemma DivisionBounds(x: nat, size: nat)
    requires size > 0
    ensures Offset(x / size, size) <= x < Offset(x / size, size) + size
  {
    assert x == size * (x / size) + x % size;
  }

  /** On any kernel what the search in batches finds is valid and no smaller than the first hit. */
  lemma FoundAfterFirst(k: Backend, valid: nat -> bool, start: nat, limit: nat, size: nat, found: nat, tries: nat,
                        cancelled: nat -> bool, r: Result<Solution, CpuError>)
    requires start < NONCES && 0 < size && start + limit <= NONCES
    requires SearchOutcome(k, valid, start, limit, size, found, tries) && found != NOT_FOUND
    requires CpuOutcome(valid, start, limit, cancelled, r) && forall n :: !cancelled(n)
    ensures r.Success? && r.value.nonce <= found
  {
  }

  /** Wherever the range ends: under a strong swap the batches find something if the sequential search finds a nonce
      other than the sentinel; and if they find something where it finds nothing, that is a nonce from before the
      start, to which the last batch wrapped around. */
  lemma SearchesAgreeBeyond(valid: nat -> bool, start: nat, limit: nat, size: nat, batches: seq<Batch>, found: nat,
                            tries: nat, cancelled: nat -> bool, r: Result<Solution, CpuError>)
    requires start < NONCES && 0 < size < NONCES
    requires Tiles(batches, start, limit, size) && Examined(Cuda, valid, batches, found)
    requires Searched(Cuda, valid, start, limit, size, batches, found, tries)
    requires CpuOutcome(valid, start, limit, cancelled, r) && forall n :: !cancelled(n)
    ensures r.Success? && r.value.nonce != NOT_FOUND ==> found != NOT_FOUND
    ensures r.Failure? && found != NOT_FOUND ==> found < start && start + limit > NONCES
  {
    hide Offset;
    if r.Failure? && found != NOT_FOUND {
      var last := |batches| - 1;
      WrappedHit(valid, start, limit, BatchAt(start, limit, size, last), found);
    }
  }

  lemma WrappedHit(valid: nat -> bool, start: nat, limit: nat, b: Batch, found: nat)
    requires start <= b.start < NONCES && b.start + b.count <= start + limit && b.count < NONCES
    requires IsHit(valid, b, found) && NoneBefore(valid, start, SearchEnd(start, limit))
    ensures found < start && start + limit > NONCES
  {
    var g: nat :| g < b.count && NonceOf(b, g) == found;
    if b.start + g < NONCES {
      assert false;
    } else {
      assert found == b.start + g - NONCES;
    }
  }
}
