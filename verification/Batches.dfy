/** The loop that launches one batch after another (shasolve_cuda_solve, shasolve_metal_solve and
    WebGPUSolver.Solve). */
module Batches {
  import opened Bytes
  import opened Race

  const DEFAULT_BATCH_SIZE := 65535 * 256

  /** The batch size that the CUDA and WebGPU solvers end up with: the solver's own if it has one, else the job's,
      else the default; and never more than the default. */
  function BatchSize(solver: nat, job: nat): (b: nat)
    ensures 0 < b <= 16_776_960
    ensures 0 < solver <= 16_776_960 ==> b == solver
    ensures solver == 0 && 0 < job <= 16_776_960 ==> b == job
    ensures solver == 0 == job ==> b == 16_776_960
    ensures solver > 16_776_960 || (solver == 0 && job > 16_776_960) ==> b == 16_776_960
  {
    var normalized := if job == 0 then DEFAULT_BATCH_SIZE else job;
    var own := if solver != 0 then solver else normalized;
    if own > DEFAULT_BATCH_SIZE then DEFAULT_BATCH_SIZE else own
  }

  /** How many nonces a job asks for: all from the start if it does not say. */
  function Budget(start: nat, limit: nat): (l: nat)
    requires start < NONCES
    ensures l > 0 && (limit == 0 ==> start + l == NONCES) && (limit != 0 ==> l == limit)
  {
    if limit == 0 then NOT_FOUND - start + 1 else limit
  }

  /** The device leaves the cell as some complete run of the batch does. */
  ghost predicate DeviceRuns(k: Backend, valid: nat -> bool, b: Batch, cell: nat) {
    exists run: seq<State> :: IsCompleteRun(k, valid, b, run) && run[|run| - 1].cell == cell
  }

  lemma DeviceOutcome(k: Backend, valid: nat -> bool, b: Batch, cell: nat)
    requires DeviceRuns(k, valid, b, cell)
    ensures BatchOutcome(k, valid, b, cell)
  {
    var run: seq<State> :| IsCompleteRun(k, valid, b, run) && run[|run| - 1].cell == cell;
    RaceOutcome(k, valid, b, run);
  }

  function Min(x: nat, y: nat): nat {
    if x < y then x else y
  }

  /** How far into the range batch number i begins. */
  function Offset(i: nat, size: nat): nat {
    i * size
  }

  lemma NextOffset(i: nat, size: nat)
    ensures Offset(0, size) == 0 && Offset(i + 1, size) == Offset(i, size) + size
  {
  }

  /** Batch number i of a search. */
  function BatchAt(start: nat, limit: nat, size: nat, i: nat): Batch
    requires Offset(i, size) <= limit
  {
    Batch(start + Offset(i, size), Min(size, limit - Offset(i, size)))
  }

  /** A nonce from [from, to) that the search should have reported. */
  ghost predicate NoHitIn(valid: nat -> bool, from: nat, to: nat) {
    forall n: nat :: from <= n < to && valid(n) ==> n == NOT_FOUND
  }

  /** What a search in batches reports, when its range does not run past the last nonce. */
  ghost predicate SearchOutcome(k: Backend, valid: nat -> bool, start: nat, limit: nat, size: nat,
                                found: nat, tries: nat)
    requires size > 0
  {
    if found == NOT_FOUND then
      tries == limit && (!k.WeakSwap() ==> NoHitIn(valid, start, start + limit))
    else
      && start <= found < start + limit && valid(found)
      && var i := (found - start) / size;
      && tries == Min(limit, Offset(i + 1, size))
      && (!k.WeakSwap() ==> NoHitIn(valid, start, start + Offset(i, size)))
  }

  lemma HitInBatch(valid: nat -> bool, b: Batch, nonce: nat)
    requires IsHit(valid, b, nonce) && b.start + b.count <= NONCES
    ensures b.start <= nonce < b.start + b.count
  {
    var g: nat :| g < b.count && NonceOf(b, g) == nonce;
  }

  /** Where a range ends that does not wrap around: at its limit or after the last nonce. */
  function SearchEnd(start: nat, limit: nat): nat {
    Min(start + limit, NONCES)
  }

  lemma EmptyBatch(k: Backend, valid: nat -> bool, b: Batch)
    requires BatchOutcome(k, valid, b, NOT_FOUND) && !k.WeakSwap()
    ensures NoHitIn(valid, b.start, SearchEnd(b.start, b.count))
  {
    forall n: nat | b.start <= n < SearchEnd(b.start, b.count) && valid(n)
      ensures n == NOT_FOUND
    {
      assert NonceOf(b, n - b.start) == n;
    }
  }

  lemma BatchIndex(i: nat, size: nat, within: nat)
    requires size > 0 && within < size
    ensures (Offset(i, size) + within) / size == i
  {
    assert i * size == size * i;
    QuotientIs(i * size + within, size, i, within);
  }

  lemma JoinRanges(valid: nat -> bool, from: nat, via: nat, to: nat)
    requires NoHitIn(valid, from, via) && NoHitIn(valid, via, to)
    ensures NoHitIn(valid, from, to)
  {
  }

  lemma OutcomeIsHit(k: Backend, valid: nat -> bool, b: Batch, found: nat)
    requires BatchOutcome(k, valid, b, found) && found != NOT_FOUND
    ensures IsHit(valid, b, found) && valid(found)
  {
  }

  /** The batches follow one another from the start, and only the last one may be short. */
  ghost predicate Tiles(batches: seq<Batch>, start: nat, limit: nat, size: nat) {
    forall i :: 0 <= i < |batches| ==> Offset(i, size) < limit && batches[i] == BatchAt(start, limit, size, i)
  }

  lemma TilesAppend(batches: seq<Batch>, start: nat, limit: nat, size: nat)
    requires Tiles(batches, start, limit, size) && Offset(|batches|, size) < limit
    ensures Tiles(batches + [BatchAt(start, limit, size, |batches|)], start, limit, size)
  {
    hide Offset;
  }

  lemma FoundOutcome(k: Backend, valid: nat -> bool, start: nat, limit: nat, size: nat, i: nat, found: nat)
    requires size > 0 && start + limit <= NONCES && Offset(i, size) < limit && found != NOT_FOUND
    requires BatchOutcome(k, valid, BatchAt(start, limit, size, i), found)
    requires !k.WeakSwap() ==> NoHitIn(valid, start, start + Offset(i, size))
    ensures SearchOutcome(k, valid, start, limit, size, found,
                          Offset(i, size) + Min(size, limit - Offset(i, size)))
  {
    hide Offset, NoHitIn, IsHit;
    var b := BatchAt(start, limit, size, i);
    OutcomeIsHit(k, valid, b, found);
    HitInBatch(valid, b, found);
    BatchIndex(i, size, found - b.start);
    NextOffset(i, size);
  }

  /** What is known of the batches that were examined, wherever the range ends: all but a last one with a hit were
      left with an empty cell, which means something under a strong swap. */
  ghost predicate Examined(k: Backend, valid: nat -> bool, batches: seq<Batch>, found: nat) {
    && (found != NOT_FOUND ==> batches != [] && IsHit(valid, batches[|batches| - 1], found))
    && (!k.WeakSwap() ==>
          forall i :: 0 <= i < |batches| - (if found == NOT_FOUND then 0 else 1) ==> NothingToReport(valid, batches[i]))
  }

  lemma ExaminedAppend(k: Backend, valid: nat -> bool, batches: seq<Batch>, b: Batch, found: nat)
    requires Examined(k, valid, batches, NOT_FOUND) && BatchOutcome(k, valid, b, found)
    ensures Examined(k, valid, batches + [b], found)
  {
    hide IsHit, NothingToReport;
  }

  /** How far the search went, wherever the range ends: if it found nothing, to the limit or past the last nonce; and
      under a strong swap nothing to report was left before that, or before the batch with the hit. */
  ghost predicate Searched(k: Backend, valid: nat -> bool, start: nat, limit: nat, size: nat, batches: seq<Batch>,
                           found: nat, tries: nat)
  {
    if found == NOT_FOUND then
      start + tries >= SearchEnd(start, limit) && (!k.WeakSwap() ==> NoHitIn(valid, start, SearchEnd(start, limit)))
    else
      && batches != [] && start + Offset(|batches| - 1, size) < NONCES
      && (!k.WeakSwap() ==> NoHitIn(valid, start, start + Offset(|batches| - 1, size)))
  }

  lemma EmptyOutcome(k: Backend, valid: nat -> bool, start: nat, limit: nat, size: nat, batches: seq<Batch>,
                     tries: nat)
    requires size > 0
    requires tries <= limit && start + tries >= SearchEnd(start, limit)
    requires !k.WeakSwap() ==> NoHitIn(valid, start, SearchEnd(start, tries))
    ensures Searched(k, valid, start, limit, size, batches, NOT_FOUND, tries)
    ensures start + limit <= NONCES ==> SearchOutcome(k, valid, start, limit, size, NOT_FOUND, tries)
  {
  }

  lemma NothingYet(k: Backend, valid: nat -> bool, start: nat, limit: nat, size: nat)
    requires size > 0
    ensures NoHitIn(valid, start, start) && Tiles([], start, limit, size) && Examined(k, valid, [], NOT_FOUND)
  {
  }

  /** The context was asked before each batch so far and was not done. */
  predicate NoneCancelled(cancelled: nat -> bool, n: nat) {
    forall i: nat :: i < n ==> !cancelled(i)
  }

  /** The loop. The device answers for each batch; launches and copies succeed. Only the WebGPU backend asks its
      context before every batch. */
  method SolveInBatches(k: Backend, valid: nat -> bool, start: nat, limit: nat, size: nat,
                        device: (nat, nat) -> nat, cancelled: nat -> bool)
    returns (found: nat, tries: nat, stopped: bool, ghost batches: seq<Batch>)
    requires start < NONCES && 0 < size < NONCES
    requires forall s: nat, c: nat :: DeviceRuns(k, valid, Batch(s, c), device(s, c))
    ensures stopped ==> k.WebGpu? && found == NOT_FOUND && cancelled(|batches|)
    ensures k.WebGpu? ==> NoneCancelled(cancelled, |batches|)
    ensures Tiles(batches, start, limit, size) && tries == Min(limit, Offset(|batches|, size))
    ensures Examined(k, valid, batches, found)
    ensures found != NOT_FOUND ==> valid(found)
    ensures tries <= limit
    ensures !stopped ==> Searched(k, valid, start, limit, size, batches, found, tries)
    ensures !stopped && start + limit <= NONCES ==> SearchOutcome(k, valid, start, limit, size, found, tries)
  {
    hide Offset, BatchOutcome, DeviceRuns, NoHitIn, IsHit, SearchOutcome, Tiles, Examined, NothingToReport;
    found, tries, stopped, batches := NOT_FOUND, 0, false, [];
    var current := start;
    var remaining := limit;
    var launched := 0;
    NextOffset(0, size);
    NothingYet(k, valid, start, limit, size);
    while remaining > 0
      invariant current == start + tries && remaining == limit - tries && current < NONCES && launched == |batches|
      invariant tries == Min(limit, Offset(|batches|, size))
      invariant Tiles(batches, start, limit, size) && Examined(k, valid, batches, NOT_FOUND)
      invariant found == NOT_FOUND && !stopped
      invariant k.WebGpu? ==> NoneCancelled(cancelled, launched)
      invariant !k.WeakSwap() ==> NoHitIn(valid, start, start + tries)
      decreases remaining
    {
      if k.WebGpu? && cancelled(launched) {
        stopped := true;
        return;
      }
      var count := if remaining > size then size else remaining;
      if count == 0 {
        break;
      }
      ghost var i := |batches|;
      ghost var batch := BatchAt(start, limit, size, i);
      var batchFound := device(current, count);
      DeviceOutcome(k, valid, batch, batchFound);
      TilesAppend(batches, start, limit, size);
      ExaminedAppend(k, valid, batches, batch, batchFound);
      NextOffset(i, size);
      batches, launched := batches + [batch], launched + 1;
      tries := tries + count;
      if batchFound != NOT_FOUND {
        found := batchFound;
        OutcomeIsHit(k, valid, batch, found);
        if start + limit <= NONCES {
          FoundOutcome(k, valid, start, limit, size, i, found);
        }
        return;
      }
      if !k.WeakSwap() {
        EmptyBatch(k, valid, batch);
        JoinRanges(valid, start, current, SearchEnd(current, count));
      }
      if NOT_FOUND - current < count {
        break;
      }
      current := current + count;
      remaining := remaining - count;
    }
    EmptyOutcome(k, valid, start, limit, size, batches, tries);
  }
}
