/** The threads of one batch, racing on one result cell (kernels powcoin_grind of shasolve/cuda_impl.c and
    shasolve/metal_impl_darwin.m, main of the shader in shasolve/webgpu.go). */
module Race {
  import opened Bytes

  const NOT_FOUND := 0xffff_ffff

  /** The kernels differ in whether a thread looks at the cell before it starts, and in whether the
      compare-and-swap may fail although the cell still holds the expected value. */
  datatype Backend = Cuda | Metal | WebGpu {
    predicate LooksFirst() {
      Cuda? || Metal?
    }

    predicate WeakSwap() {
      Metal? || WebGpu?
    }
  }

  datatype Batch = Batch(start: nat, count: nat)

  /** The nonce of thread gid, in 32-bit arithmetic. */
  function NonceOf(b: Batch, gid: nat): nat {
    (b.start + gid) % NONCES
  }

  datatype Phase = Started | Computing | Swapping | Finished

  datatype State = State(cell: nat, threads: seq<Phase>)

  /** What thread t does next. Where there is a choice, the machine makes it: a look at the cell may return a stale
      "not found", and a weak swap may fail for no reason. */
  ghost predicate ThreadStep(k: Backend, valid: nat -> bool, b: Batch, s: State, t: nat, n: State) {
    && t < |s.threads|
    && |n.threads| == |s.threads| && n.threads == s.threads[t := n.threads[t]]
    && match s.threads[t]
       case Started =>
         && n.cell == s.cell
         && if t >= b.count then n.threads[t] == Finished
            else n.threads[t] == Computing || (k.LooksFirst() && s.cell != NOT_FOUND && n.threads[t] == Finished)
       case Computing =>
         && n.cell == s.cell
         && n.threads[t] == if valid(NonceOf(b, t)) then Swapping else Finished
       case Swapping =>
         && n.threads[t] == Finished
         && if s.cell != NOT_FOUND then n.cell == s.cell
            else n.cell == NonceOf(b, t) || (k.WeakSwap() && n.cell == NOT_FOUND)
       case Finished => false
  }

  ghost predicate Next(k: Backend, valid: nat -> bool, b: Batch, s: State, n: State) {
    exists t: nat :: ThreadStep(k, valid, b, s, t, n)
  }

  ghost predicate Initial(s: State, b: Batch) {
    s.cell == NOT_FOUND && |s.threads| >= b.count && forall t :: 0 <= t < |s.threads| ==> s.threads[t] == Started
  }

  /** Any interleaving, from the launch on. */
  ghost predicate IsRun(k: Backend, valid: nat -> bool, b: Batch, run: seq<State>) {
    run != [] && Initial(run[0], b) && forall i :: 0 <= i < |run| - 1 ==> Next(k, valid, b, run[i], run[i + 1])
  }

  predicate AllFinished(s: State) {
    forall t :: 0 <= t < |s.threads| ==> s.threads[t] == Finished
  }

  ghost predicate IsCompleteRun(k: Backend, valid: nat -> bool, b: Batch, run: seq<State>) {
    IsRun(k, valid, b, run) && AllFinished(run[|run| - 1])
  }

  /** Is it a nonce of the batch, and a valid one? */
  ghost predicate IsHit(valid: nat -> bool, b: Batch, nonce: nat) {
    valid(nonce) && exists g: nat :: g < b.count && NonceOf(b, g) == nonce
  }

  /** What every reachable state satisfies. */
  ghost predicate Consistent(valid: nat -> bool, b: Batch, s: State) {
    && |s.threads| >= b.count
    && (s.cell != NOT_FOUND ==> IsHit(valid, b, s.cell))
    && forall t :: 0 <= t < |s.threads| ==>
         && (s.threads[t] == Computing ==> t < b.count)
         && (s.threads[t] == Swapping ==> t < b.count && valid(NonceOf(b, t)))
  }

  /** As long as the cell is empty, every thread of the batch that has finished had nothing to report. */
  ghost predicate NothingLost(valid: nat -> bool, b: Batch, s: State) {
    s.cell == NOT_FOUND ==>
      forall t :: 0 <= t < |s.threads| && t < b.count && s.threads[t] == Finished && valid(NonceOf(b, t)) ==>
        NonceOf(b, t) == NOT_FOUND
  }

  /** A swap that failed although the cell was empty. */
  ghost predicate SwapLost(valid: nat -> bool, b: Batch, s: State, n: State) {
    s.cell == NOT_FOUND && n.cell == NOT_FOUND &&
    exists t :: 0 <= t < |s.threads| == |n.threads| && s.threads[t] == Swapping && n.threads[t] == Finished &&
                NonceOf(b, t) != NOT_FOUND
  }

  lemma StepKeeps(k: Backend, valid: nat -> bool, b: Batch, s: State, n: State)
    requires Consistent(valid, b, s) && Next(k, valid, b, s, n)
    ensures Consistent(valid, b, n)
    ensures s.cell != NOT_FOUND ==> n.cell == s.cell
    ensures NothingLost(valid, b, s) && !SwapLost(valid, b, s, n) ==> NothingLost(valid, b, n)
    ensures !k.WeakSwap() ==> !SwapLost(valid, b, s, n)
  {
    var t: nat :| ThreadStep(k, valid, b, s, t, n);
    assert forall u :: 0 <= u < |s.threads| && u != t ==> n.threads[u] == s.threads[u];
    if s.threads[t] == Swapping {
      assert IsHit(valid, b, NonceOf(b, t));
    }
  }

  lemma {:induction false} RunKeeps(k: Backend, valid: nat -> bool, b: Batch, run: seq<State>, i: nat)
    requires IsRun(k, valid, b, run) && i < |run|
    ensures Consistent(valid, b, run[i])
    ensures (forall j :: 0 <= j < i ==> !SwapLost(valid, b, run[j], run[j + 1])) ==> NothingLost(valid, b, run[i])
  {
    if i > 0 {
      RunKeeps(k, valid, b, run, i - 1);
      StepKeeps(k, valid, b, run[i - 1], run[i]);
    }
  }

  /** The cell is written at most once: once it holds a nonce, it holds that nonce for good. */
  lemma {:induction false} WrittenOnce(k: Backend, valid: nat -> bool, b: Batch, run: seq<State>, i: nat, j: nat)
    requires IsRun(k, valid, b, run) && i <= j < |run| && run[i].cell != NOT_FOUND
    ensures run[j].cell == run[i].cell
    decreases j
  {
    hide Consistent, NothingLost, SwapLost;
    if i < j {
      WrittenOnce(k, valid, b, run, i, j - 1);
      RunKeeps(k, valid, b, run, j - 1);
      StepKeeps(k, valid, b, run[j - 1], run[j]);
    }
  }

  /** The batch has nothing to report: no valid nonce but the sentinel. */
  ghost predicate NothingToReport(valid: nat -> bool, b: Batch) {
    forall g: nat :: g < b.count && valid(NonceOf(b, g)) ==> NonceOf(b, g) == NOT_FOUND
  }

  /** What the host may conclude from the cell when the batch is over. */
  ghost predicate BatchOutcome(k: Backend, valid: nat -> bool, b: Batch, found: nat) {
    && (found != NOT_FOUND ==> IsHit(valid, b, found))
    && (found == NOT_FOUND && !k.WeakSwap() ==> NothingToReport(valid, b))
  }

  /** For every interleaving: a nonce in the cell is a hit of the batch; and with CUDA's swap an empty cell means
      that the batch has no hit other than the sentinel itself. */
  lemma RaceOutcome(k: Backend, valid: nat -> bool, b: Batch, run: seq<State>)
    requires IsCompleteRun(k, valid, b, run)
    ensures BatchOutcome(k, valid, b, run[|run| - 1].cell)
  {
    var last := |run| - 1;
    RunKeeps(k, valid, b, run, last);
    if !k.WeakSwap() {
      forall j | 0 <= j < last
        ensures !SwapLost(valid, b, run[j], run[j + 1])
      {
        RunKeeps(k, valid, b, run, j);
        StepKeeps(k, valid, b, run[j], run[j + 1]);
      }
    }
  }

  /** On any kernel, a hit is missed only if a swap failed on an empty cell. */
  lemma MissNeedsLostSwap(k: Backend, valid: nat -> bool, b: Batch, run: seq<State>, g: nat)
    requires IsCompleteRun(k, valid, b, run) && run[|run| - 1].cell == NOT_FOUND
    requires g < b.count && valid(NonceOf(b, g)) && NonceOf(b, g) != NOT_FOUND
    ensures exists j :: 0 <= j < |run| - 1 && SwapLost(valid, b, run[j], run[j + 1])
  {
    RunKeeps(k, valid, b, run, |run| - 1);
  }

  function Weight(p: Phase): nat {
    match p
    case Started => 3
    case Computing => 2
    case Swapping => 1
    case Finished => 0
  }

  function Remaining(threads: seq<Phase>): nat {
    if threads == [] then 0 else Remaining(threads[..|threads| - 1]) + Weight(threads[|threads| - 1])
  }

  lemma {:induction false} RemainingUpdate(threads: seq<Phase>, t: nat, p: Phase)
    requires t < |threads|
    ensures Remaining(threads[t := p]) == Remaining(threads) - Weight(threads[t]) + Weight(p)
  {
    var n := |threads| - 1;
    if t == n {
      assert threads[t := p][..n] == threads[..n];
    } else {
      RemainingUpdate(threads[..n], t, p);
      assert threads[t := p][..n] == threads[..n][t := p];
    }
  }

  lemma {:induction false} RemainingAtMost(threads: seq<Phase>)
    ensures Remaining(threads) <= 3 * |threads|
  {
    if threads != [] {
      RemainingAtMost(threads[..|threads| - 1]);
    }
  }

  /** Every run is finite: three steps a thread. */
  lemma {:induction false} RunLength(k: Backend, valid: nat -> bool, b: Batch, run: seq<State>, i: nat)
    requires IsRun(k, valid, b, run) && i < |run|
    ensures i + Remaining(run[i].threads) <= 3 * |run[0].threads|
  {
    if i == 0 {
      RemainingAtMost(run[0].threads);
    } else {
      RunLength(k, valid, b, run, i - 1);
      var s, n := run[i - 1], run[i];
      assert Next(k, valid, b, s, n);
      var t: nat :| ThreadStep(k, valid, b, s, t, n);
      RemainingUpdate(s.threads, t, n.threads[t]);
    }
  }

  /** The machine may leave an empty cell empty: by failing weak swaps, or because nobody has anything to write. */
  ghost predicate MayStayEmpty(k: Backend, valid: nat -> bool, b: Batch) {
    k.WeakSwap() || NothingToReport(valid, b)
  }

  /** No thread ever gets stuck, and no step need fill the cell if it may stay empty. */
  lemma CanStep(k: Backend, valid: nat -> bool, b: Batch, s: State, t: nat) returns (n: State)
    requires Consistent(valid, b, s) && t < |s.threads| && s.threads[t] != Finished
    ensures ThreadStep(k, valid, b, s, t, n) && Remaining(n.threads) < Remaining(s.threads)
    ensures s.cell == NOT_FOUND && MayStayEmpty(k, valid, b) ==> n.cell == NOT_FOUND
  {
    var nonce := NonceOf(b, t);
    var p := match s.threads[t]
      case Started => if t >= b.count then Finished else Computing
      case Computing => if valid(nonce) then Swapping else Finished
      case Swapping => Finished
      case Finished => Finished;
    var written := s.threads[t] == Swapping && s.cell == NOT_FOUND && !k.WeakSwap();
    n := State(if written then nonce else s.cell, s.threads[t := p]);
    RemainingUpdate(s.threads, t, p);
  }

  ghost predicate Steps(k: Backend, valid: nat -> bool, b: Batch, run: seq<State>) {
    forall i :: 0 <= i < |run| - 1 ==> Next(k, valid, b, run[i], run[i + 1])
  }

  lemma {:induction false} RunOn(k: Backend, valid: nat -> bool, b: Batch, s: State) returns (run: seq<State>)
    requires Consistent(valid, b, s)
    ensures run != [] && run[0] == s && Steps(k, valid, b, run) && AllFinished(run[|run| - 1])
    ensures s.cell == NOT_FOUND && MayStayEmpty(k, valid, b) ==> run[|run| - 1].cell == NOT_FOUND
    decreases Remaining(s.threads)
  {
    hide Consistent, MayStayEmpty;
    if AllFinished(s) {
      run := [s];
    } else {
      var t: nat :| t < |s.threads| && s.threads[t] != Finished;
      var n := CanStep(k, valid, b, s, t);
      assert Next(k, valid, b, s, n);
      StepKeeps(k, valid, b, s, n);
      var rest := RunOn(k, valid, b, n);
      run := [s] + rest;
      forall i | 0 <= i < |run| - 1
        ensures Next(k, valid, b, run[i], run[i + 1])
      {
        if i > 0 {
          assert run[i] == rest[i - 1] && run[i + 1] == rest[i];
        }
      }
    }
  }

  /** Every batch can be run to its end. */
  lemma CompleteRunExists(k: Backend, valid: nat -> bool, b: Batch) returns (run: seq<State>)
    ensures IsCompleteRun(k, valid, b, run)
    ensures MayStayEmpty(k, valid, b) ==> run[|run| - 1].cell == NOT_FOUND
  {
    hide MayStayEmpty;
    run := RunOn(k, valid, b, State(NOT_FOUND, seq(b.count, _ => Started)));
  }

  ghost predicate EndsEmpty(k: Backend, valid: nat -> bool, b: Batch, run: seq<State>) {
    IsCompleteRun(k, valid, b, run) && run[|run| - 1].cell == NOT_FOUND
  }

  /** When a batch can end with an empty cell. */
  lemma EmptyEndExactly(k: Backend, valid: nat -> bool, b: Batch)
    ensures (exists run: seq<State> :: EndsEmpty(k, valid, b, run)) <==> k != Cuda || NothingToReport(valid, b)
  {
    if k.WeakSwap() || NothingToReport(valid, b) {
      var run := CompleteRunExists(k, valid, b);
      assert EndsEmpty(k, valid, b, run);
    }
    if run: seq<State> :| EndsEmpty(k, valid, b, run) {
      RaceOutcome(k, valid, b, run);
    }
  }

  /** When the host may take an empty cell for an empty batch: it may, in every run, exactly if the swap is strong,
      which it is on CUDA alone, or there is nothing to report anyway. */
  lemma EmptyMeansNoneExactly(k: Backend, valid: nat -> bool, b: Batch)
    ensures (forall run: seq<State> :: EndsEmpty(k, valid, b, run) ==> NothingToReport(valid, b)) <==>
            k == Cuda || NothingToReport(valid, b)
  {
    EmptyEndExactly(k, valid, b);
  }

  /** So a weak swap can lose every solution of any batch. */
  lemma WeakSwapCanMiss(k: Backend, valid: nat -> bool, b: Batch) returns (run: seq<State>)
    requires k != Cuda
    ensures EndsEmpty(k, valid, b, run)
  {
    EmptyEndExactly(k, valid, b);
    run :| EndsEmpty(k, valid, b, run);
  }

  /** A thread of the batch need not compute anything if the cell was filled before it started, except on WebGPU. */
  lemma SkipsExactly(k: Backend, valid: nat -> bool, b: Batch, s: State, t: nat)
    requires t < |s.threads| && s.threads[t] == Started && t < b.count
    ensures ThreadStep(k, valid, b, s, t, s.(threads := s.threads[t := Finished])) <==>
            k != WebGpu && s.cell != NOT_FOUND
  {
    assert s.threads[t := Finished][t] == Finished;
  }
}
