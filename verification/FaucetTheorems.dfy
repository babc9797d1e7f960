/** The faucet scripts accept exactly the spends that their design asks for. */
module FaucetTheorems {
  import opened Bytes
  import opened ScriptNum
  import opened Script
  import opened FaucetScripts
  import opened FaucetRun

  // One rung of the ladder that builds the zero bytes, before the program q.

  lemma Rung32(env: Env, e: nat, z: nat, m: Stack, alt: Stack, q: Program)
    requires e < 64 && z <= 16
    ensures Run(env, Append(TEST_32, Append(ADD_FOUR, q)), At(Cell(Encode(e), m), Cell(Zeros(z), alt))) ==
            Run(env, q, At(Cell(Encode(e % 32), m), Cell(Zeros(z + 4 * (e / 32)), alt)))
  {
    hide Run, Append, Step, Encode, Zeros, TEST_32, ADD_FOUR;
    var s := Cell(Zeros(z), alt);
    Test32Runs(env, e, m, s);
    AddFourRuns(env, e, z, e >= 32, m, alt);
    RunAppend(env, TEST_32, Append(ADD_FOUR, q), At(Cell(Encode(e), m), s));
    RunAppend(env, ADD_FOUR, q, Branch(e >= 32, Cell(Encode(e), m), s));
    assert e / 32 == if e >= 32 then 1 else 0;
  }

  lemma Rung16(env: Env, e: nat, z: nat, m: Stack, alt: Stack, q: Program)
    requires e < 32 && z <= 16
    ensures Run(env, Append(TEST_16, Append(ADD_TWO, q)), At(Cell(Encode(e), m), Cell(Zeros(z), alt))) ==
            Run(env, q, At(Cell(Encode(e % 16), m), Cell(Zeros(z + 2 * (e / 16)), alt)))
  {
    hide Run, Append, Step, Encode, Zeros, TEST_16, ADD_TWO;
    var s := Cell(Zeros(z), alt);
    Test16Runs(env, e, m, s);
    AddTwoRuns(env, e, z, e >= 16, m, alt);
    RunAppend(env, TEST_16, Append(ADD_TWO, q), At(Cell(Encode(e), m), s));
    RunAppend(env, ADD_TWO, q, Branch(e >= 16, Cell(Encode(e), m), s));
    assert e / 16 == if e >= 16 then 1 else 0;
  }

  lemma Rung8(env: Env, e: nat, z: nat, m: Stack, alt: Stack)
    requires e < 16 && z <= 16
    ensures Run(env, Append(TEST_8, ADD_ONE), At(Cell(Encode(e), m), Cell(Zeros(z), alt))) ==
            Running(At(Cell(Encode(e % 8), m), Cell(Zeros(z + e / 8), alt)))
  {
    hide Run, Append, Step, Encode, Zeros, TEST_8, ADD_ONE;
    Test8Runs(env, e, m, Cell(Zeros(z), alt));
    AddOneRuns(env, e, z, e >= 8, m, alt);
    RunAppend(env, TEST_8, ADD_ONE, At(Cell(Encode(e), m), Cell(Zeros(z), alt)));
    assert e / 8 == if e >= 8 then 1 else 0;
  }

  lemma LadderCounts(e: nat)
    requires e < 64
    ensures e % 32 % 16 % 8 == e % 8
    ensures 2 + 4 * (e / 32) + 2 * (e % 32 / 16) + e % 32 % 16 / 8 == 2 + e / 8
  {
  }

  lemma ZerosRuns(env: Env, e: nat, m: Stack, alt: Stack)
    requires e < 64
    ensures Run(env, ZEROS, At(Cell(Encode(e), m), Cell(Zeros(2), alt))) ==
            Running(At(Cell(Encode(e % 8), m), Cell(Zeros(2 + e / 8), alt)))
  {
    hide Run, Append, Step, Encode, Zeros, TEST_8, TEST_16, TEST_32, ADD_ONE, ADD_TWO, ADD_FOUR;
    var p8 := Append(TEST_8, ADD_ONE);
    Rung32(env, e, 2, m, alt, Append(TEST_16, Append(ADD_TWO, p8)));
    var f, z := e % 32, 2 + 4 * (e / 32);
    Rung16(env, f, z, m, alt, p8);
    Rung8(env, f % 16, z + 2 * (f / 16), m, alt);
    LadderCounts(e);
  }

  lemma PowerBound(r: nat)
    requires r < 8
    ensures Pow2(8 - r) <= 256
  {
    SmallPowers();
    match r
    case 0 => case 1 => case 2 => case 3 => case 4 => case 5 => case 6 => case 7 =>
  }

  lemma ByteRuns(env: Env, r: nat, hA: bytes, m: Stack, alt: Stack)
    requires r < 8
    ensures Run(env, BYTE, At(Cell(Encode(r), Cell(hA, m)), alt)) ==
            if |hA| == 1 && hA[0] as int < Pow2(8 - r) then Running(At(m, Cell(hA, alt))) else Abort
  {
    hide Run, Append, Step, Encode, Pow2, POWER;
    var p := Append(POWER, COMPARE);
    var s := At(Cell(Encode(r), Cell(hA, m)), alt);
    KeepByteRuns(env, Encode(r), hA, m, alt);
    RunAppend(env, KEEP_BYTE, Append(AS_NUMBER, p), s);
    if |hA| == 1 {
      assert hA == [hA[0]];
      var x, a := hA[0] as int, Cell(hA, alt);
      AsNumberRuns(env, Encode(r), hA[0], m, a);
      RunAppend(env, AS_NUMBER, p, At(Cell(hA, Cell(Encode(r), m)), a));
      PowerRuns(env, r, Cell(Encode(x), m), a);
      RunAppend(env, POWER, COMPARE, At(Cell(Encode(r), Cell(Encode(x), m)), a));
      PowerBound(r);
      CompareRuns(env, x, Pow2(8 - r), Encode(r), m, a);
    }
  }

  lemma ProofRuns(env: Env, hB: bytes, suffix: bytes, prefix: bytes, key: bytes, sig: bytes, hA: bytes, z: nat,
                  m: Stack)
    requires |hA| == 1 && z < 16
    ensures Run(env, PROOF, At(Cell(hB, Cell(suffix, Cell(prefix, Cell(key, Cell(sig, m))))),
                               Cell(hA, Cell(Zeros(z), Empty)))) ==
            if |key| == 32 && |sig| == 64 && |ScriptHeader(prefix, sig, suffix)| <= MAX_ELEMENT &&
               env.hash256(ScriptHeader(prefix, sig, suffix)) == hB + (hA + Zeros(z)) && env.checkSig(sig, key)
            then Running(At(Cell(Bool(true), m), Empty)) else Abort
  {
    hide Run, Append, Step, Encode, Zeros;
    var p3 := Append(ADD_SUFFIX, Append(ADD_PREFIX, FINISH));
    var items := Cell(suffix, Cell(prefix, Cell(key, Cell(sig, m))));
    var hash := hB + (hA + Zeros(z));
    var a := Cell(hash, Empty);
    RebuildHashRuns(env, hB, hA, Zeros(z), items, Empty);
    RunAppend(env, REBUILD_HASH, Append(CHECK_SIZES, p3), At(Cell(hB, items), Cell(hA, Cell(Zeros(z), Empty))));
    if |hash| <= MAX_ELEMENT {
      CheckSizesRuns(env, suffix, prefix, key, sig, m, a);
      RunAppend(env, CHECK_SIZES, p3, At(items, a));
      if |key| == 32 && |sig| == 64 {
        var rest := sig + Sized(suffix);
        AddSuffixRuns(env, sig, suffix, Cell(prefix, Cell(key, Cell(sig, m))), a);
        RunAppend(env, ADD_SUFFIX, Append(ADD_PREFIX, FINISH), At(Cell(sig, items), a));
        AddPrefixRuns(env, rest, prefix, Cell(key, Cell(sig, m)), a);
        RunAppend(env, ADD_PREFIX, FINISH, At(Cell(rest, Cell(prefix, Cell(key, Cell(sig, m)))), a));
        FinishRuns(env, ScriptHeader(prefix, sig, suffix), hash, key, sig, m, Empty);
      }
    }
  }

  /** The seven items of a spend. */
  datatype Spend = Spend(sig: bytes, key: bytes, prefix: bytes, suffix: bytes, hB: bytes, hA: bytes, difficulty: bytes)

  /** The stack they make, on top of m. */
  function Stacked(w: Spend, m: Stack): Stack {
    Cell(w.difficulty, Cell(w.hA, Cell(w.hB, Cell(w.suffix, Cell(w.prefix, Cell(w.key, Cell(w.sig, m)))))))
  }

  /** The part of it that is about the hash and the signature, for difficulty d. */
  predicate Proves(env: Env, d: nat, w: Spend) {
    && |w.hA| == 1 && w.hA[0] as int < Pow2(8 - d % 8)
    && |w.key| == 32 && |w.sig| == 64
    && |ScriptHeader(w.prefix, w.sig, w.suffix)| <= 520
    && env.hash256(ScriptHeader(w.prefix, w.sig, w.suffix)) == w.hB + (w.hA + Zeros(d / 8))
    && env.checkSig(w.sig, w.key)
  }

  /** The relative lock for difficulty d, in blocks. */
  function RelativeLock(delay: nat, d: nat): nat
    requires d < 80
  {
    LockBound(delay, d);
    delay * (80 - d)
  }

  lemma LockBound(delay: nat, d: nat)
    requires d < 80
    ensures 0 <= delay * (80 - d)
    ensures 16 <= d && delay <= 10 ==> delay * (80 - d) <= 640
  {
    if delay <= 10 {
      assert delay * (80 - d) <= 10 * (80 - d);
    }
  }

  lemma RelativeLockBound(delay: nat, d: nat)
    requires 16 <= d < 80 && delay <= 10
    ensures RelativeLock(delay, d) <= 640
  {
    LockBound(delay, d);
  }

  /** What a faucet script with that delay asks of a spend. */
  predicate Satisfies(env: Env, delay: nat, w: Spend) {
    && Readable(env, w.difficulty, 4)
    && 16 <= Decode(w.difficulty) < 80
    && SequenceAllows(env.txVersion, env.sequence, RelativeLock(delay, Decode(w.difficulty)))
    && Proves(env, Decode(w.difficulty), w)
  }

  /** The program leaves the relative lock for difficulty e + 16 above e. */
  ghost predicate ComputesDelay(env: Env, p: Program, delay: nat) {
    forall e: nat, m: Stack, a: Stack :: e < 64 ==>
      Run(env, p, At(Cell(Encode(e), m), a)) ==
      Running(At(Cell(Encode(RelativeLock(delay, e + 16)), Cell(Encode(e), m)), a))
  }

  lemma DelaysCompute(env: Env)
    ensures ComputesDelay(env, TEN, 10) && ComputesDelay(env, FOUR, 4) && ComputesDelay(env, FROM_64, 1)
  {
    hide Run, Append, Step, Encode;
    forall e: nat, m: Stack, a: Stack | e < 64
      ensures Run(env, TEN, At(Cell(Encode(e), m), a)) ==
              Running(At(Cell(Encode(RelativeLock(10, e + 16)), Cell(Encode(e), m)), a))
      ensures Run(env, FOUR, At(Cell(Encode(e), m), a)) ==
              Running(At(Cell(Encode(RelativeLock(4, e + 16)), Cell(Encode(e), m)), a))
      ensures Run(env, FROM_64, At(Cell(Encode(e), m), a)) ==
              Running(At(Cell(Encode(RelativeLock(1, e + 16)), Cell(Encode(e), m)), a))
    {
      TimesTenRuns(env, e, m, a);
      From640Runs(env, 10 * e, Cell(Encode(e), m), a);
      RunAppend(env, TIMES_TEN, FROM_640, At(Cell(Encode(e), m), a));
      TimesFourRuns(env, e, m, a);
      From256Runs(env, 4 * e, Cell(Encode(e), m), a);
      RunAppend(env, TIMES_FOUR, FROM_256, At(Cell(Encode(e), m), a));
      From64Runs(env, e, m, a);
    }
  }

  lemma HeadRuns(env: Env, x: bytes, m: Stack, alt: Stack)
    ensures Run(env, HEAD, At(Cell(x, m), alt)) ==
            if Readable(env, x, 4) && 16 <= Decode(x) < 80 then Running(At(Cell(Encode(Decode(x) - 16), m), alt))
            else Abort
  {
    hide Run, Append, Step, Encode, Decode, Minimal;
    CheckLowRuns(env, x, m, alt);
    RunAppend(env, CHECK_LOW, CHECK_HIGH, At(Cell(x, m), alt));
    if Readable(env, x, 4) && Decode(x) >= 16 {
      DecodeBound(x);
      CheckHighRuns(env, Decode(x) - 16, m, alt);
    }
  }

  /** The items of a spend below the difficulty. */
  function Rest(w: Spend, m: Stack): Stack {
    Cell(w.hA, Cell(w.hB, Cell(w.suffix, Cell(w.prefix, Cell(w.key, Cell(w.sig, m))))))
  }

  lemma TwoBytesLess(d: nat)
    requires d >= 16
    ensures (d - 16) % 8 == d % 8 && 2 + (d - 16) / 8 == d / 8
  {
  }

  /** The last part, once the one byte of hA is known to be in range. */
  lemma ByteThenProofRuns(env: Env, d: nat, w: Spend, m: Stack)
    requires d < 80
    ensures Run(env, Append(BYTE, PROOF), At(Cell(Encode(d % 8), Rest(w, m)), Cell(Zeros(d / 8), Empty))) ==
            if Proves(env, d, w) then Running(At(Cell(Bool(true), m), Empty)) else Abort
  {
    hide Run, Append, Step, Encode, Zeros, Pow2, BYTE, PROOF, ScriptHeader;
    var alt := Cell(Zeros(d / 8), Empty);
    var s := Cell(w.hB, Cell(w.suffix, Cell(w.prefix, Cell(w.key, Cell(w.sig, m)))));
    assert Rest(w, m) == Cell(w.hA, s);
    hide Rest;
    ByteRuns(env, d % 8, w.hA, s, alt);
    RunAppend(env, BYTE, PROOF, At(Cell(Encode(d % 8), Cell(w.hA, s)), alt));
    if |w.hA| == 1 {
      ProofRuns(env, w.hB, w.suffix, w.prefix, w.key, w.sig, w.hA, d / 8, m);
    }
  }

  lemma UnlockedRuns(env: Env, d: nat, w: Spend, m: Stack)
    requires 16 <= d < 80
    ensures Run(env, Append(ZEROS, Append(BYTE, PROOF)), At(Cell(Encode(d - 16), Rest(w, m)), Cell(Zeros(2), Empty))) ==
            if Proves(env, d, w) then Running(At(Cell(Bool(true), m), Empty)) else Abort
  {
    hide Run, Append, Step, Encode, Zeros, Pow2, ZEROS, BYTE, PROOF, Proves, Rest;
    var e := d - 16;
    ZerosRuns(env, e, Rest(w, m), Empty);
    RunAppend(env, ZEROS, Append(BYTE, PROOF), At(Cell(Encode(e), Rest(w, m)), Cell(Zeros(2), Empty)));
    TwoBytesLess(d);
    ByteThenProofRuns(env, d, w, m);
  }

  lemma LockRuns(env: Env, p: Program, lock: nat, d: nat, w: Spend, m: Stack)
    requires lock <= 640 && 16 <= d < 80
    requires Run(env, p, At(Cell(Encode(d - 16), Rest(w, m)), Empty)) ==
             Running(At(Cell(Encode(lock), Cell(Encode(d - 16), Rest(w, m))), Empty))
    ensures Run(env, Append(p, Append(CHECK_DELAY, Append(ZEROS, Append(BYTE, PROOF)))),
                At(Cell(Encode(d - 16), Rest(w, m)), Empty)) ==
            if SequenceAllows(env.txVersion, env.sequence, lock) && Proves(env, d, w)
            then Running(At(Cell(Bool(true), m), Empty)) else Abort
  {
    hide Run, Append, Step, Encode, Zeros, Proves, CHECK_DELAY, ZEROS, BYTE, PROOF, SequenceAllows;
    var s := Cell(Encode(d - 16), Rest(w, m));
    var q := Append(ZEROS, Append(BYTE, PROOF));
    RunAppend(env, p, Append(CHECK_DELAY, q), At(s, Empty));
    CheckDelayRuns(env, lock, s, Empty);
    RunAppend(env, CHECK_DELAY, q, At(Cell(Encode(lock), s), Empty));
    UnlockedRuns(env, d, w, m);
  }

  /** A whole run on a spend, with any items below it. */
  lemma WholeRuns(env: Env, p: Program, delay: nat, w: Spend, m: Stack)
    requires delay <= 10 && ComputesDelay(env, p, delay)
    ensures Run(env, Whole(p), At(Stacked(w, m), Empty)) ==
            if Satisfies(env, delay, w) then Running(At(Cell(Bool(true), m), Empty)) else Abort
  {
    hide Run, Append, Step, Encode, Decode, Readable, Proves, HEAD, CHECK_DELAY, ZEROS, BYTE, PROOF, SequenceAllows,
      RelativeLock;
    HeadRuns(env, w.difficulty, Rest(w, m), Empty);
    RunAppend(env, HEAD, Append(p, Append(CHECK_DELAY, Append(ZEROS, Append(BYTE, PROOF)))), At(Stacked(w, m), Empty));
    if Readable(env, w.difficulty, 4) && 16 <= Decode(w.difficulty) < 80 {
      var d := Decode(w.difficulty);
      var lock := RelativeLock(delay, d);
      RelativeLockBound(delay, d);
      LockRuns(env, p, lock, d, w, m);
    }
  }

  /** The script of f is the common program with a delay part that computes the lock of f. */
  ghost predicate Implements(f: FaucetScript) {
    0 < f.delay <= 10 && f.maxDiff == 80 &&
    exists p :: Parse(f.script) == Some(Whole(p)) && forall env :: ComputesDelay(env, p, f.delay)
  }

  /** All three scripts of the repository do. */
  lemma FaucetsImplement(f: FaucetScript)
    requires IsFaucet(f)
    ensures Implements(f)
  {
    hide Parse, Append, Code, Whole, TEN, TEN_CODE, FOUR, FOUR_CODE, FROM_64, FROM_64_CODE, ComputesDelay;
    DelaysParse();
    CodeParses(TEN_CODE); CodeParses(FOUR_CODE); CodeParses(FROM_64_CODE);
    forall env: Env {
      DelaysCompute(env);
    }
  }

  predicate SevenItems(s: Stack) {
    s.Cell? && s.below.Cell? && s.below.below.Cell? && s.below.below.below.Cell? &&
    var t := s.below.below.below.below;
    t.Cell? && t.below.Cell? && t.below.below.Cell?
  }

  lemma SevenItemsHeight(s: Stack)
    ensures SevenItems(s) <==> Height(s) >= 7
    ensures SevenItems(s) ==> s == Stacked(SpendOf(s), Below(s)) && Height(s) == 7 + Height(Below(s))
  {
    if s.Cell? && s.below.Cell? && s.below.below.Cell? && s.below.below.below.Cell? {
      var t := s.below.below.below.below;
      assert Height(s) == 2 + Height(s.below.below) && Height(s.below.below) == 2 + Height(t);
      if t.Cell? && t.below.Cell? {
        assert Height(t) == 2 + Height(t.below.below);
      }
    } else if s.Cell? && s.below.Cell? {
      assert Height(s) == 2 + Height(s.below.below);
    }
  }

  function SpendOf(s: Stack): Spend
    requires SevenItems(s)
  {
    var t := s.below.below.below;
    Spend(t.below.below.below.top, t.below.below.top, t.below.top, t.top, s.below.below.top, s.below.top, s.top)
  }

  function Below(s: Stack): Stack
    requires SevenItems(s)
  {
    s.below.below.below.below.below.below.below
  }

  /** A faucet script accepts a stack exactly when it consists of the seven items of a spend that satisfies it.
      This is for every stack, whatever its height. */
  lemma AcceptsExactly(env: Env, f: FaucetScript, stack: Stack)
    requires Implements(f)
    ensures Accepts(env, f.script, stack) <==>
            SevenItems(stack) && Below(stack).Empty? && Satisfies(env, f.delay, SpendOf(stack))
  {
    hide Parse, Append, Run, Satisfies, ComputesDelay, IsTrue;
    var p :| Parse(f.script) == Some(Whole(p)) && forall env :: ComputesDelay(env, p, f.delay);
    SevenItemsHeight(stack);
    BoolIsTrue();
    if SevenItems(stack) {
      WholeRuns(env, p, f.delay, SpendOf(stack), Below(stack));
      if Below(stack).Empty? && Satisfies(env, f.delay, SpendOf(stack)) {
        ItemsWithin(env, f.delay, SpendOf(stack));
      }
    } else if Run(env, Whole(p), At(stack, Empty)).Running? {
      var deep := Filler(7 - Height(stack));
      var full := Under(stack, deep);
      RunUnder(env, Whole(p), At(stack, Empty), deep);
      SevenItemsHeight(full);
      WholeRuns(env, p, f.delay, SpendOf(full), Below(full));
      assert Height(Run(env, Whole(p), At(stack, Empty)).state.main) + Height(deep) == 1;
    }
  }

  lemma BoolIsTrue()
    ensures IsTrue(Bool(true))
  {
  }

  function Filler(n: nat): (s: Stack)
    ensures Height(s) == n
  {
    if n == 0 then Empty else Cell([], Filler(n - 1))
  }

  lemma ItemsWithin(env: Env, delay: nat, w: Spend)
    requires Satisfies(env, delay, w)
    ensures AllWithin(Stacked(w, Empty), MAX_ELEMENT)
  {
    hide Encode, Decode, SequenceAllows, IsTrue;
    assert |w.hB + (w.hA + Zeros(Decode(w.difficulty) / 8))| == 32;
    var s4 := Cell(w.prefix, Cell(w.key, Cell(w.sig, Empty)));
    assert AllWithin(Cell(w.sig, Empty), MAX_ELEMENT);
    assert AllWithin(Cell(w.key, Cell(w.sig, Empty)), MAX_ELEMENT);
    assert AllWithin(s4, MAX_ELEMENT);
    assert AllWithin(Cell(w.hB, Cell(w.suffix, s4)), MAX_ELEMENT);
  }

  lemma ScriptsAreShort(f: FaucetScript)
    requires IsFaucet(f)
    ensures |f.script| <= 200
  {
  }

  /** At no point of a run on seven items do the two stacks come near the machine's limit on items. */
  lemma ItemLimitOutOfReach(env: Env, f: FaucetScript, p: Program, q: Program, stack: Stack)
    requires IsFaucet(f) && Height(stack) == 7
    ensures var r := Run(env, p, At(stack, Empty));
            Parse(f.script) == Some(Append(p, q)) && r.Running? ==>
              Height(r.state.main) + Height(r.state.alt) <= 1000
  {
    hide Parse, Append, Run, Code;
    ScriptsAreShort(f);
    LengthAppend(p, q);
    if Parse(f.script) == Some(Append(p, q)) && Run(env, p, At(stack, Empty)).Running? {
      ParseLength(f.script);
      RunHeight(env, p, At(stack, Empty));
    }
  }
}
