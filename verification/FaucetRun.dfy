/** What each piece of a faucet script does to the stacks. */
module FaucetRun {
  import opened Bytes
  import opened ScriptNum
  import opened Script
  import opened FaucetScripts
  import opened OpcodeRules

  lemma Constants()
    ensures Encode(0) == [] && Encode(1) == [0x01]
    ensures Encode(32) == [0x20] && Encode(64) == [0x40] && Encode(256) == [0x00, 0x01]
    ensures Encode(128) == [0x80, 0x00] && Encode(640) == [0x80, 0x02]
  {
    var a: bytes, b: bytes, c: bytes := [0x00, 0x01], [0x80, 0x00], [0x80, 0x02];
    assert a[1..] == [0x01] && b[1..] == [0x00] && c[1..] == [0x02];
    MinimalRoundTrip(a);
    MinimalRoundTrip(b);
    MinimalRoundTrip(c);
  }

  /** No conditional is open. */
  function At(main: Stack, alt: Stack): State {
    Taken(main, alt, 0)
  }

  lemma CheckLowRuns(env: Env, x: bytes, m: Stack, alt: Stack)
    ensures Run(env, CHECK_LOW, At(Cell(x, m), alt)) ==
            if Readable(env, x, 4) && Decode(x) >= 16 then Running(At(Cell(Encode(Decode(x) - 16), m), alt)) else Abort
  {
    hide Step, Encode, Minimal;
    SmallIntRule(env); SubRule(env); DupRule(env); PushRule(env); GreaterThanOrEqualRule(env); VerifyRule(env);
    Constants();
    if |x| <= 4 {
      DecodeBound(x);
    }
  }

  lemma CheckHighRuns(env: Env, e: nat, m: Stack, alt: Stack)
    requires |Encode(e)| <= 4
    ensures Run(env, CHECK_HIGH, At(Cell(Encode(e), m), alt)) ==
            if e < 64 then Running(At(Cell(Encode(e), m), alt)) else Abort
  {
    hide Step, Encode, Minimal;
    DupRule(env); PushRule(env); LessThanRule(env); VerifyRule(env);
    Constants();
  }

  lemma TimesTenRuns(env: Env, e: nat, m: Stack, alt: Stack)
    requires e < 64
    ensures Run(env, TIMES_TEN, At(Cell(Encode(e), m), alt)) ==
            Running(At(Cell(Encode(10 * e), Cell(Encode(e), m)), alt))
  {
    hide Step, Encode, Minimal;
    DupRule(env); AddRule(env);
  }

  lemma From640Runs(env: Env, x: nat, m: Stack, alt: Stack)
    requires x <= 640
    ensures Run(env, FROM_640, At(Cell(Encode(x), m), alt)) == Running(At(Cell(Encode(640 - x), m), alt))
  {
    hide Step, Encode, Minimal;
    PushRule(env); SwapRule(env); SubRule(env);
    Constants();
  }

  lemma TimesFourRuns(env: Env, e: nat, m: Stack, alt: Stack)
    requires e < 64
    ensures Run(env, TIMES_FOUR, At(Cell(Encode(e), m), alt)) ==
            Running(At(Cell(Encode(4 * e), Cell(Encode(e), m)), alt))
  {
    hide Step, Encode, Minimal;
    DupRule(env); AddRule(env);
  }

  lemma From256Runs(env: Env, x: nat, m: Stack, alt: Stack)
    requires x <= 256
    ensures Run(env, FROM_256, At(Cell(Encode(x), m), alt)) == Running(At(Cell(Encode(256 - x), m), alt))
  {
    hide Step, Encode, Minimal;
    PushRule(env); SwapRule(env); SubRule(env);
    Constants();
  }

  lemma From64Runs(env: Env, e: nat, m: Stack, alt: Stack)
    requires e < 64
    ensures Run(env, FROM_64, At(Cell(Encode(e), m), alt)) ==
            Running(At(Cell(Encode(64 - e), Cell(Encode(e), m)), alt))
  {
    hide Step, Encode, Minimal;
    DupRule(env); PushRule(env); SwapRule(env); SubRule(env);
    Constants();
  }

  lemma CheckDelayRuns(env: Env, lock: nat, m: Stack, alt: Stack)
    requires lock < 0x8000
    ensures Run(env, CHECK_DELAY, At(Cell(Encode(lock), m), alt)) ==
            if SequenceAllows(env.txVersion, env.sequence, lock) then Running(At(m, Cell(Zeros(2), alt))) else Abort
  {
    hide Step, Encode, Minimal;
    CheckSequenceVerifyRule(env); DropRule(env); PushRule(env); ToAltStackRule(env);
    assert Zeros(2) == [0x00, 0x00];
  }

  /** A conditional is open, and its branch is taken or not. */
  function Branch(taken: bool, main: Stack, alt: Stack): State {
    if taken then Taken(main, alt, 1) else Skipping(main, alt, 1, 0)
  }

  lemma Test32Runs(env: Env, e: nat, m: Stack, alt: Stack)
    requires e < 64
    ensures Run(env, TEST_32, At(Cell(Encode(e), m), alt)) == Running(Branch(e >= 32, Cell(Encode(e), m), alt))
  {
    hide Step, Encode, Minimal;
    DupRule(env); PushRule(env); GreaterThanOrEqualRule(env); IfRule(env);
    Constants();
  }

  lemma Test16Runs(env: Env, e: nat, m: Stack, alt: Stack)
    requires e < 64
    ensures Run(env, TEST_16, At(Cell(Encode(e), m), alt)) == Running(Branch(e >= 16, Cell(Encode(e), m), alt))
  {
    hide Step, Encode, Minimal;
    DupRule(env); SmallIntRule(env); GreaterThanOrEqualRule(env); IfRule(env);
  }

  lemma Test8Runs(env: Env, e: nat, m: Stack, alt: Stack)
    requires e < 64
    ensures Run(env, TEST_8, At(Cell(Encode(e), m), alt)) == Running(Branch(e >= 8, Cell(Encode(e), m), alt))
  {
    hide Step, Encode, Minimal;
    DupRule(env); SmallIntRule(env); GreaterThanOrEqualRule(env); IfRule(env);
  }

  lemma AddFourTaken(env: Env, e: nat, z: nat, m: Stack, alt: Stack)
    requires e < 64 && z <= 16
    ensures Run(env, ADD_FOUR, Branch(true, Cell(Encode(e), m), Cell(Zeros(z), alt))) ==
            Running(At(Cell(Encode(e - 32), m), Cell(Zeros(z + 4), alt)))
  {
    hide Step, Encode, Minimal, Zeros;
    FromAltStackRule(env); PushRule(env); CatRule(env); ToAltStackRule(env); SubRule(env); EndIfRule(env);
    Constants();
    assert Zeros(z) + [0x00, 0x00, 0x00, 0x00] == Zeros(z + 4);
  }

  lemma AddFourSkipped(env: Env, main: Stack, alt: Stack)
    ensures Run(env, ADD_FOUR, Branch(false, main, alt)) == Running(At(main, alt))
  {
    hide Step, Encode, Minimal;
    EndIfSkippedRule(env); SkippedRule(env);
  }

  lemma AddFourRuns(env: Env, e: nat, z: nat, taken: bool, m: Stack, alt: Stack)
    requires e < 64 && z <= 16
    ensures Run(env, ADD_FOUR, Branch(taken, Cell(Encode(e), m), Cell(Zeros(z), alt))) ==
            Running(if taken then At(Cell(Encode(e - 32), m), Cell(Zeros(z + 4), alt))
                    else At(Cell(Encode(e), m), Cell(Zeros(z), alt)))
  {
    if taken {
      AddFourTaken(env, e, z, m, alt);
    } else {
      AddFourSkipped(env, Cell(Encode(e), m), Cell(Zeros(z), alt));
    }
  }

  lemma AddTwoRuns(env: Env, e: nat, z: nat, taken: bool, m: Stack, alt: Stack)
    requires e < 64 && z <= 16
    ensures Run(env, ADD_TWO, Branch(taken, Cell(Encode(e), m), Cell(Zeros(z), alt))) ==
            Running(if taken then At(Cell(Encode(e - 16), m), Cell(Zeros(z + 2), alt))
                    else At(Cell(Encode(e), m), Cell(Zeros(z), alt)))
  {
    hide Step, Encode, Minimal;
    FromAltStackRule(env); PushRule(env); CatRule(env); ToAltStackRule(env); SmallIntRule(env); SubRule(env);
    EndIfRule(env); EndIfSkippedRule(env); SkippedRule(env);
    assert Zeros(z) + [0x00, 0x00] == Zeros(z + 2);
  }

  lemma AddOneRuns(env: Env, e: nat, z: nat, taken: bool, m: Stack, alt: Stack)
    requires e < 64 && z <= 16
    ensures Run(env, ADD_ONE, Branch(taken, Cell(Encode(e), m), Cell(Zeros(z), alt))) ==
            Running(if taken then At(Cell(Encode(e - 8), m), Cell(Zeros(z + 1), alt))
                    else At(Cell(Encode(e), m), Cell(Zeros(z), alt)))
  {
    hide Step, Encode, Minimal;
    FromAltStackRule(env); PushRule(env); CatRule(env); ToAltStackRule(env); SmallIntRule(env); SubRule(env);
    EndIfRule(env); EndIfSkippedRule(env); SkippedRule(env);
    assert Zeros(z) + [0x00] == Zeros(z + 1);
  }

  lemma KeepByteRuns(env: Env, r: bytes, hA: bytes, m: Stack, alt: Stack)
    ensures Run(env, KEEP_BYTE, At(Cell(r, Cell(hA, m)), alt)) ==
            if |hA| == 1 then Running(At(Cell(hA, Cell(r, m)), Cell(hA, alt))) else Abort
  {
    hide Step, Encode, Minimal;
    SwapRule(env); SizeRule(env); SmallIntRule(env); EqualVerifyRule(env); DupRule(env); ToAltStackRule(env);
    assert Decode(Encode(|hA|)) == |hA| && Decode(Encode(1)) == 1;
  }

  /** A byte with 0x01 after it is a positive number: 256 more than the unsigned value of the byte. */
  lemma UnsignedByte(x: byte)
    ensures Encode(256 + x as int) == [x, 0x01]
  {
    var b: bytes := [x, 0x01];
    assert b[1..] == [0x01];
    MinimalRoundTrip(b);
  }

  lemma AsNumberRuns(env: Env, r: bytes, x: byte, m: Stack, alt: Stack)
    ensures Run(env, AS_NUMBER, At(Cell([x], Cell(r, m)), alt)) ==
            Running(At(Cell(r, Cell(Encode(x as int), m)), alt))
  {
    hide Step, Encode, Minimal;
    SmallIntRule(env); CatRule(env); PushRule(env); SubRule(env); SwapRule(env);
    Constants();
    UnsignedByte(x);
    assert [x] + [0x01] == [x, 0x01];
  }

  lemma CompareRuns(env: Env, x: nat, p: nat, r: bytes, m: Stack, alt: Stack)
    requires x < 256 && p <= 256
    ensures Run(env, COMPARE, At(Cell(Encode(p), Cell(r, Cell(Encode(x), m))), alt)) ==
            if x < p then Running(At(m, alt)) else Abort
  {
    hide Step, Encode, Minimal;
    NipRule(env); LessThanRule(env); VerifyRule(env);
  }

  lemma RebuildHashRuns(env: Env, hB: bytes, hA: bytes, zeros: bytes, m: Stack, alt: Stack)
    requires |hA| + |zeros| <= MAX_ELEMENT
    ensures Run(env, REBUILD_HASH, At(Cell(hB, m), Cell(hA, Cell(zeros, alt)))) ==
            if |hB| + |hA| + |zeros| <= MAX_ELEMENT then Running(At(m, Cell(hB + (hA + zeros), alt))) else Abort
  {
    hide Step, Encode, Minimal;
    FromAltStackRule(env); CatRule(env); ToAltStackRule(env);
  }

  lemma CheckSizesRuns(env: Env, suffix: bytes, prefix: bytes, key: bytes, sig: bytes, m: Stack, alt: Stack)
    ensures var s := Cell(suffix, Cell(prefix, Cell(key, Cell(sig, m))));
            Run(env, CHECK_SIZES, At(s, alt)) ==
            if |key| == 32 && |sig| == 64 then Running(At(Cell(sig, s), alt)) else Abort
  {
    hide Step, Encode, Minimal;
    TwoOverRule(env); SizeRule(env); PushRule(env); EqualVerifyRule(env); DropRule(env);
    Constants();
  }

  /** Its size, as a script number, and then the string itself. */
  function Sized(x: bytes): bytes {
    Encode(|x|) + x
  }

  function ScriptHeader(prefix: bytes, sig: bytes, suffix: bytes): bytes {
    Sized(prefix) + (sig + Sized(suffix))
  }

  lemma AddSuffixRuns(env: Env, sig: bytes, suffix: bytes, m: Stack, alt: Stack)
    ensures Run(env, ADD_SUFFIX, At(Cell(sig, Cell(suffix, m)), alt)) ==
            if |sig + Sized(suffix)| <= MAX_ELEMENT then Running(At(Cell(sig + Sized(suffix), m), alt)) else Abort
  {
    hide Step, Encode, Minimal;
    SwapRule(env); SizeRule(env); CatRule(env);
  }

  lemma AddPrefixRuns(env: Env, rest: bytes, prefix: bytes, m: Stack, alt: Stack)
    ensures Run(env, ADD_PREFIX, At(Cell(rest, Cell(prefix, m)), alt)) ==
            if |Sized(prefix) + rest| <= MAX_ELEMENT then Running(At(Cell(Sized(prefix) + rest, m), alt)) else Abort
  {
    hide Step, Encode, Minimal;
    SwapRule(env); SizeRule(env); CatRule(env);
  }

  lemma FinishRuns(env: Env, header: bytes, hash: bytes, key: bytes, sig: bytes, m: Stack, alt: Stack)
    requires |key| == 32 && |sig| == 64
    ensures Run(env, FINISH, At(Cell(header, Cell(key, Cell(sig, m))), Cell(hash, alt))) ==
            if env.hash256(header) == hash && env.checkSig(sig, key) then Running(At(Cell(Bool(true), m), alt))
            else Abort
  {
    hide Step, Encode, Minimal;
    Hash256Rule(env); FromAltStackRule(env); EqualVerifyRule(env); CheckSigRule(env);
  }

  /** The nest of conditionals before its rung number k: either the power for r has been found on an earlier
      rung, and everything is skipped, or it is still looked for. */
  function AtRung(k: nat, r: nat, m: Stack, alt: Stack): State
    requires r < 8
  {
    if r < k then Skipping(Cell(Encode(Pow2(8 - r)), Cell(Encode(r), m)), alt, k, r)
    else Taken(Cell(Encode(r), m), alt, k)
  }

  lemma Rung0Runs(env: Env, r: nat, m: Stack, alt: Stack)
    requires r < 8
    ensures Run(env, RUNG_0, AtRung(0, r, m, alt)) == Running(AtRung(1, r, m, alt))
  {
    hide Step, Encode, Minimal, Decode, Pow2;
    DupRule(env); PushRule(env); SmallIntRule(env); EqualRule(env); IfRule(env); ElseRule(env);
    SkippedRule(env); IfSkippedRule(env); ElseSkippedRule(env);
    Constants(); SmallPowers();
    assert Decode(Encode(r)) == r && Decode(Encode(0)) == 0;
  }

  lemma Rung1Runs(env: Env, r: nat, m: Stack, alt: Stack)
    requires r < 8
    ensures Run(env, RUNG_1, AtRung(1, r, m, alt)) == Running(AtRung(2, r, m, alt))
  {
    hide Step, Encode, Minimal, Decode, Pow2;
    DupRule(env); PushRule(env); SmallIntRule(env); EqualRule(env); IfRule(env); ElseRule(env);
    SkippedRule(env); IfSkippedRule(env); ElseSkippedRule(env);
    Constants(); SmallPowers();
    assert Decode(Encode(r)) == r && Decode(Encode(1)) == 1;
  }

  lemma Rung2Runs(env: Env, r: nat, m: Stack, alt: Stack)
    requires r < 8
    ensures Run(env, RUNG_2, AtRung(2, r, m, alt)) == Running(AtRung(3, r, m, alt))
  {
    hide Step, Encode, Minimal, Decode, Pow2;
    DupRule(env); PushRule(env); SmallIntRule(env); EqualRule(env); IfRule(env); ElseRule(env);
    SkippedRule(env); IfSkippedRule(env); ElseSkippedRule(env);
    Constants(); SmallPowers();
    assert Decode(Encode(r)) == r && Decode(Encode(2)) == 2;
  }

  lemma Rung3Runs(env: Env, r: nat, m: Stack, alt: Stack)
    requires r < 8
    ensures Run(env, RUNG_3, AtRung(3, r, m, alt)) == Running(AtRung(4, r, m, alt))
  {
    hide Step, Encode, Minimal, Decode, Pow2;
    DupRule(env); PushRule(env); SmallIntRule(env); EqualRule(env); IfRule(env); ElseRule(env);
    SkippedRule(env); IfSkippedRule(env); ElseSkippedRule(env);
    Constants(); SmallPowers();
    assert Decode(Encode(r)) == r && Decode(Encode(3)) == 3;
  }

  lemma Rung4Runs(env: Env, r: nat, m: Stack, alt: Stack)
    requires r < 8
    ensures Run(env, RUNG_4, AtRung(4, r, m, alt)) == Running(AtRung(5, r, m, alt))
  {
    hide Step, Encode, Minimal, Decode, Pow2;
    DupRule(env); PushRule(env); SmallIntRule(env); EqualRule(env); IfRule(env); ElseRule(env);
    SkippedRule(env); IfSkippedRule(env); ElseSkippedRule(env);
    Constants(); SmallPowers();
    assert Decode(Encode(r)) == r && Decode(Encode(4)) == 4;
  }

  lemma Rung5Runs(env: Env, r: nat, m: Stack, alt: Stack)
    requires r < 8
    ensures Run(env, RUNG_5, AtRung(5, r, m, alt)) == Running(AtRung(6, r, m, alt))
  {
    hide Step, Encode, Minimal, Decode, Pow2;
    DupRule(env); PushRule(env); SmallIntRule(env); EqualRule(env); IfRule(env); ElseRule(env);
    SkippedRule(env); IfSkippedRule(env); ElseSkippedRule(env);
    Constants(); SmallPowers();
    assert Decode(Encode(r)) == r && Decode(Encode(5)) == 5;
  }

  lemma Rung6Runs(env: Env, r: nat, m: Stack, alt: Stack)
    requires r < 8
    ensures Run(env, RUNG_6, AtRung(6, r, m, alt)) == Running(AtRung(7, r, m, alt))
  {
    hide Step, Encode, Minimal, Decode, Pow2;
    DupRule(env); PushRule(env); SmallIntRule(env); EqualRule(env); IfRule(env); ElseRule(env);
    SkippedRule(env); IfSkippedRule(env); ElseSkippedRule(env);
    Constants(); SmallPowers();
    assert Decode(Encode(r)) == r && Decode(Encode(6)) == 6;
  }

  lemma LastRungRuns(env: Env, r: nat, m: Stack, alt: Stack)
    requires r < 8
    ensures Run(env, LAST_RUNG, AtRung(7, r, m, alt)) ==
            Running(At(Cell(Encode(Pow2(8 - r)), Cell(Encode(r), m)), alt))
  {
    hide Step, Encode, Minimal, Decode, Pow2;
    SmallIntRule(env); SkippedRule(env); EndIfRule(env); EndIfSkippedRule(env);
    SmallPowers();
  }

  lemma PowerRuns(env: Env, r: nat, m: Stack, alt: Stack)
    requires r < 8
    ensures Run(env, POWER, At(Cell(Encode(r), m), alt)) ==
            Running(At(Cell(Encode(Pow2(8 - r)), Cell(Encode(r), m)), alt))
  {
    hide Run, Append, Step, Encode, Pow2;
    Rung0Runs(env, r, m, alt); Rung1Runs(env, r, m, alt); Rung2Runs(env, r, m, alt); Rung3Runs(env, r, m, alt);
    Rung4Runs(env, r, m, alt); Rung5Runs(env, r, m, alt); Rung6Runs(env, r, m, alt); LastRungRuns(env, r, m, alt);
    var p6 := Append(RUNG_6, LAST_RUNG);
    RunAppend(env, RUNG_6, LAST_RUNG, AtRung(6, r, m, alt));
    RunAppend(env, RUNG_5, p6, AtRung(5, r, m, alt));
    var p4 := Append(RUNG_4, Append(RUNG_5, p6));
    RunAppend(env, RUNG_4, Append(RUNG_5, p6), AtRung(4, r, m, alt));
    RunAppend(env, RUNG_3, p4, AtRung(3, r, m, alt));
    var p2 := Append(RUNG_2, Append(RUNG_3, p4));
    RunAppend(env, RUNG_2, Append(RUNG_3, p4), AtRung(2, r, m, alt));
    RunAppend(env, RUNG_1, p2, AtRung(1, r, m, alt));
    RunAppend(env, RUNG_0, Append(RUNG_1, p2), AtRung(0, r, m, alt));
  }
}
