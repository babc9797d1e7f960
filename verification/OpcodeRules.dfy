/** Each opcode as an equation between states of a known shape. */
module OpcodeRules {
  import opened ScriptNum
  import opened Script

  /** A state with that many conditionals open and every one of their branches taken. */
  function Taken(main: Stack, alt: Stack, open: nat): State {
    State(main, alt, Conditions(open, -1))
  }

  /** A state in which the branch of conditional number off is not taken. */
  function Skipping(main: Stack, alt: Stack, open: nat, off: nat): State {
    State(main, alt, Conditions(open, off))
  }

  lemma DupRule(env: Env)
    ensures forall x, m, a, o: nat {:trigger Step(env, Dup, Taken(Cell(x, m), a, o))} ::
      Step(env, Dup, Taken(Cell(x, m), a, o)) ==
      Running(Taken(Cell(x, Cell(x, m)), a, o))
  {
  }

  lemma DropRule(env: Env)
    ensures forall x, m, a, o: nat {:trigger Step(env, Drop, Taken(Cell(x, m), a, o))} ::
      Step(env, Drop, Taken(Cell(x, m), a, o)) ==
      Running(Taken(m, a, o))
  {
  }

  lemma SwapRule(env: Env)
    ensures forall x, y, m, a, o: nat {:trigger Step(env, Swap, Taken(Cell(y, Cell(x, m)), a, o))} ::
      Step(env, Swap, Taken(Cell(y, Cell(x, m)), a, o)) ==
      Running(Taken(Cell(x, Cell(y, m)), a, o))
  {
  }

  lemma NipRule(env: Env)
    ensures forall x, y, m, a, o: nat {:trigger Step(env, Nip, Taken(Cell(y, Cell(x, m)), a, o))} ::
      Step(env, Nip, Taken(Cell(y, Cell(x, m)), a, o)) ==
      Running(Taken(Cell(y, m), a, o))
  {
  }

  lemma TwoOverRule(env: Env)
    ensures forall w, x, y, z, m, a, o: nat
      {:trigger Step(env, TwoOver, Taken(Cell(z, Cell(y, Cell(x, Cell(w, m)))), a, o))} ::
      Step(env, TwoOver, Taken(Cell(z, Cell(y, Cell(x, Cell(w, m)))), a, o)) ==
      Running(Taken(Cell(x, Cell(w, Cell(z, Cell(y, Cell(x, Cell(w, m)))))), a, o))
  {
  }

  lemma ToAltStackRule(env: Env)
    ensures forall x, m, a, o: nat {:trigger Step(env, ToAltStack, Taken(Cell(x, m), a, o))} ::
      Step(env, ToAltStack, Taken(Cell(x, m), a, o)) ==
      Running(Taken(m, Cell(x, a), o))
  {
  }

  lemma FromAltStackRule(env: Env)
    ensures forall x, m, a, o: nat {:trigger Step(env, FromAltStack, Taken(m, Cell(x, a), o))} ::
      Step(env, FromAltStack, Taken(m, Cell(x, a), o)) ==
      Running(Taken(Cell(x, m), a, o))
  {
  }

  lemma CatRule(env: Env)
    ensures forall x, y, m, a, o: nat {:trigger Step(env, Cat, Taken(Cell(y, Cell(x, m)), a, o))} ::
      Step(env, Cat, Taken(Cell(y, Cell(x, m)), a, o)) ==
      if |x| + |y| <= MAX_ELEMENT then Running(Taken(Cell(x + y, m), a, o)) else Abort
  {
  }

  lemma SizeRule(env: Env)
    ensures forall x, m, a, o: nat {:trigger Step(env, Size, Taken(Cell(x, m), a, o))} ::
      Step(env, Size, Taken(Cell(x, m), a, o)) ==
      Running(Taken(Cell(Encode(|x|), Cell(x, m)), a, o))
  {
  }

  lemma EqualRule(env: Env)
    ensures forall x, y, m, a, o: nat {:trigger Step(env, Equal, Taken(Cell(y, Cell(x, m)), a, o))} ::
      Step(env, Equal, Taken(Cell(y, Cell(x, m)), a, o)) ==
      Running(Taken(Cell(Bool(x == y), m), a, o))
  {
  }

  lemma EqualVerifyRule(env: Env)
    ensures forall x, y, m, a, o: nat {:trigger Step(env, EqualVerify, Taken(Cell(y, Cell(x, m)), a, o))} ::
      Step(env, EqualVerify, Taken(Cell(y, Cell(x, m)), a, o)) ==
      if x == y then Running(Taken(m, a, o)) else Abort
  {
  }

  lemma VerifyRule(env: Env)
    ensures forall b, m, a, o: nat {:trigger Step(env, Verify, Taken(Cell(Bool(b), m), a, o))} ::
      Step(env, Verify, Taken(Cell(Bool(b), m), a, o)) ==
      if b then Running(Taken(m, a, o)) else Abort
  {
  }

  lemma Hash256Rule(env: Env)
    ensures forall x, m, a, o: nat {:trigger Step(env, Hash256, Taken(Cell(x, m), a, o))} ::
      Step(env, Hash256, Taken(Cell(x, m), a, o)) ==
      Running(Taken(Cell(env.hash256(x), m), a, o))
  {
  }

  lemma CheckSigRule(env: Env)
    ensures forall key, sig, m, a, o: nat {:trigger Step(env, CheckSig, Taken(Cell(key, Cell(sig, m)), a, o))} ::
      |key| == 32 && sig != [] ==>
        Step(env, CheckSig, Taken(Cell(key, Cell(sig, m)), a, o)) ==
        if env.checkSig(sig, key) then Running(Taken(Cell(Bool(true), m), a, o)) else Abort
  {
  }

  lemma CheckSequenceVerifyRule(env: Env)
    ensures forall n: nat, m, a, o: nat {:trigger Step(env, CheckSequenceVerify, Taken(Cell(Encode(n), m), a, o))} ::
      n < 0x8000 ==>
        Step(env, CheckSequenceVerify, Taken(Cell(Encode(n), m), a, o)) ==
        if SequenceAllows(env.txVersion, env.sequence, n) then Running(Taken(Cell(Encode(n), m), a, o)) else Abort
  {
    hide Encode, Decode, Minimal;
  }

  lemma SmallIntRule(env: Env)
    ensures forall n: nat, m, a, o: nat {:trigger Step(env, SmallInt(n), Taken(m, a, o))} ::
      Step(env, SmallInt(n), Taken(m, a, o)) ==
      Running(Taken(Cell(Encode(n), m), a, o))
  {
  }

  lemma PushRule(env: Env)
    ensures forall d, m, a, o: nat {:trigger Step(env, Push(d), Taken(m, a, o))} ::
      |d| != 1 || d[0] == 0 || 16 < d[0] < 128 ==>
        Step(env, Push(d), Taken(m, a, o)) ==
        Running(Taken(Cell(d, m), a, o))
  {
  }

  lemma AddRule(env: Env)
    ensures forall x, y, m, a, o: nat {:trigger Step(env, Add, Taken(Cell(y, Cell(x, m)), a, o))} ::
      Step(env, Add, Taken(Cell(y, Cell(x, m)), a, o)) ==
      if Readable(env, x, 4) && Readable(env, y, 4)
      then Running(Taken(Cell(Encode(Decode(x) + Decode(y)), m), a, o)) else Abort
  {
    hide Encode, Decode, Minimal;
  }

  lemma SubRule(env: Env)
    ensures forall x, y, m, a, o: nat {:trigger Step(env, Sub, Taken(Cell(y, Cell(x, m)), a, o))} ::
      Step(env, Sub, Taken(Cell(y, Cell(x, m)), a, o)) ==
      if Readable(env, x, 4) && Readable(env, y, 4)
      then Running(Taken(Cell(Encode(Decode(x) - Decode(y)), m), a, o)) else Abort
  {
    hide Encode, Decode, Minimal;
  }

  lemma LessThanRule(env: Env)
    ensures forall x, y, m, a, o: nat {:trigger Step(env, LessThan, Taken(Cell(y, Cell(x, m)), a, o))} ::
      Step(env, LessThan, Taken(Cell(y, Cell(x, m)), a, o)) ==
      if Readable(env, x, 4) && Readable(env, y, 4)
      then Running(Taken(Cell(Bool(Decode(x) < Decode(y)), m), a, o)) else Abort
  {
    hide Encode, Decode, Minimal;
  }

  lemma GreaterThanOrEqualRule(env: Env)
    ensures forall x, y, m, a, o: nat {:trigger Step(env, GreaterThanOrEqual, Taken(Cell(y, Cell(x, m)), a, o))} ::
      Step(env, GreaterThanOrEqual, Taken(Cell(y, Cell(x, m)), a, o)) ==
      if Readable(env, x, 4) && Readable(env, y, 4)
      then Running(Taken(Cell(Bool(Decode(x) >= Decode(y)), m), a, o)) else Abort
  {
    hide Encode, Decode, Minimal;
  }

  lemma IfRule(env: Env)
    ensures forall b, m, a, o: nat {:trigger Step(env, If, Taken(Cell(Bool(b), m), a, o))} ::
      Step(env, If, Taken(Cell(Bool(b), m), a, o)) ==
      Running(if b then Taken(m, a, o + 1) else Skipping(m, a, o + 1, o))
  {
  }

  lemma IfSkippedRule(env: Env)
    ensures forall m, a, o: nat, f: nat {:trigger Step(env, If, Skipping(m, a, o, f))} ::
      Step(env, If, Skipping(m, a, o, f)) ==
      Running(Skipping(m, a, o + 1, f))
  {
  }

  lemma ElseRule(env: Env)
    ensures forall m, a, o: nat {:trigger Step(env, Else, Taken(m, a, o))} ::
      o > 0 ==>
        Step(env, Else, Taken(m, a, o)) ==
        Running(Skipping(m, a, o, o - 1))
  {
  }

  lemma ElseSkippedRule(env: Env)
    ensures forall m, a, o: nat, f: nat {:trigger Step(env, Else, Skipping(m, a, o, f))} ::
      o > 0 ==>
        Step(env, Else, Skipping(m, a, o, f)) ==
        Running(if f == o - 1 then Taken(m, a, o) else Skipping(m, a, o, f))
  {
  }

  lemma EndIfRule(env: Env)
    ensures forall m, a, o: nat {:trigger Step(env, EndIf, Taken(m, a, o))} ::
      o > 0 ==>
        Step(env, EndIf, Taken(m, a, o)) ==
        Running(Taken(m, a, o - 1))
  {
  }

  lemma EndIfSkippedRule(env: Env)
    ensures forall m, a, o: nat, f: nat {:trigger Step(env, EndIf, Skipping(m, a, o, f))} ::
      o > 0 ==>
        Step(env, EndIf, Skipping(m, a, o, f)) ==
        Running(if f == o - 1 then Taken(m, a, o - 1) else Skipping(m, a, o - 1, f))
  {
  }

  lemma SkippedRule(env: Env)
    ensures forall op: Op, m, a, o: nat, f: nat {:trigger Step(env, op, Skipping(m, a, o, f))} ::
      !op.If? && !op.Else? && !op.EndIf? ==>
        Step(env, op, Skipping(m, a, o, f)) ==
        Running(Skipping(m, a, o, f))
  {
  }
}
