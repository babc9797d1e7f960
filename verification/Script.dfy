/** The part of the tapscript machine that the faucet scripts use: parser, stacks, conditions and opcodes,
    after BIP 342, BIP 347 (CAT) and BIP 112 (CHECKSEQUENCEVERIFY). */
module Script {
  import opened Bytes
  import ScriptNum

  datatype Op =
    | Push(data: bytes) | SmallInt(n: nat)
    | If | Else | EndIf | Verify
    | ToAltStack | FromAltStack | TwoOver | Drop | Dup | Nip | Swap
    | Cat | Size | Equal | EqualVerify
    | Add | Sub | LessThan | GreaterThanOrEqual
    | Hash256 | CheckSig | CheckSequenceVerify

  datatype Program = End | Then(op: Op, next: Program)

  /** The opcode table, for the opcodes that occur; None for any other byte. */
  function OpcodeOf(c: byte): Option<Op> {
    if c == 0x00 then Some(Push([]))
    else if 0x51 <= c <= 0x60 then Some(SmallInt(c as int - 0x50))
    else match c
      case 0x63 => Some(If)
      case 0x67 => Some(Else)
      case 0x68 => Some(EndIf)
      case 0x69 => Some(Verify)
      case 0x6b => Some(ToAltStack)
      case 0x6c => Some(FromAltStack)
      case 0x70 => Some(TwoOver)
      case 0x75 => Some(Drop)
      case 0x76 => Some(Dup)
      case 0x77 => Some(Nip)
      case 0x7c => Some(Swap)
      case 0x7e => Some(Cat)
      case 0x82 => Some(Size)
      case 0x87 => Some(Equal)
      case 0x88 => Some(EqualVerify)
      case 0x93 => Some(Add)
      case 0x94 => Some(Sub)
      case 0x9f => Some(LessThan)
      case 0xa2 => Some(GreaterThanOrEqual)
      case 0xaa => Some(Hash256)
      case 0xac => Some(CheckSig)
      case 0xb2 => Some(CheckSequenceVerify)
      case _ => None
  }

  function Parse(code: bytes): Option<Program> {
    if code == [] then
      Some(End)
    else if 1 <= code[0] <= 75 then
      var n := code[0] as int;
      if |code| < 1 + n then None else
      match Parse(code[1 + n..])
      case None => None
      case Some(p) => Some(Then(Push(code[1..1 + n]), p))
    else
      match (OpcodeOf(code[0]), Parse(code[1..]))
      case (Some(op), Some(p)) => Some(Then(op, p))
      case _ => None
  }

  function Append(p: Program, q: Program): Program {
    match p
    case End => q
    case Then(op, r) => Then(op, Append(r, q))
  }

  lemma {:induction false} ParseAppend(a: bytes, b: bytes)
    requires Parse(a).Some? && Parse(b).Some?
    ensures Parse(a + b) == Some(Append(Parse(a).value, Parse(b).value))
  {
    hide OpcodeOf;
    if a == [] {
      assert a + b == b;
    } else if 1 <= a[0] <= 75 {
      var n := a[0] as int;
      assert (a + b)[1 + n..] == a[1 + n..] + b;
      assert (a + b)[1..1 + n] == a[1..1 + n];
      ParseAppend(a[1 + n..], b);
    } else {
      assert (a + b)[1..] == a[1..] + b;
      ParseAppend(a[1..], b);
    }
  }

  /** A stack of byte strings, top first. */
  datatype Stack = Empty | Cell(top: bytes, below: Stack)

  function Height(s: Stack): nat {
    match s
    case Empty => 0
    case Cell(_, r) => 1 + Height(r)
  }

  /** s with the items of t underneath. */
  function Under(s: Stack, t: Stack): (r: Stack)
    ensures Height(r) == Height(s) + Height(t)
  {
    match s
    case Empty => t
    case Cell(x, r) => Cell(x, Under(r, t))
  }

  /** The condition stack: how many conditionals are open, and which of them is the outermost whose current
      branch is not taken (-1 if every one is taken). */
  datatype Conditions = Conditions(open: nat, firstFalse: int) {
    predicate Executing() {
      firstFalse < 0
    }

    function Enter(taken: bool): Conditions {
      Conditions(open + 1, if Executing() && !taken then open else firstFalse)
    }

    function Toggle(): Conditions
      requires open > 0
    {
      if Executing() then Conditions(open, open - 1)
      else if firstFalse == open - 1 then Conditions(open, -1)
      else this
    }

    function Leave(): Conditions
      requires open > 0
    {
      Conditions(open - 1, if firstFalse == open - 1 then -1 else firstFalse)
    }
  }

  /** The index of the first false entry of a vector of branch conditions, -1 if there is none. */
  function FirstFalse(v: seq<bool>): int {
    if v == [] then -1
    else if FirstFalse(v[..|v| - 1]) >= 0 then FirstFalse(v[..|v| - 1])
    else if v[|v| - 1] then -1 else |v| - 1
  }

  lemma {:induction false} FirstFalseRange(v: seq<bool>)
    ensures -1 <= FirstFalse(v) < |v|
    ensures FirstFalse(v) < 0 <==> forall i :: 0 <= i < |v| ==> v[i]
  {
    if v != [] {
      FirstFalseRange(v[..|v| - 1]);
    }
  }

  /** The two numbers follow the vector of conditions through every conditional opcode. */
  lemma ConditionsFollowVector(v: seq<bool>, b: bool)
    ensures Conditions(|v|, FirstFalse(v)).Executing() <==> forall i :: 0 <= i < |v| ==> v[i]
    ensures Conditions(|v|, FirstFalse(v)).Enter(b) == Conditions(|v| + 1, FirstFalse(v + [b]))
    ensures Conditions(|v| + 1, FirstFalse(v + [b])).Toggle() == Conditions(|v| + 1, FirstFalse(v + [!b]))
    ensures Conditions(|v| + 1, FirstFalse(v + [b])).Leave() == Conditions(|v|, FirstFalse(v))
  {
    FirstFalseRange(v);
    forall c: bool
      ensures FirstFalse(v + [c]) == if FirstFalse(v) >= 0 then FirstFalse(v) else if c then -1 else |v|
    {
      assert (v + [c])[..|v|] == v;
    }
  }

  datatype State = State(main: Stack, alt: Stack, conditions: Conditions)

  datatype Outcome = Abort | Running(state: State)

  /** What the script can see of the world: the hash function, the signature oracle (for 32-byte keys), the
      version of the spending transaction, the sequence of the spending input, and whether numbers and pushes
      must be minimal (a relay policy, not a consensus rule). */
  datatype Env = Env(
    hash256: HashFunction,
    checkSig: (bytes, bytes) -> bool,
    txVersion: nat,
    sequence: nat,
    minimalOnly: bool)

  const MAX_ELEMENT := 520

  function Bool(b: bool): bytes {
    if b then [1] else []
  }

  predicate IsTrue(b: bytes) {
    b != [] && ((exists i :: 0 <= i < |b| - 1 && b[i] != 0) || (b[|b| - 1] != 0 && b[|b| - 1] != 0x80))
  }

  predicate Readable(env: Env, b: bytes, limit: nat) {
    |b| <= limit && (env.minimalOnly ==> ScriptNum.Minimal(b))
  }

  predicate MinimalPush(data: bytes) {
    data != [] && (|data| == 1 ==> !(1 <= data[0] <= 16) && data[0] != 0x81)
  }

  /** A string is true unless it is a number that is zero, negative zero included. */
  lemma {:induction false} IsTrueExactly(b: bytes)
    ensures IsTrue(b) <==> ScriptNum.Decode(b) != 0
  {
    if |b| > 1 {
      var rest := b[1..];
      IsTrueExactly(rest);
      assert rest[|rest| - 1] == b[|b| - 1];
      if IsTrue(rest) {
        if i :| 0 <= i < |rest| - 1 && rest[i] != 0 {
          assert b[i + 1] == rest[i];
        }
      }
      if i :| 0 <= i < |b| - 1 && b[i] != 0 {
        if i > 0 {
          assert rest[i - 1] == b[i];
        }
      }
    }
  }

  /** What a comparison leaves, and what IF takes, is the number 1 or 0. */
  lemma BoolIsNumber(b: bool)
    ensures Bool(b) == ScriptNum.Encode(if b then 1 else 0)
  {
  }

  /** Pushing bytes is minimal when no opcode pushes them as a number. */
  lemma MinimalPushExactly(data: bytes)
    ensures MinimalPush(data) <==> forall n :: -1 <= n <= 16 ==> ScriptNum.Encode(n) != data
  {
    SmallNumbers();
    hide ScriptNum.Encode;
    if |data| == 1 && 1 <= data[0] <= 16 {
      assert data == [data[0]] == ScriptNum.Encode(data[0] as int);
    } else if |data| == 1 && data[0] == 0x81 {
      assert data == [0x81] == ScriptNum.Encode(-1);
    } else if data == [] {
      assert ScriptNum.Encode(0) == data;
    }
  }

  lemma SmallNumbers()
    ensures ScriptNum.Encode(-1) == [0x81] && ScriptNum.Encode(0) == []
    ensures forall n :: 1 <= n <= 16 ==> ScriptNum.Encode(n) == [n as byte]
  {
  }

  /** BIP 112, for an operand that is not negative, with the flag and mask positions of BIP 68. */
  predicate SequenceAllows(version: nat, sequence: nat, operand: nat) {
    operand / 0x8000_0000 % 2 == 1 ||
    (version >= 2 && sequence / 0x8000_0000 % 2 == 0 &&
     operand / 0x40_0000 % 2 == sequence / 0x40_0000 % 2 &&
     operand % 0x1_0000 <= sequence % 0x1_0000)
  }

  /** In terms of the 32-bit numbers: an operand with the top bit asks for nothing; otherwise version and top bit must
      be right, the two must be of the same kind (bit 22, blocks or time), and the low halves in order. */
  lemma SequenceAllowsExactly(version: nat, sequence: nat, operand: nat)
    requires sequence < 0x1_0000_0000 && operand < 0x1_0000_0000
    ensures SequenceAllows(version, sequence, operand) <==>
      operand >= 0x8000_0000 ||
      (version >= 2 && sequence < 0x8000_0000 && operand % 0x1_0000 <= sequence % 0x1_0000 &&
       (operand % 0x80_0000 >= 0x40_0000 <==> sequence % 0x80_0000 >= 0x40_0000))
  {
    BitIs(operand);
    BitIs(sequence);
  }

  lemma BitIs(n: nat)
    requires n < 0x1_0000_0000
    ensures n / 0x8000_0000 % 2 == 1 <==> n >= 0x8000_0000
    ensures n / 0x40_0000 % 2 == 1 <==> n % 0x80_0000 >= 0x40_0000
  {
    assert n == 0x40_0000 * (n / 0x40_0000) + n % 0x40_0000;
    assert n / 0x40_0000 == 2 * (n / 0x40_0000 / 2) + n / 0x40_0000 % 2;
  }

  predicate IsArithmetic(op: Op) {
    op.Add? || op.Sub? || op.LessThan? || op.GreaterThanOrEqual?
  }

  function Arithmetic(op: Op, x: int, y: int): bytes
    requires IsArithmetic(op)
  {
    match op
    case Add => ScriptNum.Encode(x + y)
    case Sub => ScriptNum.Encode(x - y)
    case LessThan => Bool(x < y)
    case GreaterThanOrEqual => Bool(x >= y)
  }

  function Sequenced(env: Env, x: bytes): bool {
    Readable(env, x, 5) && ScriptNum.Decode(x) >= 0 &&
    SequenceAllows(env.txVersion, env.sequence, ScriptNum.Decode(x))
  }

  function WithMain(s: State, main: Stack): Outcome {
    Running(s.(main := main))
  }

  function Calculate(env: Env, op: Op, s: State): Outcome
    requires IsArithmetic(op)
  {
    if HasPair(s.main) && Readable(env, s.main.below.top, 4) && Readable(env, s.main.top, 4)
    then WithMain(s, Cell(Arithmetic(op, ScriptNum.Decode(s.main.below.top), ScriptNum.Decode(s.main.top)),
                          s.main.below.below))
    else Abort
  }

  /** One opcode. Conditionals are tracked in branches that are not taken; everything else there is skipped.
      The operand of IF must be exactly empty or 0x01. */
  function Step(env: Env, op: Op, s: State): Outcome {
    if !s.conditions.Executing() && !op.If? && !op.Else? && !op.EndIf? then
      Running(s)
    else
      match op
      case If =>
        if !s.conditions.Executing() then Running(s.(conditions := s.conditions.Enter(false)))
        else if s.main.Cell? && (s.main.top == Bool(false) || s.main.top == Bool(true))
        then Running(s.(main := s.main.below, conditions := s.conditions.Enter(s.main.top == Bool(true))))
        else Abort
      case Else =>
        if s.conditions.open == 0 then Abort else Running(s.(conditions := s.conditions.Toggle()))
      case EndIf =>
        if s.conditions.open == 0 then Abort else Running(s.(conditions := s.conditions.Leave()))
      case Push(data) =>
        if env.minimalOnly && data != [] && !MinimalPush(data) then Abort else WithMain(s, Cell(data, s.main))
      case SmallInt(n) => WithMain(s, Cell(ScriptNum.Encode(n), s.main))
      case Verify =>
        if s.main.Cell? && IsTrue(s.main.top) then WithMain(s, s.main.below) else Abort
      case ToAltStack =>
        if s.main.Cell? then Running(s.(main := s.main.below, alt := Cell(s.main.top, s.alt))) else Abort
      case FromAltStack =>
        if s.alt.Cell? then Running(s.(main := Cell(s.alt.top, s.main), alt := s.alt.below)) else Abort
      case TwoOver =>
        if HasPair(s.main) && HasPair(s.main.below.below)
        then var m := s.main.below.below; WithMain(s, Cell(m.top, Cell(m.below.top, s.main)))
        else Abort
      case Drop => if s.main.Cell? then WithMain(s, s.main.below) else Abort
      case Dup => if s.main.Cell? then WithMain(s, Cell(s.main.top, s.main)) else Abort
      case Nip => if HasPair(s.main) then WithMain(s, Cell(s.main.top, s.main.below.below)) else Abort
      case Swap =>
        if HasPair(s.main)
        then WithMain(s, Cell(s.main.below.top, Cell(s.main.top, s.main.below.below)))
        else Abort
      case Cat =>
        if HasPair(s.main) && |s.main.below.top| + |s.main.top| <= MAX_ELEMENT
        then WithMain(s, Cell(s.main.below.top + s.main.top, s.main.below.below))
        else Abort
      case Size => if s.main.Cell? then WithMain(s, Cell(ScriptNum.Encode(|s.main.top|), s.main)) else Abort
      case Equal =>
        if HasPair(s.main)
        then WithMain(s, Cell(Bool(s.main.below.top == s.main.top), s.main.below.below))
        else Abort
      case EqualVerify =>
        if HasPair(s.main) && s.main.below.top == s.main.top then WithMain(s, s.main.below.below) else Abort
      case Hash256 => if s.main.Cell? then WithMain(s, Cell(env.hash256(s.main.top), s.main.below)) else Abort
      case CheckSig => // the key is on top, the signature under it
        if !HasPair(s.main) || s.main.top == [] then Abort
        else if s.main.below.top == [] then WithMain(s, Cell(Bool(false), s.main.below.below))
        else if |s.main.top| == 32 && !env.checkSig(s.main.below.top, s.main.top) then Abort
        else WithMain(s, Cell(Bool(true), s.main.below.below))
      case CheckSequenceVerify => if s.main.Cell? && Sequenced(env, s.main.top) then Running(s) else Abort
      case Add | Sub | LessThan | GreaterThanOrEqual => Calculate(env, op, s)
  }

  /** A signature check leaves true only over a good signature, if the key is one that the machine knows. */
  lemma CheckSigSound(env: Env, s: State)
    requires s.conditions.Executing() && HasPair(s.main) && |s.main.top| == 32
    ensures var o := Step(env, CheckSig, s);
            o.Running? ==>
              o.state == s.(main := o.state.main) && o.state.main.Cell? && o.state.main.below == s.main.below.below &&
              o.state.main.top == ScriptNum.Encode(if s.main.below.top == [] then 0 else 1) &&
              (s.main.below.top != [] ==> env.checkSig(s.main.below.top, s.main.top))
  {
    BoolIsNumber(true);
    BoolIsNumber(false);
    hide ScriptNum.Encode, Bool;
  }

  /** A relative lock is read from at most five bytes; no number below 2^32 needs more. */
  lemma LockOperands(env: Env, x: bytes, n: nat)
    ensures |x| > 5 ==> !Sequenced(env, x)
    ensures n < 0x1_0000_0000 ==>
      (Sequenced(env, ScriptNum.Encode(n)) <==> SequenceAllows(env.txVersion, env.sequence, n))
  {
    hide SequenceAllows;
    if 0 < n < 0x1_0000_0000 {
      FiveBytes(n);
    }
  }

  lemma FiveBytes(n: nat)
    requires 0 < n < 0x1_0000_0000
    ensures |ScriptNum.Encode(n)| <= 5
  {
    assert n / 256 < 0x100_0000;
  }

  predicate HasPair(m: Stack) {
    m.Cell? && m.below.Cell?
  }

  function Run(env: Env, p: Program, s: State): Outcome
    decreases p
  {
    match p
    case End => Running(s)
    case Then(op, q) =>
      match Step(env, op, s)
      case Abort => Abort
      case Running(t) => Run(env, q, t)
  }

  const NO_CONDITIONS := Conditions(0, -1)

  predicate AllWithin(s: Stack, limit: nat) {
    match s
    case Empty => true
    case Cell(x, r) => |x| <= limit && AllWithin(r, limit)
  }

  function Items(s: Stack): seq<bytes> {
    match s
    case Empty => []
    case Cell(x, r) => [x] + Items(r)
  }

  lemma {:induction false} AllWithinExactly(s: Stack, limit: nat)
    ensures AllWithin(s, limit) <==> forall x :: x in Items(s) ==> |x| <= limit
  {
    match s
    case Empty =>
    case Cell(x, r) =>
      AllWithinExactly(r, limit);
      assert x in Items(s) && forall y :: y in Items(r) ==> y in Items(s);
  }

  /** A spend is accepted when the script runs to its end with no conditional open and leaves exactly one
      item on the main stack, a true one. */
  predicate Accepts(env: Env, code: bytes, stack: Stack) {
    AllWithin(stack, MAX_ELEMENT) &&
    match Parse(code)
    case None => false
    case Some(p) =>
      match Run(env, p, State(stack, Empty, NO_CONDITIONS))
      case Abort => false
      case Running(t) => t.conditions.open == 0 && t.main.Cell? && t.main.below.Empty? && IsTrue(t.main.top)
  }

  /** In other words: every item fits, the bytes are a program, and it runs to a single item that is not zero. */
  lemma AcceptsMeans(env: Env, code: bytes, stack: Stack)
    ensures Accepts(env, code, stack) <==>
            && (forall x :: x in Items(stack) ==> |x| <= 520)
            && exists p: Program, alt: Stack, x: bytes, c: Conditions ::
                 Parse(code) == Some(p) && ScriptNum.Decode(x) != 0 && c.open == 0 &&
                 Run(env, p, State(stack, Empty, NO_CONDITIONS)) == Running(State(Cell(x, Empty), alt, c))
  {
    hide Parse, Run, IsTrue, ScriptNum.Decode, AllWithin, Items;
    AllWithinExactly(stack, 520);
    if Accepts(env, code, stack) {
      var t := Run(env, Parse(code).value, State(stack, Empty, NO_CONDITIONS)).state;
      IsTrueExactly(t.main.top);
      assert t == State(Cell(t.main.top, Empty), t.alt, t.conditions);
    }
    forall x: bytes
      ensures IsTrue(x) <==> ScriptNum.Decode(x) != 0
    {
      IsTrueExactly(x);
    }
  }

  lemma {:induction false} RunAppend(env: Env, p: Program, q: Program, s: State)
    ensures Run(env, Append(p, q), s) ==
            match Run(env, p, s) { case Abort => Abort case Running(t) => Run(env, q, t) }
  {
    match p
    case End =>
    case Then(op, r) =>
      match Step(env, op, s)
      case Abort =>
      case Running(t) => RunAppend(env, r, q, t);
  }

  predicate TakesPair(op: Op) {
    op.Nip? || op.Swap? || op.Cat? || op.Equal? || op.EqualVerify? || op.CheckSig? ||
    IsArithmetic(op)
  }

  lemma StepUnderOne(env: Env, op: Op, s: State, deep: Stack)
    requires Step(env, op, s).Running? && ((!TakesPair(op) && !op.TwoOver?) || !s.conditions.Executing())
    ensures Step(env, op, s.(main := Under(s.main, deep))) ==
            Running(Step(env, op, s).state.(main := Under(Step(env, op, s).state.main, deep)))
  {
    hide ScriptNum.Encode, SequenceAllows, IsTrue, Readable, Arithmetic;
  }

  // The result of an opcode that takes a pair, as a function of what lies below the pair.

  lemma StepCalculates(env: Env, op: Op, s: State)
    requires IsArithmetic(op) && s.conditions.Executing()
    ensures Step(env, op, s) == Calculate(env, op, s)
  {
    hide Calculate, ScriptNum.Encode, ScriptNum.Decode, SequenceAllows, IsTrue, Readable;
  }

  lemma ArithmeticIs(env: Env, op: Op, y: bytes, x: bytes, m: Stack, alt: Stack, c: Conditions)
    requires IsArithmetic(op) && c.Executing()
    ensures Step(env, op, State(Cell(y, Cell(x, m)), alt, c)) ==
            if Readable(env, x, 4) && Readable(env, y, 4)
            then Running(State(Cell(Arithmetic(op, ScriptNum.Decode(x), ScriptNum.Decode(y)), m), alt, c)) else Abort
  {
    StepCalculates(env, op, State(Cell(y, Cell(x, m)), alt, c));
    hide Step, ScriptNum.Decode, Readable, Arithmetic;
  }

  lemma ArithmeticStep(env: Env, op: Op, y: bytes, x: bytes, m: Stack, n: Stack, alt: Stack, c: Conditions)
    requires IsArithmetic(op) && c.Executing() && Step(env, op, State(Cell(y, Cell(x, m)), alt, c)).Running?
    ensures Step(env, op, State(Cell(y, Cell(x, Under(m, n))), alt, c)) ==
            var t := Step(env, op, State(Cell(y, Cell(x, m)), alt, c)).state;
            Running(State(Under(t.main, n), t.alt, t.conditions))
  {
    hide Step, ScriptNum.Decode, Readable, Arithmetic;
    ArithmeticIs(env, op, y, x, m, alt, c);
    ArithmeticIs(env, op, y, x, Under(m, n), alt, c);
  }

  lemma CompareStep(env: Env, op: Op, y: bytes, x: bytes, m: Stack, n: Stack, alt: Stack, c: Conditions)
    requires op.Equal? || op.EqualVerify?
    requires c.Executing() && Step(env, op, State(Cell(y, Cell(x, m)), alt, c)).Running?
    ensures Step(env, op, State(Cell(y, Cell(x, Under(m, n))), alt, c)) ==
            var t := Step(env, op, State(Cell(y, Cell(x, m)), alt, c)).state;
            Running(State(Under(t.main, n), t.alt, t.conditions))
  {
    hide ScriptNum.Encode, ScriptNum.Decode, SequenceAllows, IsTrue, Readable, Arithmetic;
  }

  lemma CheckSigStep(env: Env, op: Op, y: bytes, x: bytes, m: Stack, n: Stack, alt: Stack, c: Conditions)
    requires op.CheckSig? && c.Executing() && Step(env, op, State(Cell(y, Cell(x, m)), alt, c)).Running?
    ensures Step(env, op, State(Cell(y, Cell(x, Under(m, n))), alt, c)) ==
            var t := Step(env, op, State(Cell(y, Cell(x, m)), alt, c)).state;
            Running(State(Under(t.main, n), t.alt, t.conditions))
  {
    hide ScriptNum.Encode, ScriptNum.Decode, SequenceAllows, IsTrue, Readable, Arithmetic;
  }

  lemma PairStep(env: Env, op: Op, y: bytes, x: bytes, m: Stack, n: Stack, alt: Stack, c: Conditions)
    requires op.Nip? || op.Swap? || op.Cat?
    requires c.Executing() && Step(env, op, State(Cell(y, Cell(x, m)), alt, c)).Running?
    ensures Step(env, op, State(Cell(y, Cell(x, Under(m, n))), alt, c)) ==
            var t := Step(env, op, State(Cell(y, Cell(x, m)), alt, c)).state;
            Running(State(Under(t.main, n), t.alt, t.conditions))
  {
    hide ScriptNum.Encode, ScriptNum.Decode, SequenceAllows, IsTrue, Readable, Arithmetic;
  }

  lemma TwoOverUnder(env: Env, s: State, deep: Stack)
    requires s.conditions.Executing() && Step(env, TwoOver, s).Running?
    ensures Step(env, TwoOver, s.(main := Under(s.main, deep))) ==
            Running(Step(env, TwoOver, s).state.(main := Under(Step(env, TwoOver, s).state.main, deep)))
  {
    hide ScriptNum.Encode, ScriptNum.Decode, SequenceAllows, IsTrue, Readable, Arithmetic;
    var Cell(z, Cell(y, Cell(x, Cell(w, m)))) := s.main;
    assert Under(Cell(x, Cell(w, m)), deep) == Cell(x, Cell(w, Under(m, deep)));
    assert Under(s.main, deep) == Cell(z, Cell(y, Cell(x, Cell(w, Under(m, deep)))));
  }

  lemma PairNeeded(env: Env, op: Op, s: State)
    requires TakesPair(op) && s.conditions.Executing() && Step(env, op, s).Running?
    ensures HasPair(s.main)
  {
    hide ScriptNum.Encode, ScriptNum.Decode, SequenceAllows, IsTrue, Readable, Arithmetic;
  }

  lemma StepHeight(env: Env, op: Op, s: State)
    requires Step(env, op, s).Running?
    ensures var t := Step(env, op, s).state;
            Height(t.main) + Height(t.alt) <= Height(s.main) + Height(s.alt) + 2
  {
    hide ScriptNum.Encode, SequenceAllows, IsTrue, Readable, Arithmetic;
  }

  /** Items that a step does not reach make no difference to it. */
  lemma StepUnder(env: Env, op: Op, s: State, deep: Stack)
    requires Step(env, op, s).Running?
    ensures Step(env, op, s.(main := Under(s.main, deep))) ==
            Running(Step(env, op, s).state.(main := Under(Step(env, op, s).state.main, deep)))
  {
    hide Step;
    if op.TwoOver? && s.conditions.Executing() {
      TwoOverUnder(env, s, deep);
    } else if TakesPair(op) && s.conditions.Executing() {
      PairNeeded(env, op, s);
      if IsArithmetic(op) {
        ArithmeticStep(env, op, s.main.top, s.main.below.top, s.main.below.below, deep, s.alt, s.conditions);
      } else if op.CheckSig? {
        CheckSigStep(env, op, s.main.top, s.main.below.top, s.main.below.below, deep, s.alt, s.conditions);
      } else if op.Equal? || op.EqualVerify? {
        CompareStep(env, op, s.main.top, s.main.below.top, s.main.below.below, deep, s.alt, s.conditions);
      } else {
        PairStep(env, op, s.main.top, s.main.below.top, s.main.below.below, deep, s.alt, s.conditions);
      }
    } else {
      StepUnderOne(env, op, s, deep);
    }
  }

  /** A run that succeeds also succeeds with more items underneath, and leaves those items where they were. */
  lemma {:induction false} RunUnder(env: Env, p: Program, s: State, deep: Stack)
    requires Run(env, p, s).Running?
    ensures Run(env, p, s.(main := Under(s.main, deep))) ==
            Running(Run(env, p, s).state.(main := Under(Run(env, p, s).state.main, deep)))
  {
    match p
    case End =>
    case Then(op, q) =>
      StepUnder(env, op, s, deep);
      RunUnder(env, q, Step(env, op, s).state, deep);
  }

  function Length(p: Program): nat {
    match p
    case End => 0
    case Then(_, q) => 1 + Length(q)
  }

  lemma {:induction false} ParseLength(code: bytes)
    requires Parse(code).Some?
    ensures Length(Parse(code).value) <= |code|
  {
    hide OpcodeOf;
    if code == [] {
    } else if 1 <= code[0] <= 75 {
      ParseLength(code[1 + code[0] as int..]);
    } else {
      ParseLength(code[1..]);
    }
  }

  lemma LengthAppend(p: Program, q: Program)
    ensures Length(Append(p, q)) == Length(p) + Length(q)
  {
  }

  /** No opcode adds more than two items, so the machine's limit of 1000 items is out of reach of a short
      program on a short stack. */
  lemma {:induction false} RunHeight(env: Env, p: Program, s: State)
    requires Run(env, p, s).Running?
    ensures Height(Run(env, p, s).state.main) + Height(Run(env, p, s).state.alt) <=
            Height(s.main) + Height(s.alt) + 2 * Length(p)
  {
    match p
    case End =>
    case Then(op, q) =>
      var t := Step(env, op, s).state;
      StepHeight(env, op, s);
      RunHeight(env, q, t);
  }
}
