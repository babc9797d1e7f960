/** The shader that the WebGPU backend generates (shasolve/webgpu.go): the statements of its unrolled compression
    function, run one after the other. */
module WebGpu {
  import opened Bytes
  import opened Sha256
  import opened WordOps
  import opened Kernel
  import opened Difficulty
  import opened CheckNonce

  /** The names in the generated function: eight variables, and two constants for every round. */
  datatype Name = A | B | C | D | E | F | G | HH | T1(round: nat) | T2(round: nat)

  datatype Builtin = SSig0 | SSig1 | BSig0 | BSig1

  datatype Expr =
    | Constant(value: Word) | Read(name: Name) | AtH(i: nat) | AtW(i: nat)
    | Sum(left: Expr, right: Expr) | Call(f: Builtin, arg: Expr)
    | CallCh(x: Expr, y: Expr, z: Expr) | CallMaj(x: Expr, y: Expr, z: Expr)

  datatype Stmt =
    | Var(name: Name, e: Expr) | Let(name: Name, e: Expr) | Assign(name: Name, e: Expr)
    | StoreH(i: nat, e: Expr) | StoreW(i: nat, e: Expr)

  /** The arrays behind the two pointers, what the names stand for, and which names are variables. */
  datatype Machine = Machine(h: seq<Word>, w: seq<Word>, names: map<Name, Word>, variables: set<Name>)

  function Eval(e: Expr, m: Machine): Option<Word> {
    match e
    case Constant(v) => Some(v)
    case Read(n) => if n in m.names then Some(m.names[n]) else None
    case AtH(i) => if i < |m.h| then Some(m.h[i]) else None
    case AtW(i) => if i < |m.w| then Some(m.w[i]) else None
    case Sum(l, r) =>
      (match (Eval(l, m), Eval(r, m))
       case (Some(x), Some(y)) => Some(Add(x, y))
       case _ => None)
    case Call(f, a) =>
      (match Eval(a, m)
       case Some(x) => Some(Apply(f, x))
       case None => None)
    case CallCh(x, y, z) =>
      (match (Eval(x, m), Eval(y, m), Eval(z, m))
       case (Some(a), Some(b), Some(c)) => Some(Ch(a, b, c))
       case _ => None)
    case CallMaj(x, y, z) =>
      (match (Eval(x, m), Eval(y, m), Eval(z, m))
       case (Some(a), Some(b), Some(c)) => Some(Maj(a, b, c))
       case _ => None)
  }

  function Apply(f: Builtin, x: Word): Word {
    match f
    case SSig0 => SmallSigma0(x)
    case SSig1 => SmallSigma1(x)
    case BSig0 => BigSigma0(x)
    case BSig1 => BigSigma1(x)
  }

  /** None if the statement reads a name that is not declared, declares one twice, assigns to a constant or
      leaves an array. */
  function Step(s: Stmt, m: Machine): Option<Machine> {
    match Eval(s.e, m)
    case None => None
    case Some(v) =>
      match s
      case Var(n, _) =>
        if n in m.names then None else Some(m.(names := m.names[n := v], variables := m.variables + {n}))
      case Let(n, _) => if n in m.names then None else Some(m.(names := m.names[n := v]))
      case Assign(n, _) => if n in m.names && n in m.variables then Some(m.(names := m.names[n := v])) else None
      case StoreH(i, _) => if i < |m.h| then Some(m.(h := m.h[i := v])) else None
      case StoreW(i, _) => if i < |m.w| then Some(m.(w := m.w[i := v])) else None
  }

  function Exec(code: seq<Stmt>, m: Machine): Option<Machine> {
    if code == [] then Some(m) else
    match Exec(code[..|code| - 1], m)
    case None => None
    case Some(n) => Step(code[|code| - 1], n)
  }

  lemma {:induction false} ExecAppend(p: seq<Stmt>, q: seq<Stmt>, m: Machine)
    ensures Exec(p + q, m) == match Exec(p, m) { case None => None case Some(n) => Exec(q, n) }
  {
    hide Step;
    if q == [] {
      assert p + q == p;
    } else {
      var r := q[..|q| - 1];
      assert (p + q)[..|p + q| - 1] == p + r;
      ExecAppend(p, r, m);
    }
  }

  lemma StepKeepsConstants(s: Stmt, m: Machine, n: Name)
    requires n in m.names && n !in m.variables && Step(s, m).Some?
    ensures var r := Step(s, m).value; n in r.names && n !in r.variables && r.names[n] == m.names[n]
  {
    hide Eval;
  }

  /** What is declared with let has one value in the whole run. */
  lemma {:induction false} ConstantsKeepValue(code: seq<Stmt>, m: Machine, n: Name)
    requires n in m.names && n !in m.variables && Exec(code, m).Some?
    ensures var r := Exec(code, m).value; n in r.names && n !in r.variables && r.names[n] == m.names[n]
  {
    hide Step;
    if code != [] {
      ConstantsKeepValue(code[..|code| - 1], m, n);
      StepKeepsConstants(code[|code| - 1], Exec(code[..|code| - 1], m).value, n);
    }
  }

  lemma ExecOne(s: Stmt, m: Machine)
    ensures Exec([s], m) == Step(s, m)
  {
    hide Step;
    assert [s][..0] == [];
  }

  /** A run whose every step succeeds. */
  lemma {:induction false} ExecTrace(p: seq<Stmt>, t: seq<Machine>)
    requires |t| == |p| + 1
    requires forall k :: 0 <= k < |p| ==> Step(p[k], t[k]) == Some(t[k + 1])
    ensures Exec(p, t[0]) == Some(t[|p|])
  {
    hide Step;
    if p != [] {
      ExecTrace(p[..|p| - 1], t[..|p|]);
    }
  }

  lemma ExecFour(p: seq<Stmt>, m0: Machine, m1: Machine, m2: Machine, m3: Machine, m4: Machine)
    requires |p| == 4
    requires Step(p[0], m0) == Some(m1) && Step(p[1], m1) == Some(m2)
    requires Step(p[2], m2) == Some(m3) && Step(p[3], m3) == Some(m4)
    ensures Exec(p, m0) == Some(m4)
  {
    hide Step;
    ExecTrace(p, [m0, m1, m2, m3, m4]);
  }

  const ORDER := [A, B, C, D, E, F, G, HH]

  function Load(): seq<Stmt> {
    seq(8, i requires 0 <= i < 8 => Var(ORDER[i], AtH(i)))
  }

  function ScheduleStmt(i: nat): Stmt
    requires i >= 16
  {
    StoreW(i % 16, Sum(Sum(Sum(Call(SSig1, AtW((i - 2) % 16)), AtW((i - 7) % 16)), Call(SSig0, AtW((i - 15) % 16))),
                       AtW(i % 16)))
  }

  /** The generator leaves the schedule line out in the first sixteen rounds. */
  function ScheduleCode(i: nat): seq<Stmt> {
    if i < 16 then [] else [ScheduleStmt(i)]
  }

  function TermsCode(i: nat): seq<Stmt>
    requires i < 64
  {
    [Let(T1(i), Sum(Sum(Sum(Sum(Read(HH), Call(BSig1, Read(E))), CallCh(Read(E), Read(F), Read(G))),
                        Constant(RoundConstant(i))), AtW(i % 16))),
     Let(T2(i), Sum(Call(BSig0, Read(A)), CallMaj(Read(A), Read(B), Read(C))))]
  }

  function ShiftLow(i: nat): seq<Stmt> {
    [Assign(HH, Read(G)), Assign(G, Read(F)), Assign(F, Read(E)), Assign(E, Sum(Read(D), Read(T1(i))))]
  }

  function ShiftHigh(i: nat): seq<Stmt> {
    [Assign(D, Read(C)), Assign(C, Read(B)), Assign(B, Read(A)), Assign(A, Sum(Read(T1(i)), Read(T2(i))))]
  }

  function ShiftCode(i: nat): seq<Stmt> {
    ShiftLow(i) + ShiftHigh(i)
  }

  function RoundCode(i: nat): seq<Stmt>
    requires i < 64
  {
    ScheduleCode(i) + TermsCode(i) + ShiftCode(i)
  }

  function RoundsCode(n: nat): seq<Stmt>
    requires n <= 64
  {
    if n == 0 then [] else RoundsCode(n - 1) + RoundCode(n - 1)
  }

  function Store(): seq<Stmt> {
    seq(8, i requires 0 <= i < 8 => StoreH(i, Sum(AtH(i), Read(ORDER[i]))))
  }

  /** The body that buildWebGPUCompress writes. */
  method BuildWebGPUCompress() returns (code: seq<Stmt>)
    ensures code == Load() + RoundsCode(64) + Store()
  {
    hide ScheduleCode, ScheduleStmt, TermsCode, ShiftCode, RoundCode, Load, Store;
    code := Load();
    for i := 0 to 64
      invariant code == Load() + RoundsCode(i)
    {
      ghost var before := code;
      if i >= 16 {
        code := code + [ScheduleStmt(i)];
      }
      ScheduleCodeIs(i);
      assert code == before + ScheduleCode(i);
      code := code + TermsCode(i) + ShiftCode(i);
      RoundAppended(before, i);
      assert RoundsCode(i + 1) == RoundsCode(i) + RoundCode(i);
    }
    code := code + Store();
  }

  lemma RoundAppended(before: seq<Stmt>, i: nat)
    requires i < 64
    ensures before + ScheduleCode(i) + TermsCode(i) + ShiftCode(i) == before + RoundCode(i)
  {
    hide ScheduleCode, TermsCode, ShiftCode;
  }

  lemma ScheduleCodeIs(i: nat)
    ensures ScheduleCode(i) == if i >= 16 then [ScheduleStmt(i)] else []
  {
  }

  const VARIABLES := {A, B, C, D, E, F, G, HH}

  function Field(v: Vars, n: Name): Word {
    match n
    case A => v.a
    case B => v.b
    case C => v.c
    case D => v.d
    case E => v.e
    case F => v.f
    case G => v.g
    case HH => v.h
    case _ => 0
  }

  predicate Holding(m: Machine, v: Vars) {
    m.variables == VARIABLES && forall n :: n in VARIABLES ==> n in m.names && m.names[n] == Field(v, n)
  }

  /** The constants declared so far are those of the earlier rounds. */
  ghost predicate DeclaredUpTo(m: Machine, n: nat) {
    forall i: nat :: i >= n ==> T1(i) !in m.names && T2(i) !in m.names
  }

  lemma ScheduleStmtRuns(m: Machine, i: nat)
    requires |m.w| == 16 && i >= 16
    ensures Step(ScheduleStmt(i), m) == Some(m.(w := m.w[i % 16 := NextInRing(m.w, i)]))
  {
    hide Add, SmallSigma0, SmallSigma1;
    var a, b := Call(SSig1, AtW((i - 2) % 16)), Call(SSig0, AtW((i - 15) % 16));
    assert Eval(a, m) == Some(SmallSigma1(m.w[(i - 2) % 16]));
    assert Eval(b, m) == Some(SmallSigma0(m.w[(i - 15) % 16]));
    var c := Sum(a, AtW((i - 7) % 16));
    assert Eval(c, m) == Some(Add(SmallSigma1(m.w[(i - 2) % 16]), m.w[(i - 7) % 16]));
    assert Eval(Sum(c, b), m) ==
      Some(Add(Add(SmallSigma1(m.w[(i - 2) % 16]), m.w[(i - 7) % 16]), SmallSigma0(m.w[(i - 15) % 16])));
    var e := Sum(Sum(c, b), AtW(i % 16));
    assert Eval(e, m) == Some(NextInRing(m.w, i));
    assert ScheduleStmt(i) == StoreW(i % 16, e);
  }

  lemma ScheduleRuns(m: Machine, block: Block, i: nat)
    requires RingHolds(m.w, block, i)
    ensures var n := Exec(ScheduleCode(i), m);
            && n.Some? && n.value == m.(w := n.value.w)
            && RingHolds(n.value.w, block, i + 1) && n.value.w[i % 16] == W(block, i)
  {
    hide Add, SmallSigma0, SmallSigma1, W, SlotWord, ScheduleStmt, Step, NextInRing;
    if i < 16 {
      RingFirst(m.w, block, i);
    } else {
      RingStep(m.w, block, i);
      ExecOne(ScheduleStmt(i), m);
      ScheduleStmtRuns(m, i);
    }
  }

  lemma ReadsField(m: Machine, v: Vars, n: Name)
    requires Holding(m, v) && n in VARIABLES
    ensures Eval(Read(n), m) == Some(Field(v, n))
  {
  }

  lemma SumValue(m: Machine, l: Expr, r: Expr, x: Word, y: Word)
    requires Eval(l, m) == Some(x) && Eval(r, m) == Some(y)
    ensures Eval(Sum(l, r), m) == Some(Add(x, y))
  {
    hide Add;
  }

  lemma CallValue(m: Machine, f: Builtin, e: Expr, x: Word)
    requires Eval(e, m) == Some(x)
    ensures Eval(Call(f, e), m) == Some(Apply(f, x))
  {
    hide Apply;
  }

  lemma ChValue(m: Machine, v: Vars)
    requires Holding(m, v)
    ensures Eval(CallCh(Read(E), Read(F), Read(G)), m) == Some(Ch(v.e, v.f, v.g))
  {
    hide Ch, Holding;
    ReadsField(m, v, E);
    ReadsField(m, v, F);
    ReadsField(m, v, G);
  }

  lemma FirstTermRuns(m: Machine, v: Vars, i: nat, w: Word)
    requires i < 64 && |m.w| == 16 && m.w[i % 16] == w && Holding(m, v) && DeclaredUpTo(m, i)
    ensures var t1 := Add(Add(Add(Add(v.h, BigSigma1(v.e)), Ch(v.e, v.f, v.g)), RoundConstant(i)), w);
            Step(TermsCode(i)[0], m) == Some(m.(names := m.names[T1(i) := t1]))
  {
    assert T1(i) !in m.names;
    var k, a0 := Constant(RoundConstant(i)), Call(BSig1, Read(E));
    var a := Sum(Read(HH), a0);
    var b := Sum(a, CallCh(Read(E), Read(F), Read(G)));
    var c := Sum(b, k);
    assert Eval(AtW(i % 16), m) == Some(w) && Eval(k, m) == Some(RoundConstant(i));
    assert TermsCode(i)[0] == Let(T1(i), Sum(c, AtW(i % 16)));
    hide Add, BigSigma0, BigSigma1, Ch, Maj, RoundConstant, Holding, DeclaredUpTo, Eval, TermsCode;
    ReadsField(m, v, HH);
    ReadsField(m, v, E);
    CallValue(m, BSig1, Read(E), v.e);
    SumValue(m, Read(HH), a0, v.h, BigSigma1(v.e));
    ChValue(m, v);
    var x := Add(v.h, BigSigma1(v.e));
    SumValue(m, a, CallCh(Read(E), Read(F), Read(G)), x, Ch(v.e, v.f, v.g));
    SumValue(m, b, k, Add(x, Ch(v.e, v.f, v.g)), RoundConstant(i));
    SumValue(m, c, AtW(i % 16), Add(Add(x, Ch(v.e, v.f, v.g)), RoundConstant(i)), w);
  }

  lemma MajValue(m: Machine, v: Vars)
    requires Holding(m, v)
    ensures Eval(CallMaj(Read(A), Read(B), Read(C)), m) == Some(Maj(v.a, v.b, v.c))
  {
    hide Maj, Holding;
    ReadsField(m, v, A);
    ReadsField(m, v, B);
    ReadsField(m, v, C);
  }

  lemma SecondTermRuns(m: Machine, v: Vars, i: nat)
    requires i < 64 && Holding(m, v) && T2(i) !in m.names
    ensures Step(TermsCode(i)[1], m) == Some(m.(names := m.names[T2(i) := Add(BigSigma0(v.a), Maj(v.a, v.b, v.c))]))
  {
    var a, b := Call(BSig0, Read(A)), CallMaj(Read(A), Read(B), Read(C));
    assert TermsCode(i)[1] == Let(T2(i), Sum(a, b));
    hide Add, BigSigma0, BigSigma1, Ch, Maj, Holding, Eval, TermsCode;
    ReadsField(m, v, A);
    CallValue(m, BSig0, Read(A), v.a);
    MajValue(m, v);
    SumValue(m, a, b, BigSigma0(v.a), Maj(v.a, v.b, v.c));
  }

  lemma TermsRun(m: Machine, v: Vars, i: nat, w: Word)
    requires i < 64 && |m.w| == 16 && m.w[i % 16] == w && Holding(m, v) && DeclaredUpTo(m, i)
    ensures var t1 := Add(Add(Add(Add(v.h, BigSigma1(v.e)), Ch(v.e, v.f, v.g)), RoundConstant(i)), w);
            var t2 := Add(BigSigma0(v.a), Maj(v.a, v.b, v.c));
            Exec(TermsCode(i), m) == Some(m.(names := m.names[T1(i) := t1][T2(i) := t2]))
  {
    hide Add, BigSigma0, BigSigma1, Ch, Maj, RoundConstant, Step, Exec;
    var code := TermsCode(i);
    var t1 := Add(Add(Add(Add(v.h, BigSigma1(v.e)), Ch(v.e, v.f, v.g)), RoundConstant(i)), w);
    var n := m.(names := m.names[T1(i) := t1]);
    assert code == [code[0]] + [code[1]];
    ExecAppend([code[0]], [code[1]], m);
    ExecOne(code[0], m);
    FirstTermRuns(m, v, i, w);
    ExecOne(code[1], n);
    SecondTermRuns(n, v, i);
  }

  function Updated(v: Vars, n: Name, x: Word): Vars
    requires n in VARIABLES
  {
    match n
    case A => v.(a := x)
    case B => v.(b := x)
    case C => v.(c := x)
    case D => v.(d := x)
    case E => v.(e := x)
    case F => v.(f := x)
    case G => v.(g := x)
    case HH => v.(h := x)
  }

  function Assigned(m: Machine, n: Name, x: Word): Machine {
    m.(names := m.names[n := x])
  }

  lemma UpdatedField(v: Vars, n: Name, x: Word, k: Name)
    requires n in VARIABLES
    ensures Field(Updated(v, n, x), k) == if k == n then x else Field(v, k)
  {
  }

  lemma AssignedHolds(m: Machine, v: Vars, n: Name, x: Word)
    requires Holding(m, v) && n in VARIABLES
    ensures Holding(Assigned(m, n, x), Updated(v, n, x))
  {
    hide Field, Updated;
    forall k | k in VARIABLES
      ensures k in Assigned(m, n, x).names && Assigned(m, n, x).names[k] == Field(Updated(v, n, x), k)
    {
      UpdatedField(v, n, x, k);
    }
  }

  predicate SameConstants(m: Machine, n: Machine) {
    && n.names.Keys == m.names.Keys && n == m.(names := n.names)
    && forall k: Name :: (k.T1? || k.T2?) && k in m.names ==> n.names[k] == m.names[k]
  }

  lemma AssignRuns(m: Machine, v: Vars, n: Name, e: Expr, x: Word)
    requires Holding(m, v) && n in VARIABLES && Eval(e, m) == Some(x)
    ensures Step(Assign(n, e), m) == Some(Assigned(m, n, x))
    ensures Holding(Assigned(m, n, x), Updated(v, n, x)) && SameConstants(m, Assigned(m, n, x))
  {
    hide Eval;
    AssignedHolds(m, v, n, x);
    assert n in m.variables && n in m.names;
  }

  lemma SameConstantsTransitive(m: Machine, n: Machine, o: Machine)
    requires SameConstants(m, n) && SameConstants(n, o)
    ensures SameConstants(m, o)
  {
  }

  /** x := y between variables. */
  lemma CopyRuns(m: Machine, v: Vars, n: Name, k: Name)
    requires Holding(m, v) && n in VARIABLES && k in VARIABLES
    ensures var o := Assigned(m, n, Field(v, k));
            Step(Assign(n, Read(k)), m) == Some(o) && Holding(o, Updated(v, n, Field(v, k))) && SameConstants(m, o)
  {
    hide Holding, Updated, Assigned, Step;
    ReadsField(m, v, k);
    AssignRuns(m, v, n, Read(k), Field(v, k));
  }

  lemma ConstantKept(m: Machine, n: Machine, k: Name)
    requires SameConstants(m, n) && k in m.names && (k.T1? || k.T2?)
    ensures Eval(Read(k), n) == Some(m.names[k])
  {
  }

  /** x := e + c, where c is one of the constants of the round. */
  lemma SumRuns(m: Machine, v: Vars, n: Name, e: Expr, x: Word, c: Name, y: Word)
    requires Holding(m, v) && n in VARIABLES && Eval(e, m) == Some(x) && c in m.names && m.names[c] == y
    ensures var o := Assigned(m, n, Add(x, y));
            && Step(Assign(n, Sum(e, Read(c))), m) == Some(o)
            && Holding(o, Updated(v, n, Add(x, y))) && SameConstants(m, o)
  {
    hide Holding, Updated, Assigned, Step, Add, SameConstants;
    assert Eval(Read(c), m) == Some(y);
    AssignRuns(m, v, n, Sum(e, Read(c)), Add(x, y));
  }

  /** The variables after each of the first four assignments, when the last one assigns x. */
  lemma ShiftLowVars(v: Vars, x: Word)
    ensures var v1, v2, v3 := v.(h := v.g), v.(h := v.g, g := v.f), v.(h := v.g, g := v.f, f := v.e);
            && Updated(v, HH, v.g) == v1 && Updated(v1, G, v.f) == v2 && Updated(v2, F, v.e) == v3
            && Updated(v3, E, x) == Vars(v.a, v.b, v.c, v.d, x, v.e, v.f, v.g)
            && Field(v, G) == v.g && Field(v1, F) == v.f && Field(v2, E) == v.e && Field(v3, D) == v.d
  {
  }

  lemma ShiftHighVars(v: Vars, x: Word)
    ensures var v1, v2, v3 := v.(d := v.c), v.(d := v.c, c := v.b), v.(d := v.c, c := v.b, b := v.a);
            && Updated(v, D, v.c) == v1 && Updated(v1, C, v.b) == v2 && Updated(v2, B, v.a) == v3
            && Updated(v3, A, x) == Vars(x, v.a, v.b, v.c, v.e, v.f, v.g, v.h)
            && Field(v, C) == v.c && Field(v1, B) == v.b && Field(v2, A) == v.a
  {
  }

  lemma ShiftLowRuns(m: Machine, v: Vars, i: nat)
    requires Holding(m, v) && T1(i) in m.names
    ensures var n := Exec(ShiftLow(i), m);
            && n.Some? && SameConstants(m, n.value)
            && Holding(n.value, Vars(v.a, v.b, v.c, v.d, Add(v.d, m.names[T1(i)]), v.e, v.f, v.g))
  {
    hide Add, Step, Assigned, Exec, Holding, SameConstants, Field, Updated;
    var t1 := m.names[T1(i)];
    var v1, v2, v3 := v.(h := v.g), v.(h := v.g, g := v.f), v.(h := v.g, g := v.f, f := v.e);
    ShiftLowVars(v, Add(v.d, t1));
    var m1 := Assigned(m, HH, v.g);
    CopyRuns(m, v, HH, G);
    var m2 := Assigned(m1, G, v.f);
    CopyRuns(m1, v1, G, F);
    var m3 := Assigned(m2, F, v.e);
    CopyRuns(m2, v2, F, E);
    var m4 := Assigned(m3, E, Add(v.d, t1));
    SameConstantsTransitive(m, m1, m2);
    SameConstantsTransitive(m, m2, m3);
    ReadsField(m3, v3, D);
    ConstantKept(m, m3, T1(i));
    SumRuns(m3, v3, E, Read(D), v.d, T1(i), t1);
    SameConstantsTransitive(m, m3, m4);
    ExecFour(ShiftLow(i), m, m1, m2, m3, m4);
  }

  lemma ShiftHighRuns(m: Machine, v: Vars, i: nat)
    requires Holding(m, v) && T1(i) in m.names && T2(i) in m.names
    ensures var n := Exec(ShiftHigh(i), m);
            && n.Some? && SameConstants(m, n.value)
            && Holding(n.value, Vars(Add(m.names[T1(i)], m.names[T2(i)]), v.a, v.b, v.c, v.e, v.f, v.g, v.h))
  {
    hide Add, Step, Assigned, Exec, Holding, SameConstants, Field, Updated;
    var t1, t2 := m.names[T1(i)], m.names[T2(i)];
    var v1, v2, v3 := v.(d := v.c), v.(d := v.c, c := v.b), v.(d := v.c, c := v.b, b := v.a);
    ShiftHighVars(v, Add(t1, t2));
    var m1 := Assigned(m, D, v.c);
    CopyRuns(m, v, D, C);
    var m2 := Assigned(m1, C, v.b);
    CopyRuns(m1, v1, C, B);
    var m3 := Assigned(m2, B, v.a);
    CopyRuns(m2, v2, B, A);
    var m4 := Assigned(m3, A, Add(t1, t2));
    SameConstantsTransitive(m, m1, m2);
    SameConstantsTransitive(m, m2, m3);
    ConstantKept(m, m3, T1(i));
    ConstantKept(m, m3, T2(i));
    SumRuns(m3, v3, A, Read(T1(i)), t1, T2(i), t2);
    SameConstantsTransitive(m, m3, m4);
    ExecFour(ShiftHigh(i), m, m1, m2, m3, m4);
  }

  /** The eight assignments at the end of a round, in their order. */
  lemma ShiftRuns(m: Machine, v: Vars, i: nat)
    requires Holding(m, v) && T1(i) in m.names && T2(i) in m.names
    ensures var t1, t2 := m.names[T1(i)], m.names[T2(i)];
            var n := Exec(ShiftCode(i), m);
            && n.Some? && SameConstants(m, n.value)
            && Holding(n.value, Vars(Add(t1, t2), v.a, v.b, v.c, Add(v.d, t1), v.e, v.f, v.g))
  {
    hide Add, Step, Exec, Holding, ShiftLow, ShiftHigh;
    ExecAppend(ShiftLow(i), ShiftHigh(i), m);
    ShiftLowRuns(m, v, i);
    var n := Exec(ShiftLow(i), m).value;
    ShiftHighRuns(n, Vars(v.a, v.b, v.c, v.d, Add(v.d, m.names[T1(i)]), v.e, v.f, v.g), i);
  }

  lemma RingLength(w: seq<Word>, m: Block, i: nat)
    requires RingHolds(w, m, i)
    ensures |w| == 16
  {
  }

  function WithTerms(m: Machine, i: nat, t1: Word, t2: Word): Machine {
    m.(names := m.names[T1(i) := t1][T2(i) := t2])
  }

  lemma TermsKeep(m: Machine, v: Vars, i: nat, t1: Word, t2: Word)
    requires Holding(m, v) && DeclaredUpTo(m, i)
    ensures Holding(WithTerms(m, i, t1, t2), v) && DeclaredUpTo(WithTerms(m, i, t1, t2), i + 1)
  {
    hide Field, VARIABLES;
    NotVariables(i);
  }

  lemma SameDeclared(m: Machine, n: Machine, i: nat)
    requires SameConstants(m, n) && DeclaredUpTo(m, i)
    ensures DeclaredUpTo(n, i)
  {
  }

  lemma RoundRuns(m: Machine, v: Vars, block: Block, i: nat)
    requires i < 64 && Holding(m, v) && DeclaredUpTo(m, i) && RingHolds(m.w, block, i)
    ensures var n := Exec(RoundCode(i), m);
            && n.Some? && n.value.h == m.h
            && Holding(n.value, Round(v, RoundConstant(i), W(block, i)))
            && DeclaredUpTo(n.value, i + 1) && RingHolds(n.value.w, block, i + 1)
  {
    hide Add, BigSigma0, BigSigma1, Ch, Maj, RoundConstant, Step, Exec, ScheduleCode, TermsCode, ShiftCode, W, SlotWord,
      RingHolds;
    RingLength(m.w, block, i);
    ExecAppend(ScheduleCode(i) + TermsCode(i), ShiftCode(i), m);
    ExecAppend(ScheduleCode(i), TermsCode(i), m);
    ScheduleRuns(m, block, i);
    var m1 := Exec(ScheduleCode(i), m).value;
    assert Holding(m1, v) && DeclaredUpTo(m1, i);
    TermsAndShift(m1, v, i, W(block, i), block);
  }

  lemma TermsAndShift(m: Machine, v: Vars, i: nat, w: Word, block: Block)
    requires i < 64 && Holding(m, v) && DeclaredUpTo(m, i) && RingHolds(m.w, block, i + 1) && m.w[i % 16] == w
    ensures var m2 := Exec(TermsCode(i), m);
            && m2.Some?
            && var n := Exec(ShiftCode(i), m2.value);
            && n.Some? && n.value.h == m.h && n.value.w == m.w
            && Holding(n.value, Round(v, RoundConstant(i), w)) && DeclaredUpTo(n.value, i + 1)
  {
    hide Add, BigSigma0, BigSigma1, Ch, Maj, RoundConstant, Step, Exec, TermsCode, ShiftCode, RingHolds, Holding,
      DeclaredUpTo;
    RingLength(m.w, block, i + 1);
    TermsRun(m, v, i, w);
    var t1 := Add(Add(Add(Add(v.h, BigSigma1(v.e)), Ch(v.e, v.f, v.g)), RoundConstant(i)), w);
    var t2 := Add(BigSigma0(v.a), Maj(v.a, v.b, v.c));
    var m2 := WithTerms(m, i, t1, t2);
    TermsKeep(m, v, i, t1, t2);
    ShiftRuns(m2, v, i);
    SameDeclared(m2, Exec(ShiftCode(i), m2).value, i + 1);
  }

  lemma {:induction false} RoundsRun(m: Machine, v: Vars, block: Block, n: nat)
    requires n <= 64 && Holding(m, v) && DeclaredUpTo(m, 0) && RingHolds(m.w, block, 0)
    ensures var r := Exec(RoundsCode(n), m);
            && r.Some? && r.value.h == m.h
            && Holding(r.value, Rounds(v, Schedule(block), n))
            && DeclaredUpTo(r.value, n) && RingHolds(r.value.w, block, n)
  {
    hide Round, RoundCode, RoundConstant, W, SlotWord, Step, Holding, DeclaredUpTo, RingHolds;
    if n > 0 {
      RoundsRun(m, v, block, n - 1);
      ExecAppend(RoundsCode(n - 1), RoundCode(n - 1), m);
      RoundRuns(Exec(RoundsCode(n - 1), m).value, Rounds(v, Schedule(block), n - 1), block, n - 1);
      RoundConstantIs(n - 1);
    }
  }

  lemma RoundConstantIs(i: nat)
    requires i < 64
    ensures RoundConstant(i) == K[i]
  {
  }

  function Fresh(h: seq<Word>, w: seq<Word>): Machine {
    Machine(h, w, map[], {})
  }

  /** The machine after the first n of the eight declarations. */
  function Loaded(h: seq<Word>, w: seq<Word>, n: nat): (m: Machine)
    requires |h| == 8 && n <= 8
    ensures m.h == h && m.w == w
  {
    if n == 0 then Fresh(h, w) else
    var m := Loaded(h, w, n - 1);
    m.(names := m.names[ORDER[n - 1] := h[n - 1]], variables := m.variables + {ORDER[n - 1]})
  }

  lemma OrderDistinct(i: nat, j: nat)
    requires i < 8 && j < 8 && ORDER[i] == ORDER[j]
    ensures i == j
  {
  }

  /** Exactly the first n names are declared, as variables, with the words of h. */
  ghost predicate HasLoaded(m: Machine, h: seq<Word>, n: nat)
    requires |h| == 8 && n <= 8 && |ORDER| == 8
  {
    && (forall i :: 0 <= i < n ==> ORDER[i] in m.names && ORDER[i] in m.variables && m.names[ORDER[i]] == h[i])
    && (forall k :: k in m.names || k in m.variables ==> k in ORDER[..n])
  }

  lemma HasLoadedNext(m: Machine, h: seq<Word>, n: nat)
    requires |h| == 8 && n < 8 && |ORDER| == 8 && HasLoaded(m, h, n) && ORDER[n] !in ORDER[..n]
    ensures HasLoaded(m.(names := m.names[ORDER[n] := h[n]], variables := m.variables + {ORDER[n]}), h, n + 1)
  {
    hide ORDER;
    var o := m.(names := m.names[ORDER[n] := h[n]], variables := m.variables + {ORDER[n]});
    assert ORDER[..n + 1] == ORDER[..n] + [ORDER[n]];
    forall i | 0 <= i < n
      ensures ORDER[i] in o.names && ORDER[i] in o.variables && o.names[ORDER[i]] == h[i]
    {
      assert ORDER[i] in ORDER[..n];
    }
  }

  lemma NextIsNew(n: nat)
    requires n < 8
    ensures |ORDER| == 8 && ORDER[n] !in ORDER[..n]
  {
    hide ORDER;
    OrderLength();
    if ORDER[n] in ORDER[..n] {
      var i :| 0 <= i < n && ORDER[i] == ORDER[n];
      OrderDistinct(i, n);
    }
  }

  lemma {:induction false} LoadedNames(h: seq<Word>, w: seq<Word>, n: nat)
    requires |h| == 8 && n <= 8
    ensures |ORDER| == 8 && HasLoaded(Loaded(h, w, n), h, n)
  {
    OrderLength();
    hide ORDER, HasLoaded;
    if n == 0 {
      LoadedStart(h, w);
    } else {
      LoadedNames(h, w, n - 1);
      NextIsNew(n - 1);
      HasLoadedNext(Loaded(h, w, n - 1), h, n - 1);
    }
  }

  lemma OrderLength()
    ensures |ORDER| == 8
  {
  }

  lemma LoadStep(h: seq<Word>, w: seq<Word>, k: nat)
    requires |h| == 8 && k < 8
    ensures Step(Var(ORDER[k], AtH(k)), Loaded(h, w, k)) == Some(Loaded(h, w, k + 1))
  {
    hide ORDER;
    OrderLength();
    LoadedNames(h, w, k);
    NextIsNew(k);
  }

  lemma LoadRuns(h: seq<Word>, w: seq<Word>)
    requires |h| == 8
    ensures var n := Exec(Load(), Fresh(h, w));
            n.Some? && n.value.h == h && n.value.w == w && Holding(n.value, VarsOf(h)) && DeclaredUpTo(n.value, 0)
  {
    hide Exec, Step, Loaded;
    var t := seq(9, k requires 0 <= k < 9 => Loaded(h, w, k));
    forall k | 0 <= k < 8
      ensures Step(Load()[k], t[k]) == Some(t[k + 1])
    {
      LoadStep(h, w, k);
    }
    ExecTrace(Load(), t);
    assert Loaded(h, w, 0) == Fresh(h, w) by { LoadedStart(h, w); }
    LoadedHolds(h, w);
  }

  lemma LoadedStart(h: seq<Word>, w: seq<Word>)
    requires |h| == 8
    ensures Loaded(h, w, 0) == Fresh(h, w) && |ORDER| == 8 && HasLoaded(Fresh(h, w), h, 0)
  {
  }

  lemma FieldInOrder(h: seq<Word>, k: nat)
    requires |h| == 8 && k < 8
    ensures Field(VarsOf(h), ORDER[k]) == h[k] && ORDER[k] in VARIABLES
  {
  }

  lemma VariableInOrder(n: Name)
    requires n in VARIABLES
    ensures exists k :: 0 <= k < 8 && ORDER[k] == n
  {
    assert ORDER[0] == A && ORDER[1] == B && ORDER[2] == C && ORDER[3] == D;
    assert ORDER[4] == E && ORDER[5] == F && ORDER[6] == G && ORDER[7] == HH;
  }

  lemma LoadedHolds(h: seq<Word>, w: seq<Word>)
    requires |h| == 8
    ensures Holding(Loaded(h, w, 8), VarsOf(h)) && DeclaredUpTo(Loaded(h, w, 8), 0)
  {
    hide Loaded, ORDER, VARIABLES, Field;
    var m := Loaded(h, w, 8);
    OrderLength();
    LoadedNames(h, w, 8);
    forall n | n in VARIABLES
      ensures n in m.names && m.names[n] == Field(VarsOf(h), n) && n in m.variables
    {
      VariableInOrder(n);
      var k :| 0 <= k < 8 && ORDER[k] == n;
      FieldInOrder(h, k);
    }
    forall n | n in m.names || n in m.variables
      ensures n in VARIABLES
    {
      var k :| 0 <= k < 8 && ORDER[k] == n;
      FieldInOrder(h, k);
    }
    assert m.variables == VARIABLES;
    forall i: nat
      ensures T1(i) !in m.names && T2(i) !in m.names
    {
      NotVariables(i);
    }
  }

  lemma NotVariables(i: nat)
    ensures T1(i) !in VARIABLES && T2(i) !in VARIABLES
  {
  }

  /** The arrays after the first n of the eight stores. */
  function Stored(m: Machine, v: Vars, n: nat): Machine
    requires |m.h| == 8
  {
    m.(h := seq(8, i requires 0 <= i < 8 => if i < n then Add(m.h[i], Field(v, ORDER[i])) else m.h[i]))
  }

  lemma StoreRuns(m: Machine, v: Vars)
    requires |m.h| == 8 && Holding(m, v)
    ensures Exec(Store(), m) == Some(Stored(m, v, 8)) && VarsOf(Stored(m, v, 8).h) == AddVars(VarsOf(m.h), v)
  {
    hide Add, Step, Exec, Holding, Stored, ORDER, Field;
    var t := seq(9, k requires 0 <= k < 9 => Stored(m, v, k));
    OrderLength();
    forall k | 0 <= k < 8
      ensures Step(Store()[k], t[k]) == Some(t[k + 1])
    {
      StoreStep(m, v, k);
    }
    ExecTrace(Store(), t);
    StoredEnds(m, v);
  }

  lemma StoredEnds(m: Machine, v: Vars)
    requires |m.h| == 8
    ensures Stored(m, v, 0) == m && |Stored(m, v, 8).h| == 8
    ensures VarsOf(Stored(m, v, 8).h) == AddVars(VarsOf(m.h), v)
  {
    hide Add;
    assert Stored(m, v, 0).h == m.h;
    var s := Stored(m, v, 8).h;
    OrderLength();
    assert forall i :: 0 <= i < 8 ==> s[i] == Add(m.h[i], Field(v, ORDER[i]));
    hide Stored;
    FieldsInOrder(v);
  }

  lemma FieldsInOrder(v: Vars)
    ensures |ORDER| == 8
    ensures Field(v, ORDER[0]) == v.a && Field(v, ORDER[1]) == v.b && Field(v, ORDER[2]) == v.c
    ensures Field(v, ORDER[3]) == v.d && Field(v, ORDER[4]) == v.e && Field(v, ORDER[5]) == v.f
    ensures Field(v, ORDER[6]) == v.g && Field(v, ORDER[7]) == v.h
  {
  }

  lemma StoreStep(m: Machine, v: Vars, k: nat)
    requires |m.h| == 8 && Holding(m, v) && k < 8
    ensures Step(StoreH(k, Sum(AtH(k), Read(ORDER[k]))), Stored(m, v, k)) == Some(Stored(m, v, k + 1))
  {
    hide Add, Field, ORDER;
    OrderLength();
    var s, n := Stored(m, v, k), ORDER[k];
    assert n in VARIABLES by { OrderInVariables(k); }
    var x := Field(v, n);
    ReadsField(s, v, n);
    assert Eval(AtH(k), s) == Some(m.h[k]);
    assert Eval(Sum(AtH(k), Read(n)), s) == Some(Add(m.h[k], x));
    assert s.h[k := Add(m.h[k], x)] == Stored(m, v, k + 1).h;
  }

  lemma OrderInVariables(k: nat)
    requires k < 8
    ensures ORDER[k] in VARIABLES
  {
  }

  /** Code generation preserves meaning: the generated function runs without a fault on any arrays, and leaves in
      them what the compression function with the ring leaves. */
  lemma GeneratedCompressCorrect(h: seq<Word>, w: Block)
    requires |h| == 8
    ensures var r := Exec(Load() + RoundsCode(64) + Store(), Fresh(h, w));
            r.Some? && |r.value.h| == 8 && VarsOf(r.value.h) == Compress(VarsOf(h), w) && RingHolds(r.value.w, w, 64)
  {
    hide Load, RoundsCode, Store, Exec, Rounds, Add, RingHolds, Holding, DeclaredUpTo;
    var m := Fresh(h, w);
    ExecAppend(Load() + RoundsCode(64), Store(), m);
    ExecAppend(Load(), RoundsCode(64), m);
    LoadRuns(h, w);
    RingStart(w);
    RoundsRun(Exec(Load(), m).value, VarsOf(h), w, 64);
    StoreRuns(Exec(RoundsCode(64), Exec(Load(), m).value).value, Rounds(VarsOf(h), Schedule(w), 64));
  }

  /** The ring is determined by the block, so the array w ends up the same too. */
  lemma RingUnique(w: seq<Word>, u: seq<Word>, m: Block, i: nat)
    requires RingHolds(w, m, i) && RingHolds(u, m, i)
    ensures w == u
  {
  }

  function Words8(v: Vars): (h: seq<Word>)
    ensures |h| == 8 && VarsOf(h) == v
  {
    [v.a, v.b, v.c, v.d, v.e, v.f, v.g, v.h]
  }

  /** The double hash in the generated shader's check_nonce: the generated function twice, with the constants generated
      from a header. None if it goes wrong. */
  function ShaderHash(header: bytes, n: nat): Option<Vars>
    requires |header| == 80 && n < NONCES
  {
    var code := Load() + RoundsCode(64) + Store();
    var tail := TailBlock(HeaderWord(header, 16), HeaderWord(header, 17), HeaderWord(header, 18), Uint32Word(n));
    match Exec(code, Fresh(Words8(Midstate(header)), tail))
    case None => None
    case Some(first) =>
      if |first.h| != 8 then None else
      match Exec(code, Fresh(Words8(INITIAL), DigestBlock(VarsOf(first.h))))
      case None => None
      case Some(second) => if |second.h| != 8 then None else Some(VarsOf(second.h))
  }

  /** The generated condition on that hash. */
  predicate ShaderAccepts(header: bytes, d: nat, n: nat)
    requires |header| == 80 && n < NONCES
  {
    ShaderHash(header, n).Some? && AllHold(Generated([H7, H6, H5], d), ShaderHash(header, n).value)
  }

  lemma ShaderHashIsFast(header: bytes, n: nat)
    requires |header| == 80 && n < NONCES
    ensures ShaderHash(header, n) ==
            Some(FastDoubleHash(Midstate(header), HeaderWord(header, 16), HeaderWord(header, 17),
                                HeaderWord(header, 18), Uint32Word(n)))
  {
    hide Load, RoundsCode, Store, Exec, Compress, Midstate, HeaderWord, Uint32Word, TailBlock, DigestBlock, RingHolds;
    var tail := TailBlock(HeaderWord(header, 16), HeaderWord(header, 17), HeaderWord(header, 18), Uint32Word(n));
    GeneratedCompressCorrect(Words8(Midstate(header)), tail);
    GeneratedCompressCorrect(Words8(INITIAL), DigestBlock(Compress(Midstate(header), tail)));
  }

  /** The shader generated for a header and a difficulty never faults, and answers as Verify does. */
  lemma ShaderIsVerify(header: bytes, n: nat, d: nat)
    requires |header| == 80 && n < NONCES && d <= 96
    ensures ShaderHash(header, n).Some?
    ensures ShaderAccepts(header, d, n) <==> Verifies(header, d, n)
  {
    hide ShaderHash, FastDoubleHash, AllHold, Generated, HasTrailingZeroBits, Verifies, Midstate, HeaderWord,
      Uint32Word;
    ShaderHashIsFast(header, n);
    GeneratedTestExact(ShaderHash(header, n).value, d);
    CheckNonceIsVerify(header, n, d);
  }
}
