/** Whole programs: direct execution line by line, the assembled bytecode, and their agreement. */
module ProgramCorrect {
  import opened Bytecode
  import opened BasicAst
  import opened Machine
  import opened ExprCompile
  import opened StmtCompile
  import opened StmtCorrect

  type Program = seq<Line>

  // ---------------------------------------------------------------------------------------------
  // Assembly
  // ---------------------------------------------------------------------------------------------

  predicate LineOk(l: Line) {
    StmtOk(l.stmt, true)
  }

  /** Every line can be emitted. */
  predicate Compilable(p: Program) {
    forall i | 0 <= i < |p| :: LineOk(p[i])
  }

  /** MAT copies name arrays that the machine can tell apart. */
  predicate BarFree(p: Program) {
    forall i | 0 <= i < |p| :: MatNamesOk(p[i].stmt)
  }

  function LineSize(l: Line): nat
    requires LineOk(l)
  {
    |StmtCode(l.stmt, true, 0, map[])|
  }

  /** Address of the first instruction of line `k`, or of the end of all lines. */
  function Start(p: Program, k: nat): nat
    requires k <= |p| && Compilable(p)
  {
    if k == 0 then 0 else Start(p, k - 1) + LineSize(p[k - 1])
  }

  function BodyCode(p: Program, k: nat, lines: LineMap): seq<Instruction>
    requires k <= |p| && Compilable(p)
  {
    if k == 0 then []
    else BodyCode(p, k - 1, lines) + StmtCode(p[k - 1].stmt, true, Start(p, k - 1), lines)
  }

  /** Line numbers of the first `k` lines with their addresses; a repeated number keeps the last one. */
  function LineTable(p: Program, k: nat): LineMap
    requires k <= |p| && Compilable(p)
  {
    if k == 0 then map[] else LineTable(p, k - 1)[p[k - 1].number := Start(p, k - 1)]
  }

  /** A HALT is added unless some line is END and the code already ends in HALT. */
  predicate NeedsHalt(p: Program, body: seq<Instruction>) {
    !(exists i :: 0 <= i < |p| && p[i].stmt.End?) || body == [] || !body[|body| - 1].op.Halt?
  }

  function Finish(p: Program, body: seq<Instruction>): seq<Instruction> {
    if NeedsHalt(p, body) then body + [Plain(Halt)] else body
  }

  function Compile(p: Program): seq<Instruction>
    requires Compilable(p)
  {
    Finish(p, BodyCode(p, |p|, LineTable(p, |p|)))
  }

  lemma {:induction false} BodySize(p: Program, k: nat, lines: LineMap)
    requires k <= |p| && Compilable(p)
    ensures |BodyCode(p, k, lines)| == Start(p, k)
  {
    hide StmtCode, LineOk;
    if k > 0 {
      BodySize(p, k - 1, lines);
      SameSize(p[k - 1], Start(p, k - 1), lines);
    }
  }

  lemma SameSize(l: Line, at: nat, lines: LineMap)
    requires LineOk(l)
    ensures |StmtCode(l.stmt, true, at, lines)| == LineSize(l)
  {
    hide StmtCode, StmtOk;
    StmtSize(l.stmt, true, at, lines, 0, map[]);
  }

  lemma {:induction false} BodyPrefix(p: Program, j: nat, k: nat, lines: LineMap)
    requires j <= k <= |p| && Compilable(p)
    ensures Start(p, j) <= Start(p, k)
    ensures |BodyCode(p, k, lines)| == Start(p, k) && BodyCode(p, k, lines)[..Start(p, j)] == BodyCode(p, j, lines)
    decreases k
  {
    hide StmtCode, StmtOk;
    BodySize(p, k, lines);
    BodySize(p, j, lines);
    if j < k {
      BodyPrefix(p, j, k - 1, lines);
      var last := StmtCode(p[k - 1].stmt, true, Start(p, k - 1), lines);
      assert (BodyCode(p, k - 1, lines) + last)[..Start(p, j)] == BodyCode(p, k - 1, lines)[..Start(p, j)];
    } else {
      assert BodyCode(p, k, lines)[..Start(p, k)] == BodyCode(p, k, lines);
    }
  }

  /** The code of line `k` stands at its start address in the compiled program. */
  lemma LineInPlace(p: Program, k: nat)
    requires k < |p| && Compilable(p)
    ensures var lines := LineTable(p, |p|);
            var c := StmtCode(p[k].stmt, true, Start(p, k), lines);
            At(Compile(p), Start(p, k), c) && Start(p, k + 1) == Start(p, k) + |c|
  {
    hide StmtCode, StmtOk, NeedsHalt;
    var lines := LineTable(p, |p|);
    var body := BodyCode(p, |p|, lines);
    BodyPrefix(p, k + 1, |p|, lines);
    BodyPrefix(p, k, k + 1, lines);
    SameSize(p[k], Start(p, k), lines);
    var c := StmtCode(p[k].stmt, true, Start(p, k), lines);
    var a, b := Start(p, k), Start(p, k + 1);
    assert body[a..b] == body[..b][a..];
    assert BodyCode(p, k + 1, lines)[a..] == c;
    assert Compile(p)[a..b] == body[a..b];
  }

  // ---------------------------------------------------------------------------------------------
  // Direct execution
  // ---------------------------------------------------------------------------------------------

  /** Where a line number leads: the last line that carries it. */
  function LineIndex(p: Program, n: int, k: nat): nat
    requires k <= |p| && exists i :: 0 <= i < k && p[i].number == n
  {
    if p[k - 1].number == n then k - 1 else LineIndex(p, n, k - 1)
  }

  function GoesTo(p: Program, n: int): nat {
    if exists i :: 0 <= i < |p| && p[i].number == n then LineIndex(p, n, |p|) else 0
  }

  /** Source-level state: `line` counts lines, `|p|` being the end; loops and subroutine calls
      remember lines. */
  datatype Src = Src(env: Env, line: nat, calls: seq<nat>, fors: seq<ForFrame>, onError: Option<nat>)

  datatype Progress = Going(src: Src) | Finished(env: Env) | Stopped(env: Env) | Gone(program: string, env: Env)

  const FIRST := Src(Env(map[], map[], [], 0), 0, [], [], None)

  /** No line before `k` has any code, so line `k` is at address 0. */
  predicate OnlyRemarks(p: Program, k: nat) {
    forall i | 0 <= i < k && i < |p| :: p[i].stmt.Rem?
  }

  function StartLoopAt(h: Host, c: Src, v: string, limit: Value, step: Value, env: Env): Progress {
    if h.toInt(step) == 0 then Stopped(env)
    else Going(c.(env := env, line := c.line + 1,
                  fors := c.fors + [ForFrame(v, h.toInt(limit), h.toInt(step), c.line + 1)]))
  }

  function RepeatLoop(h: Host, c: Src, v: string, env: Env): Progress {
    if c.fors == [] then Stopped(env)
    else
      var f := c.fors[|c.fors| - 1];
      if (v != "" && f.varName != v) || IsReadOnlySystemName(f.varName) then Stopped(env)
      else
        var n := Advance(h, env, f);
        var env' := env.(vars := env.vars[f.varName := IntV(n)]);
        if PastLimit(f, n) then Going(c.(env := env', line := c.line + 1, fors := c.fors[..|c.fors| - 1]))
        else Going(c.(env := env', line := f.body))
  }

  function Clashed(c: Src, env: Env): Progress {
    var told := env.(status := STATUS_LOCKED);
    if c.onError.Some? then Going(c.(env := told, line := c.onError.value)) else Stopped(told)
  }

  /** ON ERROR GOTO a line at address 0 clears the handler instead of setting it. */
  function SetHandler(p: Program, target: Option<int>): Option<nat> {
    if target.None? || OnlyRemarks(p, GoesTo(p, target.value)) then None else Some(GoesTo(p, target.value))
  }

  /** What the flow of a line means for the program. */
  function Follow(h: Host, p: Program, c: Src, f: Flow): Progress {
    match f
    case Fall(env) => Going(c.(env := env, line := c.line + 1))
    case ToLine(n, env) => Going(c.(env := env, line := GoesTo(p, n)))
    case SubLine(n, env) => Going(c.(env := env, line := GoesTo(p, n), calls := c.calls + [c.line + 1]))
    case Back(env) =>
      if c.calls == [] then Stopped(env)
      else Going(c.(env := env, line := c.calls[|c.calls| - 1], calls := c.calls[..|c.calls| - 1]))
    case Quit(env) => Finished(env)
    case Away(program, env) => Gone(program, env)
    case Err(env) => Stopped(env)
    case Blocked(env) => Clashed(c, env)
    case LoopBegin(v, limit, step, env) => StartLoopAt(h, c, v, limit, step, env)
    case LoopNext(v, env) => RepeatLoop(h, c, v, env)
    case Handler(target, env) => Going(c.(env := env, line := c.line + 1, onError := SetHandler(p, target)))
  }

  function SrcStep(h: Host, p: Program, c: Src): Progress
    requires Compilable(p)
  {
    if c.line >= |p| then Finished(c.env)
    else Follow(h, p, c, ExecStmt(h, p[c.line].stmt, true, c.env))
  }

  function SrcRun(h: Host, p: Program, c: Src, n: nat): Progress
    requires Compilable(p)
    decreases n
  {
    if n == 0 then Going(c)
    else
      match SrcStep(h, p, c)
      case Going(c') => SrcRun(h, p, c', n - 1)
      case other => other
  }

  // ---------------------------------------------------------------------------------------------
  // Addresses of lines
  // ---------------------------------------------------------------------------------------------

  lemma {:induction false} TableFinds(p: Program, n: int, k: nat)
    requires k <= |p| && Compilable(p)
    ensures (exists i :: 0 <= i < k && p[i].number == n) <==> n in LineTable(p, k)
    ensures (exists i :: 0 <= i < k && p[i].number == n) ==>
              LineIndex(p, n, k) < k && LineTable(p, k)[n] == Start(p, LineIndex(p, n, k))
    decreases k
  {
    hide LineOk, LineSize;
    if k > 0 {
      TableFinds(p, n, k - 1);
      if p[k - 1].number != n {
        assert (exists i :: 0 <= i < k && p[i].number == n) <==> (exists i :: 0 <= i < k - 1 && p[i].number == n);
      }
    }
  }

  /** A known line number has the address of the line it leads to. */
  lemma AddressOf(p: Program, n: int)
    requires Compilable(p) && n in LineNumbers(p)
    ensures GoesTo(p, n) < |p| && Address(LineTable(p, |p|), n) == Start(p, GoesTo(p, n))
  {
    hide LineOk, Start;
    TableFinds(p, n, |p|);
  }

  /** Only a remark has no code. */
  lemma CodeSize(l: Line)
    requires LineOk(l)
    ensures LineSize(l) == 0 <==> l.stmt.Rem?
  {
    hide StmtOk, StmtCode;
    StmtHasCode(l.stmt, true, 0, map[]);
  }

  lemma StmtHasCode(s: Stmt, top: bool, at: nat, lines: LineMap)
    requires StmtOk(s, top)
    ensures |StmtCode(s, top, at, lines)| == 0 <==> s.Rem?
  {
    hide FileCode, IfCode, SimpleCode, ExprOk, FileArgs, FileArgOk;
    if IsFile(s) {
      FileHasCode(s, top, at, lines);
    } else if s.If? {
      IfHasCode(s, at, lines);
    } else {
      SimpleHasCode(s, lines);
    }
  }

  lemma FileHasCode(s: Stmt, top: bool, at: nat, lines: LineMap)
    requires IsFile(s) && StmtOk(s, top)
    ensures |FileCode(s, top, at, lines)| > 0
  {
    hide ExprOk, FileArgsCode, FileArgs, FileArgOk, ArmCode, Uppercase, FileOp, TryOp, SinkCode, DropCode, FileSink;
  }

  lemma IfHasCode(s: Stmt, at: nat, lines: LineMap)
    requires s.If? && StmtOk(s, true)
    ensures |IfCode(s, at, lines)| > 0
  {
    hide ExprOk, ExprCode, ArmCode;
  }

  lemma SimpleHasCode(s: Stmt, lines: LineMap)
    requires IsSimple(s) && StmtOk(s, true)
    ensures |SimpleCode(s, lines)| == 0 <==> s.Rem?
  {
    hide ExprOk, ExprCode, OptCode, Uppercase, CoerceCode;
  }

  lemma {:induction false} StartAtZero(p: Program, k: nat)
    requires k <= |p| && Compilable(p)
    ensures Start(p, k) == 0 <==> OnlyRemarks(p, k)
    decreases k
  {
    hide LineOk, LineSize;
    if k > 0 {
      StartAtZero(p, k - 1);
      CodeSize(p[k - 1]);
    }
  }

  // ---------------------------------------------------------------------------------------------
  // Simulation
  // ---------------------------------------------------------------------------------------------

  /** The machine stands at the first instruction of the current line with an empty operand stack, and
      its stacks hold the addresses of the remembered lines. */
  ghost predicate Matches(p: Program, c: Src, m: Vm)
    requires Compilable(p)
  {
    && c.line <= |p|
    && m.env == c.env && m.stack == [] && m.ip == Start(p, c.line)
    && |m.calls| == |c.calls|
    && (forall i | 0 <= i < |c.calls| :: c.calls[i] <= |p| && LeadsTo(Compile(p), m.calls[i], Start(p, c.calls[i])))
    && |m.fors| == |c.fors|
    && (forall i | 0 <= i < |c.fors| :: c.fors[i].body <= |p| && m.fors[i] == c.fors[i].(body := Start(p, c.fors[i].body)))
    && (if c.onError.None? then m.onError.None?
        else c.onError.value <= |p| && m.onError == Some(Start(p, c.onError.value)))
  }

  /** The machine outcome that corresponds to the progress of direct execution. */
  ghost predicate Agrees(p: Program, r: Progress, o: Outcome)
    requires Compilable(p)
  {
    match r
    case Going(c) => o.Running? && Matches(p, c, o.vm)
    case Finished(env) => o == Halted(env)
    case Stopped(env) => o == Fault(Raised, env)
    case Gone(program, env) => o == Chained(program, env)
  }

  lemma {:induction false} FollowJumps(h: Host, code: seq<Instruction>, m: Vm, b: nat) returns (n: nat)
    requires LeadsTo(code, m.ip, b)
    ensures Exec(h, code, m, n) == Running(m.(ip := b))
    decreases |code| - m.ip
  {
    hide Exec, Step;
    if m.ip == b {
      ExecZero(h, code, m);
      n := 0;
    } else {
      var t := code[m.ip].operand.i;
      JumpAny(h, code, m);
      var k := FollowJumps(h, code, m.(ip := t), b);
      ExecAdd(h, code, m, 1, k);
      n := 1 + k;
    }
  }

  lemma JumpAny(h: Host, code: seq<Instruction>, m: Vm)
    requires m.ip < |code| && code[m.ip].op.Jump? && code[m.ip].operand.IntV? && code[m.ip].operand.i >= 0
    ensures Exec(h, code, m, 1) == Running(m.(ip := code[m.ip].operand.i))
  {
    hide DataStep;
    var o := Step(h, code, m);
    assert Exec(h, code, o.vm, 0) == o;
  }

  lemma StopsAtEnd(h: Host, code: seq<Instruction>, m: Vm, n: nat, m': Vm)
    requires Exec(h, code, m, n) == Running(m') && m'.ip >= |code|
    ensures Exec(h, code, m, n + 1) == Halted(m'.env)
  {
    hide DataStep;
    ExecAdd(h, code, m, n, 1);
    assert Step(h, code, m') == Halted(m'.env);
  }

  /** Past the last line the machine halts, with or without an added HALT. */
  lemma EndAgrees(h: Host, p: Program, c: Src, m: Vm) returns (n: nat)
    requires Compilable(p) && Matches(p, c, m) && c.line == |p|
    ensures n > 0 && Agrees(p, Finished(c.env), Exec(h, Compile(p), m, n))
  {
    hide Exec, LeadsTo, LineOk, NeedsHalt, Start, BodyCode, LineTable;
    var code := Compile(p);
    var body := BodyCode(p, |p|, LineTable(p, |p|));
    BodySize(p, |p|, LineTable(p, |p|));
    if NeedsHalt(p, body) {
      HaltStep(h, code, m);
      StopsAtEnd(h, code, m, 1, m.(ip := |code|));
      n := 2;
    } else {
      ExecZero(h, code, m);
      StopsAtEnd(h, code, m, 0, m);
      n := 1;
    }
  }

  /** Lines a flow refers to are known when the statement's targets are. */
  predicate FlowKnown(f: Flow, known: set<int>) {
    && (f.ToLine? || f.SubLine? ==> f.line in known)
    && (f.Handler? && f.target.Some? ==> f.target.value in known)
  }

  lemma {:induction false} FlowTargets(h: Host, s: Stmt, top: bool, env: Env, known: set<int>)
    requires StmtOk(s, top) && TargetsKnown(s, known)
    ensures FlowKnown(ExecStmt(h, s, top, env), known)
    decreases s, 1
  {
    hide ExprOk, Eval, FileArgs, EvalFileArgs, FileArgOk, Judge, CallFiles, FileSink, FileIo, Deliver, ExecSimple, ExecArm;
    if IsFile(s) {
      forall e: Env | s.elseArm.Some?
        ensures FlowKnown(ExecArm(h, s.elseArm.value, e), known)
      {
        ArmTargets(h, s.elseArm.value, e, known);
      }
      FileTargets(h, s, top, env, known);
    } else if s.If? {
      var r := Eval(h, s.condition, false, env);
      ArmTargets(h, s.thenArm, r.env, known);
      if s.elseArm.Some? {
        ArmTargets(h, s.elseArm.value, r.env, known);
      }
    } else {
      SimpleTargets(h, s, env, known);
    }
  }

  lemma FileTargets(h: Host, s: Stmt, top: bool, env: Env, known: set<int>)
    requires IsFile(s) && StmtOk(s, top)
    requires s.elseArm.Some? ==> forall e: Env :: FlowKnown(ExecArm(h, s.elseArm.value, e), known)
    ensures FlowKnown(ExecFile(h, s, top, env), known)
  {
    hide ExprOk, FileArgs, EvalFileArgs, FileArgOk, Judge, CallFiles, FileOp, FileSink, Uppercase, ExecArm, FileIo, Deliver;
    forall sink: Sink, v: Value, e: Env
      ensures FlowKnown(Deliver(h, sink, v, e), known)
    {
      DeliverFlow(h, sink, v, e);
    }
  }

  lemma {:induction false} ArmTargets(h: Host, a: BranchArm, env: Env, known: set<int>)
    requires ArmOk(a) && ArmTargetsKnown(a, known)
    ensures FlowKnown(ExecArm(h, a, env), known)
    decreases a, 0
  {
    if a.InlineArm? {
      FlowTargets(h, a.stmt, false, env, known);
    }
  }

  lemma SimpleTargets(h: Host, s: Stmt, env: Env, known: set<int>)
    requires IsSimple(s) && StmtOk(s, true) && TargetsKnown(s, known)
    ensures FlowKnown(ExecSimple(h, s, env), known)
  {
    hide ExprOk, Eval, EvalOpt, CallFiles, Uppercase, StoreVariable, Dimension, StoreCell, FillArray, CopyArray, Trimmed;
  }

  lemma ReturnStep(h: Host, code: seq<Instruction>, m: Vm)
    requires m.ip < |code| && code[m.ip] == Plain(Return)
    ensures Exec(h, code, m, 1) ==
            if m.calls == [] then Fault(Raised, m.env)
            else Running(m.(ip := m.calls[|m.calls| - 1], calls := m.calls[..|m.calls| - 1]))
  {
    hide DataStep;
    var o := Step(h, code, m);
    assert o.Running? ==> Exec(h, code, o.vm, 0) == o;
  }

  lemma ForSetupStep(h: Host, code: seq<Instruction>, m: Vm, base: seq<Value>, name: string, limit: Value, step: Value)
    requires m.ip < |code| && code[m.ip] == WithStr(ForSetup, Uppercase(name)) && m.stack == base + [limit, step]
    ensures Exec(h, code, m, 1) ==
            if h.toInt(step) == 0 then Fault(Raised, m.env)
            else Running(m.(stack := base, ip := m.ip + 1,
                            fors := m.fors + [ForFrame(Uppercase(name), h.toInt(limit), h.toInt(step), m.ip + 1)]))
  {
    hide DataStep;
    UppercaseTwice(name);
    assert m.stack[..|m.stack| - 2] == base;
    var o := Step(h, code, m);
    assert o.Running? ==> Exec(h, code, o.vm, 0) == o;
  }

  lemma ForNextExec(h: Host, code: seq<Instruction>, m: Vm, name: string)
    requires m.ip < |code| && code[m.ip] == WithStr(ForNext, Uppercase(name))
    ensures Exec(h, code, m, 1) == ForNextStep(h, Uppercase(name), m)
  {
    hide DataStep, ForNextStep;
    UppercaseTwice(name);
    var o := Step(h, code, m);
    assert o.Running? ==> Exec(h, code, o.vm, 0) == o;
  }

  lemma BackAgrees(h: Host, p: Program, c: Src, m: Vm, m': Vm)
    returns (n: nat)
    requires Compilable(p) && Matches(p, c, m) && m' == m.(env := m'.env, ip := m'.ip)
    requires m'.ip < |Compile(p)| && Compile(p)[m'.ip] == Plain(Return)
    ensures n > 0 && Agrees(p, Follow(h, p, c, Back(m'.env)), Exec(h, Compile(p), m', n))
  {
    hide Exec, LineOk, Compile, Start;
    var code := Compile(p);
    ReturnStep(h, code, m');
    n := 1;
    if c.calls != [] {
      var last := |c.calls| - 1;
      var m1 := Exec(h, code, m', 1).vm;
      var k := FollowJumps(h, code, m1, Start(p, c.calls[last]));
      ExecAdd(h, code, m', 1, k);
      n := 1 + k;
    }
  }

  lemma LoopBeginAgrees(h: Host, p: Program, c: Src, m: Vm, m': Vm, name: string, limit: Value, step: Value)
    requires Compilable(p) && Matches(p, c, m) && c.line < |p|
    requires m' == m.(env := m'.env, stack := m.stack + [limit, step], ip := m'.ip) && m'.ip + 1 == Start(p, c.line + 1)
    requires m'.ip < |Compile(p)| && Compile(p)[m'.ip] == WithStr(ForSetup, Uppercase(name))
    ensures Agrees(p, Follow(h, p, c, LoopBegin(Uppercase(name), limit, step, m'.env)), Exec(h, Compile(p), m', 1))
  {
    hide Exec, LineOk, Compile, Start, LeadsTo, Uppercase;
    ForSetupStep(h, Compile(p), m', m.stack, name, limit, step);
  }

  lemma LoopNextAgrees(h: Host, p: Program, c: Src, m: Vm, m': Vm, name: string)
    requires Compilable(p) && Matches(p, c, m) && c.line < |p|
    requires m' == m.(env := m'.env, ip := m'.ip) && m'.ip + 1 == Start(p, c.line + 1)
    requires m'.ip < |Compile(p)| && Compile(p)[m'.ip] == WithStr(ForNext, Uppercase(name))
    ensures Agrees(p, Follow(h, p, c, LoopNext(Uppercase(name), m'.env)), Exec(h, Compile(p), m', 1))
  {
    hide Exec, LineOk, Compile, Start, LeadsTo, Uppercase;
    ForNextExec(h, Compile(p), m', name);
    if c.fors != [] {
      var f, g := c.fors[|c.fors| - 1], m.fors[|m.fors| - 1];
      assert g == f.(body := Start(p, f.body));
      assert Advance(h, m'.env, g) == Advance(h, m'.env, f);
      assert forall v :: PastLimit(g, v) <==> PastLimit(f, v);
    }
  }

  lemma JumpAgrees(h: Host, p: Program, c: Src, m: Vm, f: Flow, o: Outcome)
    requires Compilable(p) && Matches(p, c, m) && c.line < |p| && FlowKnown(f, LineNumbers(p))
    requires Lands(Compile(p), LineTable(p, |p|), m, Start(p, c.line + 1), f, o)
    requires f.Fall? || f.ToLine? || f.SubLine? || f.Away? || f.Err? || f.Blocked? || f.Handler?
    ensures Agrees(p, Follow(h, p, c, f), o)
  {
    hide LineOk, Compile, Start, LineTable, GoesTo, LineNumbers, LeadsTo, OnlyRemarks;
    if f.ToLine? || f.SubLine? {
      AddressOf(p, f.line);
    }
    if f.Handler? && f.target.Some? {
      AddressOf(p, f.target.value);
      StartAtZero(p, GoesTo(p, f.target.value));
    }
  }

  lemma LandedAgrees(h: Host, p: Program, c: Src, m: Vm, f: Flow, n: nat) returns (n': nat)
    requires Compilable(p) && Matches(p, c, m) && c.line < |p| && FlowKnown(f, LineNumbers(p))
    requires Lands(Compile(p), LineTable(p, |p|), m, Start(p, c.line + 1), f, Exec(h, Compile(p), m, n))
    requires f.LoopBegin? || f.LoopNext? ==> exists name :: f.variable == Uppercase(name)
    ensures Agrees(p, Follow(h, p, c, f), Exec(h, Compile(p), m, n'))
    ensures n' >= n && (f.Back? || f.LoopNext? ==> n' > n)
  {
    hide Exec, Compile, LineTable, LineOk, LineNumbers, LeadsTo, Uppercase;
    var code := Compile(p);
    var o := Exec(h, code, m, n);
    n' := n;
    if f.Back? {
      var k := BackAgrees(h, p, c, m, o.vm);
      ExecAdd(h, code, m, n, k);
      n' := n + k;
    } else if f.Quit? {
      StopsAtEnd(h, code, m, n, o.vm);
      n' := n + 1;
    } else if f.LoopBegin? {
      var name :| f.variable == Uppercase(name);
      LoopBeginAgrees(h, p, c, m, o.vm, name, f.limit, f.step);
      ExecAdd(h, code, m, n, 1);
      n' := n + 1;
    } else if f.LoopNext? {
      var name :| f.variable == Uppercase(name);
      LoopNextAgrees(h, p, c, m, o.vm, name);
      ExecAdd(h, code, m, n, 1);
      n' := n + 1;
    } else {
      JumpAgrees(h, p, c, m, f, o);
    }
  }

  /** Loop variables in flows are upper-cased names, and NEXT and RETURN are the flows without prior code. */
  lemma LoopNames(h: Host, s: Stmt, env: Env)
    requires StmtOk(s, true)
    ensures var f := ExecStmt(h, s, true, env);
            (f.LoopBegin? || f.LoopNext? ==> exists name :: f.variable == Uppercase(name))
    ensures s.Next? ==> ExecStmt(h, s, true, env).LoopNext?
    ensures s.ReturnStmt? ==> ExecStmt(h, s, true, env).Back?
  {
    hide ExprOk, Eval, EvalOpt, FileArgs, EvalFileArgs, FileArgOk, Judge, CallFiles, FileSink, FileIo, Deliver, ExecArm, Uppercase,
         StoreVariable, Dimension, StoreCell, FillArray, CopyArray, Trimmed;
    if IsFile(s) {
      forall e: Env | s.elseArm.Some?
        ensures !TopOnly(ExecArm(h, s.elseArm.value, e))
      {
        ArmFlow(h, s.elseArm.value, e);
      }
      FileInlineFlow(h, s, true, env);
    } else if s.If? {
      IfInlineFlow(h, s, env);
    }
  }

  /** One line of direct execution is matched by at least one instruction, unless it is a remark. */
  lemma LineAgrees(h: Host, p: Program, c: Src, m: Vm) returns (n: nat)
    requires Compilable(p) && Analyzed(p) && BarFree(p) && Matches(p, c, m) && c.line < |p|
    ensures Agrees(p, SrcStep(h, p, c), Exec(h, Compile(p), m, n))
    ensures n == 0 ==> p[c.line].stmt.Rem?
  {
    hide Exec, Compile, LineTable, ExecStmt, StmtCode, Lands, StmtOk, TargetsKnown, LineNumbers, LeadsTo, Follow;
    var code, lines, s := Compile(p), LineTable(p, |p|), p[c.line].stmt;
    var f := ExecStmt(h, s, true, c.env);
    LineInPlace(p, c.line);
    FlowTargets(h, s, true, c.env, LineNumbers(p));
    LoopNames(h, s, c.env);
    n := StmtLands(h, s, true, code, lines, m);
    n := LandedAgrees(h, p, c, m, f, n);
  }

  // ---------------------------------------------------------------------------------------------
  // Whole runs
  // ---------------------------------------------------------------------------------------------

  /** Any number of lines of direct execution is matched by some number of instructions, and that
      number grows with the number of lines. */
  lemma {:induction false} RunAgrees(h: Host, p: Program, c: Src, m: Vm, k: nat) returns (n: nat)
    requires Compilable(p) && Analyzed(p) && BarFree(p) && Matches(p, c, m)
    ensures Agrees(p, SrcRun(h, p, c, k), Exec(h, Compile(p), m, n))
    ensures var r := SrcRun(h, p, c, k); r.Going? ==> n * (|p| + 1) + r.src.line >= k + c.line
    decreases k
  {
    hide Exec, Compile, Matches, SrcStep, LineOk, TargetsKnown;
    if k == 0 {
      ExecZero(h, Compile(p), m);
      n := 0;
    } else {
      var r := SrcStep(h, p, c);
      var n1 := StepAgrees(h, p, c, m);
      if r.Going? {
        var m1 := Exec(h, Compile(p), m, n1).vm;
        var n2 := RunAgrees(h, p, r.src, m1, k - 1);
        ExecAdd(h, Compile(p), m, n1, n2);
        n := n1 + n2;
        assert (n1 + n2) * (|p| + 1) == n1 * (|p| + 1) + n2 * (|p| + 1);
      } else {
        n := n1;
      }
    }
  }

  lemma StepAgrees(h: Host, p: Program, c: Src, m: Vm) returns (n: nat)
    requires Compilable(p) && Analyzed(p) && BarFree(p) && Matches(p, c, m)
    ensures Agrees(p, SrcStep(h, p, c), Exec(h, Compile(p), m, n))
    ensures var r := SrcStep(h, p, c); r.Going? ==> n * (|p| + 1) + r.src.line >= 1 + c.line
  {
    hide Exec, Compile, LineOk, TargetsKnown, LeadsTo, ExecStmt, Follow, Start;
    if c.line == |p| {
      n := EndAgrees(h, p, c, m);
    } else {
      n := LineAgrees(h, p, c, m);
      if n == 0 {
        RemarkStep(h, p, c);
      } else {
        assert n * (|p| + 1) >= |p| + 1;
      }
    }
  }

  lemma RemarkStep(h: Host, p: Program, c: Src)
    requires Compilable(p) && c.line < |p| && p[c.line].stmt.Rem?
    ensures SrcStep(h, p, c) == Going(c.(line := c.line + 1))
  {
    hide ExprOk;
  }

  /** An outcome that is not Running does not change any more. */
  lemma ExecFinal(h: Host, code: seq<Instruction>, m: Vm, n: nat, n': nat)
    requires n <= n' && !Exec(h, code, m, n).Running?
    ensures Exec(h, code, m, n') == Exec(h, code, m, n)
  {
    hide Exec;
    ExecAdd(h, code, m, n, n' - n);
  }

  function Final(r: Progress): Outcome
    requires !r.Going?
  {
    match r
    case Finished(env) => Halted(env)
    case Stopped(env) => Fault(Raised, env)
    case Gone(program, env) => Chained(program, env)
  }

  lemma Initially(p: Program)
    requires Compilable(p)
    ensures Matches(p, FIRST, LOADED)
  {
    hide Compile, LineOk, LeadsTo;
  }

  /** Compiler correctness, first half: how direct execution of a program ends is how its bytecode ends,
      with the same variables, arrays and the same use of the outside world in the same order. */
  lemma CompiledRunEnds(h: Host, p: Program, k: nat) returns (n: nat)
    requires Compilable(p) && Analyzed(p) && BarFree(p) && !SrcRun(h, p, FIRST, k).Going?
    ensures Exec(h, Compile(p), LOADED, n) == Final(SrcRun(h, p, FIRST, k))
  {
    hide Exec, Compile, SrcRun, LineOk, TargetsKnown, Matches;
    Initially(p);
    n := RunAgrees(h, p, FIRST, LOADED, k);
  }

  /** Compiler correctness, second half: if the bytecode ends, direct execution ends in the same way. */
  lemma SourceRunEnds(h: Host, p: Program, n: nat) returns (k: nat)
    requires Compilable(p) && Analyzed(p) && BarFree(p) && !Exec(h, Compile(p), LOADED, n).Running?
    ensures !SrcRun(h, p, FIRST, k).Going? && Exec(h, Compile(p), LOADED, n) == Final(SrcRun(h, p, FIRST, k))
  {
    hide Exec, Compile, SrcRun, LineOk, TargetsKnown, LeadsTo, Start;
    Initially(p);
    k := (n + 1) * (|p| + 1) + |p|;
    var n' := RunAgrees(h, p, FIRST, LOADED, k);
    var r := SrcRun(h, p, FIRST, k);
    if r.Going? {
      assert n' * (|p| + 1) >= (n + 1) * (|p| + 1);
      assert n' > n by {
        if n' <= n {
          MulMono(n', n, |p| + 1);
        }
      }
      ExecFinal(h, Compile(p), LOADED, n, n');
    } else if n <= n' {
      ExecFinal(h, Compile(p), LOADED, n, n');
    } else {
      ExecFinal(h, Compile(p), LOADED, n', n);
    }
  }

  lemma MulMono(a: nat, b: nat, c: nat)
    requires a <= b && c >= 1
    ensures a * c < (b + 1) * c
  {
    assert (b + 1 - a) * c >= c;
    assert (b + 1) * c == a * c + (b + 1 - a) * c;
  }
}
