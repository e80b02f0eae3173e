/** Places where the compiled program does less than the statement says, each with the exact condition. */
module Deviations {
  import opened Bytecode
  import opened BasicAst
  import opened Machine
  import opened ExprCompile
  import opened StmtCompile
  import opened StmtCorrect
  import opened ProgramCorrect

  // ---------------------------------------------------------------------------------------------
  // ON ERROR GOTO a line at address 0
  // ---------------------------------------------------------------------------------------------

  /** ON ERROR GOTO installs its handler exactly when some line before the target has code; otherwise
      it silently removes the handler there was. */
  lemma OnErrorInstalls(h: Host, p: Program, c: Src, m: Vm)
    requires Compilable(p) && Analyzed(p) && Matches(p, c, m) && c.line < |p|
    requires p[c.line].stmt.OnError? && !p[c.line].stmt.stop
    ensures var target := GoesTo(p, p[c.line].stmt.target);
            var o := Exec(h, Compile(p), m, 1);
            && o.Running? && target < |p|
            && (o.vm.onError == Some(Start(p, target)) <==> exists i :: 0 <= i < target && !p[i].stmt.Rem?)
            && (o.vm.onError == None <==> forall i | 0 <= i < target :: p[i].stmt.Rem?)
  {
    hide Exec, Compile, LineTable, StmtOk, LineNumbers, LeadsTo, StmtCode;
    var n := p[c.line].stmt.target;
    var lines := LineTable(p, |p|);
    LineInPlace(p, c.line);
    OnErrorCode(p[c.line].stmt, Start(p, c.line), lines);
    assert n in LineNumbers(p);
    AddressOf(p, n);
    StartAtZero(p, GoesTo(p, n));
    AtOne(Compile(p), m.ip, WithInt(SetOnErrorHandler, Start(p, GoesTo(p, n))));
    HandlerStep(h, Compile(p), m, Start(p, GoesTo(p, n)));
  }

  lemma OnErrorCode(s: Stmt, at: nat, lines: LineMap)
    requires s.OnError? && !s.stop && StmtOk(s, true)
    ensures StmtCode(s, true, at, lines) == [WithInt(SetOnErrorHandler, Address(lines, s.target))]
  {
  }

  /** Three lines: install a handler, name the first line as handler, loop for ever. */
  const LOST: Program := [Line(10, OnError(false, 30)), Line(20, OnError(false, 10)), Line(30, Goto(30))]

  lemma LostAccepted()
    ensures Compilable(LOST) && Analyzed(LOST)
    ensures GoesTo(LOST, 30) == 2 && GoesTo(LOST, 10) == 0
  {
    assert LOST[0].number == 10 && LOST[2].number == 30;
    assert 10 in LineNumbers(LOST) && 30 in LineNumbers(LOST);
  }

  /** A jump to itself goes on for ever and changes nothing. */
  lemma {:induction false} LoopsForEver(h: Host, code: seq<Instruction>, m: Vm, n: nat)
    requires m.ip < |code| && code[m.ip] == WithInt(Jump, m.ip)
    ensures Exec(h, code, m, n) == Running(m)
    decreases n
  {
    hide Step, Exec;
    ExecZero(h, code, m);
    if n > 0 {
      JumpAny(h, code, m);
      LoopsForEver(h, code, m, n - 1);
      ExecAdd(h, code, m, 1, n - 1);
    }
  }

  lemma GotoCode(s: Stmt, at: nat, lines: LineMap)
    requires s.Goto? && StmtOk(s, true)
    ensures StmtCode(s, true, at, lines) == [WithInt(Jump, Address(lines, s.target))]
  {
  }

  lemma LostCode()
    ensures Compilable(LOST)
    ensures Start(LOST, 0) == 0 && Start(LOST, 1) == 1 && Start(LOST, 2) == 2
    ensures var code := Compile(LOST);
            |code| >= 3 && code[0] == WithInt(SetOnErrorHandler, 2) && code[1] == WithInt(SetOnErrorHandler, 0) && code[2] == WithInt(Jump, 2)
  {
    LostAccepted();
    hide Compile, StmtCode, LineTable, Analyzed, GoesTo, StmtOk;
    var p, lines := LOST, LineTable(LOST, 3);
    OnErrorCode(p[0].stmt, Start(p, 0), lines);
    OnErrorCode(p[1].stmt, Start(p, 1), lines);
    GotoCode(p[2].stmt, Start(p, 2), lines);
    LineInPlace(p, 0);
    LineInPlace(p, 1);
    LineInPlace(p, 2);
    AddressOf(p, 30);
    AddressOf(p, 10);
    AtOne(Compile(p), 0, WithInt(SetOnErrorHandler, Address(lines, 30)));
    AtOne(Compile(p), 1, WithInt(SetOnErrorHandler, Address(lines, 10)));
    AtOne(Compile(p), 2, WithInt(Jump, Address(lines, 30)));
  }

  /** The machine runs that program for ever; after its first instruction there is a handler, and from the
      second on there is none, although the program asked for two. */
  lemma LostHandler(h: Host, n: nat)
    ensures Compilable(LOST) && Analyzed(LOST)
    ensures Exec(h, Compile(LOST), LOADED, 1).Running? && Exec(h, Compile(LOST), LOADED, 1).vm.onError == Some(Start(LOST, 2))
    ensures n >= 2 ==> Exec(h, Compile(LOST), LOADED, n).Running? && Exec(h, Compile(LOST), LOADED, n).vm.onError == None
  {
    LostAccepted();
    LostCode();
    hide Exec, Compile, LineOk, Analyzed, GoesTo, Start, LOST;
    var code := Compile(LOST);
    HandlerStep(h, code, LOADED, 2);
    var m1 := LOADED.(onError := Some(2), ip := 1);
    var m2 := LOADED.(ip := 2);
    HandlerStep(h, code, m1, 0);
    if n >= 2 {
      LoopsForEver(h, code, m2, n - 2);
      ExecAdd(h, code, m1, 1, n - 2);
      ExecAdd(h, code, LOADED, 1, n - 1);
    }
  }

  // ---------------------------------------------------------------------------------------------
  // WRITEV with a DICT field inside an arm
  // ---------------------------------------------------------------------------------------------

  /** From `was` on only evaluation of expressions was recorded. */
  ghost predicate OnlyCalls(was: seq<Event>, now: seq<Event>) {
    was <= now && forall i | |was| <= i < |now| :: now[i].BuiltinCalled?
  }

  lemma CallsTrans(a: seq<Event>, b: seq<Event>, c: seq<Event>)
    requires OnlyCalls(a, b) && OnlyCalls(b, c)
    ensures OnlyCalls(a, c)
  {
  }

  /** Evaluating an expression calls builtins and nothing else outside. */
  lemma {:induction false} EvalLogs(h: Host, e: Expr, inArith: bool, env: Env)
    requires ExprOk(e, inArith)
    ensures OnlyCalls(env.log, Eval(h, e, inArith, env).env.log)
    decreases e, 1
  {
    hide OnlyCalls, ReadVariable, ReadCell, Operate, Extract, BuiltinCallOk, BuiltinRef, IsValidVariableName, Uppercase;
    NoCalls(env.log);
    match e
    case Negate(x) => EvalLogs(h, x, true, env);
    case Grouped(x) => EvalLogs(h, x, inArith, env);
    case Subscript(_, i) => EvalLogs(h, i, false, env);
    case Binary(op, l, r) =>
      EvalLogs(h, l, IsArithmetic(op), env);
      var a := Eval(h, l, IsArithmetic(op), env);
      if a.Val? {
        EvalLogs(h, r, IsArithmetic(op), a.env);
        CallsTrans(env.log, a.env.log, Eval(h, r, IsArithmetic(op), a.env).env.log);
      }
    case AttributeAccess(_, _, _) => AttributeLogs(h, e, inArith, env);
    case FunctionCall(name, args) =>
      ArgsLog(h, name, args, 0, env);
      var r := EvalArgs(h, name, args, 0, env);
      if r.Vals? {
        var all := if ThirdArgImplied(name, |args|) then r.vs + [IntV(1)] else r.vs;
        OneCall(env.log, r.env.log, BuiltinCalled(BuiltinRef(name, |args|), all));
      }
    case _ =>
  }

  lemma NoCalls(log: seq<Event>)
    ensures OnlyCalls(log, log)
  {
  }

  lemma OneCall(was: seq<Event>, now: seq<Event>, e: Event)
    requires OnlyCalls(was, now) && e.BuiltinCalled?
    ensures OnlyCalls(was, now + [e])
  {
  }

  lemma {:induction false} AttributeLogs(h: Host, e: Expr, inArith: bool, env: Env)
    requires e.AttributeAccess? && ExprOk(e, inArith)
    ensures OnlyCalls(env.log, Eval(h, e, inArith, env).env.log)
    decreases e, 0
  {
    hide OnlyCalls, ReadVariable, Extract, IsValidVariableName, Uppercase;
    NoCalls(env.log);
    EvalLogs(h, e.attr, false, env);
    var a := Eval(h, e.attr, false, env);
    if a.Val? && e.valueIndex.Some? {
      EvalLogs(h, e.valueIndex.value, false, a.env);
      CallsTrans(env.log, a.env.log, Eval(h, e.valueIndex.value, false, a.env).env.log);
    }
  }

  lemma {:induction false} ArgsLog(h: Host, name: string, args: seq<Expr>, i: nat, env: Env)
    requires ArgsOk(name, args, i)
    ensures OnlyCalls(env.log, EvalArgs(h, name, args, i, env).env.log)
    decreases args, 0
  {
    hide OnlyCalls, ExprOk, Eval;
    NoCalls(env.log);
    if args != [] {
      var a := Eval(h, args[0], BuiltinArgInArithmetic(name, i), env);
      EvalLogs(h, args[0], BuiltinArgInArithmetic(name, i), env);
      if a.Val? {
        ArgsLog(h, name, args[1..], i + 1, a.env);
        CallsTrans(env.log, a.env.log, EvalArgs(h, name, args[1..], i + 1, a.env).env.log);
      }
    }
  }

  lemma ArgLogs(h: Host, fileVar: string, a: FileArg, env: Env)
    requires FileArgOk(a)
    ensures env.log <= EvalFileArg(h, fileVar, a, env).env.log
  {
    hide ExprOk, Eval, PackArray, Uppercase;
    if a.ExprArg? || a.DictArg? {
      EvalLogs(h, a.e, false, env);
    }
  }

  lemma {:induction false} FileArgsLog(h: Host, fileVar: string, args: seq<FileArg>, env: Env)
    requires forall a | a in args :: FileArgOk(a)
    ensures env.log <= EvalFileArgs(h, fileVar, args, env).env.log
    decreases |args|
  {
    hide EvalFileArg, FileArgOk;
    if args != [] {
      ArgLogs(h, fileVar, args[0], env);
      FileArgsLog(h, fileVar, args[1..], EvalFileArg(h, fileVar, args[0], env).env);
    }
  }

  lemma OptLogs(h: Host, e: Option<Expr>, default: Value, env: Env)
    requires OptOk(e)
    ensures env.log <= EvalOpt(h, e, default, env).env.log
  {
    hide ExprOk, Eval;
    if e.Some? {
      EvalLogs(h, e.value, false, env);
    }
  }

  /** Statements only add to what the outside has seen. */
  lemma {:induction false} StmtLogs(h: Host, s: Stmt, top: bool, env: Env)
    requires StmtOk(s, top)
    ensures env.log <= ExecStmt(h, s, top, env).env.log
    decreases s, 2
  {
    hide ExprOk, FileArgOk, FileArgs, ExecFile, ExecIf, ExecSimple;
    if IsFile(s) {
      FileLogs(h, s, top, env);
    } else if s.If? {
      IfLogs(h, s, env);
    } else {
      SimpleLogs(h, s, env);
    }
  }

  lemma {:induction false} ArmLogs(h: Host, a: BranchArm, env: Env)
    requires ArmOk(a)
    ensures env.log <= ExecArm(h, a, env).env.log
    decreases a, 0
  {
    hide StmtOk, ExecStmt;
    if a.InlineArm? {
      StmtLogs(h, a.stmt, false, env);
    }
  }

  lemma {:induction false} IfLogs(h: Host, s: Stmt, env: Env)
    requires s.If? && StmtOk(s, false)
    ensures env.log <= ExecIf(h, s, env).env.log
    decreases s, 0
  {
    hide ExprOk, Eval, ExecArm;
    var r := Eval(h, s.condition, false, env);
    EvalLogs(h, s.condition, false, env);
    ArmLogs(h, s.thenArm, r.env);
    if s.elseArm.Some? {
      ArmLogs(h, s.elseArm.value, r.env);
    }
  }

  /** What a file statement does after its operands are evaluated. */
  function Perform(h: Host, s: Stmt, top: bool, vs: seq<Value>, env: Env): Flow
    requires IsFile(s) && StmtOk(s, top)
  {
    var a := CallFiles(h, env, FileIo(s), Uppercase(s.fileVar), vs);
    match Judge(FileIo(s), s.elseArm.Some?, a.answer)
    case Success(v) => Deliver(h, FileSink(s), v, a.env)
    case Miss => if s.elseArm.Some? then ExecArm(h, s.elseArm.value, a.env) else Err(a.env)
    case Conflict => Blocked(a.env)
    case Stops => Err(a.env)
  }

  lemma {:induction false} PerformLogs(h: Host, s: Stmt, top: bool, vs: seq<Value>, env: Env)
    requires IsFile(s) && StmtOk(s, top)
    ensures env.log + [FileCalled(FileIo(s), Uppercase(s.fileVar), vs)] <= Perform(h, s, top, vs, env).env.log
    decreases s, 0
  {
    hide ExprOk, FileArgOk, FileArgs, FileIo, FileOp, FileSink, Judge, Uppercase, ExecArm, StoreVariable, LoadArray;
    var a := CallFiles(h, env, FileIo(s), Uppercase(s.fileVar), vs);
    if s.elseArm.Some? {
      ArmLogs(h, s.elseArm.value, a.env);
    }
    forall sink: Sink, v: Value
      ensures a.env.log <= Deliver(h, sink, v, a.env).env.log
    {
      DeliverLogs(h, sink, v, a.env);
    }
  }

  lemma DeliverLogs(h: Host, sink: Sink, v: Value, env: Env)
    ensures env.log <= Deliver(h, sink, v, env).env.log
  {
    hide Uppercase, IsReadOnlySystemName;
  }

  lemma {:induction false} FileLogs(h: Host, s: Stmt, top: bool, env: Env)
    requires IsFile(s) && StmtOk(s, top)
    ensures env.log <= ExecFile(h, s, top, env).env.log
    decreases s, 1
  {
    hide ExprOk, FileArgOk, FileArgs, FileIo, FileOp, FileSink, Judge, Uppercase, ExecArm, Deliver, EvalFileArgs;
    FileArgsLog(h, s.fileVar, FileArgs(s, top), env);
    var r := EvalFileArgs(h, s.fileVar, FileArgs(s, top), env);
    if r.Vals? {
      PerformLogs(h, s, top, r.vs, r.env);
    }
  }

  lemma SimpleLogs(h: Host, s: Stmt, env: Env)
    requires IsSimple(s) && StmtOk(s, true)
    ensures env.log <= ExecSimple(h, s, env).env.log
  {
    hide ExprOk, Eval, EvalOpt, OptOk, Uppercase, Trimmed, IsReadOnlySystemName;
    match s
    case Let(_, e) => EvalLogs(h, e, false, env);
    case Input(p, _) => if p.Some? { EvalPrompt(h, p, env); }
    case ChainTo(e) => EvalLogs(h, e, false, env);
    case For(_, _, _, _) => ForLogs(h, s, env);
    case Print(e, _) => EvalLogs(h, e, false, env);
    case Dim(_, e) => EvalLogs(h, e, false, env);
    case LetArray(_, i, e) =>
      EvalLogs(h, e, false, env);
      EvalLogs(h, i, false, Eval(h, e, false, env).env);
    case Release(_, e) => EvalLogs(h, e, false, env);
    case MatFill(_, e) => EvalLogs(h, e, false, env);
    case _ =>
  }

  lemma EvalPrompt(h: Host, p: Option<Expr>, env: Env)
    requires OptOk(p) && p.Some?
    ensures ExprOk(p.value, false) && env.log <= Eval(h, p.value, false, env).env.log
  {
    hide ExprOk, Eval;
    EvalLogs(h, p.value, false, env);
  }

  lemma ForLogs(h: Host, s: Stmt, env: Env)
    requires s.For? && StmtOk(s, true)
    ensures env.log <= ExecSimple(h, s, env).env.log
  {
    hide ExprOk, Eval, EvalOpt, OptOk, Uppercase, IsReadOnlySystemName;
    EvalLogs(h, s.init, false, env);
    var stored := Assign(h, s.variable, Eval(h, s.init, false, env));
    EvalLogs(h, s.limit, false, stored.env);
    OptLogs(h, s.step, IntV(1), Eval(h, s.limit, false, stored.env).env);
  }

  /** The operands before the attribute evaluate. */
  predicate OperandsReady(h: Host, s: Stmt, env: Env)
    requires s.WriteVal? && ExprOk(s.value, false) && ExprOk(s.id, false)
  {
    var v := Eval(h, s.value, false, env);
    v.Val? && Eval(h, s.id, false, v.env).Val?
  }

  /** What the outside has seen when the attribute is reached. */
  function SeenBefore(h: Host, s: Stmt, env: Env): seq<Event>
    requires s.WriteVal? && ExprOk(s.value, false) && ExprOk(s.id, false) && OperandsReady(h, s, env)
  {
    Eval(h, s.id, false, Eval(h, s.value, false, env).env).env.log
  }

  lemma WriteValOperands(s: Stmt, top: bool)
    requires s.WriteVal? && StmtOk(s, top)
    ensures ExprOk(s.value, false) && ExprOk(s.id, false) && ExprOk(s.attr, false) && OptOk(s.valueIndex)
    ensures FileArgs(s, top) == [ExprArg(s.value), ExprArg(s.id), if top && s.attr.DictField? then DictArg(s.attr) else ExprArg(s.attr), IndexArg(s.valueIndex)]
    ensures StmtOk(s, !top)
    ensures FileIo(s) == IoWriteV
  {
    hide ExprOk;
    var args := FileArgs(s, top);
    assert args[0] in args && args[1] in args && args[2] in args && args[3] in args;
    var others := FileArgs(s, !top);
    assert forall a | a in others :: a == others[0] || a == others[1] || a == others[2] || a == others[3];
  }

  /** The four operands of WRITEV, evaluated in order. */
  lemma FourOperands(h: Host, f: string, a: FileArg, b: FileArg, c: FileArg, d: FileArg, env: Env)
    requires FileArgOk(a) && FileArgOk(b) && FileArgOk(c) && FileArgOk(d)
    ensures forall x | x in [a, b, c, d] :: FileArgOk(x)
    ensures var r := EvalFileArgs(h, f, [a, b, c, d], env);
            var ra := EvalFileArg(h, f, a, env);
            if ra.Fail? then r == FailList(ra.env)
            else
              var rb := EvalFileArg(h, f, b, ra.env);
              if rb.Fail? then r == FailList(rb.env)
              else
                var rc := EvalFileArg(h, f, c, rb.env);
                if rc.Fail? then r == FailList(rc.env)
                else r.env == EvalFileArg(h, f, d, rc.env).env && (r.Vals? <==> EvalFileArg(h, f, d, rc.env).Val?)
  {
    hide FileArgOk, EvalFileArg;
    var all := [a, b, c, d];
    assert all[1..] == [b, c, d] && all[1..][1..] == [c, d] && all[1..][1..][1..] == [d] && [d][1..] == [];
    var ra := EvalFileArg(h, f, a, env);
    if ra.Val? {
      var rb := EvalFileArg(h, f, b, ra.env);
      if rb.Val? {
        var rc := EvalFileArg(h, f, c, rb.env);
        var two := EvalFileArgs(h, f, [c, d], rb.env);
        assert [c, d][1..] == [d];
        if rc.Val? {
          OneOperand(h, f, d, rc.env);
          assert two.env == EvalFileArgs(h, f, [d], rc.env).env;
        } else {
          assert two == FailList(rc.env);
        }
        var three := EvalFileArgs(h, f, [b, c, d], ra.env);
        assert [b, c, d][1..] == [c, d];
        assert three.env == two.env && (three.Vals? <==> two.Vals?);
      }
    }
  }

  lemma OneOperand(h: Host, f: string, d: FileArg, env: Env)
    requires FileArgOk(d)
    ensures var r := EvalFileArgs(h, f, [d], env); r.env == EvalFileArg(h, f, d, env).env && (r.Vals? <==> EvalFileArg(h, f, d, env).Val?)
  {
    hide FileArgOk, EvalFileArg;
    assert [d][1..] == [];
    assert EvalFileArgs(h, f, [], EvalFileArg(h, f, d, env).env) == Vals([], EvalFileArg(h, f, d, env).env);
  }

  /** The event at position `n`, if there is one, is a dictionary lookup. */
  predicate LooksUpAt(log: seq<Event>, n: nat) {
    n < |log| && log[n].FileCalled? && log[n].kind.IoResolve?
  }

  lemma IndexLogs(h: Host, f: string, e: Option<Expr>, env: Env)
    requires OptOk(e)
    ensures FileArgOk(IndexArg(e)) && OnlyCalls(env.log, EvalFileArg(h, f, IndexArg(e), env).env.log)
  {
    hide ExprOk, Eval;
    if e.Some? {
      EvalLogs(h, e.value, false, env);
    }
  }

  /** At the top of a line a DICT attribute is looked up right after the operands before it; inside an arm
      no lookup happens there. */
  lemma DictLookup(h: Host, s: Stmt, top: bool, env: Env)
    requires s.WriteVal? && s.attr.DictField? && StmtOk(s, top)
    requires ExprOk(s.value, false) && ExprOk(s.id, false) && OperandsReady(h, s, env)
    ensures var seen := SeenBefore(h, s, env);
            var r := EvalFileArgs(h, s.fileVar, FileArgs(s, top), env);
            && seen <= r.env.log && (top <==> LooksUpAt(r.env.log, |seen|))
            && (!top ==> OnlyCalls(seen, r.env.log))
  {
    hide ExprOk, Uppercase, FileArgs;
    WriteValOperands(s, top);
    var f := s.fileVar;
    var va, ia := ExprArg(s.value), ExprArg(s.id);
    var aa := if top then DictArg(s.attr) else ExprArg(s.attr);
    IndexLogs(h, f, s.valueIndex, env);
    FourOperands(h, f, va, ia, aa, IndexArg(s.valueIndex), env);
    var e2 := Eval(h, s.id, false, Eval(h, s.value, false, env).env).env;
    var rc := EvalFileArg(h, f, aa, e2);
    assert rc.Val?;
    assert top ==> rc.env.log == e2.log + [FileCalled(IoResolve, Uppercase(f), [StrV(h.toText(StrV(s.attr.token)))])];
    IndexLogs(h, f, s.valueIndex, rc.env);
  }

  /** Without a DICT attribute, or when an operand before it fails, WRITEV means the same inside an arm as
      at the top of a line; otherwise it never does: the outside sees a dictionary lookup only at the top. */
  lemma WriteValContexts(h: Host, s: Stmt, env: Env)
    requires s.WriteVal? && StmtOk(s, true)
    ensures StmtOk(s, false) && ExprOk(s.value, false) && ExprOk(s.id, false)
    ensures ExecStmt(h, s, true, env) == ExecStmt(h, s, false, env) <==> !s.attr.DictField? || !OperandsReady(h, s, env)
    ensures s.attr.DictField? && OperandsReady(h, s, env) ==> ExecStmt(h, s, true, env).env.log != ExecStmt(h, s, false, env).env.log
  {
    hide ExprOk, FileArgOk, FileArgs, FileIo, Judge, Uppercase, ExecArm, Deliver, EvalFileArgs, StmtOk, OperandsReady;
    WriteValOperands(s, true);
    WriteValOperands(s, false);
    if s.attr.DictField? {
      if OperandsReady(h, s, env) {
        LookupTells(h, s, true, env);
        LookupTells(h, s, false, env);
      } else {
        OperandFails(h, s, env);
      }
    }
  }

  lemma OperandFails(h: Host, s: Stmt, env: Env)
    requires s.WriteVal? && StmtOk(s, true) && StmtOk(s, false) && ExprOk(s.value, false) && ExprOk(s.id, false)
    requires !OperandsReady(h, s, env)
    ensures EvalFileArgs(h, s.fileVar, FileArgs(s, true), env) == EvalFileArgs(h, s.fileVar, FileArgs(s, false), env)
    ensures EvalFileArgs(h, s.fileVar, FileArgs(s, true), env).FailList?
  {
    hide ExprOk, Uppercase, FileArgs, EvalFileArgs;
    WriteValOperands(s, true);
    WriteValOperands(s, false);
    IndexLogs(h, s.fileVar, s.valueIndex, env);
    FourOperands(h, s.fileVar, ExprArg(s.value), ExprArg(s.id), if s.attr.DictField? then DictArg(s.attr) else ExprArg(s.attr), IndexArg(s.valueIndex), env);
    FourOperands(h, s.fileVar, ExprArg(s.value), ExprArg(s.id), ExprArg(s.attr), IndexArg(s.valueIndex), env);
  }

  lemma LookupTells(h: Host, s: Stmt, top: bool, env: Env)
    requires s.WriteVal? && s.attr.DictField? && StmtOk(s, top)
    requires ExprOk(s.value, false) && ExprOk(s.id, false) && OperandsReady(h, s, env)
    ensures top <==> LooksUpAt(ExecStmt(h, s, top, env).env.log, |SeenBefore(h, s, env)|)
  {
    hide ExprOk, FileArgOk, FileArgs, FileIo, FileOp, Judge, Uppercase, ExecArm, Deliver, EvalFileArgs, OperandsReady, SeenBefore, Perform, ExecStmt;
    WriteValOperands(s, top);
    DictLookup(h, s, top, env);
    FileMeaning(h, s, top, env);
    var r := EvalFileArgs(h, s.fileVar, FileArgs(s, top), env);
    var f := ExecStmt(h, s, top, env);
    if r.Vals? {
      PerformLogs(h, s, top, r.vs, r.env);
      var more := r.env.log + [FileCalled(FileIo(s), Uppercase(s.fileVar), r.vs)];
      assert |SeenBefore(h, s, env)| < |more| ==> f.env.log[|SeenBefore(h, s, env)|] == more[|SeenBefore(h, s, env)|];
    }
  }

  lemma FileMeaning(h: Host, s: Stmt, top: bool, env: Env)
    requires IsFile(s) && StmtOk(s, top)
    ensures var r := EvalFileArgs(h, s.fileVar, FileArgs(s, top), env);
            ExecStmt(h, s, top, env) == if r.Vals? then Perform(h, s, top, r.vs, r.env) else Err(r.env)
  {
    hide ExprOk, FileArgOk, FileArgs, FileIo, FileOp, FileSink, Judge, Uppercase, ExecArm, Deliver, EvalFileArgs;
    assert ExecStmt(h, s, top, env) == ExecFile(h, s, top, env);
  }

  /** WRITEV "V" ON F, "ID", DICT D. */
  const DICT_WRITE: Stmt := WriteVal(StringLiteral("V"), "F", StringLiteral("ID"), DictField("D"), None, None)

  /** An input on which the two contexts differ for every host and in every state. */
  lemma DictWriteDiffers(h: Host, env: Env)
    ensures StmtOk(DICT_WRITE, true) && StmtOk(DICT_WRITE, false)
    ensures ExecStmt(h, DICT_WRITE, true, env) != ExecStmt(h, DICT_WRITE, false, env)
  {
    hide ExecStmt;
    DictWriteOk();
    WriteValContexts(h, DICT_WRITE, env);
  }

  lemma DictWriteOk()
    ensures StmtOk(DICT_WRITE, true) && StmtOk(DICT_WRITE, false)
  {
  }

  function EnvOf(o: Outcome): Env {
    match o
    case Running(vm) => vm.env
    case Halted(env) => env
    case Fault(_, env) => env
    case Chained(_, env) => env
  }

  lemma LandedLog(code: seq<Instruction>, lines: LineMap, m: Vm, end: nat, f: Flow, o: Outcome)
    requires Lands(code, lines, m, end, f, o)
    ensures EnvOf(o).log == f.env.log
  {
    hide LeadsTo;
  }

  /** The same on the machine: the two pieces of code for one WRITEV, started in the same state, leave
      different traces outside exactly when the attribute is a DICT field that is reached. */
  lemma WriteValOnMachine(h: Host, s: Stmt, codeTop: seq<Instruction>, codeArm: seq<Instruction>, lines: LineMap, m: Vm)
    returns (n: nat, k: nat)
    requires s.WriteVal? && StmtOk(s, true) && StmtOk(s, false)
    requires ExprOk(s.value, false) && ExprOk(s.id, false)
    requires At(codeTop, m.ip, StmtCode(s, true, m.ip, lines)) && At(codeArm, m.ip, StmtCode(s, false, m.ip, lines))
    ensures Lands(codeTop, lines, m, m.ip + |StmtCode(s, true, m.ip, lines)|, ExecStmt(h, s, true, m.env), Exec(h, codeTop, m, n))
    ensures Lands(codeArm, lines, m, m.ip + |StmtCode(s, false, m.ip, lines)|, ExecStmt(h, s, false, m.env), Exec(h, codeArm, m, k))
    ensures EnvOf(Exec(h, codeTop, m, n)).log != EnvOf(Exec(h, codeArm, m, k)).log <==> s.attr.DictField? && OperandsReady(h, s, m.env)
  {
    hide Lands, StmtCode, ExecStmt, Exec, At, ExprOk, StmtOk, OperandsReady;
    n := StmtLands(h, s, true, codeTop, lines, m);
    k := StmtLands(h, s, false, codeArm, lines, m);
    WriteValContexts(h, s, m.env);
    LandedLog(codeTop, lines, m, m.ip + |StmtCode(s, true, m.ip, lines)|, ExecStmt(h, s, true, m.env), Exec(h, codeTop, m, n));
    LandedLog(codeArm, lines, m, m.ip + |StmtCode(s, false, m.ip, lines)|, ExecStmt(h, s, false, m.env), Exec(h, codeArm, m, k));
  }

  // ---------------------------------------------------------------------------------------------
  // MAT copies of arrays whose name holds a bar
  // ---------------------------------------------------------------------------------------------

  /** What MAT COPY does with the text that carries both names. */
  function MatCopyEffect(h: Host, a: string, src: string, env: Env): Effect {
    DataEffect(h, WithStr(MatCopy, Uppercase(a) + "|" + Uppercase(src)), [], env)
  }

  lemma MatCopyIs(h: Host, a: string, src: string, env: Env)
    ensures var whole := Uppercase(a) + "|" + Uppercase(src);
            var bar := FirstBar(whole);
            MatCopyEffect(h, a, src, env) ==
            if bar.None? || bar.value >= |whole| then Raise(env)
            else Settle(CopyArray(h, env, Uppercase(whole[..bar.value]), Uppercase(whole[bar.value + 1..])))
  {
    hide CopyArray, Uppercase, FirstBar;
  }

  lemma PlainCopy(h: Host, a: string, src: string, env: Env)
    requires '|' !in a
    ensures MatCopyEffect(h, a, src, env) == Settle(CopyArray(h, env, Uppercase(a), Uppercase(src)))
  {
    hide CopyArray, Uppercase, FirstBar, MatCopyEffect;
    MatCopyIs(h, a, src, env);
    NoBarInUppercase(a);
    var u, v := Uppercase(a), Uppercase(src);
    BarFound(u, v);
    var whole := u + "|" + v;
    assert whole[..|u|] == u && whole[|u| + 1..] == v;
    UppercaseTwice(a);
    UppercaseTwice(src);
  }

  lemma {:induction false} BarInside(u: string, rest: string)
    requires '|' in u
    ensures FirstBar(u + rest).Some? && FirstBar(u + rest).value < |u|
  {
    var whole := u + rest;
    if u[0] != '|' {
      assert whole[1..] == u[1..] + rest;
      BarInside(u[1..], rest);
    }
  }

  lemma BarStays(a: string)
    requires '|' in a
    ensures '|' in Uppercase(a)
  {
    var i :| 0 <= i < |a| && a[i] == '|';
    assert Uppercase(a)[i] == '|';
  }

  /** A copy changes no array but its target. */
  lemma CopyElsewhere(h: Host, env: Env, dst: string, src: string, name: string)
    requires name != dst && name in env.arrays
    ensures var e := Settle(CopyArray(h, env, dst, src)); e.Push? ==> name in e.env.arrays && e.env.arrays[name] == env.arrays[name]
  {
  }

  /** Two one-cell arrays, or one when the names agree. */
  function TwoArrays(u: string, v: string): Env {
    Env(map[], map[v := [StrV("x")]][u := [StrV("")]], [], 0)
  }

  lemma DirectCopy(h: Host, u: string, v: string)
    requires !IsReadOnlySystemName(u)
    ensures var e := Settle(CopyArray(h, TwoArrays(u, v), u, v)); e.Push? && u in e.env.arrays && (u != v ==> e.env.arrays[u] != [StrV("")])
  {
    var cell := TwoArrays(u, v).arrays[v][0];
    var e := Settle(CopyArray(h, TwoArrays(u, v), u, v));
    assert e.env.arrays[u][0] == ForArray(h, u, cell);
  }

  /** MAT a = MAT src means the same to the machine in every state exactly when the name `a` has no bar. */
  lemma MatCopyExact(h: Host, a: string, src: string)
    requires !IsReadOnlySystemName(Uppercase(a))
    ensures (forall env :: MatCopyEffect(h, a, src, env) == Settle(CopyArray(h, env, Uppercase(a), Uppercase(src)))) <==> '|' !in a
  {
    hide CopyArray, Uppercase, MatCopyEffect, FirstBar, IsReadOnlySystemName;
    var u, v := Uppercase(a), Uppercase(src);
    if '|' !in a {
      forall env: Env
        ensures MatCopyEffect(h, a, src, env) == Settle(CopyArray(h, env, u, v))
      {
        PlainCopy(h, a, src, env);
      }
    } else {
      var env := TwoArrays(u, v);
      BarStays(a);
      BarInside(u, "|" + v);
      assert u + ("|" + v) == u + "|" + v;
      MatCopyIs(h, a, src, env);
      var whole := u + "|" + v;
      var bar := FirstBar(whole).value;
      var dst := Uppercase(whole[..bar]);
      DirectCopy(h, u, v);
      CopyElsewhere(h, env, dst, Uppercase(whole[bar + 1..]), u);
      if u == v {
        NoSuchTarget(h, env, dst, Uppercase(whole[bar + 1..]));
      }
      assert MatCopyEffect(h, a, src, env) != Settle(CopyArray(h, env, u, v));
    }
  }

  lemma NoSuchTarget(h: Host, env: Env, dst: string, src: string)
    ensures dst !in env.arrays ==> Settle(CopyArray(h, env, dst, src)).Raise?
  {
  }
}
