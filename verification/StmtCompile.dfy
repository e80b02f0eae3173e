/** Statements: what one line does, the code it is compiled to, and that running the code does it. */
module StmtCompile {
  import opened Bytecode
  import opened BasicAst
  import opened Machine
  import opened ExprCompile

  // ---------------------------------------------------------------------------------------------
  // Meaning
  // ---------------------------------------------------------------------------------------------

  /** How control leaves a statement. `Blocked` is a record lock held by another session. */
  datatype Flow =
    | Fall(env: Env)
    | ToLine(line: int, env: Env)
    | SubLine(line: int, env: Env)
    | Back(env: Env)
    | Quit(env: Env)
    | Away(program: string, env: Env)
    | Err(env: Env)
    | Blocked(env: Env)
    | LoopBegin(variable: string, limit: Value, step: Value, env: Env)
    | LoopNext(variable: string, env: Env)
    | Handler(target: Option<int>, env: Env)

  function Settled(c: Change): Flow {
    if c.Done? then Fall(c.env) else Err(c.env)
  }

  /** `%` variables hold integers: assignment coerces. */
  function Coerced(h: Host, name: string, v: Value): Value {
    if IsIntVar(name) then IntV(h.toInt(v)) else v
  }

  function Assign(h: Host, name: string, r: Evaluated): Flow {
    if r.Fail? then Err(r.env) else Settled(StoreVariable(r.env, Uppercase(name), Coerced(h, name, r.v)))
  }

  function EvalOpt(h: Host, e: Option<Expr>, default: Value, env: Env): Evaluated
    requires OptOk(e)
  {
    if e.Some? then Eval(h, e.value, false, env) else Val(default, env)
  }

  function EvalFileArg(h: Host, fileVar: string, a: FileArg, env: Env): Evaluated
    requires FileArgOk(a)
  {
    match a
    case ConstArg(n) => Val(IntV(n), env)
    case PackArg(name) => ValIf(PackArray(h, env, Uppercase(name)), env)
    case ExprArg(e) => Eval(h, e, false, env)
    case DictArg(e) =>
      match Eval(h, e, false, env)
      case Fail(env') => Fail(env')
      case Val(v, env') => var r := ResolveDict(h, env', Uppercase(fileVar), v); Val(r.0, r.1)
  }

  function EvalFileArgs(h: Host, fileVar: string, args: seq<FileArg>, env: Env): (r: EvaluatedList)
    requires forall a | a in args :: FileArgOk(a)
    ensures r.Vals? ==> |r.vs| == |args|
  {
    if args == [] then Vals([], env)
    else
      var first := EvalFileArg(h, fileVar, args[0], env);
      if first.Fail? then FailList(first.env)
      else
        match EvalFileArgs(h, fileVar, args[1..], first.env)
        case FailList(env') => FailList(env')
        case Vals(vs, env') => Vals([first.v] + vs, env')
  }

  /** What happens to the value a file statement obtained. */
  function Deliver(h: Host, sink: Sink, v: Value, env: Env): Flow {
    match sink
    case NoSink => Fall(env)
    case VarSink(name) => Settled(StoreVariable(env, Uppercase(name), v))
    case ArraySink(name) => Settled(LoadArray(h, env, Uppercase(name), v))
  }

  function TakeInput(h: Host, name: string, shown: Env): Flow {
    var line := h.input(shown.log);
    if line.None? then Err(Log(shown, InputTaken))
    else Assign(h, name, Val(StrV(Trimmed(line.value)), Log(shown, InputTaken)))
  }

  function ShowPrompt(h: Host, name: string, r: Evaluated): Flow {
    if r.Fail? then Err(r.env) else TakeInput(h, name, Log(r.env, Printed(h.toText(r.v))))
  }

  function LeaveFor(h: Host, r: Evaluated): Flow {
    if r.Fail? || h.toText(r.v) == "" then Err(r.env) else Away(h.toText(r.v), r.env)
  }

  function Show(h: Host, suppressEol: bool, r: Evaluated): Flow {
    if r.Fail? then Err(r.env)
    else
      var shown := Log(r.env, Printed(h.toText(r.v)));
      Fall(if suppressEol then shown else Log(shown, Printed("\n")))
  }

  function SetSize(h: Host, name: string, r: Evaluated): Flow {
    if r.Fail? then Err(r.env) else Settled(Dimension(h, r.env, Uppercase(name), r.v))
  }

  function SetCell(h: Host, name: string, v: Value, r: Evaluated): Flow {
    if r.Fail? then Err(r.env) else Settled(StoreCell(h, r.env, Uppercase(name), r.v, Coerced(h, name, v)))
  }

  function Fill(h: Host, name: string, r: Evaluated): Flow {
    if r.Fail? then Err(r.env) else Settled(FillArray(h, r.env, Uppercase(name), r.v))
  }

  function Free(h: Host, fileVar: string, r: Evaluated): Flow {
    if r.Fail? then Err(r.env)
    else
      var a := CallFiles(h, r.env, IoRelease, Uppercase(fileVar), [r.v]);
      if a.answer.NotThere? then Err(a.env) else Fall(a.env)
  }

  function EnterLoop(name: string, limit: Value, r: Evaluated): Flow {
    if r.Fail? then Err(r.env) else LoopBegin(Uppercase(name), limit, r.v, r.env)
  }

  /** FOR: the variable is set before the limit and the step are evaluated, and nothing is tested. */
  function StartLoop(h: Host, name: string, limit: Expr, step: Option<Expr>, stored: Flow): Flow
    requires ExprOk(limit, false) && OptOk(step)
  {
    if !stored.Fall? then stored
    else
      match Eval(h, limit, false, stored.env)
      case Fail(env) => Err(env)
      case Val(l, env) => EnterLoop(name, l, EvalOpt(h, step, IntV(1), env))
  }

  function ExecArm(h: Host, a: BranchArm, env: Env): Flow
    requires ArmOk(a)
    decreases a, 0
  {
    match a
    case LineArm(n) => ToLine(n, env)
    case InlineArm(s) => ExecStmt(h, s, false, env)
  }

  function ExecFile(h: Host, s: Stmt, top: bool, env: Env): Flow
    requires IsFile(s) && StmtOk(s, top)
    decreases s, 0
  {
    match EvalFileArgs(h, s.fileVar, FileArgs(s, top), env)
    case FailList(env') => Err(env')
    case Vals(vs, env') =>
      var a := CallFiles(h, env', FileIo(s), Uppercase(s.fileVar), vs);
      match Judge(FileIo(s), s.elseArm.Some?, a.answer)
      case Success(v) => Deliver(h, FileSink(s), v, a.env)
      case Miss => if s.elseArm.Some? then ExecArm(h, s.elseArm.value, a.env) else Err(a.env)
      case Conflict => Blocked(a.env)
      case Stops => Err(a.env)
  }

  function FileIo(s: Stmt): IoKind
    requires IsFile(s)
  {
    IoOf(FileOp(s)).value
  }

  /** IF: the condition must be an integer; zero selects the ELSE arm. */
  function ExecIf(h: Host, s: Stmt, env: Env): Flow
    requires s.If? && StmtOk(s, false)
    decreases s, 0
  {
    match Eval(h, s.condition, false, env)
    case Fail(env') => Err(env')
    case Val(v, env') =>
      if !v.IntV? then Err(env')
      else if v.i != 0 then ExecArm(h, s.thenArm, env')
      else if s.elseArm.Some? then ExecArm(h, s.elseArm.value, env')
      else Fall(env')
  }

  /** Every statement except file statements and IF. */
  predicate IsSimple(s: Stmt) {
    !IsFile(s) && !s.If?
  }

  function ExecSimple(h: Host, s: Stmt, env: Env): Flow
    requires IsSimple(s) && StmtOk(s, true)
  {
    match s
    case Let(v, e) => Assign(h, v, Eval(h, e, false, env))
    case Input(p, v) =>
      if p.Some? then ShowPrompt(h, v, Eval(h, p.value, false, env)) else TakeInput(h, v, env)
    case ChainTo(e) => LeaveFor(h, Eval(h, e, false, env))
    case Goto(n) => ToLine(n, env)
    case Gosub(n) => SubLine(n, env)
    case ReturnStmt => Back(env)
    case For(v, init, limit, step) => StartLoop(h, v, limit, step, Assign(h, v, Eval(h, init, false, env)))
    case Next(v) => LoopNext(Uppercase(v), env)
    case Print(e, suppressEol) => Show(h, suppressEol, Eval(h, e, false, env))
    case Rem => Fall(env)
    case Stop => Quit(env)
    case End => Quit(env)
    case Dim(v, e) => SetSize(h, v, Eval(h, e, false, env))
    case LetArray(v, i, e) =>
      (match Eval(h, e, false, env)
       case Fail(env') => Err(env')
       case Val(x, env') => SetCell(h, v, x, Eval(h, i, false, env')))
    case Clear => Fall(env.(vars := map[], arrays := map[]))
    case Close(f) => Fall(CallFiles(h, env, IoClose, Uppercase(f), []).env)
    case Release(f, id) => Free(h, f, Eval(h, id, false, env))
    case OnError(stop, n) => Handler(if stop then None else Some(n), env)
    case MatFill(a, e) => Fill(h, a, Eval(h, e, false, env))
    case MatAssign(a, src) => Settled(CopyArray(h, env, Uppercase(a), Uppercase(src)))
  }

  /** Direct execution of a statement: at the top of a line, or inside an arm. */
  function ExecStmt(h: Host, s: Stmt, top: bool, env: Env): Flow
    requires StmtOk(s, top)
    decreases s, 1
  {
    if IsFile(s) then ExecFile(h, s, top, env)
    else if s.If? then ExecIf(h, s, env)
    else ExecSimple(h, s, env)
  }

  // ---------------------------------------------------------------------------------------------
  // Code. `at` is the address of the first instruction; `lines` gives line numbers their addresses,
  // and a number without an address leaves the placeholder 0.
  // ---------------------------------------------------------------------------------------------

  type LineMap = map<int, nat>

  function Address(lines: LineMap, n: int): nat {
    if n in lines then lines[n] else 0
  }

  function CoerceCode(name: string): seq<Instruction> {
    if IsIntVar(name) then [Plain(CoerceInt)] else []
  }

  function StoreCode(name: string): seq<Instruction> {
    CoerceCode(name) + [WithStr(StoreVar, Uppercase(name))]
  }

  function OptCode(e: Option<Expr>, default: seq<Instruction>): seq<Instruction>
    requires OptOk(e)
  {
    if e.Some? then ExprCode(e.value, false) else default
  }

  function FileArgCode(fileVar: string, a: FileArg): seq<Instruction>
    requires FileArgOk(a)
  {
    match a
    case ConstArg(n) => [WithInt(PushInt, n)]
    case PackArg(name) => [WithStr(MatStoreToRec, Uppercase(name))]
    case ExprArg(e) => ExprCode(e, false)
    case DictArg(e) => ExprCode(e, false) + [WithStr(ResolveDictAttr, Uppercase(fileVar))]
  }

  function FileArgsCode(fileVar: string, args: seq<FileArg>): seq<Instruction>
    requires forall a | a in args :: FileArgOk(a)
  {
    if args == [] then [] else FileArgCode(fileVar, args[0]) + FileArgsCode(fileVar, args[1..])
  }

  function SinkCode(sink: Sink): seq<Instruction> {
    match sink
    case NoSink => []
    case VarSink(name) => [WithStr(StoreVar, Uppercase(name))]
    case ArraySink(name) => [WithStr(MatLoadFromRec, Uppercase(name))]
  }

  /** The ELSE arm of a reading statement starts by dropping the placeholder value. */
  function DropCode(sink: Sink): seq<Instruction> {
    if sink.NoSink? then [] else [Plain(Drop)]
  }

  function ArmCode(a: BranchArm, at: nat, lines: LineMap): seq<Instruction>
    requires ArmOk(a)
    decreases a, 0
  {
    match a
    case LineArm(n) => [WithInt(Jump, Address(lines, n))]
    case InlineArm(s) => StmtCode(s, false, at, lines)
  }

  function FileCode(s: Stmt, top: bool, at: nat, lines: LineMap): seq<Instruction>
    requires IsFile(s) && StmtOk(s, top)
    decreases s, 0
  {
    var args, sink := FileArgsCode(s.fileVar, FileArgs(s, top)), SinkCode(FileSink(s));
    if s.elseArm.None? then args + [WithStr(FileOp(s), Uppercase(s.fileVar))] + sink
    else
      var miss := at + |args| + 3 + |sink|;
      var drop := DropCode(FileSink(s));
      var arm := ArmCode(s.elseArm.value, miss + |drop|, lines);
      args + [WithStr(TryOp(FileOp(s)), Uppercase(s.fileVar)), WithInt(JumpIfZero, miss)] + sink
      + [WithInt(Jump, miss + |drop| + |arm|)] + drop + arm
  }

  function IfCode(s: Stmt, at: nat, lines: LineMap): seq<Instruction>
    requires s.If? && StmtOk(s, false)
    decreases s, 0
  {
    var cond := ExprCode(s.condition, false);
    var thenAt := at + |cond| + 1;
    var thenCode := ArmCode(s.thenArm, thenAt, lines);
    if s.elseArm.None? then cond + [WithInt(JumpIfZero, thenAt + |thenCode|)] + thenCode
    else
      var elseAt := thenAt + |thenCode| + if s.thenArm.LineArm? then 0 else 1;
      var elseCode := ArmCode(s.elseArm.value, elseAt, lines);
      cond + [WithInt(JumpIfZero, elseAt)] + thenCode
      + (if s.thenArm.LineArm? then [] else [WithInt(Jump, elseAt + |elseCode|)]) + elseCode
  }

  function SimpleCode(s: Stmt, lines: LineMap): seq<Instruction>
    requires IsSimple(s) && StmtOk(s, true)
  {
    match s
    case Let(v, e) => ExprCode(e, false) + StoreCode(v)
    case Input(p, v) =>
      (if p.Some? then ExprCode(p.value, false) + [Plain(PrintVal)] else []) + [Plain(InputStr)] + StoreCode(v)
    case ChainTo(e) => ExprCode(e, false) + [Plain(Chain)]
    case Goto(n) => [WithInt(Jump, Address(lines, n))]
    case Gosub(n) => [WithInt(Call, Address(lines, n))]
    case ReturnStmt => [Plain(Return)]
    case For(v, init, limit, step) =>
      ExprCode(init, false) + StoreCode(v) + ExprCode(limit, false) + OptCode(step, [WithInt(PushInt, 1)])
      + [WithStr(ForSetup, Uppercase(v))]
    case Next(v) => [WithStr(ForNext, Uppercase(v))]
    case Print(e, suppressEol) =>
      ExprCode(e, false) + [Plain(PrintVal)] + (if suppressEol then [] else [Plain(PrintEol)])
    case Rem => []
    case Stop => [Plain(Halt)]
    case End => [Plain(Halt)]
    case Dim(v, e) => ExprCode(e, false) + [WithStr(DimArray, Uppercase(v))]
    case LetArray(v, i, e) =>
      ExprCode(e, false) + CoerceCode(v) + ExprCode(i, false) + [WithStr(StoreArr, Uppercase(v))]
    case Clear => [Plain(ClearVars)]
    case Close(f) => [WithStr(CloseFile, Uppercase(f))]
    case Release(f, id) => ExprCode(id, false) + [WithStr(ReleaseRec, Uppercase(f))]
    case OnError(stop, n) => [WithInt(SetOnErrorHandler, if stop then 0 else Address(lines, n))]
    case MatFill(a, e) => ExprCode(e, false) + [WithStr(MatInit, Uppercase(a))]
    case MatAssign(a, src) => [WithStr(MatCopy, Uppercase(a) + "|" + Uppercase(src))]
  }

  function StmtCode(s: Stmt, top: bool, at: nat, lines: LineMap): seq<Instruction>
    requires StmtOk(s, top)
    decreases s, 1
  {
    if IsFile(s) then FileCode(s, top, at, lines)
    else if s.If? then IfCode(s, at, lines)
    else SimpleCode(s, lines)
  }

  lemma SimpleSize(s: Stmt, lines: LineMap, lines': LineMap)
    requires IsSimple(s) && StmtOk(s, true)
    ensures |SimpleCode(s, lines)| == |SimpleCode(s, lines')|
  {
    hide ExprCode, ExprOk, Uppercase;
  }

  /** Code size does not depend on where the code is placed or on line addresses. */
  lemma {:induction false} StmtSize(s: Stmt, top: bool, at: nat, lines: LineMap, at': nat, lines': LineMap)
    requires StmtOk(s, top)
    ensures |StmtCode(s, top, at, lines)| == |StmtCode(s, top, at', lines')|
    decreases s, 1
  {
    hide SimpleCode, FileCode, IfCode, ExprOk;
    if IsFile(s) {
      FileSize(s, top, at, lines, at', lines');
    } else if s.If? {
      IfSize(s, at, lines, at', lines');
    } else {
      SimpleSize(s, lines, lines');
    }
  }

  lemma {:induction false} FileSize(s: Stmt, top: bool, at: nat, lines: LineMap, at': nat, lines': LineMap)
    requires IsFile(s) && StmtOk(s, top)
    ensures |FileCode(s, top, at, lines)| == |FileCode(s, top, at', lines')|
    decreases s, 0
  {
    hide FileArgs, FileArgsCode, FileArgOk, FileOp, FileSink, SinkCode, DropCode, Uppercase, ArmCode;
    if s.elseArm.Some? {
      var args, sink, drop := FileArgsCode(s.fileVar, FileArgs(s, top)), SinkCode(FileSink(s)), DropCode(FileSink(s));
      var gap := |args| + 3 + |sink| + |drop|;
      ArmSize(s.elseArm.value, at + gap, lines, at' + gap, lines');
    }
  }

  lemma {:induction false} IfSize(s: Stmt, at: nat, lines: LineMap, at': nat, lines': LineMap)
    requires s.If? && StmtOk(s, false)
    ensures |IfCode(s, at, lines)| == |IfCode(s, at', lines')|
    decreases s, 0
  {
    hide ExprCode, ExprOk, ArmCode;
    var n := |ExprCode(s.condition, false)| + 1;
    ArmSize(s.thenArm, at + n, lines, at' + n, lines');
    if s.elseArm.Some? {
      var k := |ArmCode(s.thenArm, at + n, lines)| + if s.thenArm.LineArm? then 0 else 1;
      ArmSize(s.elseArm.value, at + n + k, lines, at' + n + k, lines');
    }
  }

  lemma {:induction false} ArmSize(a: BranchArm, at: nat, lines: LineMap, at': nat, lines': LineMap)
    requires ArmOk(a)
    ensures |ArmCode(a, at, lines)| == |ArmCode(a, at', lines')|
    decreases a, 0
  {
    if a.InlineArm? {
      StmtSize(a.stmt, false, at, lines, at', lines');
    }
  }
}
