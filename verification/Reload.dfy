/** Compiled programs saved as text and loaded again: exactly which ones come back. */
module Reload {
  import opened Bytecode
  import opened BasicAst
  import opened ExprCompile
  import opened StmtCompile
  import opened ProgramCorrect
  import opened BytecodeText
  import opened BytecodeLoad
  import Emitter

  // ---------------------------------------------------------------------------------------------
  // Conditions on the lines of a program
  // ---------------------------------------------------------------------------------------------

  predicate ArmNames(a: BranchArm) {
    a.InlineArm? ==> StmtNames(a.stmt)
  }

  predicate OptArmNames(a: Option<BranchArm>) {
    a.Some? ==> ArmNames(a.value)
  }

  predicate SinkName(sink: Sink) {
    sink.NoSink? || IsValidVariableName(sink.name)
  }

  /** The statement has the names its parser lets through; only NEXT may have none. */
  predicate StmtNames(s: Stmt) {
    if IsFile(s) then
      IsValidVariableName(s.fileVar) && SinkName(FileSink(s)) && (s.MatWrite? ==> IsValidVariableName(s.matName)) && OptArmNames(s.elseArm)
    else
      match s
      case Let(v, _) => IsValidVariableName(v)
      case Input(_, v) => IsValidVariableName(v)
      case For(v, _, _, _) => IsValidVariableName(v)
      case Next(v) => v == "" || IsValidVariableName(v)
      case If(_, t, e) => ArmNames(t) && OptArmNames(e)
      case Dim(v, _) => IsValidVariableName(v)
      case LetArray(v, _, _) => IsValidVariableName(v)
      case Close(f) => IsValidVariableName(f)
      case Release(f, _) => IsValidVariableName(f)
      case MatFill(a, _) => IsValidVariableName(a)
      case MatAssign(a, src) => IsValidVariableName(a) && IsValidVariableName(src)
      case _ => true
  }

  /** Doubles are printed as one visible word. */
  ghost predicate FloatsPlain(fl: Floats) {
    forall d: real :: Clean(fl.show(d))
  }

  /** Every literal is printed so that it reads back as itself. */
  predicate Literals(fl: Floats, e: Expr)
    decreases e, 1
  {
    match e
    case IntLiteral(n) => FitsInt(n)
    case FloatLiteral(d) => fl.scan(fl.show(d)) == Some(d)
    case Negate(x) => Literals(fl, x)
    case Binary(_, l, r) => Literals(fl, l) && Literals(fl, r)
    case Grouped(x) => Literals(fl, x)
    case Subscript(_, i) => Literals(fl, i)
    case AttributeAccess(_, a, v) => Literals(fl, a) && (v.Some? ==> Literals(fl, v.value))
    case FunctionCall(_, args) => ArgLiterals(fl, args)
    case _ => true
  }

  predicate ArgLiterals(fl: Floats, args: seq<Expr>)
    decreases args, 0
  {
    args == [] || (Literals(fl, args[0]) && ArgLiterals(fl, args[1..]))
  }

  predicate OptLiterals(fl: Floats, e: Option<Expr>) {
    e.Some? ==> Literals(fl, e.value)
  }

  predicate FileArgLiterals(fl: Floats, a: FileArg) {
    match a
    case ConstArg(n) => FitsInt(n)
    case PackArg(_) => true
    case ExprArg(e) => Literals(fl, e)
    case DictArg(e) => Literals(fl, e)
  }

  predicate FileArgsLiterals(fl: Floats, args: seq<FileArg>) {
    args == [] || (FileArgLiterals(fl, args[0]) && FileArgsLiterals(fl, args[1..]))
  }

  predicate ArmLiterals(fl: Floats, a: BranchArm) {
    a.InlineArm? ==> StmtLiterals(fl, a.stmt, false)
  }

  predicate OptArmLiterals(fl: Floats, a: Option<BranchArm>) {
    a.Some? ==> ArmLiterals(fl, a.value)
  }

  /** The literals of the statement read back, and no NEXT is bare. */
  predicate StmtLiterals(fl: Floats, s: Stmt, top: bool) {
    if IsFile(s) then FileArgsLiterals(fl, FileArgs(s, top)) && OptArmLiterals(fl, s.elseArm)
    else if s.If? then Literals(fl, s.condition) && ArmLiterals(fl, s.thenArm) && OptArmLiterals(fl, s.elseArm)
    else SimpleLiterals(fl, s)
  }

  predicate SimpleLiterals(fl: Floats, s: Stmt) {
    match s
    case Let(_, e) => Literals(fl, e)
    case Input(p, _) => OptLiterals(fl, p)
    case ChainTo(e) => Literals(fl, e)
    case For(_, init, limit, step) => Literals(fl, init) && Literals(fl, limit) && OptLiterals(fl, step)
    case Next(v) => v != ""
    case Print(e, _) => Literals(fl, e)
    case Dim(_, e) => Literals(fl, e)
    case LetArray(_, i, e) => Literals(fl, i) && Literals(fl, e)
    case Release(_, id) => Literals(fl, id)
    case MatFill(_, e) => Literals(fl, e)
    case _ => true
  }

  predicate ArmJumps(a: BranchArm, good: set<int>) {
    match a
    case LineArm(n) => n in good
    case InlineArm(s) => JumpsWithin(s, good)
    case EmptyArm => true
  }

  predicate OptArmJumps(a: Option<BranchArm>, good: set<int>) {
    a.Some? ==> ArmJumps(a.value, good)
  }

  /** Every line the statement jumps to is a good one; ON ERROR does not jump. */
  predicate JumpsWithin(s: Stmt, good: set<int>) {
    if IsFile(s) then OptArmJumps(s.elseArm, good)
    else if s.If? then ArmJumps(s.thenArm, good) && OptArmJumps(s.elseArm, good)
    else s.Goto? || s.Gosub? ==> s.target in good
  }

  predicate ArmEmpty(a: BranchArm) {
    a.InlineArm? && a.stmt.Rem?
  }

  predicate ArmExits(a: BranchArm) {
    a.InlineArm? && Exits(a.stmt)
  }

  /** The code of the statement has a jump to its own end. */
  predicate Exits(s: Stmt) {
    if IsFile(s) then s.elseArm.Some?
    else
      && s.If?
      && (s.elseArm.None? || !s.thenArm.LineArm? || ArmEmpty(s.elseArm.value) || ArmExits(s.elseArm.value))
  }

  predicate ArmHalts(a: BranchArm) {
    a.InlineArm? && EndsInHalt(a.stmt)
  }

  /** The last instruction of the statement is HALT. */
  predicate EndsInHalt(s: Stmt) {
    if IsFile(s) then s.elseArm.Some? && ArmHalts(s.elseArm.value)
    else if s.If? then ArmHalts(if s.elseArm.Some? then s.elseArm.value else s.thenArm)
    else s.Stop? || s.End?
  }

  predicate NoCodeFrom(p: Program, k: nat) {
    forall i | k <= i < |p| :: p[i].stmt.Rem?
  }

  /** Some line is END, and the last line with code ends in HALT: no HALT is added. */
  predicate HaltsItself(p: Program) {
    (exists i :: 0 <= i < |p| && p[i].stmt.End?) && HaltsLast(p, |p|)
  }

  predicate HaltsLast(p: Program, k: nat)
    requires k <= |p|
  {
    k > 0 && if p[k - 1].stmt.Rem? then HaltsLast(p, k - 1) else EndsInHalt(p[k - 1].stmt)
  }

  /** Line numbers that lead to a line with code at it or after it. */
  function Solid(p: Program): set<int> {
    set i | 0 <= i < |p| && !NoCodeFrom(p, GoesTo(p, p[i].number)) :: p[i].number
  }

  /** No jump leads behind the last instruction: neither to trailing remarks nor past the last arm. */
  predicate StaysInside(p: Program) {
    forall i | 0 <= i < |p| :: JumpsWithin(p[i].stmt, Solid(p)) && (Exits(p[i].stmt) ==> !NoCodeFrom(p, i + 1))
  }

  /** What decides whether the compiled program survives being saved as text. */
  predicate Reloads(fl: Floats, p: Program) {
    && (forall i | 0 <= i < |p| :: StmtLiterals(fl, p[i].stmt, true))
    && (HaltsItself(p) ==> StaysInside(p))
  }

  // ---------------------------------------------------------------------------------------------
  // Code judged piece by piece
  // ---------------------------------------------------------------------------------------------

  predicate Loads(fl: Floats, b: nat, c: seq<Instruction>) {
    forall i | 0 <= i < |c| :: Printable(fl, c[i]) && TargetOk(c[i], b)
  }

  /** The piece stays on its lines, and is read back with targets below `b` exactly when `ok`. */
  predicate Judged(fl: Floats, b: nat, c: seq<Instruction>, ok: bool) {
    AllOneLine(fl, c) && (Loads(fl, b, c) <==> ok)
  }

  lemma JudgeBoth(fl: Floats, b: nat, x: seq<Instruction>, p: bool, y: seq<Instruction>, q: bool)
    requires Judged(fl, b, x, p) && Judged(fl, b, y, q)
    ensures Judged(fl, b, x + y, p && q)
  {
    hide OneLine, Printable, TargetOk;
    var c := x + y;
    forall i | 0 <= i < |c|
      ensures OneLine(fl, c[i])
    {
      if i < |x| {
        assert c[i] == x[i];
      } else {
        assert c[i] == y[i - |x|];
      }
    }
    if Loads(fl, b, c) {
      forall i | 0 <= i < |x|
        ensures Printable(fl, x[i]) && TargetOk(x[i], b)
      {
        assert c[i] == x[i];
      }
      forall i | 0 <= i < |y|
        ensures Printable(fl, y[i]) && TargetOk(y[i], b)
      {
        assert c[i + |x|] == y[i];
      }
    }
  }

  lemma JudgeThen(fl: Floats, b: nat, x: seq<Instruction>, p: bool, ins: Instruction)
    requires Judged(fl, b, x, p) && Judged(fl, b, [ins], true)
    ensures Judged(fl, b, x + [ins], p)
  {
    hide Judged;
    JudgeBoth(fl, b, x, p, [ins], true);
  }

  lemma JudgeNone(fl: Floats, b: nat)
    ensures Judged(fl, b, [], true)
  {
  }

  lemma JudgeOne(fl: Floats, b: nat, ins: Instruction, ok: bool)
    requires OneLine(fl, ins) && (Printable(fl, ins) && TargetOk(ins, b) <==> ok)
    ensures Judged(fl, b, [ins], ok)
  {
    hide OneLine, Printable, TargetOk;
    var c := [ins];
    assert c[0] == ins;
  }

  lemma JudgePlain(fl: Floats, b: nat, op: OpCode)
    requires !HasOperand(op)
    ensures Judged(fl, b, [Plain(op)], true)
  {
    hide Judged;
    JudgeOne(fl, b, Plain(op), true);
  }

  lemma JudgePush(fl: Floats, b: nat, n: int)
    ensures Judged(fl, b, [WithInt(PushInt, n)], FitsInt(n))
  {
    hide Judged, FitsInt;
    JudgeOne(fl, b, WithInt(PushInt, n), FitsInt(n));
  }

  lemma JudgeText(fl: Floats, b: nat, s: string)
    ensures Judged(fl, b, [WithStr(PushStr, s)], true)
  {
    hide Judged;
    JudgeOne(fl, b, WithStr(PushStr, s), true);
  }

  lemma JudgeFloat(fl: Floats, b: nat, d: real)
    requires FloatsPlain(fl)
    ensures Judged(fl, b, [Instruction(PushFlt, FltV(d), NO_FUNC)], fl.scan(fl.show(d)) == Some(d))
  {
    hide Judged, Clean;
    JudgeOne(fl, b, Instruction(PushFlt, FltV(d), NO_FUNC), fl.scan(fl.show(d)) == Some(d));
  }

  lemma JudgeJump(fl: Floats, b: nat, op: OpCode, to: nat)
    requires TakesTarget(op) && to <= b <= INT_MAX
    ensures Judged(fl, b, [WithInt(op, to)], to < b)
  {
    hide Judged;
    JudgeOne(fl, b, WithInt(op, to), to < b);
  }

  lemma JudgeHandler(fl: Floats, b: nat, to: nat)
    requires to <= INT_MAX
    ensures Judged(fl, b, [WithInt(SetOnErrorHandler, to)], true)
  {
    hide Judged;
    JudgeOne(fl, b, WithInt(SetOnErrorHandler, to), true);
  }

  lemma ArityBound(name: string)
    ensures BuiltinArity(name).Some? ==> BuiltinArity(name).value.1 <= 3
  {
  }

  lemma JudgeCall(fl: Floats, b: nat, name: string, got: nat)
    requires BuiltinCallOk(name, got)
    ensures Judged(fl, b, [Invoke(BuiltinRef(name, got))], true)
  {
    hide Judged, BuiltinArity, FunctionId;
    ArityBound(name);
    JudgeOne(fl, b, Invoke(BuiltinRef(name, got)), true);
  }

  // ---------------------------------------------------------------------------------------------
  // Names
  // ---------------------------------------------------------------------------------------------

  predicate NameSafe(c: char) {
    IsAlnum(c) || c == '$' || c == '%' || c == '@' || c == '|'
  }

  predicate AllSafe(s: string) {
    s != "" && forall i | 0 <= i < |s| :: NameSafe(s[i])
  }

  lemma SafeName(s: string)
    requires AllSafe(s)
    ensures NameOk(s) && Clean(s)
  {
    hide FindColon;
    assert NameSafe(s[0]) && NameSafe(s[|s| - 1]);
    NoColonInPlain(s);
  }

  lemma ValidNameSafe(name: string)
    requires IsValidVariableName(name)
    ensures AllSafe(Uppercase(name))
  {
    var u := Uppercase(name);
    if name[0] == '@' {
      SystemNameSafe(u);
    } else {
      forall i | 0 <= i < |u|
        ensures NameSafe(u[i])
      {
        assert u[i] == UpperChar(name[i]);
      }
    }
  }

  lemma SystemNameSafe(u: string)
    requires IsReadOnlySystemName(u)
    ensures AllSafe(u)
  {
  }

  lemma JudgeName(fl: Floats, b: nat, op: OpCode, name: string)
    requires TakesName(op) && IsValidVariableName(name)
    ensures Judged(fl, b, [WithStr(op, Uppercase(name))], true)
  {
    hide Judged, IsValidVariableName, AllSafe, NameOk, Clean;
    ValidNameSafe(name);
    SafeName(Uppercase(name));
    JudgeOne(fl, b, WithStr(op, Uppercase(name)), true);
  }

  lemma JudgeNext(fl: Floats, b: nat, name: string)
    requires name == "" || IsValidVariableName(name)
    ensures Judged(fl, b, [WithStr(ForNext, Uppercase(name))], name != "")
  {
    hide Judged, IsValidVariableName, AllSafe, Clean;
    if name == "" {
      assert Uppercase(name) == "";
      JudgeOne(fl, b, WithStr(ForNext, ""), false);
    } else {
      JudgeName(fl, b, ForNext, name);
    }
  }

  lemma JudgeCopy(fl: Floats, b: nat, a: string, src: string)
    requires IsValidVariableName(a) && IsValidVariableName(src)
    ensures Judged(fl, b, [WithStr(MatCopy, Uppercase(a) + "|" + Uppercase(src))], true)
  {
    hide Judged, IsValidVariableName, NameOk, Clean, Uppercase;
    ValidNameSafe(a);
    ValidNameSafe(src);
    var both := Uppercase(a) + "|" + Uppercase(src);
    SafeName(both);
    JudgeOne(fl, b, WithStr(MatCopy, both), true);
  }

  // ---------------------------------------------------------------------------------------------
  // Expressions
  // ---------------------------------------------------------------------------------------------

  lemma {:induction false} ExprJudged(fl: Floats, b: nat, e: Expr, inArith: bool)
    requires ExprOk(e, inArith) && FloatsPlain(fl)
    ensures Judged(fl, b, ExprCode(e, inArith), Literals(fl, e))
    decreases e, 1
  {
    hide Judged, FloatsPlain, BuiltinCallOk, BuiltinRef, Uppercase, IsValidVariableName, OpOf;
    match e
    case IntLiteral(n) => JudgePush(fl, b, n);
    case FloatLiteral(d) => JudgeFloat(fl, b, d);
    case StringLiteral(s) => JudgeText(fl, b, s);
    case DictField(token) => JudgeText(fl, b, token);
    case Identifier(name) => JudgeName(fl, b, LoadVar, name);
    case Negate(x) =>
      JudgePush(fl, b, 0);
      ExprJudged(fl, b, x, true);
      JudgeBoth(fl, b, [WithInt(PushInt, 0)], true, ExprCode(x, true), Literals(fl, x));
      JudgePlain(fl, b, Sub);
      JudgeThen(fl, b, [WithInt(PushInt, 0)] + ExprCode(x, true), Literals(fl, x), Plain(Sub));
    case Binary(op, l, r) =>
      var ar := IsArithmetic(op);
      ExprJudged(fl, b, l, ar);
      ExprJudged(fl, b, r, ar);
      JudgeBoth(fl, b, ExprCode(l, ar), Literals(fl, l), ExprCode(r, ar), Literals(fl, r));
      JudgeOperator(fl, b, op);
      JudgeThen(fl, b, ExprCode(l, ar) + ExprCode(r, ar), Literals(fl, l) && Literals(fl, r), Plain(OpOf(op)));
    case Grouped(x) => ExprJudged(fl, b, x, inArith);
    case Subscript(name, i) =>
      ExprJudged(fl, b, i, false);
      JudgeName(fl, b, LoadArr, name);
      JudgeThen(fl, b, ExprCode(i, false), Literals(fl, i), WithStr(LoadArr, Uppercase(name)));
    case AttributeAccess(_, _, _) => AttributeJudged(fl, b, e, inArith);
    case FunctionCall(_, _) => CallJudged(fl, b, e, inArith);
  }

  lemma JudgeOperator(fl: Floats, b: nat, op: BinaryOp)
    ensures Judged(fl, b, [Plain(OpOf(op))], true)
  {
    hide Judged;
    JudgePlain(fl, b, OpOf(op));
  }

  lemma {:induction false} AttributeJudged(fl: Floats, b: nat, e: Expr, inArith: bool)
    requires e.AttributeAccess? && ExprOk(e, inArith) && FloatsPlain(fl)
    ensures Judged(fl, b, ExprCode(e, inArith), Literals(fl, e))
    decreases e, 0
  {
    hide Judged, FloatsPlain, Uppercase, IsValidVariableName;
    var load := [WithStr(LoadVar, Uppercase(e.recordName))];
    var attr := ExprCode(e.attr, false);
    JudgeName(fl, b, LoadVar, e.recordName);
    ExprJudged(fl, b, e.attr, false);
    JudgeBoth(fl, b, load, true, attr, Literals(fl, e.attr));
    JudgePlain(fl, b, ExtractAttr);
    JudgePush(fl, b, 0);
    var index := if e.valueIndex.Some? then ExprCode(e.valueIndex.value, false) else [WithInt(PushInt, 0)];
    if e.valueIndex.Some? {
      ExprJudged(fl, b, e.valueIndex.value, false);
    }
    JudgeBoth(fl, b, load + attr, Literals(fl, e.attr), index, OptLiterals(fl, e.valueIndex));
    JudgeThen(fl, b, load + attr + index, Literals(fl, e), Plain(ExtractAttr));
  }

  lemma {:induction false} CallJudged(fl: Floats, b: nat, e: Expr, inArith: bool)
    requires e.FunctionCall? && ExprOk(e, inArith) && FloatsPlain(fl)
    ensures Judged(fl, b, ExprCode(e, inArith), Literals(fl, e))
    decreases e, 0
  {
    hide Judged, FloatsPlain, BuiltinCallOk, BuiltinRef, ThirdArgImplied, Invoke;
    var args := ArgsCode(e.builtin, e.args, 0);
    var third := if ThirdArgImplied(e.builtin, |e.args|) then [WithInt(PushInt, 1)] else [];
    ArgsJudged(fl, b, e.builtin, e.args, 0);
    JudgePush(fl, b, 1);
    JudgeNone(fl, b);
    JudgeBoth(fl, b, args, ArgLiterals(fl, e.args), third, true);
    JudgeCall(fl, b, e.builtin, |e.args|);
    JudgeThen(fl, b, args + third, ArgLiterals(fl, e.args), Invoke(BuiltinRef(e.builtin, |e.args|)));
  }

  lemma {:induction false} ArgsJudged(fl: Floats, b: nat, name: string, args: seq<Expr>, i: nat)
    requires ArgsOk(name, args, i) && FloatsPlain(fl)
    ensures Judged(fl, b, ArgsCode(name, args, i), ArgLiterals(fl, args))
    decreases args, 0
  {
    hide Judged, FloatsPlain, ExprOk, ExprCode, BuiltinArgInArithmetic;
    if args == [] {
      JudgeNone(fl, b);
    } else {
      var ar := BuiltinArgInArithmetic(name, i);
      ExprJudged(fl, b, args[0], ar);
      ArgsJudged(fl, b, name, args[1..], i + 1);
      JudgeBoth(fl, b, ExprCode(args[0], ar), Literals(fl, args[0]), ArgsCode(name, args[1..], i + 1), ArgLiterals(fl, args[1..]));
    }
  }

  lemma UseJudged(fl: Floats, b: nat, e: Expr, ins: Instruction)
    requires ExprOk(e, false) && FloatsPlain(fl) && Judged(fl, b, [ins], true)
    ensures Judged(fl, b, ExprCode(e, false) + [ins], Literals(fl, e))
  {
    hide Judged, FloatsPlain, ExprOk, ExprCode;
    ExprJudged(fl, b, e, false);
    JudgeThen(fl, b, ExprCode(e, false), Literals(fl, e), ins);
  }

  // ---------------------------------------------------------------------------------------------
  // Statements
  // ---------------------------------------------------------------------------------------------

  lemma CoerceJudged(fl: Floats, b: nat, name: string)
    ensures Judged(fl, b, CoerceCode(name), true)
  {
    hide Judged;
    JudgePlain(fl, b, CoerceInt);
    JudgeNone(fl, b);
  }

  lemma StoreJudged(fl: Floats, b: nat, name: string)
    requires IsValidVariableName(name)
    ensures Judged(fl, b, StoreCode(name), true)
  {
    hide Judged, IsValidVariableName, CoerceCode, Uppercase;
    CoerceJudged(fl, b, name);
    JudgeName(fl, b, StoreVar, name);
    JudgeThen(fl, b, CoerceCode(name), true, WithStr(StoreVar, Uppercase(name)));
  }

  /** Line addresses do not pass `b`, and the good lines are those below it. */
  predicate Placed(lines: LineMap, good: set<int>, b: nat) {
    b <= INT_MAX && forall n | n in lines :: lines[n] <= b && (n in good <==> lines[n] < b)
  }

  lemma LineJump(fl: Floats, b: nat, op: OpCode, n: int, lines: LineMap, good: set<int>)
    requires TakesTarget(op) && Placed(lines, good, b) && n in lines
    ensures Judged(fl, b, [WithInt(op, Address(lines, n))], n in good)
  {
    hide Judged;
    JudgeJump(fl, b, op, lines[n]);
  }

  predicate IsTransfer(s: Stmt) {
    s.Goto? || s.Gosub? || s.OnError?
  }

  /** One instruction without operands from an expression. */
  predicate IsPlain(s: Stmt) {
    s.ReturnStmt? || s.Rem? || s.Stop? || s.End? || s.Clear?
  }

  predicate IsNamed(s: Stmt) {
    s.Next? || s.Close? || s.MatAssign?
  }

  lemma SimpleJudged(fl: Floats, b: nat, s: Stmt, lines: LineMap, good: set<int>)
    requires IsSimple(s) && StmtOk(s, true) && StmtNames(s) && FloatsPlain(fl)
    requires Placed(lines, good, b) && TargetsKnown(s, lines.Keys)
    ensures Judged(fl, b, SimpleCode(s, lines), SimpleLiterals(fl, s) && JumpsWithin(s, good))
  {
    hide SimpleCode, SimpleLiterals, Judged, FloatsPlain, Placed, ExprOk;
    if IsTransfer(s) {
      TransferJudged(fl, b, s, lines, good);
    } else if IsPlain(s) {
      PlainJudged(fl, b, s, lines);
    } else if IsNamed(s) {
      NamedJudged(fl, b, s, lines);
    } else if s.Let? || s.Input? || s.For? || s.LetArray? {
      VariableJudged(fl, b, s, lines);
    } else {
      ValueJudged(fl, b, s, lines);
    }
  }

  lemma TransferJudged(fl: Floats, b: nat, s: Stmt, lines: LineMap, good: set<int>)
    requires IsTransfer(s) && StmtOk(s, true) && Placed(lines, good, b) && TargetsKnown(s, lines.Keys)
    ensures Judged(fl, b, SimpleCode(s, lines), SimpleLiterals(fl, s) && JumpsWithin(s, good))
  {
    hide Judged;
    match s
    case Goto(n) => LineJump(fl, b, Jump, n, lines, good);
    case Gosub(n) => LineJump(fl, b, Call, n, lines, good);
    case OnError(stop, n) => JudgeHandler(fl, b, if stop then 0 else Address(lines, n));
  }

  lemma PlainJudged(fl: Floats, b: nat, s: Stmt, lines: LineMap)
    requires IsPlain(s) && StmtOk(s, true)
    ensures Judged(fl, b, SimpleCode(s, lines), SimpleLiterals(fl, s))
  {
    hide Judged;
    match s
    case ReturnStmt => JudgePlain(fl, b, Return);
    case Rem => JudgeNone(fl, b);
    case Stop => JudgePlain(fl, b, Halt);
    case End => JudgePlain(fl, b, Halt);
    case Clear => JudgePlain(fl, b, ClearVars);
  }

  lemma NamedJudged(fl: Floats, b: nat, s: Stmt, lines: LineMap)
    requires IsNamed(s) && StmtOk(s, true) && StmtNames(s)
    ensures Judged(fl, b, SimpleCode(s, lines), SimpleLiterals(fl, s))
  {
    hide Judged, IsValidVariableName, Uppercase;
    match s
    case Next(v) => JudgeNext(fl, b, v);
    case Close(f) => JudgeName(fl, b, CloseFile, f);
    case MatAssign(a, src) => JudgeCopy(fl, b, a, src);
  }

  lemma ValueJudged(fl: Floats, b: nat, s: Stmt, lines: LineMap)
    requires s.ChainTo? || s.Print? || s.Dim? || s.Release? || s.MatFill?
    requires StmtOk(s, true) && StmtNames(s) && FloatsPlain(fl)
    ensures Judged(fl, b, SimpleCode(s, lines), SimpleLiterals(fl, s))
  {
    hide Judged, IsValidVariableName, Uppercase, ExprOk, ExprCode, FloatsPlain, Literals;
    match s
    case ChainTo(e) =>
      JudgePlain(fl, b, Chain);
      UseJudged(fl, b, e, Plain(Chain));
    case Print(e, suppressEol) =>
      JudgePlain(fl, b, PrintVal);
      UseJudged(fl, b, e, Plain(PrintVal));
      JudgePlain(fl, b, PrintEol);
      JudgeNone(fl, b);
      JudgeBoth(fl, b, ExprCode(e, false) + [Plain(PrintVal)], Literals(fl, e), if suppressEol then [] else [Plain(PrintEol)], true);
    case Dim(v, e) =>
      JudgeName(fl, b, DimArray, v);
      UseJudged(fl, b, e, WithStr(DimArray, Uppercase(v)));
    case Release(f, id) =>
      JudgeName(fl, b, ReleaseRec, f);
      UseJudged(fl, b, id, WithStr(ReleaseRec, Uppercase(f)));
    case MatFill(a, e) =>
      JudgeName(fl, b, MatInit, a);
      UseJudged(fl, b, e, WithStr(MatInit, Uppercase(a)));
  }

  lemma VariableJudged(fl: Floats, b: nat, s: Stmt, lines: LineMap)
    requires s.Let? || s.Input? || s.For? || s.LetArray?
    requires StmtOk(s, true) && StmtNames(s) && FloatsPlain(fl)
    ensures Judged(fl, b, SimpleCode(s, lines), SimpleLiterals(fl, s))
  {
    hide Judged, IsValidVariableName, Uppercase, ExprOk, ExprCode, FloatsPlain, Literals, StoreCode, CoerceCode, OptCode;
    match s
    case Let(v, e) =>
      ExprJudged(fl, b, e, false);
      StoreJudged(fl, b, v);
      JudgeBoth(fl, b, ExprCode(e, false), Literals(fl, e), StoreCode(v), true);
    case Input(p, v) =>
      JudgeNone(fl, b);
      JudgePlain(fl, b, PrintVal);
      if p.Some? {
        UseJudged(fl, b, p.value, Plain(PrintVal));
      }
      var prompt := if p.Some? then ExprCode(p.value, false) + [Plain(PrintVal)] else [];
      JudgePlain(fl, b, InputStr);
      JudgeThen(fl, b, prompt, OptLiterals(fl, p), Plain(InputStr));
      StoreJudged(fl, b, v);
      JudgeBoth(fl, b, prompt + [Plain(InputStr)], OptLiterals(fl, p), StoreCode(v), true);
    case LetArray(v, i, e) =>
      ExprJudged(fl, b, e, false);
      CoerceJudged(fl, b, v);
      ExprJudged(fl, b, i, false);
      JudgeName(fl, b, StoreArr, v);
      JudgeBoth(fl, b, ExprCode(e, false), Literals(fl, e), CoerceCode(v), true);
      JudgeBoth(fl, b, ExprCode(e, false) + CoerceCode(v), Literals(fl, e), ExprCode(i, false), Literals(fl, i));
      JudgeThen(fl, b, ExprCode(e, false) + CoerceCode(v) + ExprCode(i, false), Literals(fl, e) && Literals(fl, i), WithStr(StoreArr, Uppercase(v)));
    case For(v, init, limit, step) => ForJudged(fl, b, s, lines);
  }

  lemma ForJudged(fl: Floats, b: nat, s: Stmt, lines: LineMap)
    requires s.For? && StmtOk(s, true) && StmtNames(s) && FloatsPlain(fl)
    ensures Judged(fl, b, SimpleCode(s, lines), SimpleLiterals(fl, s))
  {
    hide Judged, IsValidVariableName, Uppercase, ExprOk, ExprCode, FloatsPlain, Literals, StoreCode;
    var init, store, limit, step := ExprCode(s.init, false), StoreCode(s.variable), ExprCode(s.limit, false), OptCode(s.step, [WithInt(PushInt, 1)]);
    ExprJudged(fl, b, s.init, false);
    StoreJudged(fl, b, s.variable);
    ExprJudged(fl, b, s.limit, false);
    JudgePush(fl, b, 1);
    if s.step.Some? {
      ExprJudged(fl, b, s.step.value, false);
    }
    JudgeName(fl, b, ForSetup, s.variable);
    JudgeBoth(fl, b, init, Literals(fl, s.init), store, true);
    JudgeBoth(fl, b, init + store, Literals(fl, s.init), limit, Literals(fl, s.limit));
    JudgeBoth(fl, b, init + store + limit, Literals(fl, s.init) && Literals(fl, s.limit), step, OptLiterals(fl, s.step));
    JudgeThen(fl, b, init + store + limit + step, SimpleLiterals(fl, s), WithStr(ForSetup, Uppercase(s.variable)));
  }

  predicate PackName(a: FileArg) {
    a.PackArg? ==> IsValidVariableName(a.name)
  }

  lemma FileArgJudged(fl: Floats, b: nat, fileVar: string, a: FileArg)
    requires FileArgOk(a) && PackName(a) && IsValidVariableName(fileVar) && FloatsPlain(fl)
    ensures Judged(fl, b, FileArgCode(fileVar, a), FileArgLiterals(fl, a))
  {
    hide Judged, IsValidVariableName, Uppercase, ExprOk, ExprCode, FloatsPlain, Literals, FitsInt;
    match a
    case ConstArg(n) => JudgePush(fl, b, n);
    case PackArg(name) => JudgeName(fl, b, MatStoreToRec, name);
    case ExprArg(e) => ExprJudged(fl, b, e, false);
    case DictArg(e) =>
      JudgeName(fl, b, ResolveDictAttr, fileVar);
      UseJudged(fl, b, e, WithStr(ResolveDictAttr, Uppercase(fileVar)));
  }

  lemma {:induction false} FileArgsJudged(fl: Floats, b: nat, fileVar: string, args: seq<FileArg>)
    requires (forall a | a in args :: FileArgOk(a) && PackName(a)) && IsValidVariableName(fileVar) && FloatsPlain(fl)
    ensures Judged(fl, b, FileArgsCode(fileVar, args), FileArgsLiterals(fl, args))
  {
    hide Judged, IsValidVariableName, FloatsPlain, FileArgOk, PackName, FileArgCode, FileArgLiterals;
    if args == [] {
      JudgeNone(fl, b);
    } else {
      assert args[0] in args;
      FileArgJudged(fl, b, fileVar, args[0]);
      FileArgsJudged(fl, b, fileVar, args[1..]);
      JudgeBoth(fl, b, FileArgCode(fileVar, args[0]), FileArgLiterals(fl, args[0]),
                FileArgsCode(fileVar, args[1..]), FileArgsLiterals(fl, args[1..]));
    }
  }

  lemma PackNames(s: Stmt, top: bool)
    requires IsFile(s) && StmtNames(s)
    ensures forall a | a in FileArgs(s, top) :: PackName(a)
  {
    hide IsValidVariableName;
  }

  lemma SinkJudged(fl: Floats, b: nat, sink: Sink)
    requires SinkName(sink)
    ensures Judged(fl, b, SinkCode(sink), true) && Judged(fl, b, DropCode(sink), true)
  {
    hide Judged, IsValidVariableName, Uppercase;
    JudgeNone(fl, b);
    JudgePlain(fl, b, Drop);
    match sink
    case NoSink =>
    case VarSink(name) => JudgeName(fl, b, StoreVar, name);
    case ArraySink(name) => JudgeName(fl, b, MatLoadFromRec, name);
  }

  lemma FileOpNamed(s: Stmt)
    requires IsFile(s)
    ensures TakesName(FileOp(s)) && TakesName(TryOp(FileOp(s)))
  {
  }

  lemma {:induction false} ArmJudged(fl: Floats, b: nat, a: BranchArm, at: nat, lines: LineMap, good: set<int>)
    requires ArmOk(a) && ArmNames(a) && FloatsPlain(fl)
    requires Placed(lines, good, b) && ArmTargetsKnown(a, lines.Keys) && at + |ArmCode(a, at, lines)| <= b
    ensures Judged(fl, b, ArmCode(a, at, lines),
                   ArmLiterals(fl, a) && ArmJumps(a, good) && (ArmExits(a) ==> at + |ArmCode(a, at, lines)| < b))
    ensures ArmCode(a, at, lines) == [] <==> ArmEmpty(a)
    decreases a, 0
  {
    hide Judged, FloatsPlain, Placed, StmtOk, StmtCode, StmtNames, StmtLiterals, JumpsWithin, Exits, TargetsKnown, Address;
    match a
    case LineArm(n) => LineJump(fl, b, Jump, n, lines, good);
    case InlineArm(s) =>
      StmtHasCode(s, false, at, lines);
      StmtJudged(fl, b, s, false, at, lines, good);
  }

  lemma {:induction false} StmtJudged(fl: Floats, b: nat, s: Stmt, top: bool, at: nat, lines: LineMap, good: set<int>)
    requires StmtOk(s, top) && StmtNames(s) && FloatsPlain(fl)
    requires Placed(lines, good, b) && TargetsKnown(s, lines.Keys) && at + |StmtCode(s, top, at, lines)| <= b
    ensures Judged(fl, b, StmtCode(s, top, at, lines),
                   StmtLiterals(fl, s, top) && JumpsWithin(s, good) && (Exits(s) ==> at + |StmtCode(s, top, at, lines)| < b))
    decreases s, 1
  {
    hide Judged, FloatsPlain, Placed, FileCode, IfCode, SimpleCode, FileArgs, FileArgOk, ExprOk, SimpleLiterals, IsValidVariableName;
    if IsFile(s) {
      if s.elseArm.None? {
        NoElseJudged(fl, b, s, top, at, lines);
        NoElseStays(s, good);
      } else {
        TryJudged(fl, b, s, top, at, lines, good);
      }
    } else if s.If? {
      IfJudged(fl, b, s, at, lines, good);
    } else {
      SimpleJudged(fl, b, s, lines, good);
    }
  }

  lemma NoElseStays(s: Stmt, good: set<int>)
    requires IsFile(s) && s.elseArm.None?
    ensures JumpsWithin(s, good) && !Exits(s)
  {
  }

  lemma TryMeans(fl: Floats, s: Stmt, top: bool, good: set<int>)
    requires IsFile(s) && s.elseArm.Some?
    ensures JumpsWithin(s, good) <==> ArmJumps(s.elseArm.value, good)
    ensures StmtLiterals(fl, s, top) <==> FileArgsLiterals(fl, FileArgs(s, top)) && ArmLiterals(fl, s.elseArm.value)
  {
    hide FileArgs, FileArgsLiterals, ArmLiterals, ArmJumps;
  }

  /** Where the jumps of an IF lead. */
  lemma IfMeans(fl: Floats, s: Stmt, good: set<int>)
    requires s.If?
    ensures Exits(s) <==> s.elseArm.None? || !s.thenArm.LineArm? || ArmEmpty(s.elseArm.value) || ArmExits(s.elseArm.value)
    ensures JumpsWithin(s, good) <==> ArmJumps(s.thenArm, good) && (s.elseArm.Some? ==> ArmJumps(s.elseArm.value, good))
    ensures StmtLiterals(fl, s, false) <==>
            Literals(fl, s.condition) && ArmLiterals(fl, s.thenArm) && (s.elseArm.Some? ==> ArmLiterals(fl, s.elseArm.value))
  {
    hide Literals, ArmLiterals, ArmJumps, ArmEmpty, ArmExits;
  }

  lemma NoElseJudged(fl: Floats, b: nat, s: Stmt, top: bool, at: nat, lines: LineMap)
    requires IsFile(s) && s.elseArm.None? && StmtOk(s, top) && StmtNames(s) && FloatsPlain(fl)
    ensures Judged(fl, b, FileCode(s, top, at, lines), StmtLiterals(fl, s, top))
  {
    hide Judged, FloatsPlain, FileArgs, FileArgOk, FileOp, FileSink, SinkCode, Uppercase, IsValidVariableName, FileArgsCode, FileArgsLiterals, PackName, SinkName;
    var args, sink := FileArgsCode(s.fileVar, FileArgs(s, top)), SinkCode(FileSink(s));
    var ok := FileArgsLiterals(fl, FileArgs(s, top));
    FilePartsJudged(fl, b, s, top);
    JudgeThen(fl, b, args, ok, WithStr(FileOp(s), Uppercase(s.fileVar)));
    JudgeBoth(fl, b, args + [WithStr(FileOp(s), Uppercase(s.fileVar))], ok, sink, true);
  }

  lemma FilePartsJudged(fl: Floats, b: nat, s: Stmt, top: bool)
    requires IsFile(s) && StmtOk(s, top) && StmtNames(s) && FloatsPlain(fl)
    ensures Judged(fl, b, FileArgsCode(s.fileVar, FileArgs(s, top)), FileArgsLiterals(fl, FileArgs(s, top)))
    ensures Judged(fl, b, [WithStr(FileOp(s), Uppercase(s.fileVar))], true)
    ensures Judged(fl, b, [WithStr(TryOp(FileOp(s)), Uppercase(s.fileVar))], true)
    ensures Judged(fl, b, SinkCode(FileSink(s)), true) && Judged(fl, b, DropCode(FileSink(s)), true)
  {
    hide Judged, FloatsPlain, FileArgs, FileArgOk, FileOp, TryOp, FileSink, SinkCode, DropCode, Uppercase, IsValidVariableName, FileArgsCode,
         FileArgsLiterals, PackName, SinkName, TakesName;
    PackNames(s, top);
    FileArgsJudged(fl, b, s.fileVar, FileArgs(s, top));
    FileOpNamed(s);
    JudgeName(fl, b, FileOp(s), s.fileVar);
    JudgeName(fl, b, TryOp(FileOp(s)), s.fileVar);
    SinkJudged(fl, b, FileSink(s));
  }

  lemma {:induction false} TryJudged(fl: Floats, b: nat, s: Stmt, top: bool, at: nat, lines: LineMap, good: set<int>)
    requires IsFile(s) && s.elseArm.Some? && StmtOk(s, top) && StmtNames(s) && FloatsPlain(fl)
    requires Placed(lines, good, b) && TargetsKnown(s, lines.Keys) && at + |FileCode(s, top, at, lines)| <= b
    ensures Judged(fl, b, FileCode(s, top, at, lines),
                   StmtLiterals(fl, s, top) && JumpsWithin(s, good) && at + |FileCode(s, top, at, lines)| < b)
    decreases s, 0
  {
    hide Judged, FloatsPlain, FileArgs, FileArgOk, FileOp, TryOp, FileSink, SinkCode, DropCode, Uppercase, IsValidVariableName, FileArgsCode,
         FileArgsLiterals, SinkName, ArmCode, ArmOk, ArmNames, ArmTargetsKnown, ArmLiterals, ArmJumps, ArmExits,
         StmtLiterals, JumpsWithin;
    TryMeans(fl, s, top, good);
    var args, sink, drop := FileArgsCode(s.fileVar, FileArgs(s, top)), SinkCode(FileSink(s)), DropCode(FileSink(s));
    var miss := at + |args| + 3 + |sink|;
    var arm := ArmCode(s.elseArm.value, miss + |drop|, lines);
    var end := miss + |drop| + |arm|;
    var ok := FileArgsLiterals(fl, FileArgs(s, top));
    var try, branch, jump := [WithStr(TryOp(FileOp(s)), Uppercase(s.fileVar))], [WithInt(JumpIfZero, miss)], [WithInt(Jump, end)];
    assert FileCode(s, top, at, lines) == args + (try + branch) + sink + jump + drop + arm;
    assert at + |FileCode(s, top, at, lines)| == end;
    FilePartsJudged(fl, b, s, top);
    FrameLimit(lines, good, b);
    JudgeJump(fl, b, JumpIfZero, miss);
    JudgeJump(fl, b, Jump, end);
    ArmJudged(fl, b, s.elseArm.value, miss + |drop|, lines, good);
    JudgeBoth(fl, b, try, true, branch, miss < b);
    JudgeBoth(fl, b, args, ok, try + branch, miss < b);
    JudgeBoth(fl, b, args + (try + branch), ok && miss < b, sink, true);
    JudgeBoth(fl, b, args + (try + branch) + sink, ok && miss < b, jump, end < b);
    JudgeBoth(fl, b, args + (try + branch) + sink + jump, ok && end < b, drop, true);
    var a := s.elseArm.value;
    JudgeBoth(fl, b, args + (try + branch) + sink + jump + drop, ok && end < b, arm,
              ArmLiterals(fl, a) && ArmJumps(a, good) && (ArmExits(a) ==> end < b));
  }

  lemma FrameLimit(lines: LineMap, good: set<int>, b: nat)
    requires Placed(lines, good, b)
    ensures b <= INT_MAX
  {
  }

  lemma {:induction false} IfJudged(fl: Floats, b: nat, s: Stmt, at: nat, lines: LineMap, good: set<int>)
    requires s.If? && StmtOk(s, false) && StmtNames(s) && FloatsPlain(fl)
    requires Placed(lines, good, b) && TargetsKnown(s, lines.Keys) && at + |IfCode(s, at, lines)| <= b
    ensures Judged(fl, b, IfCode(s, at, lines),
                   StmtLiterals(fl, s, false) && JumpsWithin(s, good) && (Exits(s) ==> at + |IfCode(s, at, lines)| < b))
    decreases s, 0
  {
    hide Judged, FloatsPlain, ExprOk, ExprCode, Literals, ArmCode, ArmOk, ArmNames, ArmTargetsKnown, ArmLiterals, ArmJumps, ArmExits, ArmEmpty, Placed,
         Exits, JumpsWithin, StmtLiterals;
    IfMeans(fl, s, good);
    var cond, c := ExprCode(s.condition, false), Literals(fl, s.condition);
    var thenAt := at + |cond| + 1;
    var body := ArmCode(s.thenArm, thenAt, lines);
    var thenEnd := thenAt + |body|;
    var end := at + |IfCode(s, at, lines)|;
    var t := ArmLiterals(fl, s.thenArm) && ArmJumps(s.thenArm, good) && (ArmExits(s.thenArm) ==> thenEnd < b);
    FrameLimit(lines, good, b);
    ExprJudged(fl, b, s.condition, false);
    ArmJudged(fl, b, s.thenArm, thenAt, lines, good);
    if s.elseArm.None? {
      JudgeJump(fl, b, JumpIfZero, end);
      JudgeBoth(fl, b, cond, c, [WithInt(JumpIfZero, end)], end < b);
      JudgeBoth(fl, b, cond + [WithInt(JumpIfZero, end)], c && end < b, body, t);
    } else {
      var a := s.elseArm.value;
      var elseAt := thenEnd + if s.thenArm.LineArm? then 0 else 1;
      var other := ArmCode(a, elseAt, lines);
      var skip := if s.thenArm.LineArm? then [] else [WithInt(Jump, end)];
      var test := [WithInt(JumpIfZero, elseAt)];
      assert end == elseAt + |other|;
      assert IfCode(s, at, lines) == cond + test + body + skip + other;
      ArmJudged(fl, b, a, elseAt, lines, good);
      JudgeJump(fl, b, JumpIfZero, elseAt);
      JudgeJump(fl, b, Jump, end);
      JudgeNone(fl, b);
      JudgeBoth(fl, b, cond, c, test, elseAt < b);
      JudgeBoth(fl, b, cond + test, c && elseAt < b, body, t);
      JudgeBoth(fl, b, cond + test + body, c && elseAt < b && t, skip, s.thenArm.LineArm? || end < b);
      JudgeBoth(fl, b, cond + test + body + skip, c && elseAt < b && t && (s.thenArm.LineArm? || end < b), other,
                ArmLiterals(fl, a) && ArmJumps(a, good) && (ArmExits(a) ==> end < b));
      LineArmStays(s.thenArm);
    }
  }

  lemma LineArmStays(a: BranchArm)
    ensures a.LineArm? ==> !ArmExits(a)
  {
  }

  // ---------------------------------------------------------------------------------------------
  // The last instruction
  // ---------------------------------------------------------------------------------------------

  predicate HaltAtEnd(c: seq<Instruction>) {
    c != [] && c[|c| - 1].op.Halt?
  }

  lemma LastOf(x: seq<Instruction>, y: seq<Instruction>)
    ensures HaltAtEnd(x + y) <==> if y == [] then HaltAtEnd(x) else HaltAtEnd(y)
  {
    if y == [] {
      assert x + y == x;
    }
  }

  lemma FileOpNoHalt(s: Stmt)
    requires IsFile(s)
    ensures !FileOp(s).Halt? && !HaltAtEnd(SinkCode(FileSink(s))) && !HaltAtEnd(DropCode(FileSink(s)))
  {
  }

  lemma {:induction false} ArmEnds(a: BranchArm, at: nat, lines: LineMap)
    requires ArmOk(a)
    ensures HaltAtEnd(ArmCode(a, at, lines)) <==> ArmHalts(a)
    ensures ArmCode(a, at, lines) == [] ==> !ArmHalts(a)
    decreases a, 0
  {
    hide StmtOk, StmtCode, EndsInHalt;
    if a.InlineArm? {
      StmtEnds(a.stmt, false, at, lines);
    }
  }

  lemma {:induction false} StmtEnds(s: Stmt, top: bool, at: nat, lines: LineMap)
    requires StmtOk(s, top)
    ensures HaltAtEnd(StmtCode(s, top, at, lines)) <==> EndsInHalt(s)
    decreases s, 1
  {
    hide FileCode, IfCode, SimpleCode, FileArgs, FileArgOk, ExprOk, HaltAtEnd;
    if IsFile(s) {
      FileEnds(s, top, at, lines);
    } else if s.If? {
      IfEnds(s, at, lines);
    } else {
      SimpleEnds(s, lines);
    }
  }

  lemma {:induction false} FileEnds(s: Stmt, top: bool, at: nat, lines: LineMap)
    requires IsFile(s) && StmtOk(s, top)
    ensures HaltAtEnd(FileCode(s, top, at, lines)) <==> EndsInHalt(s)
    decreases s, 0
  {
    hide FileArgs, FileArgOk, FileOp, TryOp, FileSink, SinkCode, DropCode, Uppercase, FileArgsCode, ArmCode, ArmOk, ArmHalts, HaltAtEnd;
    var args, sink, drop := FileArgsCode(s.fileVar, FileArgs(s, top)), SinkCode(FileSink(s)), DropCode(FileSink(s));
    FileOpNoHalt(s);
    if s.elseArm.None? {
      OtherLast(args, WithStr(FileOp(s), Uppercase(s.fileVar)));
      LastOf(args + [WithStr(FileOp(s), Uppercase(s.fileVar))], sink);
    } else {
      var miss := at + |args| + 3 + |sink|;
      var arm := ArmCode(s.elseArm.value, miss + |drop|, lines);
      var main := args + [WithStr(TryOp(FileOp(s)), Uppercase(s.fileVar)), WithInt(JumpIfZero, miss)] + sink
                  + [WithInt(Jump, miss + |drop| + |arm|)];
      ArmEnds(s.elseArm.value, miss + |drop|, lines);
      JumpLast(args + [WithStr(TryOp(FileOp(s)), Uppercase(s.fileVar)), WithInt(JumpIfZero, miss)] + sink, miss + |drop| + |arm|);
      LastOf(main, drop);
      LastOf(main + drop, arm);
    }
  }

  lemma {:induction false} IfEnds(s: Stmt, at: nat, lines: LineMap)
    requires s.If? && StmtOk(s, false)
    ensures HaltAtEnd(IfCode(s, at, lines)) <==> EndsInHalt(s)
    decreases s, 0
  {
    hide ExprOk, ExprCode, ArmCode, ArmOk, ArmHalts, HaltAtEnd;
    var cond := ExprCode(s.condition, false);
    var thenAt := at + |cond| + 1;
    var body := ArmCode(s.thenArm, thenAt, lines);
    if s.elseArm.None? {
      var test := [WithInt(JumpIfZero, thenAt + |body|)];
      ArmEnds(s.thenArm, thenAt, lines);
      BranchLast(cond, thenAt + |body|);
      LastOf(cond + test, body);
    } else {
      var elseAt := thenAt + |body| + if s.thenArm.LineArm? then 0 else 1;
      var other := ArmCode(s.elseArm.value, elseAt, lines);
      var main := cond + [WithInt(JumpIfZero, elseAt)] + body;
      var skip := if s.thenArm.LineArm? then [] else [WithInt(Jump, elseAt + |other|)];
      ArmEnds(s.elseArm.value, elseAt, lines);
      if s.thenArm.LineArm? {
        LineArmCode(s.thenArm, thenAt, lines);
        LastOf(cond + [WithInt(JumpIfZero, elseAt)], body);
        assert main + skip == main;
      } else {
        JumpLast(main, elseAt + |other|);
      }
      LastOf(main + skip, other);
    }
  }

  lemma LineArmCode(a: BranchArm, at: nat, lines: LineMap)
    requires ArmOk(a)
    ensures a.LineArm? ==> ArmCode(a, at, lines) != [] && !HaltAtEnd(ArmCode(a, at, lines))
  {
  }

  lemma SimpleEnds(s: Stmt, lines: LineMap)
    requires IsSimple(s) && StmtOk(s, true)
    ensures HaltAtEnd(SimpleCode(s, lines)) <==> s.Stop? || s.End?
  {
    hide ExprOk, ExprCode, OptCode, Uppercase, CoerceCode;
  }

  lemma {:induction false} BodyEnds(p: Program, k: nat, lines: LineMap)
    requires k <= |p| && Compilable(p)
    ensures HaltAtEnd(BodyCode(p, k, lines)) <==> HaltsLast(p, k)
    decreases k
  {
    hide StmtCode, StmtOk, EndsInHalt, HaltAtEnd;
    if k == 0 {
      NoHalt();
    } else {
      BodyEnds(p, k - 1, lines);
      assert LineOk(p[k - 1]);
      StmtHasCode(p[k - 1].stmt, true, Start(p, k - 1), lines);
      StmtEnds(p[k - 1].stmt, true, Start(p, k - 1), lines);
      LastOf(BodyCode(p, k - 1, lines), StmtCode(p[k - 1].stmt, true, Start(p, k - 1), lines));
    }
  }

  lemma NoHalt()
    ensures !HaltAtEnd([])
  {
  }

  lemma JumpLast(c: seq<Instruction>, n: nat)
    ensures !HaltAtEnd(c + [WithInt(Jump, n)])
  {
  }

  lemma OtherLast(c: seq<Instruction>, ins: Instruction)
    requires !ins.op.Halt?
    ensures !HaltAtEnd(c + [ins])
  {
  }

  lemma BranchLast(c: seq<Instruction>, n: nat)
    ensures !HaltAtEnd(c + [WithInt(JumpIfZero, n)])
  {
  }

  // ---------------------------------------------------------------------------------------------
  // Whole programs
  // ---------------------------------------------------------------------------------------------

  /** Lines `k` and later have no code exactly when line `k` starts where the code ends. */
  lemma {:induction false} TailCode(p: Program, k: nat, n: nat)
    requires k <= n <= |p| && Compilable(p)
    ensures Start(p, k) <= Start(p, n)
    ensures Start(p, k) == Start(p, n) <==> forall i | k <= i < n :: p[i].stmt.Rem?
    decreases n
  {
    hide LineOk, LineSize;
    if k < n {
      TailCode(p, k, n - 1);
      CodeSize(p[n - 1]);
    }
  }

  predicate LineLoads(fl: Floats, p: Program, i: nat, good: set<int>, b: nat)
    requires i < |p| && Compilable(p)
  {
    StmtLiterals(fl, p[i].stmt, true) && JumpsWithin(p[i].stmt, good) && (Exits(p[i].stmt) ==> Start(p, i + 1) < b)
  }

  predicate LinesLoad(fl: Floats, p: Program, k: nat, good: set<int>, b: nat)
    requires k <= |p| && Compilable(p)
  {
    forall i | 0 <= i < k :: LineLoads(fl, p, i, good, b)
  }

  predicate FromParser(p: Program) {
    forall i | 0 <= i < |p| :: StmtNames(p[i].stmt)
  }

  lemma {:induction false} BodyJudged(fl: Floats, p: Program, k: nat, lines: LineMap, good: set<int>, b: nat)
    requires k <= |p| && Compilable(p) && FromParser(p) && FloatsPlain(fl) && Start(p, k) <= b && Placed(lines, good, b)
    requires forall i | 0 <= i < |p| :: TargetsKnown(p[i].stmt, lines.Keys)
    ensures Judged(fl, b, BodyCode(p, k, lines), LinesLoad(fl, p, k, good, b))
    decreases k
  {
    hide Judged, FloatsPlain, Placed, StmtCode, StmtOk, StmtNames, TargetsKnown, LineSize, StmtLiterals, JumpsWithin, Exits;
    if k == 0 {
      JudgeNone(fl, b);
    } else {
      var s := p[k - 1].stmt;
      assert LineOk(p[k - 1]);
      SameSize(p[k - 1], Start(p, k - 1), lines);
      BodyJudged(fl, p, k - 1, lines, good, b);
      StmtJudged(fl, b, s, true, Start(p, k - 1), lines, good);
      JudgeBoth(fl, b, BodyCode(p, k - 1, lines), LinesLoad(fl, p, k - 1, good, b),
                StmtCode(s, true, Start(p, k - 1), lines), LineLoads(fl, p, k - 1, good, b));
      assert LinesLoad(fl, p, k, good, b) <==> LinesLoad(fl, p, k - 1, good, b) && LineLoads(fl, p, k - 1, good, b);
    }
  }

  lemma KnownArmGood(a: BranchArm, known: set<int>)
    requires ArmTargetsKnown(a, known)
    ensures ArmJumps(a, known)
    decreases a
  {
    if a.InlineArm? {
      KnownGood(a.stmt, known);
    }
  }

  lemma KnownGood(s: Stmt, known: set<int>)
    requires TargetsKnown(s, known)
    ensures JumpsWithin(s, known)
    decreases s
  {
    if IsFile(s) {
      if s.elseArm.Some? {
        KnownArmGood(s.elseArm.value, known);
      }
    } else if s.If? {
      KnownArmGood(s.thenArm, known);
      if s.elseArm.Some? {
        KnownArmGood(s.elseArm.value, known);
      }
    }
  }

  lemma TableKeys(p: Program)
    requires Compilable(p)
    ensures LineTable(p, |p|).Keys == LineNumbers(p)
  {
    hide LineOk, LineTable;
    hide LineNumbers;
    var keys := LineTable(p, |p|).Keys;
    forall n
      ensures n in keys <==> n in LineNumbers(p)
    {
      TableKey(p, n);
    }
    assert keys == LineNumbers(p);
  }

  lemma TableKey(p: Program, n: int)
    requires Compilable(p)
    ensures n in LineTable(p, |p|) <==> n in LineNumbers(p)
  {
    hide LineOk, LineTable, LineIndex, Start;
    TableFinds(p, n, |p|);
  }

  /** Which lines are good, and how far addresses reach, with and without the added HALT. */
  lemma TableFrame(p: Program)
    requires Compilable(p)
    ensures var lines, size := LineTable(p, |p|), Start(p, |p|);
            && (size < INT_MAX ==> Placed(lines, LineNumbers(p), size + 1))
            && (size <= INT_MAX ==> Placed(lines, Solid(p), size))
  {
    hide LineOk, LineTable, LineSize, Start, GoesTo;
    var lines, size := LineTable(p, |p|), Start(p, |p|);
    TableKeys(p);
    forall n | n in lines
      ensures lines[n] <= size && (n in Solid(p) <==> lines[n] < size)
    {
      AddressOf(p, n);
      assert lines[n] == Start(p, GoesTo(p, n));
      TailCode(p, GoesTo(p, n), |p|);
      assert NoCodeFrom(p, GoesTo(p, n)) <==> lines[n] == size;
      var i :| 0 <= i < |p| && p[i].number == n;
    }
  }

  lemma HaltDecides(p: Program)
    requires Compilable(p)
    ensures NeedsHalt(p, BodyCode(p, |p|, LineTable(p, |p|))) <==> !HaltsItself(p)
  {
    hide BodyCode, LineTable, HaltsLast, LineOk;
    BodyEnds(p, |p|, LineTable(p, |p|));
  }

  lemma LinesInside(fl: Floats, p: Program)
    requires Compilable(p) && HaltsItself(p)
    ensures LinesLoad(fl, p, |p|, Solid(p), Start(p, |p|)) <==> Reloads(fl, p)
  {
    hide LineOk, Start, StmtLiterals, JumpsWithin, Exits, NoCodeFrom, HaltsItself, Solid;
    forall i | 0 <= i < |p|
      ensures LineLoads(fl, p, i, Solid(p), Start(p, |p|)) <==>
              && StmtLiterals(fl, p[i].stmt, true) && JumpsWithin(p[i].stmt, Solid(p))
              && (Exits(p[i].stmt) ==> !NoCodeFrom(p, i + 1))
    {
      TailStart(p, i + 1);
    }
  }

  lemma LinesWithHalt(fl: Floats, p: Program)
    requires Compilable(p) && Analyzed(p) && !HaltsItself(p)
    ensures LinesLoad(fl, p, |p|, LineNumbers(p), Start(p, |p|) + 1) <==> Reloads(fl, p)
  {
    hide LineOk, Start, StmtLiterals, JumpsWithin, Exits, HaltsItself, TargetsKnown, StaysInside;
    var b := Start(p, |p|) + 1;
    forall i | 0 <= i < |p|
      ensures LineLoads(fl, p, i, LineNumbers(p), b) <==> StmtLiterals(fl, p[i].stmt, true)
    {
      TailStart(p, i + 1);
      KnownGood(p[i].stmt, LineNumbers(p));
    }
  }

  /** The compiled code is read back instruction by instruction exactly under the condition on its lines. */
  lemma CompiledJudged(fl: Floats, p: Program)
    requires Compilable(p) && Analyzed(p) && FromParser(p) && FloatsPlain(fl) && |Compile(p)| <= INT_MAX
    ensures Judged(fl, |Compile(p)|, Compile(p), Reloads(fl, p))
  {
    hide Judged, FloatsPlain, Placed, StmtOk, StmtNames, TargetsKnown, LineSize, BodyCode, LineTable, Start, NeedsHalt, LinesLoad,
         HaltsItself, Solid, Reloads;
    var lines, size := LineTable(p, |p|), Start(p, |p|);
    var body := BodyCode(p, |p|, lines);
    HaltDecides(p);
    BodySize(p, |p|, lines);
    TableKeys(p);
    TableFrame(p);
    if HaltsItself(p) {
      BodyJudged(fl, p, |p|, lines, Solid(p), size);
      LinesInside(fl, p);
    } else {
      BodyJudged(fl, p, |p|, lines, LineNumbers(p), size + 1);
      LinesWithHalt(fl, p);
      JudgePlain(fl, size + 1, Halt);
      JudgeThen(fl, size + 1, body, Reloads(fl, p), Plain(Halt));
    }
  }

  lemma TailStart(p: Program, k: nat)
    requires Compilable(p) && k <= |p|
    ensures Start(p, k) <= Start(p, |p|) && (Start(p, k) < Start(p, |p|) <==> !NoCodeFrom(p, k))
  {
    hide LineOk, Start;
    TailCode(p, k, |p|);
  }

  lemma JudgedLoads(fl: Floats, code: seq<Instruction>, ok: bool)
    requires Judged(fl, |code|, code, ok)
    ensures AllOneLine(fl, code) && (AllPrintable(fl, code) && TargetsInRange(code) <==> ok)
  {
    hide OneLine, Printable, TargetOk;
  }

  /** Saving a compiled program as text and loading it gives it back exactly when its literals are printed
      faithfully, no NEXT is bare, no jump leads behind a HALT of its own, and the line list fits. */
  lemma CompiledReloads(fl: Floats, p: Program, ns: seq<int>)
    requires Compilable(p) && Analyzed(p) && FromParser(p) && FloatsPlain(fl) && |Compile(p)| <= INT_MAX
    ensures AllFit(Compile(p))
    ensures var back := LoadText(fl, Serialize(fl, Compile(p), ns));
            var fits := Reloads(fl, p) && LinesFit(ns, |Compile(p)|);
            && (back.Some? && back.value.program == Compile(p) <==> fits)
            && (fits ==> back == Some(Loaded(Compile(p), map[], LinesBack(ns, |Compile(p)|))))
  {
    hide FloatsPlain, Compile, Compilable, Analyzed, FromParser, Judged, Reloads, LoadText, Serialize, AllOneLine, AllPrintable,
         TargetsInRange, AllFit;
    CompiledJudged(fl, p);
    JudgedLoads(fl, Compile(p), Reloads(fl, p));
    OneLineRoundTrip(fl, Compile(p), ns);
  }

  const REMARK_BEHIND_END: Program := [Line(10, Goto(30)), Line(20, End), Line(30, Rem)]

  lemma ExampleAccepted()
    ensures Compilable(REMARK_BEHIND_END) && Analyzed(REMARK_BEHIND_END) && FromParser(REMARK_BEHIND_END)
  {
    hide StmtOk, StmtNames, TargetsKnown, LineNumbers;
    var p := REMARK_BEHIND_END;
    assert p[0].stmt == Goto(30) && p[1].stmt == End && p[2] == Line(30, Rem) && |p| == 3;
    LastNumber(p);
    ExampleLine(p[0].stmt, LineNumbers(p));
    ExampleLine(p[1].stmt, LineNumbers(p));
    ExampleLine(p[2].stmt, LineNumbers(p));
  }

  lemma LastNumber(p: Program)
    requires p != []
    ensures p[|p| - 1].number in LineNumbers(p)
  {
  }

  lemma ExampleLine(s: Stmt, known: set<int>)
    requires s.Goto? || s.End? || s.Rem?
    ensures StmtOk(s, true) && StmtNames(s) && (TargetsKnown(s, known) <==> !s.Goto? || s.target in known)
  {
  }

  lemma ExampleSize()
    requires Compilable(REMARK_BEHIND_END)
    ensures |Compile(REMARK_BEHIND_END)| <= 3
  {
    hide StmtOk, StmtCode, BodyCode, LineSize, LineTable, LineOk;
    var p := REMARK_BEHIND_END;
    assert p[0].stmt == Goto(30) && p[1].stmt == End && p[2] == Line(30, Rem) && |p| == 3;
    BodySize(p, 3, LineTable(p, 3));
    OneOrNone(p[0]);
    OneOrNone(p[1]);
    OneOrNone(p[2]);
    assert Start(p, 3) == Start(p, 2) + LineSize(p[2]) && Start(p, 2) == Start(p, 1) + LineSize(p[1]);
    assert Start(p, 1) == Start(p, 0) + LineSize(p[0]);
  }

  lemma OneOrNone(l: Line)
    requires (l.stmt.Goto? || l.stmt.End? || l.stmt.Rem?) && LineOk(l)
    ensures LineSize(l) == if l.stmt.Rem? then 0 else 1
  {
  }

  lemma ExampleStuck(fl: Floats)
    ensures !Reloads(fl, REMARK_BEHIND_END)
  {
    hide StmtLiterals, LineNumbers;
    var p := REMARK_BEHIND_END;
    assert p[0].stmt == Goto(30) && p[1].stmt == End && p[2] == Line(30, Rem) && |p| == 3;
    assert HaltsLast(p, 2) && HaltsLast(p, 3);
    assert GoesTo(p, 30) == 2 by { assert p[2].number == 30; }
    assert NoCodeFrom(p, 2);
    assert 30 !in Solid(p);
    assert !JumpsWithin(p[0].stmt, Solid(p));
  }

  /** A jump to a remark behind the final END, which the machine runs as the plain end of the program, is
      lost: whatever line list goes with it, the saved text does not give the program back. */
  lemma TrailingRemarkLost(fl: Floats, ns: seq<int>)
    requires FloatsPlain(fl)
    ensures Compilable(REMARK_BEHIND_END) && Analyzed(REMARK_BEHIND_END) && AllFit(Compile(REMARK_BEHIND_END))
    ensures var back := LoadText(fl, Serialize(fl, Compile(REMARK_BEHIND_END), ns));
            !(back.Some? && back.value.program == Compile(REMARK_BEHIND_END))
  {
    hide FloatsPlain, Compile, Compilable, Analyzed, FromParser, LoadText, Serialize, AllFit, Reloads, LinesFit;
    ExampleAccepted();
    ExampleSize();
    ExampleStuck(fl);
    CompiledReloads(fl, REMARK_BEHIND_END, ns);
  }

  /** The source lines the emitter records: those of the statements, and 0 for an added HALT. */
  function RecordedLines(p: Program): seq<int>
    requires Compilable(p)
  {
    Emitter.LinePerInstruction(p, |p|) + if |Compile(p)| > Start(p, |p|) then [0] else []
  }

  lemma {:induction false} RecordedInRange(p: Program, k: nat)
    requires k <= |p| && Compilable(p) && forall i | 0 <= i < |p| :: LineNumberOk(p[i].number)
    ensures AllLineNumbersOk(Emitter.LinePerInstruction(p, k))
  {
    hide LineOk, LineSize, LineNumberOk;
    if k > 0 {
      RecordedInRange(p, k - 1);
    }
  }

  /** BASIC saves the object text of a program and RUN loads it: the program that is loaded is the one that
      was compiled, with its source lines, exactly under the condition on the lines. */
  method SaveAndLoad(fl: Floats, p: Program) returns (saved: bool, back: Option<Loaded>)
    ensures saved <==> Compilable(p)
    ensures saved && Analyzed(p) && FromParser(p) && FloatsPlain(fl) && |Compile(p)| <= INT_MAX
            && (forall i | 0 <= i < |p| :: LineNumberOk(p[i].number)) ==>
              && (back.Some? && back.value.program == Compile(p) <==> Reloads(fl, p))
              && (Reloads(fl, p) ==> back == Some(Loaded(Compile(p), map[], RecordedLines(p))))
  {
    hide StmtOk, LoadText, Serialize, Compile, Start, Reloads, FromParser, FloatsPlain, TargetsKnown, KindFits;
    back := None;
    var emitter := new Emitter.BytecodeEmitter();
    saved := emitter.Emit(p);
    if !saved {
      return;
    }
    var ns := emitter.sourceLinePerInstr;
    var text := SerializeText(fl, emitter.program, ns);
    if text.None? {
      if Analyzed(p) && FromParser(p) && FloatsPlain(fl) && |Compile(p)| <= INT_MAX {
        CompiledReloads(fl, p, ns);
      }
      return;
    }
    var parser := new TextParser();
    back := parser.Parse(fl, text.value);
    if Analyzed(p) && FromParser(p) && FloatsPlain(fl) && |Compile(p)| <= INT_MAX
       && forall i | 0 <= i < |p| :: LineNumberOk(p[i].number) {
      CompiledReloads(fl, p, ns);
      RecordedFit(p, ns);
    }
  }

  lemma RecordedFit(p: Program, ns: seq<int>)
    requires Compilable(p) && ns == RecordedLines(p) && |ns| == |Compile(p)|
    requires forall i | 0 <= i < |p| :: LineNumberOk(p[i].number)
    ensures LinesFit(ns, |Compile(p)|) && LinesBack(ns, |Compile(p)|) == ns
  {
    hide StmtOk, Compile, Start, LineSize;
    RecordedInRange(p, |p|);
    assert ns[..|Compile(p)|] == ns;
    assert LineNumberOk(0);
    if ns == [] {
      assert LinesBack(ns, 0) == [];
    }
  }
}
