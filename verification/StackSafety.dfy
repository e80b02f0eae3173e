/** Stack and address safety of compiled programs over whole runs, by a static operand depth for every
    instruction address. */
module StackSafety {
  import opened Bytecode
  import opened BasicAst
  import opened Machine
  import opened ExprCompile
  import opened StmtCompile
  import opened StmtCorrect
  import opened ProgramCorrect

  // ---------------------------------------------------------------------------------------------
  // Depth discipline
  // ---------------------------------------------------------------------------------------------

  /** Operands popped and pushed by any instruction. */
  function Taken(ins: Instruction): nat {
    if ins.op.JumpIfZero? then 1 else if ins.op.ForSetup? then 2 else if IsData(ins.op) then Pops(ins) else 0
  }

  function Given(ins: Instruction): nat {
    if IsData(ins.op) then Pushes(ins) else 0
  }

  /** A failing file opcode may transfer to the ON ERROR line, so it must empty the stack. */
  predicate MayClash(op: OpCode) {
    IoOf(op).Some? && !IsTry(op)
  }

  /** `t` is an address at which the stack is empty. */
  ghost predicate Base(depth: seq<nat>, t: int) {
    0 <= t < |depth| && depth[t] == 0
  }

  /** The instruction at `i` respects the depths at its own address and at all its successors. */
  ghost predicate Typed(code: seq<Instruction>, depth: seq<nat>, i: nat)
    requires i < |code| && |depth| == |code| + 1
  {
    var ins := code[i];
    && OperandFits(ins)
    && depth[i] >= Taken(ins)
    && if IsData(ins.op) then
         depth[i + 1] == depth[i] - Pops(ins) + Pushes(ins) && (MayClash(ins.op) ==> depth[i] == Pops(ins))
       else if ins.op.JumpIfZero? then
         && 0 <= ins.operand.i < |depth|
         && depth[ins.operand.i] == depth[i] - 1 && depth[i + 1] == depth[i] - 1
       else
         && depth[i] == Taken(ins)
         && (ins.op.Jump? || ins.op.Call? || ins.op.SetOnErrorHandler? ==> Base(depth, ins.operand.i))
         && (ins.op.Call? || ins.op.ForSetup? || ins.op.ForNext? || ins.op.SetOnErrorHandler? ==> Base(depth, i + 1))
         && (ins.op.Halt? ==> Base(depth, |code|))
         && (ins.op.Halt? || ins.op.Jump? || ins.op.Call? || ins.op.Return? || ins.op.ForSetup? || ins.op.ForNext? ||
             ins.op.SetOnErrorHandler?)
  }

  ghost predicate WellTyped(code: seq<Instruction>, depth: seq<nat>) {
    |depth| == |code| + 1 && forall i | 0 <= i < |code| :: Typed(code, depth, i)
  }

  /** Every address the machine holds is inside the program or at its end, the operand stack has the
      depth of the current address, and all remembered addresses are base addresses. */
  ghost predicate Safe(depth: seq<nat>, m: Vm) {
    && m.ip < |depth| && |m.stack| == depth[m.ip]
    && (forall i | 0 <= i < |m.calls| :: Base(depth, m.calls[i]))
    && (forall i | 0 <= i < |m.fors| :: Base(depth, m.fors[i].body))
    && (m.onError.Some? ==> Base(depth, m.onError.value))
  }

  lemma DataKeepsSafe(h: Host, code: seq<Instruction>, depth: seq<nat>, m: Vm)
    requires WellTyped(code, depth) && Safe(depth, m) && m.ip < |code| && IsData(code[m.ip].op) && OperandFits(code[m.ip])
    ensures var o := DataStep(h, code[m.ip], m);
            (o.Running? ==> Safe(depth, o.vm)) && (o.Fault? ==> o.kind == Raised)
  {
    hide DataEffect, OperandFits, Pops, Pushes, IoOf, IsTry, IsData, Taken;
    assert Typed(code, depth, m.ip);
    var ins := code[m.ip];
    DataTakes(ins);
    var n := Pops(ins);
    var kept, args := m.stack[..|m.stack| - n], m.stack[|m.stack| - n..];
    ClashesOnlyOnFiles(h, ins, args, m.env);
  }

  lemma DataTakes(ins: Instruction)
    requires IsData(ins.op)
    ensures Taken(ins) == Pops(ins)
  {
    hide Pops;
  }

  lemma ClashesOnlyOnFiles(h: Host, ins: Instruction, args: seq<Value>, env: Env)
    requires IsData(ins.op) && OperandFits(ins) && |args| == Pops(ins)
    ensures DataEffect(h, ins, args, env).Clash? ==> MayClash(ins.op)
  {
    if IoOf(ins.op).Some? {
      var name := Uppercase(ins.operand.s);
      MissOnlyWhenTrying(IoOf(ins.op).value, CallFiles(h, env, IoOf(ins.op).value, name, args).answer);
    } else if !ins.op.Chain? {
      PushesOrRaises(h, ins, args, env);
    }
  }

  /** Every step of well-typed code keeps safety, and no step underflows. */
  lemma StepKeepsSafe(h: Host, code: seq<Instruction>, depth: seq<nat>, m: Vm)
    requires WellTyped(code, depth) && Safe(depth, m)
    ensures var o := Step(h, code, m);
            (o.Running? ==> Safe(depth, o.vm)) && (o.Fault? ==> o.kind == Raised)
  {
    hide DataStep, IsData, OperandFits, Pops, Pushes, IoOf, IsTry;
    if m.ip < |code| {
      assert Typed(code, depth, m.ip);
      if IsData(code[m.ip].op) {
        DataKeepsSafe(h, code, depth, m);
      } else {
        ControlKeepsSafe(h, code, depth, m);
      }
    }
  }

  lemma ControlKeepsSafe(h: Host, code: seq<Instruction>, depth: seq<nat>, m: Vm)
    requires WellTyped(code, depth) && Safe(depth, m) && m.ip < |code| && !IsData(code[m.ip].op)
    ensures var o := Step(h, code, m);
            (o.Running? ==> Safe(depth, o.vm)) && (o.Fault? ==> o.kind == Raised)
  {
    hide DataStep, Pops, Pushes;
    assert Typed(code, depth, m.ip);
  }

  // ---------------------------------------------------------------------------------------------
  // Depths of straight-line code
  // ---------------------------------------------------------------------------------------------

  /** Depth after one instruction that falls through. */
  function Next(ins: Instruction, d: nat): nat {
    if d >= Taken(ins) then d - Taken(ins) + Given(ins) else 0
  }

  /** Depth before each instruction of straight-line code entered at depth `d`. */
  function Depths(part: seq<Instruction>, d: nat): (r: seq<nat>)
    ensures |r| == |part|
  {
    if part == [] then [] else [d] + Depths(part[1..], Next(part[0], d))
  }

  /** Straight-line code that can run at depth `d` and leaves depth `e`. */
  predicate Flows(part: seq<Instruction>, d: nat, e: nat) {
    if part == [] then d == e
    else
      && IsData(part[0].op) && OperandFits(part[0]) && d >= Pops(part[0]) && (MayClash(part[0].op) ==> d == Pops(part[0]))
      && Flows(part[1..], d - Pops(part[0]) + Pushes(part[0]), e)
  }

  lemma {:induction false} FlowsAppend(a: seq<Instruction>, b: seq<Instruction>, d: nat, e: nat, f: nat)
    requires Flows(a, d, e) && Flows(b, e, f)
    ensures Flows(a + b, d, f)
    decreases |a|
  {
    hide IsData, OperandFits, Pops, Pushes, MayClash;
    if a == [] {
      assert a + b == b;
    } else {
      assert (a + b)[1..] == a[1..] + b;
      FlowsAppend(a[1..], b, d - Pops(a[0]) + Pushes(a[0]), e, f);
    }
  }

  lemma {:induction false} DepthsAppend(a: seq<Instruction>, b: seq<Instruction>, d: nat, e: nat)
    requires Flows(a, d, e)
    ensures Depths(a + b, d) == Depths(a, d) + Depths(b, e)
    decreases |a|
  {
    hide OperandFits, Pops, Pushes, MayClash, IsData, Next;
    if a == [] {
      assert a + b == b;
    } else {
      assert (a + b)[1..] == a[1..] + b;
      DataNext(a[0], d);
      DepthsAppend(a[1..], b, d - Pops(a[0]) + Pushes(a[0]), e);
    }
  }

  /** One data instruction. */
  lemma FlowsOne(ins: Instruction, d: nat)
    requires IsData(ins.op) && OperandFits(ins) && d >= Pops(ins) && (MayClash(ins.op) ==> d == Pops(ins))
    ensures Flows([ins], d, d - Pops(ins) + Pushes(ins))
  {
    hide IsData, OperandFits, Pops, Pushes, MayClash;
    assert [ins][1..] == [];
  }

  /** Appending one data instruction. */
  lemma FlowsThen(a: seq<Instruction>, ins: Instruction, d: nat, e: nat)
    requires Flows(a, d, e) && IsData(ins.op) && OperandFits(ins) && e >= Pops(ins) && (MayClash(ins.op) ==> e == Pops(ins))
    ensures Flows(a + [ins], d, e - Pops(ins) + Pushes(ins))
  {
    hide IsData, OperandFits, Pops, Pushes, MayClash, Flows;
    FlowsOne(ins, e);
    FlowsAppend(a, [ins], d, e, e - Pops(ins) + Pushes(ins));
  }

  /** `part` is found in `depth` at address `at`. */
  ghost predicate AtDepth(depth: seq<nat>, at: nat, part: seq<nat>) {
    at + |part| <= |depth| && depth[at..at + |part|] == part
  }

  lemma AtDepthSplit(depth: seq<nat>, at: nat, a: seq<nat>, b: seq<nat>)
    requires AtDepth(depth, at, a + b)
    ensures AtDepth(depth, at, a) && AtDepth(depth, at + |a|, b)
  {
    var whole := a + b;
    assert depth[at..at + |a|] == whole[..|a|];
    assert depth[at + |a|..at + |a| + |b|] == whole[|a|..];
  }

  ghost predicate TypedRange(code: seq<Instruction>, depth: seq<nat>, lo: nat, hi: nat)
    requires |depth| == |code| + 1 && hi <= |code|
  {
    forall i | lo <= i < hi :: Typed(code, depth, i)
  }

  /** Straight-line code is typed by its computed depths. */
  lemma {:induction false} StraightTyped(code: seq<Instruction>, depth: seq<nat>, at: nat, part: seq<Instruction>, d: nat, e: nat)
    requires |depth| == |code| + 1 && At(code, at, part) && AtDepth(depth, at, Depths(part, d)) && depth[at + |part|] == e
    requires Flows(part, d, e)
    ensures TypedRange(code, depth, at, at + |part|) && depth[at] == d
    decreases |part|
  {
    hide IsData, OperandFits, Pops, Pushes, MayClash;
    if part != [] {
      assert code[at] == code[at..at + |part|][0] == part[0];
      var rest := part[1..];
      assert At(code, at + 1, rest) by {
        assert code[at + 1..at + 1 + |rest|] == code[at..at + |part|][1..];
      }
      var d' := d - Pops(part[0]) + Pushes(part[0]);
      assert Next(part[0], d) == d' by { DataNext(part[0], d); }
      var ds := Depths(part, d);
      assert ds == [d] + Depths(rest, d');
      assert depth[at] == depth[at..at + |ds|][0] == d;
      assert AtDepth(depth, at + 1, Depths(rest, d')) by {
        assert depth[at + 1..at + 1 + |rest|] == depth[at..at + |ds|][1..];
      }
      StraightTyped(code, depth, at + 1, rest, d', e);
      DataNext(part[0], d);
      assert Typed(code, depth, at);
    }
  }

  lemma DataNext(ins: Instruction, d: nat)
    requires IsData(ins.op) && d >= Pops(ins)
    ensures Taken(ins) == Pops(ins) && Next(ins, d) == d - Pops(ins) + Pushes(ins)
  {
    hide Pops, Pushes, Taken, IsData;
    DataTakes(ins);
  }

  // ---------------------------------------------------------------------------------------------
  // Expressions and operands of file statements
  // ---------------------------------------------------------------------------------------------

  /** An ordinary data instruction with its operand and result counts. */
  predicate Plug(ins: Instruction, pops: nat, pushes: nat) {
    IsData(ins.op) && OperandFits(ins) && Pops(ins) == pops && Pushes(ins) == pushes && !MayClash(ins.op)
  }

  lemma PushPlug(v: Value)
    ensures Plug(PushOf(v), 0, 1)
  {
  }

  lemma LoadPlug(name: string)
    ensures Plug(WithStr(LoadVar, name), 0, 1)
  {
  }

  lemma CellPlug(name: string)
    ensures Plug(WithStr(LoadArr, name), 1, 1)
  {
  }

  lemma ExtractPlug()
    ensures Plug(Plain(ExtractAttr), 3, 1)
  {
  }

  lemma CallPlug(f: FuncRef)
    ensures Plug(Invoke(f), f.argCount, 1)
  {
  }

  lemma OperatorPlug(op: OpCode)
    requires IsOperator(op)
    ensures Plug(Plain(op), 2, 1)
  {
  }

  lemma NegatePlug()
    ensures Plug(Plain(Sub), 2, 1)
  {
    hide Plug;
    OperatorPlug(Sub);
  }

  /** Instructions that use one value, transform one value, or only act. */
  lemma UsePlug(ins: Instruction)
    requires ins.op.PrintVal? || ins.op.Chain? || ins.op.Drop? ||
             (ins.operand.StrV? && (ins.op.DimArray? || ins.op.MatInit? || ins.op.ReleaseRec? || ins.op.StoreVar? || ins.op.MatLoadFromRec?))
    ensures Plug(ins, 1, 0)
  {
  }

  lemma ChangePlug(ins: Instruction)
    requires ins.op.CoerceInt? || (ins.op.ResolveDictAttr? && ins.operand.StrV?)
    ensures Plug(ins, 1, 1)
  {
  }

  lemma ActPlug(ins: Instruction)
    requires ins.op.PrintEol? || ins.op.ClearVars? || (ins.operand.StrV? && (ins.op.CloseFile? || ins.op.MatCopy?))
    ensures Plug(ins, 0, 0)
  {
  }

  lemma MakePlug(ins: Instruction)
    requires ins.op.InputStr? || (ins.op.MatStoreToRec? && ins.operand.StrV?)
    ensures Plug(ins, 0, 1)
  {
  }

  lemma CellStorePlug(name: string)
    ensures Plug(WithStr(StoreArr, name), 2, 0)
  {
  }

  lemma PlugOne(ins: Instruction, pops: nat, pushes: nat, d: nat)
    requires Plug(ins, pops, pushes) && d >= pops
    ensures Flows([ins], d, d - pops + pushes)
  {
    hide IsData, OperandFits, Pops, Pushes, MayClash, Flows;
    FlowsOne(ins, d);
  }

  lemma PlugThen(a: seq<Instruction>, ins: Instruction, pops: nat, pushes: nat, d: nat, e: nat)
    requires Flows(a, d, e) && Plug(ins, pops, pushes) && e >= pops
    ensures Flows(a + [ins], d, e - pops + pushes)
  {
    hide IsData, OperandFits, Pops, Pushes, MayClash, Flows;
    FlowsThen(a, ins, d, e);
  }

  /** Code of an expression raises the depth by one. */
  lemma {:induction false} ExprFlows(e: Expr, inArith: bool, d: nat)
    requires ExprOk(e, inArith)
    ensures Flows(ExprCode(e, inArith), d, d + 1)
    decreases e, 1
  {
    hide Flows, Plug, BuiltinCallOk, BuiltinRef, IsValidVariableName, IsStringVar, BuiltinArgInArithmetic, ThirdArgImplied, OpOf, IsArithmetic,
         Uppercase, IsOperator;
    match e
    case IntLiteral(n) => PushFlows(IntV(n), d);
    case FloatLiteral(x) => PushFlows(FltV(x), d);
    case StringLiteral(s) => PushFlows(StrV(s), d);
    case DictField(s) => PushFlows(StrV(s), d);
    case Identifier(name) =>
      LoadPlug(Uppercase(name));
      PlugOne(WithStr(LoadVar, Uppercase(name)), 0, 1, d);
    case Grouped(x) => ExprFlows(x, inArith, d);
    case AttributeAccess(_, _, _) => AttributeFlows(e, inArith, d);
    case Negate(_) => OperationFlows(e, inArith, d);
    case Binary(_, _, _) => OperationFlows(e, inArith, d);
    case Subscript(_, _) => OperationFlows(e, inArith, d);
    case FunctionCall(_, _) => CallFlows(e, inArith, d);
  }

  lemma {:induction false} OperationFlows(e: Expr, inArith: bool, d: nat)
    requires (e.Negate? || e.Binary? || e.Subscript?) && ExprOk(e, inArith)
    ensures Flows(ExprCode(e, inArith), d, d + 1)
    decreases e, 0
  {
    hide Flows, Plug, BuiltinCallOk, BuiltinRef, IsValidVariableName, IsStringVar, OpOf, IsArithmetic, Uppercase, IsOperator;
    match e
    case Negate(x) =>
      PushFlows(IntV(0), d);
      ExprFlows(x, true, d + 1);
      FlowsAppend([WithInt(PushInt, 0)], ExprCode(x, true), d, d + 1, d + 2);
      NegatePlug();
      PlugThen([WithInt(PushInt, 0)] + ExprCode(x, true), Plain(Sub), 2, 1, d, d + 2);
    case Binary(op, l, r) =>
      var a := IsArithmetic(op);
      ExprFlows(l, a, d);
      ExprFlows(r, a, d + 1);
      FlowsAppend(ExprCode(l, a), ExprCode(r, a), d, d + 1, d + 2);
      OperatorPlug(OpOf(op));
      PlugThen(ExprCode(l, a) + ExprCode(r, a), Plain(OpOf(op)), 2, 1, d, d + 2);
    case Subscript(name, i) =>
      ExprFlows(i, false, d);
      CellPlug(Uppercase(name));
      PlugThen(ExprCode(i, false), WithStr(LoadArr, Uppercase(name)), 1, 1, d, d + 1);
  }

  lemma PushFlows(v: Value, d: nat)
    ensures Flows([PushOf(v)], d, d + 1)
  {
    hide Flows, Plug, PushOf;
    PushPlug(v);
    PlugOne(PushOf(v), 0, 1, d);
  }

  lemma {:induction false} AttributeFlows(e: Expr, inArith: bool, d: nat)
    requires e.AttributeAccess? && ExprOk(e, inArith)
    ensures Flows(ExprCode(e, inArith), d, d + 1)
    decreases e, 0
  {
    hide Flows, Plug, IsValidVariableName, IsStringVar, Uppercase, BuiltinCallOk, BuiltinRef;
    var AttributeAccess(name, a, vi) := e;
    var load := [WithStr(LoadVar, Uppercase(name))];
    var cv := if vi.Some? then ExprCode(vi.value, false) else [WithInt(PushInt, 0)];
    LoadPlug(Uppercase(name));
    ExtractPlug();
    PlugOne(load[0], 0, 1, d);
    ExprFlows(a, false, d + 1);
    FlowsAppend(load, ExprCode(a, false), d, d + 1, d + 2);
    if vi.Some? {
      ExprFlows(vi.value, false, d + 2);
    } else {
      PushFlows(IntV(0), d + 2);
    }
    FlowsAppend(load + ExprCode(a, false), cv, d, d + 2, d + 3);
    PlugThen(load + ExprCode(a, false) + cv, Plain(ExtractAttr), 3, 1, d, d + 3);
  }

  lemma {:induction false} CallFlows(e: Expr, inArith: bool, d: nat)
    requires e.FunctionCall? && ExprOk(e, inArith)
    ensures Flows(ExprCode(e, inArith), d, d + 1)
    decreases e, 0
  {
    hide Flows, Plug, BuiltinCallOk, BuiltinRef, ThirdArgImplied, ExprOk, ExprCode, ArgsOk, ArgsCode;
    CallParts(e, inArith);
    var FunctionCall(name, args) := e;
    var f := BuiltinRef(name, |args|);
    ArgsFlows(name, args, 0, d);
    var ca := ArgsCode(name, args, 0);
    var one := if ThirdArgImplied(name, |args|) then [WithInt(PushInt, 1)] else [];
    var n := d + |args|;
    if ThirdArgImplied(name, |args|) {
      PushFlows(IntV(1), n);
    } else {
      FlowsNone(n);
    }
    FlowsAppend(ca, one, d, n, n + |one|);
    CallPlug(f);
    PlugThen(ca + one, Invoke(f), f.argCount, 1, d, n + |one|);
  }

  lemma CallParts(e: Expr, inArith: bool)
    requires e.FunctionCall? && ExprOk(e, inArith)
    ensures BuiltinCallOk(e.builtin, |e.args|) && ArgsOk(e.builtin, e.args, 0)
    ensures ExprCode(e, inArith) == ArgsCode(e.builtin, e.args, 0)
                                    + (if ThirdArgImplied(e.builtin, |e.args|) then [WithInt(PushInt, 1)] else [])
                                    + [Invoke(BuiltinRef(e.builtin, |e.args|))]
  {
    hide BuiltinCallOk, BuiltinRef, ThirdArgImplied, ArgsOk, ArgsCode;
  }

  lemma FlowsNone(d: nat)
    ensures Flows([], d, d)
  {
  }

  lemma {:induction false} ArgsFlows(name: string, args: seq<Expr>, i: nat, d: nat)
    requires ArgsOk(name, args, i)
    ensures Flows(ArgsCode(name, args, i), d, d + |args|)
    decreases args, 0
  {
    hide Flows, BuiltinArgInArithmetic;
    if args == [] {
      FlowsNone(d);
    } else {
      ExprFlows(args[0], BuiltinArgInArithmetic(name, i), d);
      ArgsFlows(name, args[1..], i + 1, d + 1);
      FlowsAppend(ExprCode(args[0], BuiltinArgInArithmetic(name, i)), ArgsCode(name, args[1..], i + 1), d, d + 1, d + |args|);
    }
  }

  lemma OptFlows(e: Option<Expr>, n: int, d: nat)
    requires OptOk(e)
    ensures Flows(OptCode(e, [WithInt(PushInt, n)]), d, d + 1)
  {
    hide Flows, Plug, ExprCode, ExprOk;
    if e.Some? {
      ExprFlows(e.value, false, d);
    } else {
      PushFlows(IntV(n), d);
    }
  }

  lemma FileArgFlows(fileVar: string, a: FileArg, d: nat)
    requires FileArgOk(a)
    ensures Flows(FileArgCode(fileVar, a), d, d + 1)
  {
    hide Flows, Plug, ExprCode, ExprOk, Uppercase;
    match a
    case ConstArg(n) => PushFlows(IntV(n), d);
    case PackArg(name) =>
      MakePlug(WithStr(MatStoreToRec, Uppercase(name)));
      PlugOne(WithStr(MatStoreToRec, Uppercase(name)), 0, 1, d);
    case ExprArg(e) => ExprFlows(e, false, d);
    case DictArg(e) =>
      ExprFlows(e, false, d);
      ChangePlug(WithStr(ResolveDictAttr, Uppercase(fileVar)));
      PlugThen(ExprCode(e, false), WithStr(ResolveDictAttr, Uppercase(fileVar)), 1, 1, d, d + 1);
  }

  lemma {:induction false} FileArgsFlows(fileVar: string, args: seq<FileArg>, d: nat)
    requires forall a | a in args :: FileArgOk(a)
    ensures Flows(FileArgsCode(fileVar, args), d, d + |args|)
    decreases |args|
  {
    hide Flows, FileArgCode, FileArgOk;
    if args == [] {
      FlowsNone(d);
    } else {
      FileArgFlows(fileVar, args[0], d);
      FileArgsFlows(fileVar, args[1..], d + 1);
      FlowsAppend(FileArgCode(fileVar, args[0]), FileArgsCode(fileVar, args[1..]), d, d + 1, d + |args|);
    }
  }

  // ---------------------------------------------------------------------------------------------
  // Statements
  // ---------------------------------------------------------------------------------------------

  function ArmDepth(a: BranchArm, at: nat, lines: LineMap): seq<nat>
    requires ArmOk(a)
    decreases a, 0
  {
    match a
    case LineArm(_) => [0]
    case InlineArm(s) => StmtDepth(s, false, at, lines)
  }

  /** Values on the stack between a trying opcode's flag test and the sink: one when it reads. */
  function ReadCount(sink: Sink): nat {
    if sink.NoSink? then 0 else 1
  }

  function TryDepth(s: Stmt, top: bool, at: nat, lines: LineMap): seq<nat>
    requires IsFile(s) && StmtOk(s, top) && s.elseArm.Some?
    decreases s, 0
  {
    var args, sink, drop := FileArgsCode(s.fileVar, FileArgs(s, top)), SinkCode(FileSink(s)), DropCode(FileSink(s));
    var k := ReadCount(FileSink(s));
    var miss := at + |args| + 3 + |sink|;
    Depths(args, 0) + [IoArity(FileIo(s)), k + 1] + Depths(sink, k) + [0] + Depths(drop, k)
    + ArmDepth(s.elseArm.value, miss + |drop|, lines)
  }

  function IfDepth(s: Stmt, at: nat, lines: LineMap): seq<nat>
    requires s.If? && StmtOk(s, false)
    decreases s, 0
  {
    var cond := ExprCode(s.condition, false);
    var thenAt := at + |cond| + 1;
    var thenDepth := ArmDepth(s.thenArm, thenAt, lines);
    if s.elseArm.None? then Depths(cond, 0) + [1] + thenDepth
    else
      var jump: seq<nat> := if s.thenArm.LineArm? then [] else [0];
      var elseAt := thenAt + |ArmCode(s.thenArm, thenAt, lines)| + |jump|;
      Depths(cond, 0) + [1] + thenDepth + jump + ArmDepth(s.elseArm.value, elseAt, lines)
  }

  /** Operand depth before each instruction of a statement. */
  function StmtDepth(s: Stmt, top: bool, at: nat, lines: LineMap): seq<nat>
    requires StmtOk(s, top)
    decreases s, 1
  {
    if IsFile(s) && s.elseArm.Some? then TryDepth(s, top, at, lines)
    else if s.If? then IfDepth(s, at, lines)
    else Depths(StmtCode(s, top, at, lines), 0)
  }

  lemma {:induction false} DepthSize(s: Stmt, top: bool, at: nat, lines: LineMap)
    requires StmtOk(s, top)
    ensures |StmtDepth(s, top, at, lines)| == |StmtCode(s, top, at, lines)|
    decreases s, 1
  {
    hide SimpleCode, ExprOk, FileCode, IfCode, TryDepth, IfDepth, FileArgs, FileArgOk;
    if IsFile(s) && s.elseArm.Some? {
      TryDepthSize(s, top, at, lines);
    } else if s.If? {
      IfDepthSize(s, at, lines);
    }
  }

  lemma {:induction false} TryDepthSize(s: Stmt, top: bool, at: nat, lines: LineMap)
    requires IsFile(s) && StmtOk(s, top) && s.elseArm.Some?
    ensures |TryDepth(s, top, at, lines)| == |FileCode(s, top, at, lines)|
    decreases s, 0
  {
    hide ExprOk, FileArgs, FileArgsCode, FileArgOk, FileOp, TryOp, FileSink, SinkCode, DropCode, Uppercase, ArmCode, ArmDepth, FileIo;
    var args, sink, drop := FileArgsCode(s.fileVar, FileArgs(s, top)), SinkCode(FileSink(s)), DropCode(FileSink(s));
    ArmDepthSize(s.elseArm.value, at + |args| + 3 + |sink| + |drop|, lines);
  }

  lemma {:induction false} IfDepthSize(s: Stmt, at: nat, lines: LineMap)
    requires s.If? && StmtOk(s, false)
    ensures |IfDepth(s, at, lines)| == |IfCode(s, at, lines)|
    decreases s, 0
  {
    hide ExprOk, ExprCode, ArmCode, ArmDepth;
    var thenAt := at + |ExprCode(s.condition, false)| + 1;
    ArmDepthSize(s.thenArm, thenAt, lines);
    if s.elseArm.Some? {
      var over := if s.thenArm.LineArm? then 0 else 1;
      ArmDepthSize(s.elseArm.value, thenAt + |ArmCode(s.thenArm, thenAt, lines)| + over, lines);
    }
  }

  lemma {:induction false} ArmDepthSize(a: BranchArm, at: nat, lines: LineMap)
    requires ArmOk(a)
    ensures |ArmDepth(a, at, lines)| == |ArmCode(a, at, lines)|
    decreases a, 0
  {
    hide StmtDepth, StmtCode, StmtOk;
    if a.InlineArm? {
      DepthSize(a.stmt, false, at, lines);
    }
  }

  /** The assembled program around a statement: known lines and the end are base addresses. */
  ghost predicate Frame(code: seq<Instruction>, depth: seq<nat>, lines: LineMap, known: set<int>) {
    && |depth| == |code| + 1 && depth[|code|] == 0 && depth[0] == 0
    && forall n | n in known :: Base(depth, Address(lines, n))
  }

  lemma StoreFlows(name: string, d: nat)
    ensures Flows(CoerceCode(name), d + 1, d + 1) && Flows(StoreCode(name), d + 1, d)
  {
    hide Flows, Plug, Uppercase, IsIntVar;
    if IsIntVar(name) {
      ChangePlug(Plain(CoerceInt));
      PlugOne(Plain(CoerceInt), 1, 1, d + 1);
    } else {
      FlowsNone(d + 1);
    }
    UsePlug(WithStr(StoreVar, Uppercase(name)));
    PlugThen(CoerceCode(name), WithStr(StoreVar, Uppercase(name)), 1, 0, d + 1, d + 1);
  }

  /** Straight-line statements, and CHAIN, use the stack from empty to empty. */
  lemma StatementFlows(s: Stmt, lines: LineMap)
    requires (IsStraight(s) || s.ChainTo?) && StmtOk(s, true)
    ensures Flows(SimpleCode(s, lines), 0, 0)
  {
    hide Flows, Plug, ExprCode, ExprOk, Uppercase, StoreCode, CoerceCode;
    if s.Let? || s.Input? || s.Print? {
      VariableFlows(s, lines);
    } else if s.Dim? || s.MatFill? || s.Release? || s.ChainTo? {
      UseFlows(s, lines);
    } else {
      OtherFlows(s, lines);
    }
  }

  lemma VariableFlows(s: Stmt, lines: LineMap)
    requires (s.Let? || s.Input? || s.Print?) && StmtOk(s, true)
    ensures Flows(SimpleCode(s, lines), 0, 0)
  {
    hide Flows, Plug, ExprCode, ExprOk, Uppercase, StoreCode;
    match s
    case Let(v, e) =>
      ExprFlows(e, false, 0);
      StoreFlows(v, 0);
      FlowsAppend(ExprCode(e, false), StoreCode(v), 0, 1, 0);
    case Print(e, suppressEol) =>
      ExprFlows(e, false, 0);
      var shown := ExprCode(e, false) + [Plain(PrintVal)];
      UsePlug(Plain(PrintVal));
      PlugThen(ExprCode(e, false), Plain(PrintVal), 1, 0, 0, 1);
      if suppressEol {
        assert shown + [] == shown;
      } else {
        ActPlug(Plain(PrintEol));
        PlugThen(shown, Plain(PrintEol), 0, 0, 0, 0);
      }
    case Input(p, v) =>
      var prompt := if p.Some? then ExprCode(p.value, false) + [Plain(PrintVal)] else [];
      if p.Some? {
        ExprFlows(p.value, false, 0);
        UsePlug(Plain(PrintVal));
        PlugThen(ExprCode(p.value, false), Plain(PrintVal), 1, 0, 0, 1);
      } else {
        FlowsNone(0);
      }
      MakePlug(Plain(InputStr));
      PlugThen(prompt, Plain(InputStr), 0, 1, 0, 0);
      StoreFlows(v, 0);
      FlowsAppend(prompt + [Plain(InputStr)], StoreCode(v), 0, 1, 0);
  }

  /** An expression used by one instruction. */
  lemma ValueFlows(e: Expr, ins: Instruction)
    requires ExprOk(e, false)
    requires ins.op.Chain? || (ins.operand.StrV? && (ins.op.DimArray? || ins.op.MatInit? || ins.op.ReleaseRec?))
    ensures Flows(ExprCode(e, false) + [ins], 0, 0)
  {
    hide Flows, Plug, ExprCode, ExprOk;
    ExprFlows(e, false, 0);
    UsePlug(ins);
    PlugThen(ExprCode(e, false), ins, 1, 0, 0, 1);
  }

  lemma UseFlows(s: Stmt, lines: LineMap)
    requires (s.Dim? || s.MatFill? || s.Release? || s.ChainTo?) && StmtOk(s, true)
    ensures Flows(SimpleCode(s, lines), 0, 0)
  {
    hide Flows, Plug, ExprCode, ExprOk, Uppercase;
    match s
    case Dim(v, e) => ValueFlows(e, WithStr(DimArray, Uppercase(v)));
    case MatFill(a, e) => ValueFlows(e, WithStr(MatInit, Uppercase(a)));
    case Release(f, e) => ValueFlows(e, WithStr(ReleaseRec, Uppercase(f)));
    case ChainTo(e) => ValueFlows(e, Plain(Chain));
  }

  lemma OtherFlows(s: Stmt, lines: LineMap)
    requires (s.LetArray? || s.Clear? || s.Close? || s.MatAssign?) && StmtOk(s, true)
    ensures Flows(SimpleCode(s, lines), 0, 0)
  {
    hide Flows, Plug, ExprCode, ExprOk, Uppercase, CoerceCode;
    match s
    case LetArray(v, i, e) =>
      ExprFlows(e, false, 0);
      StoreFlows(v, 0);
      FlowsAppend(ExprCode(e, false), CoerceCode(v), 0, 1, 1);
      ExprFlows(i, false, 1);
      FlowsAppend(ExprCode(e, false) + CoerceCode(v), ExprCode(i, false), 0, 1, 2);
      CellStorePlug(Uppercase(v));
      PlugThen(ExprCode(e, false) + CoerceCode(v) + ExprCode(i, false), WithStr(StoreArr, Uppercase(v)), 2, 0, 0, 2);
    case Clear => ActFlows(Plain(ClearVars));
    case Close(f) => ActFlows(WithStr(CloseFile, Uppercase(f)));
    case MatAssign(a, src) => ActFlows(WithStr(MatCopy, Uppercase(a) + "|" + Uppercase(src)));
  }

  lemma ActFlows(ins: Instruction)
    requires ins.op.PrintEol? || ins.op.ClearVars? || (ins.operand.StrV? && (ins.op.CloseFile? || ins.op.MatCopy?))
    ensures Flows([ins], 0, 0)
  {
    hide Flows, Plug;
    ActPlug(ins);
    PlugOne(ins, 0, 0, 0);
  }

  lemma LoopFlows(s: Stmt, lines: LineMap)
    requires s.For? && StmtOk(s, true)
    ensures var n := |SimpleCode(s, lines)| - 1;
            n >= 0 && SimpleCode(s, lines) == SimpleCode(s, lines)[..n] + [WithStr(ForSetup, Uppercase(s.variable))] &&
            Flows(SimpleCode(s, lines)[..n], 0, 2)
  {
    hide Flows, Plug, ExprCode, ExprOk, OptCode, OptOk, Uppercase, StoreCode;
    var For(v, init, limit, step) := s;
    var ci, cs, cl, cp := ExprCode(init, false), StoreCode(v), ExprCode(limit, false), OptCode(step, [WithInt(PushInt, 1)]);
    ExprFlows(init, false, 0);
    StoreFlows(v, 0);
    FlowsAppend(ci, cs, 0, 1, 0);
    ExprFlows(limit, false, 0);
    FlowsAppend(ci + cs, cl, 0, 0, 1);
    OptFlows(step, 1, 1);
    FlowsAppend(ci + cs + cl, cp, 0, 1, 2);
    var all := SimpleCode(s, lines);
    assert all[..|all| - 1] == ci + cs + cl + cp;
  }

  /** Straight-line code followed by one control instruction. */
  lemma PrefixTyped(code: seq<Instruction>, depth: seq<nat>, at: nat, a: seq<Instruction>, d: nat, e: nat, last: Instruction)
    requires |depth| == |code| + 1 && At(code, at, a + [last]) && Flows(a, d, e)
    requires AtDepth(depth, at, Depths(a, d) + [e])
    ensures TypedRange(code, depth, at, at + |a|) && depth[at] == d
    ensures at + |a| < |code| && code[at + |a|] == last && depth[at + |a|] == e
  {
    hide Flows, Typed;
    AtSplit(code, at, a, [last]);
    AtOne(code, at + |a|, last);
    AtDepthSplit(depth, at, Depths(a, d), [e]);
    assert depth[at + |a|] == depth[at + |a|..at + |a| + 1][0] == e;
    StraightTyped(code, depth, at, a, d, e);
  }

  lemma SimpleTyped(s: Stmt, code: seq<Instruction>, depth: seq<nat>, lines: LineMap, known: set<int>, at: nat)
    requires IsSimple(s) && StmtOk(s, true) && TargetsKnown(s, known) && Frame(code, depth, lines, known)
    requires At(code, at, SimpleCode(s, lines)) && AtDepth(depth, at, Depths(SimpleCode(s, lines), 0))
    requires depth[at + |SimpleCode(s, lines)|] == 0
    ensures TypedRange(code, depth, at, at + |SimpleCode(s, lines)|) && depth[at] == 0
  {
    hide Flows, SimpleCode, ExprOk, Typed;
    if IsStraight(s) || s.ChainTo? {
      StatementFlows(s, lines);
      StraightTyped(code, depth, at, SimpleCode(s, lines), 0, 0);
    } else if s.For? {
      LoopTyped(s, code, depth, lines, at);
    } else {
      JumpTyped(s, code, depth, lines, known, at);
    }
  }

  lemma LoopTyped(s: Stmt, code: seq<Instruction>, depth: seq<nat>, lines: LineMap, at: nat)
    requires s.For? && StmtOk(s, true) && |depth| == |code| + 1
    requires At(code, at, SimpleCode(s, lines)) && AtDepth(depth, at, Depths(SimpleCode(s, lines), 0))
    requires depth[at + |SimpleCode(s, lines)|] == 0
    ensures TypedRange(code, depth, at, at + |SimpleCode(s, lines)|) && depth[at] == 0
  {
    hide Flows, SimpleCode, ExprOk, Uppercase, Pops, Pushes;
    LoopFlows(s, lines);
    var all := SimpleCode(s, lines);
    var a, last := all[..|all| - 1], WithStr(ForSetup, Uppercase(s.variable));
    DepthsAppend(a, [last], 0, 2);
    assert Depths([last], 2) == [2];
    PrefixTyped(code, depth, at, a, 0, 2, last);
    assert Typed(code, depth, at + |a|);
  }

  lemma JumpTyped(s: Stmt, code: seq<Instruction>, depth: seq<nat>, lines: LineMap, known: set<int>, at: nat)
    requires s.Goto? || s.Gosub? || s.ReturnStmt? || s.Next? || s.Rem? || s.Stop? || s.End? || s.OnError?
    requires StmtOk(s, true) && TargetsKnown(s, known) && Frame(code, depth, lines, known)
    requires At(code, at, SimpleCode(s, lines)) && AtDepth(depth, at, Depths(SimpleCode(s, lines), 0))
    requires depth[at + |SimpleCode(s, lines)|] == 0
    ensures TypedRange(code, depth, at, at + |SimpleCode(s, lines)|) && depth[at] == 0
  {
    hide ExprOk, ExprCode, Uppercase, StoreCode, OptCode, CoerceCode, Typed, Depths;
    if !s.Rem? {
      var ins := SimpleCode(s, lines)[0];
      assert SimpleCode(s, lines) == [ins];
      AtOne(code, at, ins);
      OneDepth(ins, 0);
      assert depth[at] == depth[at..at + 1][0] == 0;
      ControlTyped(code, depth, at, ins);
    }
  }

  lemma OneDepth(ins: Instruction, d: nat)
    ensures Depths([ins], d) == [d]
  {
    hide Next;
    assert [ins][1..] == [];
    assert [d] + [] == [d];
  }

  /** A control instruction between base addresses. */
  lemma ControlTyped(code: seq<Instruction>, depth: seq<nat>, at: nat, ins: Instruction)
    requires |depth| == |code| + 1 && at < |code| && code[at] == ins
    requires Base(depth, at) && Base(depth, |code|) && Base(depth, at + 1)
    requires ins.op.Halt? || ins.op.Return? || (ins.op.ForNext? && ins.operand.StrV?) ||
             ((ins.op.Jump? || ins.op.Call? || ins.op.SetOnErrorHandler?) && ins.operand.IntV? && Base(depth, ins.operand.i))
    ensures Typed(code, depth, at)
  {
    hide Pops, Pushes;
  }

  // ---------------------------------------------------------------------------------------------
  // Compound statements
  // ---------------------------------------------------------------------------------------------

  /** JUMP between addresses of empty stack, here ending a THEN arm or a successful file operation. */
  lemma SkipTyped(code: seq<Instruction>, depth: seq<nat>, at: nat, target: nat)
    requires |depth| == |code| + 1 && at < |code| && code[at] == WithInt(Jump, target)
    requires Base(depth, at) && Base(depth, target)
    ensures Typed(code, depth, at)
  {
    hide Pops, Pushes;
  }

  lemma BranchTyped(code: seq<Instruction>, depth: seq<nat>, at: nat, target: nat)
    requires |depth| == |code| + 1 && at < |code| && code[at] == WithInt(JumpIfZero, target)
    requires depth[at] >= 1 && target < |depth| && depth[target] == depth[at] - 1 && depth[at + 1] == depth[at] - 1
    ensures Typed(code, depth, at)
  {
    hide Pops, Pushes;
  }

  lemma {:induction false} ArmTyped(a: BranchArm, code: seq<Instruction>, depth: seq<nat>, lines: LineMap, known: set<int>, at: nat)
    requires ArmOk(a) && ArmTargetsKnown(a, known) && Frame(code, depth, lines, known)
    requires At(code, at, ArmCode(a, at, lines)) && AtDepth(depth, at, ArmDepth(a, at, lines))
    requires depth[at + |ArmCode(a, at, lines)|] == 0
    ensures TypedRange(code, depth, at, at + |ArmCode(a, at, lines)|) && depth[at] == 0
    decreases a, 0
  {
    hide Typed, StmtCode, StmtDepth, StmtOk, TargetsKnown;
    match a
    case LineArm(n) =>
      AtOne(code, at, WithInt(Jump, Address(lines, n)));
      assert depth[at] == depth[at..at + 1][0] == 0;
      SkipTyped(code, depth, at, Address(lines, n));
    case InlineArm(s) =>
      StmtTyped(s, false, code, depth, lines, known, at);
  }

  lemma JoinRanges(code: seq<Instruction>, depth: seq<nat>, a: nat, b: nat, c: nat)
    requires |depth| == |code| + 1 && a <= b <= c <= |code|
    requires TypedRange(code, depth, a, b) && TypedRange(code, depth, b, c)
    ensures TypedRange(code, depth, a, c)
  {
    hide Typed;
  }

  /** The condition of IF up to and including its branch. */
  lemma ConditionTyped(c: Expr, code: seq<Instruction>, depth: seq<nat>, at: nat, target: nat)
    requires ExprOk(c, false) && |depth| == |code| + 1
    requires At(code, at, ExprCode(c, false) + [WithInt(JumpIfZero, target)]) && AtDepth(depth, at, Depths(ExprCode(c, false), 0) + [1])
    requires Base(depth, target) && Base(depth, at + |ExprCode(c, false)| + 1)
    ensures TypedRange(code, depth, at, at + |ExprCode(c, false)| + 1) && depth[at] == 0
  {
    hide Typed, ExprCode, ExprOk, Flows, Depths;
    var cond := ExprCode(c, false);
    ExprFlows(c, false, 0);
    PrefixTyped(code, depth, at, cond, 0, 1, WithInt(JumpIfZero, target));
    BranchTyped(code, depth, at + |cond|, target);
  }

  /** Splits the code and the depths of an IF with two arms. */
  lemma TwoArmsInPlace(s: Stmt, code: seq<Instruction>, depth: seq<nat>, lines: LineMap, at: nat, jump: seq<Instruction>, jumpDepth: seq<nat>)
    requires s.If? && StmtOk(s, false) && s.elseArm.Some?
    requires At(code, at, IfCode(s, at, lines)) && AtDepth(depth, at, IfDepth(s, at, lines))
    requires jump == (if s.thenArm.LineArm? then [] else [WithInt(Jump, at + |IfCode(s, at, lines)|)])
    requires jumpDepth == (if s.thenArm.LineArm? then [] else [0])
    ensures var thenAt := at + |ExprCode(s.condition, false)| + 1;
            var mid := thenAt + |ArmCode(s.thenArm, thenAt, lines)|;
            var elseAt := mid + |jump|;
            && At(code, at, ExprCode(s.condition, false) + [WithInt(JumpIfZero, elseAt)])
            && AtDepth(depth, at, Depths(ExprCode(s.condition, false), 0) + [1])
            && At(code, thenAt, ArmCode(s.thenArm, thenAt, lines)) && AtDepth(depth, thenAt, ArmDepth(s.thenArm, thenAt, lines))
            && At(code, mid, jump) && AtDepth(depth, mid, jumpDepth)
            && At(code, elseAt, ArmCode(s.elseArm.value, elseAt, lines)) && AtDepth(depth, elseAt, ArmDepth(s.elseArm.value, elseAt, lines))
            && at + |IfCode(s, at, lines)| == elseAt + |ArmCode(s.elseArm.value, elseAt, lines)|
  {
    hide ExprOk, ExprCode, ArmCode, ArmDepth, Depths, At, AtDepth, ArmOk;
    var cond := ExprCode(s.condition, false);
    var cd := Depths(cond, 0) + [1];
    var thenAt := at + |cond| + 1;
    var thenCode, thenDepth := ArmCode(s.thenArm, thenAt, lines), ArmDepth(s.thenArm, thenAt, lines);
    ArmDepthSize(s.thenArm, thenAt, lines);
    var elseAt := thenAt + |thenCode| + |jump|;
    var elseCode, elseDepth := ArmCode(s.elseArm.value, elseAt, lines), ArmDepth(s.elseArm.value, elseAt, lines);
    AtSplit(code, at, cond + [WithInt(JumpIfZero, elseAt)] + thenCode + jump, elseCode);
    AtSplit3(code, at, cond + [WithInt(JumpIfZero, elseAt)], thenCode, jump);
    AtDepthSplit(depth, at, cd + thenDepth + jumpDepth, elseDepth);
    AtDepthSplit(depth, at, cd + thenDepth, jumpDepth);
    AtDepthSplit(depth, at, cd, thenDepth);
  }

  lemma {:induction false} OneArmTyped(s: Stmt, code: seq<Instruction>, depth: seq<nat>, lines: LineMap, known: set<int>, at: nat)
    requires s.If? && StmtOk(s, false) && TargetsKnown(s, known) && Frame(code, depth, lines, known) && s.elseArm.None?
    requires At(code, at, IfCode(s, at, lines)) && AtDepth(depth, at, IfDepth(s, at, lines))
    requires depth[at + |IfCode(s, at, lines)|] == 0
    ensures TypedRange(code, depth, at, at + |IfCode(s, at, lines)|) && depth[at] == 0
    decreases s, 0
  {
    hide Typed, ExprOk, ExprCode, ArmCode, ArmDepth, Flows, Depths, At, AtDepth, ArmOk, ArmTargetsKnown, TypedRange, Frame;
    FrameSize(code, depth, lines, known);
    var cond := ExprCode(s.condition, false);
    var cd := Depths(cond, 0) + [1];
    var thenAt := at + |cond| + 1;
    var thenCode, thenDepth := ArmCode(s.thenArm, thenAt, lines), ArmDepth(s.thenArm, thenAt, lines);
    var end := at + |IfCode(s, at, lines)|;
    AtInside(code, at, IfCode(s, at, lines));
    AtSplit(code, at, cond + [WithInt(JumpIfZero, end)], thenCode);
    AtDepthSplit(depth, at, cd, thenDepth);
    ArmTyped(s.thenArm, code, depth, lines, known, thenAt);
    ConditionTyped(s.condition, code, depth, at, end);
    JoinRanges(code, depth, at, thenAt, end);
  }

  lemma {:induction false} TwoArmsTyped(s: Stmt, code: seq<Instruction>, depth: seq<nat>, lines: LineMap, known: set<int>, at: nat)
    requires s.If? && StmtOk(s, false) && TargetsKnown(s, known) && Frame(code, depth, lines, known) && s.elseArm.Some?
    requires At(code, at, IfCode(s, at, lines)) && AtDepth(depth, at, IfDepth(s, at, lines))
    requires depth[at + |IfCode(s, at, lines)|] == 0
    ensures TypedRange(code, depth, at, at + |IfCode(s, at, lines)|) && depth[at] == 0
    decreases s, 0
  {
    hide Typed, ExprOk, ExprCode, ArmCode, ArmDepth, Flows, Depths, At, AtDepth, ArmOk, ArmTargetsKnown, TypedRange, Frame, IfCode, IfDepth;
    FrameSize(code, depth, lines, known);
    var end := at + |IfCode(s, at, lines)|;
    var jump := if s.thenArm.LineArm? then [] else [WithInt(Jump, end)];
    var jumpDepth: seq<nat> := if s.thenArm.LineArm? then [] else [0];
    TwoArmsInPlace(s, code, depth, lines, at, jump, jumpDepth);
    var thenAt := at + |ExprCode(s.condition, false)| + 1;
    var mid := thenAt + |ArmCode(s.thenArm, thenAt, lines)|;
    var elseAt := mid + |jump|;
    AtInside(code, at, IfCode(s, at, lines));
    ArmTyped(s.elseArm.value, code, depth, lines, known, elseAt);
    JumpPart(code, depth, mid, jump, jumpDepth, end);
    ArmTyped(s.thenArm, code, depth, lines, known, thenAt);
    ConditionTyped(s.condition, code, depth, at, elseAt);
    JoinRanges(code, depth, at, thenAt, mid);
    JoinRanges(code, depth, at, mid, elseAt);
    JoinRanges(code, depth, at, elseAt, end);
  }

  lemma FrameSize(code: seq<Instruction>, depth: seq<nat>, lines: LineMap, known: set<int>)
    requires Frame(code, depth, lines, known)
    ensures |depth| == |code| + 1 && Base(depth, |code|) && Base(depth, 0)
  {
  }

  /** The jump over an ELSE arm, when there is one. */
  lemma JumpPart(code: seq<Instruction>, depth: seq<nat>, at: nat, jump: seq<Instruction>, jumpDepth: seq<nat>, target: nat)
    requires |depth| == |code| + 1 && At(code, at, jump) && AtDepth(depth, at, jumpDepth) && Base(depth, target)
    requires (jump == [] && jumpDepth == [] && Base(depth, at)) || (jump == [WithInt(Jump, target)] && jumpDepth == [0])
    ensures TypedRange(code, depth, at, at + |jump|) && Base(depth, at)
  {
    hide Typed;
    if jump != [] {
      AtOne(code, at, jump[0]);
      assert depth[at] == depth[at..at + 1][0] == 0;
      SkipTyped(code, depth, at, target);
    }
  }

  /** A trying file opcode and its flag test. */
  lemma TestTyped(code: seq<Instruction>, depth: seq<nat>, at: nat, op: OpCode, fileVar: string, miss: nat, k: nat)
    requires |depth| == |code| + 1 && IoOf(op).Some? && IsTry(op) && k == (if Reads(IoOf(op).value) then 1 else 0)
    requires At(code, at, [WithStr(op, fileVar), WithInt(JumpIfZero, miss)]) && AtDepth(depth, at, [IoArity(IoOf(op).value), k + 1])
    requires miss < |depth| && depth[miss] == k && depth[at + 2] == k
    ensures TypedRange(code, depth, at, at + 2) && depth[at] == IoArity(IoOf(op).value)
  {
    var ins, n := WithStr(op, fileVar), IoArity(IoOf(op).value);
    assert code[at] == code[at..at + 2][0] == ins;
    assert code[at + 1] == code[at..at + 2][1] == WithInt(JumpIfZero, miss);
    assert depth[at] == depth[at..at + 2][0] == n;
    assert depth[at + 1] == depth[at..at + 2][1] == k + 1;
    TryCounts(op, fileVar);
    TypedData(code, depth, at);
    BranchTyped(code, depth, at + 1, miss);
    hide Typed;
  }

  lemma TryCounts(op: OpCode, fileVar: string)
    requires IoOf(op).Some?
    ensures var ins := WithStr(op, fileVar);
            IsData(op) && OperandFits(ins) && Pops(ins) == IoArity(IoOf(op).value) &&
            Pushes(ins) == (if Reads(IoOf(op).value) then 1 else 0) + (if IsTry(op) then 1 else 0)
    ensures MayClash(op) <==> !IsTry(op)
  {
  }

  lemma TypedData(code: seq<Instruction>, depth: seq<nat>, i: nat)
    requires |depth| == |code| + 1 && i < |code| && IsData(code[i].op) && OperandFits(code[i]) && depth[i] >= Pops(code[i])
    requires depth[i + 1] == depth[i] - Pops(code[i]) + Pushes(code[i]) && (MayClash(code[i].op) ==> depth[i] == Pops(code[i]))
    ensures Typed(code, depth, i)
  {
    hide Pops, Pushes, IsData, OperandFits, MayClash, Taken;
    DataTakes(code[i]);
  }

  lemma SinkFlows(sink: Sink)
    ensures Flows(SinkCode(sink), ReadCount(sink), 0) && Flows(DropCode(sink), ReadCount(sink), 0)
  {
    hide Flows, Plug, Uppercase;
    if sink.NoSink? {
      FlowsNone(0);
    } else {
      UsePlug(SinkCode(sink)[0]);
      UsePlug(Plain(Drop));
      PlugOne(SinkCode(sink)[0], 1, 0, 1);
      PlugOne(Plain(Drop), 1, 0, 1);
    }
  }

  lemma NoElseFlows(s: Stmt, top: bool, at: nat, lines: LineMap)
    requires IsFile(s) && StmtOk(s, top) && s.elseArm.None?
    ensures Flows(FileCode(s, top, at, lines), 0, 0)
  {
    hide Flows, FileArgs, FileArgsCode, FileArgOk, FileOp, FileSink, SinkCode, Uppercase, ExprOk, IsTry, IoOf, IsData, OperandFits, Pops, Pushes, Reads;
    FileShape(s, top);
    FileIoIs(s);
    var args, ins := FileArgsCode(s.fileVar, FileArgs(s, top)), WithStr(FileOp(s), Uppercase(s.fileVar));
    var n := |FileArgs(s, top)|;
    FileArgsFlows(s.fileVar, FileArgs(s, top), 0);
    TryCounts(FileOp(s), Uppercase(s.fileVar));
    FlowsThen(args, ins, 0, n);
    SinkFlows(FileSink(s));
    FlowsAppend(args + [ins], SinkCode(FileSink(s)), 0, ReadCount(FileSink(s)), 0);
  }

  /** Splits the depths of a file statement with an ELSE arm. */
  lemma TryDepthInPlace(s: Stmt, top: bool, depth: seq<nat>, lines: LineMap, at: nat)
    requires IsFile(s) && StmtOk(s, top) && s.elseArm.Some? && AtDepth(depth, at, TryDepth(s, top, at, lines))
    ensures var args, sink := FileArgsCode(s.fileVar, FileArgs(s, top)), FileSink(s);
            var cs, cd, k := SinkCode(sink), DropCode(sink), ReadCount(sink);
            var miss := at + |args| + 3 + |cs|;
            && AtDepth(depth, at, Depths(args, 0))
            && AtDepth(depth, at + |args|, [IoArity(FileIo(s)), k + 1])
            && AtDepth(depth, at + |args| + 2, Depths(cs, k))
            && AtDepth(depth, miss - 1, [0])
            && AtDepth(depth, miss, Depths(cd, k))
            && AtDepth(depth, miss + |cd|, ArmDepth(s.elseArm.value, miss + |cd|, lines))
  {
    hide ExprOk, ArmCode, ArmDepth, Depths, AtDepth, ArmOk, FileArgs, FileArgsCode, FileArgOk,
         FileOp, FileSink, FileIo, SinkCode, DropCode, ReadCount, IoArity;
    var args, sink := FileArgsCode(s.fileVar, FileArgs(s, top)), FileSink(s);
    var cs, cd, k := SinkCode(sink), DropCode(sink), ReadCount(sink);
    var armAt := at + |args| + 3 + |cs| + |cd|;
    var d0, d1, d2, d3 := Depths(args, 0), [IoArity(FileIo(s)), k + 1], Depths(cs, k), Depths(cd, k);
    AtDepthSplit(depth, at, d0 + d1 + d2 + [0] + d3, ArmDepth(s.elseArm.value, armAt, lines));
    AtDepthSplit(depth, at, d0 + d1 + d2 + [0], d3);
    AtDepthSplit(depth, at, d0 + d1 + d2, [0]);
    AtDepthSplit(depth, at, d0 + d1, d2);
    AtDepthSplit(depth, at, d0, d1);
  }

  lemma {:induction false} TryTyped(s: Stmt, top: bool, code: seq<Instruction>, depth: seq<nat>, lines: LineMap, known: set<int>, at: nat)
    requires IsFile(s) && StmtOk(s, top) && s.elseArm.Some? && TargetsKnown(s, known) && Frame(code, depth, lines, known)
    requires At(code, at, FileCode(s, top, at, lines)) && AtDepth(depth, at, TryDepth(s, top, at, lines))
    requires depth[at + |FileCode(s, top, at, lines)|] == 0
    ensures TypedRange(code, depth, at, at + |FileCode(s, top, at, lines)|) && depth[at] == 0
    decreases s, 0
  {
    hide Typed, ExprOk, ArmCode, ArmDepth, Flows, Depths, At, AtDepth, ArmOk, ArmTargetsKnown, TypedRange, Frame, FileArgs, FileArgsCode, FileArgOk,
         FileOp, TryOp, FileSink, FileIo, SinkCode, DropCode, ReadCount, Uppercase, FileCode, IsTry, IoOf, Reads, IoArity, TryDepth;
    FrameSize(code, depth, lines, known);
    TryLayout(s, top, code, lines, at);
    FileShape(s, top);
    FileIoIs(s);
    var args, sink := FileArgsCode(s.fileVar, FileArgs(s, top)), FileSink(s);
    var cs, cd, k := SinkCode(sink), DropCode(sink), ReadCount(sink);
    var miss := at + |args| + 3 + |cs|;
    var armAt := miss + |cd|;
    var end := at + |FileCode(s, top, at, lines)|;
    var arm := s.elseArm.value;
    AtInside(code, at, FileCode(s, top, at, lines));
    ArmDepthSize(arm, armAt, lines);
    TryDepthInPlace(s, top, depth, lines, at);
    SinkFlows(sink);
    ArmTyped(arm, code, depth, lines, known, armAt);
    StraightTyped(code, depth, miss, cd, k, 0);
    AtFromOne(code, miss - 1, WithInt(Jump, end));
    JumpPart(code, depth, miss - 1, [WithInt(Jump, end)], [0], end);
    StraightTyped(code, depth, at + |args| + 2, cs, k, 0);
    ReadCountIs(s);
    TestTyped(code, depth, at + |args|, TryOp(FileOp(s)), Uppercase(s.fileVar), miss, k);
    FileArgsFlows(s.fileVar, FileArgs(s, top), 0);
    StraightTyped(code, depth, at, args, 0, IoArity(FileIo(s)));
    JoinRanges(code, depth, at, at + |args|, at + |args| + 2);
    JoinRanges(code, depth, at, at + |args| + 2, miss - 1);
    JoinRanges(code, depth, at, miss - 1, miss);
    JoinRanges(code, depth, at, miss, armAt);
    JoinRanges(code, depth, at, armAt, end);
  }

  lemma AtFromOne(code: seq<Instruction>, at: nat, i: Instruction)
    requires at < |code| && code[at] == i
    ensures At(code, at, [i])
  {
    assert code[at..at + 1] == [i];
  }

  lemma ReadCountIs(s: Stmt)
    requires IsFile(s)
    ensures ReadCount(FileSink(s)) == if Reads(FileIo(s)) then 1 else 0
  {
    hide FileOp, FileSink, FileIo, Reads, IoOf;
    FileShape(s, true);
  }

  /** Every statement respects its depths. */
  lemma {:induction false} StmtTyped(s: Stmt, top: bool, code: seq<Instruction>, depth: seq<nat>, lines: LineMap, known: set<int>, at: nat)
    requires StmtOk(s, top) && TargetsKnown(s, known) && Frame(code, depth, lines, known)
    requires At(code, at, StmtCode(s, top, at, lines)) && AtDepth(depth, at, StmtDepth(s, top, at, lines))
    requires depth[at + |StmtCode(s, top, at, lines)|] == 0
    ensures TypedRange(code, depth, at, at + |StmtCode(s, top, at, lines)|) && depth[at] == 0
    decreases s, 1
  {
    hide Typed, TypedRange, At, AtDepth, Frame, FileCode, IfCode, SimpleCode, TryDepth, IfDepth, Depths, ExprOk, FileArgs, FileArgOk, ArmTargetsKnown, Flows;
    if IsFile(s) {
      if s.elseArm.Some? {
        TryTyped(s, top, code, depth, lines, known, at);
      } else {
        NoElseFlows(s, top, at, lines);
        FrameSize(code, depth, lines, known);
        StraightTyped(code, depth, at, FileCode(s, top, at, lines), 0, 0);
      }
    } else if s.If? {
      if s.elseArm.None? {
        OneArmTyped(s, code, depth, lines, known, at);
      } else {
        TwoArmsTyped(s, code, depth, lines, known, at);
      }
    } else {
      SimpleTyped(s, code, depth, lines, known, at);
    }
  }

  // ---------------------------------------------------------------------------------------------
  // Whole programs and whole runs
  // ---------------------------------------------------------------------------------------------

  lemma FirstDepth(part: seq<Instruction>, d: nat, e: nat, rest: seq<nat>)
    requires Flows(part, d, e)
    ensures (Depths(part, d) + [e] + rest)[0] == d
  {
    hide IsData, OperandFits, Pops, Pushes, MayClash, Next;
  }

  /** A statement with code starts on an empty stack. */
  lemma StmtStartsEmpty(s: Stmt, at: nat, lines: LineMap)
    requires StmtOk(s, true) && StmtCode(s, true, at, lines) != []
    ensures StmtDepth(s, true, at, lines) != [] && StmtDepth(s, true, at, lines)[0] == 0
  {
    hide StmtCode, ExprOk, TryDepth, IfDepth, FileArgs, FileArgOk, Next;
    DepthSize(s, true, at, lines);
    if IsFile(s) && s.elseArm.Some? {
      TryStartsEmpty(s, at, lines);
    } else if s.If? {
      IfStartsEmpty(s, at, lines);
    }
  }

  lemma TryStartsEmpty(s: Stmt, at: nat, lines: LineMap)
    requires IsFile(s) && StmtOk(s, true) && s.elseArm.Some?
    ensures |TryDepth(s, true, at, lines)| > 0 && TryDepth(s, true, at, lines)[0] == 0
  {
    hide ExprOk, ArmDepth, Flows, Depths, ArmOk, FileArgs, FileArgsCode, FileArgOk, FileOp, FileSink, FileIo, SinkCode, DropCode,
         ReadCount, IoArity;
    FileShape(s, true);
    FileIoIs(s);
    var args := FileArgsCode(s.fileVar, FileArgs(s, true));
    var n, k := |FileArgs(s, true)|, ReadCount(FileSink(s));
    FileArgsFlows(s.fileVar, FileArgs(s, true), 0);
    FirstDepth(args, 0, n, []);
    assert [n, k + 1] == [n] + [k + 1];
    assert (Depths(args, 0) + [n] + [])[0] == (Depths(args, 0) + [n, k + 1])[0];
  }

  lemma IfStartsEmpty(s: Stmt, at: nat, lines: LineMap)
    requires s.If? && StmtOk(s, false)
    ensures |IfDepth(s, at, lines)| > 0 && IfDepth(s, at, lines)[0] == 0
  {
    hide ExprOk, ExprCode, ArmCode, ArmDepth, Flows, Depths, ArmOk;
    ExprFlows(s.condition, false, 0);
    FirstDepth(ExprCode(s.condition, false), 0, 1, []);
    assert (Depths(ExprCode(s.condition, false), 0) + [1])[0] == 0;
  }

  function BodyDepth(p: Program, k: nat, lines: LineMap): seq<nat>
    requires k <= |p| && Compilable(p)
  {
    if k == 0 then []
    else BodyDepth(p, k - 1, lines) + StmtDepth(p[k - 1].stmt, true, Start(p, k - 1), lines)
  }

  /** Operand depth at every address of the compiled program and at its end. */
  function ProgramDepth(p: Program): seq<nat>
    requires Compilable(p)
  {
    var lines := LineTable(p, |p|);
    BodyDepth(p, |p|, lines) + (if NeedsHalt(p, BodyCode(p, |p|, lines)) then [0] else []) + [0]
  }

  lemma {:induction false} BodyDepthSize(p: Program, k: nat, lines: LineMap)
    requires k <= |p| && Compilable(p)
    ensures |BodyDepth(p, k, lines)| == Start(p, k)
  {
    hide StmtDepth, LineOk, StmtCode, LineSize;
    if k > 0 {
      BodyDepthSize(p, k - 1, lines);
      LineDepthSize(p[k - 1], Start(p, k - 1), lines);
    }
  }

  lemma LineDepthSize(l: Line, at: nat, lines: LineMap)
    requires LineOk(l)
    ensures |StmtDepth(l.stmt, true, at, lines)| == LineSize(l) == |StmtCode(l.stmt, true, at, lines)|
  {
    hide StmtDepth, StmtCode, StmtOk;
    SameSize(l, at, lines);
    DepthSize(l.stmt, true, at, lines);
  }

  lemma {:induction false} BodyDepthPrefix(p: Program, j: nat, k: nat, lines: LineMap)
    requires j <= k <= |p| && Compilable(p)
    ensures Start(p, j) <= Start(p, k) == |BodyDepth(p, k, lines)| && BodyDepth(p, k, lines)[..Start(p, j)] == BodyDepth(p, j, lines)
    decreases k
  {
    hide StmtDepth, StmtOk, LineSize, Start;
    BodyDepthSize(p, k, lines);
    BodyDepthSize(p, j, lines);
    if j < k {
      BodyDepthPrefix(p, j, k - 1, lines);
      BodyPrefix(p, k - 1, k, lines);
      var last := StmtDepth(p[k - 1].stmt, true, Start(p, k - 1), lines);
      assert (BodyDepth(p, k - 1, lines) + last)[..Start(p, j)] == BodyDepth(p, k - 1, lines)[..Start(p, j)];
    } else {
      assert BodyDepth(p, k, lines)[..Start(p, k)] == BodyDepth(p, k, lines);
    }
  }

  /** The depths of line `k` stand at its start address. */
  lemma LineDepthInPlace(p: Program, k: nat)
    requires k < |p| && Compilable(p)
    ensures var lines := LineTable(p, |p|);
            AtDepth(ProgramDepth(p), Start(p, k), StmtDepth(p[k].stmt, true, Start(p, k), lines)) &&
            Start(p, k + 1) == Start(p, k) + |StmtDepth(p[k].stmt, true, Start(p, k), lines)|
  {
    hide StmtDepth, StmtOk, NeedsHalt, LineSize, StmtCode;
    var lines := LineTable(p, |p|);
    BodyDepthPrefix(p, k + 1, |p|, lines);
    BodyDepthPrefix(p, k, k + 1, lines);
    LineDepthSize(p[k], Start(p, k), lines);
    var a, b := Start(p, k), Start(p, k + 1);
    var body := BodyDepth(p, |p|, lines);
    assert body[a..b] == body[..b][a..];
    assert BodyDepth(p, k + 1, lines)[a..] == StmtDepth(p[k].stmt, true, a, lines);
    assert ProgramDepth(p)[a..b] == body[a..b];
  }

  lemma DepthCount(p: Program)
    requires Compilable(p)
    ensures |ProgramDepth(p)| == |Compile(p)| + 1
    ensures Start(p, |p|) <= |Compile(p)| <= Start(p, |p|) + 1
    ensures ProgramDepth(p)[Start(p, |p|)] == 0 && ProgramDepth(p)[|Compile(p)|] == 0
    ensures |Compile(p)| == Start(p, |p|) + 1 ==> Compile(p)[Start(p, |p|)] == Plain(Halt)
  {
    hide BodyDepth, BodyCode, LineOk, NeedsHalt, LineTable, Start;
    BodyDepthSize(p, |p|, LineTable(p, |p|));
    BodySize(p, |p|, LineTable(p, |p|));
  }

  /** The stack is empty at the first instruction of every line. */
  lemma {:induction false} LinesAreBases(p: Program, k: nat)
    requires k <= |p| && Compilable(p)
    ensures Base(ProgramDepth(p), Start(p, k))
    decreases |p| - k
  {
    hide StmtOk, ProgramDepth, Start, StmtDepth, StmtCode, LineTable, LineSize;
    DepthCount(p);
    if k < |p| {
      LinesAreBases(p, k + 1);
      LineDepthInPlace(p, k);
      var at, lines := Start(p, k), LineTable(p, |p|);
      var ds := StmtDepth(p[k].stmt, true, at, lines);
      if ds != [] {
        LineDepthSize(p[k], at, lines);
        LineStartsEmpty(p[k], at, lines);
        assert ProgramDepth(p)[at] == ProgramDepth(p)[at..at + |ds|][0];
      }
    }
  }

  lemma LineStartsEmpty(l: Line, at: nat, lines: LineMap)
    requires LineOk(l) && StmtCode(l.stmt, true, at, lines) != []
    ensures StmtDepth(l.stmt, true, at, lines) != [] && StmtDepth(l.stmt, true, at, lines)[0] == 0
  {
    hide StmtDepth, StmtCode, StmtOk;
    StmtStartsEmpty(l.stmt, at, lines);
  }

  lemma ProgramFrame(p: Program)
    requires Compilable(p)
    ensures Frame(Compile(p), ProgramDepth(p), LineTable(p, |p|), LineNumbers(p))
  {
    hide LineOk, ProgramDepth, Start, LineTable, Compile, LineNumbers;
    DepthCount(p);
    LinesAreBases(p, 0);
    StartZero(p);
    forall n | n in LineNumbers(p)
      ensures Base(ProgramDepth(p), Address(LineTable(p, |p|), n))
    {
      AddressOf(p, n);
      LinesAreBases(p, GoesTo(p, n));
    }
  }

  lemma StartZero(p: Program)
    requires Compilable(p)
    ensures Start(p, 0) == 0
  {
    hide LineOk;
  }

  /** Every address below the end of the lines belongs to a line. */
  lemma {:induction false} LineAround(p: Program, i: nat, k: nat) returns (j: nat)
    requires k <= |p| && Compilable(p) && i < Start(p, k)
    ensures j < k && Start(p, j) <= i < Start(p, j + 1)
    decreases k
  {
    hide LineOk, LineSize;
    if i >= Start(p, k - 1) {
      j := k - 1;
    } else {
      j := LineAround(p, i, k - 1);
    }
  }

  lemma LineTyped(p: Program, k: nat)
    requires k < |p| && Compilable(p) && Analyzed(p)
    ensures |ProgramDepth(p)| == |Compile(p)| + 1 && Start(p, k + 1) <= |Compile(p)|
    ensures TypedRange(Compile(p), ProgramDepth(p), Start(p, k), Start(p, k + 1))
  {
    hide StmtOk, ProgramDepth, Start, LineTable, Compile, LineNumbers, TargetsKnown, StmtDepth, StmtCode, Frame, TypedRange, AtDepth, At;
    ProgramFrame(p);
    FrameSize(Compile(p), ProgramDepth(p), LineTable(p, |p|), LineNumbers(p));
    LineInPlace(p, k);
    AtInside(Compile(p), Start(p, k), StmtCode(p[k].stmt, true, Start(p, k), LineTable(p, |p|)));
    LineDepthInPlace(p, k);
    LinesAreBases(p, k + 1);
    StmtTyped(p[k].stmt, true, Compile(p), ProgramDepth(p), LineTable(p, |p|), LineNumbers(p), Start(p, k));
  }

  /** Every compiled program respects its depths. */
  lemma CompiledTyped(p: Program)
    requires Compilable(p) && Analyzed(p)
    ensures WellTyped(Compile(p), ProgramDepth(p))
  {
    hide LineOk, ProgramDepth, Start, Compile, TargetsKnown, Typed;
    var code, depth := Compile(p), ProgramDepth(p);
    DepthCount(p);
    forall i | 0 <= i < |code|
      ensures Typed(code, depth, i)
    {
      if i < Start(p, |p|) {
        var k := LineAround(p, i, |p|);
        LineTyped(p, k);
      } else {
        ControlTyped(code, depth, i, Plain(Halt));
      }
    }
  }

  lemma {:induction false} RunIsSafe(h: Host, code: seq<Instruction>, depth: seq<nat>, m: Vm, n: nat)
    requires WellTyped(code, depth) && Safe(depth, m)
    ensures var o := Exec(h, code, m, n); (o.Running? ==> Safe(depth, o.vm)) && (o.Fault? ==> o.kind == Raised)
    decreases n
  {
    hide Step, WellTyped, Safe;
    if n > 0 {
      StepKeepsSafe(h, code, depth, m);
      var o := Step(h, code, m);
      if o.Running? {
        RunIsSafe(h, code, depth, o.vm, n - 1);
      }
    }
  }

  /** Whole-run safety: after any number of steps of a compiled program nothing has underflowed, the
      operand stack is empty whenever control stands at the first instruction of a line or at the end,
      and the instruction pointer and every remembered address are at most the program's size. */
  lemma RunSafety(h: Host, p: Program, n: nat)
    requires Compilable(p) && Analyzed(p)
    ensures var o := Exec(h, Compile(p), LOADED, n);
            var size := |Compile(p)|;
            && (o.Fault? ==> o.kind == Raised)
            && (o.Running? ==>
                  && o.vm.ip <= size
                  && (forall k | 0 <= k <= |p| :: o.vm.ip == Start(p, k) ==> o.vm.stack == [])
                  && (o.vm.ip == size ==> o.vm.stack == [])
                  && (forall i | 0 <= i < |o.vm.calls| :: o.vm.calls[i] <= size)
                  && (forall i | 0 <= i < |o.vm.fors| :: o.vm.fors[i].body <= size)
                  && (o.vm.onError.Some? ==> 0 < o.vm.onError.value <= size))
  {
    hide Exec, LineOk, Compile, ProgramDepth, Start, TargetsKnown, WellTyped;
    var code, depth := Compile(p), ProgramDepth(p);
    CompiledTyped(p);
    DepthCount(p);
    LinesAreBases(p, 0);
    StartZero(p);
    RunIsSafe(h, code, depth, LOADED, n);
    HandlerPositive(h, code, LOADED, n);
    forall k | 0 <= k <= |p|
      ensures Base(depth, Start(p, k))
    {
      LinesAreBases(p, k);
    }
  }

  /** No run of compiled code ever underflows the operand stack, meets an operand of the wrong kind or
      an opcode outside the model: every failure is one that the BASIC program itself has. */
  lemma OnlyProgramErrors(h: Host, p: Program, n: nat)
    requires Compilable(p) && Analyzed(p)
    ensures var o := Exec(h, Compile(p), LOADED, n); o.Fault? ==> o.kind == Raised
  {
    hide Exec, Compile, LineOk, TargetsKnown;
    RunSafety(h, p, n);
  }

  /** Address 0 is never an error handler: setting it clears the handler. */
  lemma {:induction false} HandlerPositive(h: Host, code: seq<Instruction>, m: Vm, n: nat)
    requires m.onError.Some? ==> m.onError.value > 0
    ensures var o := Exec(h, code, m, n); o.Running? && o.vm.onError.Some? ==> o.vm.onError.value > 0
    decreases n
  {
    hide DataEffect, OperandFits, IsData, Pops;
    if n > 0 {
      var o := Step(h, code, m);
      if o.Running? {
        HandlerPositive(h, code, o.vm, n - 1);
      }
    }
  }
}
