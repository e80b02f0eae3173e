/** Expressions: what they mean, the code they are compiled to, and that the two agree. */
module ExprCompile {
  import opened Bytecode
  import opened BasicAst
  import opened Machine

  // ---------------------------------------------------------------------------------------------
  // Meaning
  // ---------------------------------------------------------------------------------------------

  /** A value, or the failure of evaluation; either way the outside world may have been used. */
  datatype Evaluated = Val(v: Value, env: Env) | Fail(env: Env)

  datatype EvaluatedList = Vals(vs: seq<Value>, env: Env) | FailList(env: Env)

  function ValIf(o: Option<Value>, env: Env): Evaluated {
    if o.Some? then Val(o.value, env) else Fail(env)
  }

  function OpOf(op: BinaryOp): (r: OpCode)
    ensures IsOperator(r)
  {
    match op
    case AddOp => Add
    case SubtractOp => Sub
    case MultiplyOp => Mul
    case DivideOp => Div
    case EqualOp => Eq
    case NotEqualOp => Ne
    case LessThanOp => Lt
    case LessOrEqualOp => Le
    case GreaterThanOp => Gt
    case GreaterOrEqualOp => Ge
  }

  /** Direct evaluation, operands from left to right. */
  function Eval(h: Host, e: Expr, inArith: bool, env: Env): Evaluated
    requires ExprOk(e, inArith)
    decreases e, 1
  {
    match e
    case IntLiteral(n) => Val(IntV(n), env)
    case FloatLiteral(d) => Val(FltV(d), env)
    case StringLiteral(s) => Val(StrV(s), env)
    case DictField(token) => Val(StrV(token), env)
    case Identifier(name) => ValIf(ReadVariable(h, env, Uppercase(name)), env)
    case Negate(x) =>
      (match Eval(h, x, true, env)
       case Fail(env') => Fail(env')
       case Val(v, env') => ValIf(Operate(h, Sub, IntV(0), v), env'))
    case Binary(op, l, r) =>
      (match Eval(h, l, IsArithmetic(op), env)
       case Fail(env') => Fail(env')
       case Val(a, env') =>
         match Eval(h, r, IsArithmetic(op), env')
         case Fail(env'') => Fail(env'')
         case Val(b, env'') => ValIf(Operate(h, OpOf(op), a, b), env''))
    case Grouped(x) => Eval(h, x, inArith, env)
    case Subscript(name, i) =>
      (match Eval(h, i, false, env)
       case Fail(env') => Fail(env')
       case Val(v, env') => ValIf(ReadCell(env', Uppercase(name), h.toInt(v)), env'))
    case AttributeAccess(name, a, vi) =>
      (match ReadVariable(h, env, Uppercase(name))
       case None => Fail(env)
       case Some(rec) =>
         match Eval(h, a, false, env)
         case Fail(env') => Fail(env')
         case Val(attr, env') =>
           match (if vi.Some? then Eval(h, vi.value, false, env') else Val(IntV(0), env'))
           case Fail(env'') => Fail(env'')
           case Val(index, env'') => Val(Extract(h, rec, attr, index), env''))
    case FunctionCall(name, args) =>
      match EvalArgs(h, name, args, 0, env)
      case FailList(env') => Fail(env')
      case Vals(vs, env') =>
        var all := if ThirdArgImplied(name, |args|) then vs + [IntV(1)] else vs;
        var f := BuiltinRef(name, |args|);
        ValIf(h.builtin(env'.log, env'.status, f, all), Log(env', BuiltinCalled(f, all)))
  }

  function EvalArgs(h: Host, name: string, args: seq<Expr>, i: nat, env: Env): (r: EvaluatedList)
    requires ArgsOk(name, args, i)
    ensures r.Vals? ==> |r.vs| == |args|
    decreases args, 0
  {
    if args == [] then Vals([], env)
    else
      match Eval(h, args[0], BuiltinArgInArithmetic(name, i), env)
      case Fail(env') => FailList(env')
      case Val(v, env') =>
        match EvalArgs(h, name, args[1..], i + 1, env')
        case FailList(env'') => FailList(env'')
        case Vals(vs, env'') => Vals([v] + vs, env'')
  }

  // ---------------------------------------------------------------------------------------------
  // Code
  // ---------------------------------------------------------------------------------------------

  function ExprCode(e: Expr, inArith: bool): seq<Instruction>
    requires ExprOk(e, inArith)
    decreases e, 1
  {
    match e
    case IntLiteral(n) => [WithInt(PushInt, n)]
    case FloatLiteral(d) => [Instruction(PushFlt, FltV(d), NO_FUNC)]
    case StringLiteral(s) => [WithStr(PushStr, s)]
    case DictField(token) => [WithStr(PushStr, token)]
    case Identifier(name) => [WithStr(LoadVar, Uppercase(name))]
    case Negate(x) => [WithInt(PushInt, 0)] + ExprCode(x, true) + [Plain(Sub)]
    case Binary(op, l, r) => ExprCode(l, IsArithmetic(op)) + ExprCode(r, IsArithmetic(op)) + [Plain(OpOf(op))]
    case Grouped(x) => ExprCode(x, inArith)
    case Subscript(name, i) => ExprCode(i, false) + [WithStr(LoadArr, Uppercase(name))]
    case AttributeAccess(name, a, vi) =>
      [WithStr(LoadVar, Uppercase(name))] + ExprCode(a, false)
      + (if vi.Some? then ExprCode(vi.value, false) else [WithInt(PushInt, 0)]) + [Plain(ExtractAttr)]
    case FunctionCall(name, args) =>
      ArgsCode(name, args, 0)
      + (if ThirdArgImplied(name, |args|) then [WithInt(PushInt, 1)] else [])
      + [Invoke(BuiltinRef(name, |args|))]
  }

  function ArgsCode(name: string, args: seq<Expr>, i: nat): seq<Instruction>
    requires ArgsOk(name, args, i)
    decreases args, 0
  {
    if args == [] then []
    else ExprCode(args[0], BuiltinArgInArithmetic(name, i)) + ArgsCode(name, args[1..], i + 1)
  }

  // ---------------------------------------------------------------------------------------------
  // Agreement
  // ---------------------------------------------------------------------------------------------

  /** `part` is found in `code` at address `at`. */
  ghost predicate At(code: seq<Instruction>, at: nat, part: seq<Instruction>) {
    at + |part| <= |code| && code[at..at + |part|] == part
  }

  lemma AtSplit(code: seq<Instruction>, at: nat, a: seq<Instruction>, b: seq<Instruction>)
    requires At(code, at, a + b)
    ensures At(code, at, a) && At(code, at + |a|, b)
  {
    var whole := a + b;
    assert code[at..at + |a|] == whole[..|a|];
    assert code[at + |a|..at + |a| + |b|] == whole[|a|..];
  }

  lemma AtOne(code: seq<Instruction>, at: nat, i: Instruction)
    requires At(code, at, [i])
    ensures code[at] == i
  {
    assert code[at..at + 1][0] == code[at];
  }

  /** The machine after a code segment that leaves `vs` on the stack. */
  function After(m: Vm, vs: seq<Value>, env: Env, size: nat): Vm {
    m.(env := env, stack := m.stack + vs, ip := m.ip + size)
  }

  function AsList(r: Evaluated): EvaluatedList {
    match r
    case Val(v, env) => Vals([v], env)
    case Fail(env) => FailList(env)
  }

  /** Where computed values leave the machine that runs their code. */
  function Delivered(m: Vm, r: EvaluatedList, size: nat): Outcome {
    match r
    case Vals(vs, env) => Running(After(m, vs, env, size))
    case FailList(env) => Fault(Raised, env)
  }

  /** One data instruction applied to values on top of the stack. */
  lemma DataStepOn(h: Host, code: seq<Instruction>, m: Vm, base: seq<Value>, args: seq<Value>, ins: Instruction)
    requires At(code, m.ip, [ins]) && IsData(ins.op) && OperandFits(ins)
    requires m.stack == base + args && |args| == Pops(ins)
    ensures Exec(h, code, m, 1) ==
            match DataEffect(h, ins, args, m.env)
            case Push(vs, env) => Running(m.(env := env, stack := base + vs, ip := m.ip + 1))
            case Raise(env) => Fault(Raised, env)
            case Clash(env) => OnClash(m.(stack := base), env)
            case Leave(program, env) => Chained(program, env)
  {
    AtOne(code, m.ip, ins);
    var n := |m.stack| - Pops(ins);
    assert m.stack[..n] == base && m.stack[n..] == args;
    var o := Step(h, code, m);
    assert o.Running? ==> Exec(h, code, o.vm, 0) == o;
  }

  /** A segment whose run computes `r` and leaves the machine just behind it. */
  ghost predicate Runs(h: Host, code: seq<Instruction>, m: Vm, size: nat, r: EvaluatedList) {
    Exec(h, code, m, size) == Delivered(m, r, size)
  }

  function Both(r1: EvaluatedList, r2: EvaluatedList): EvaluatedList {
    if r1.FailList? then r1 else if r2.FailList? then r2 else Vals(r1.vs + r2.vs, r2.env)
  }

  /** Two segments in a row compute both lists of values, or stop at the first failure. */
  lemma Then(h: Host, code: seq<Instruction>, m: Vm, n1: nat, r1: EvaluatedList, n2: nat, r2: EvaluatedList)
    requires Runs(h, code, m, n1, r1)
    requires r1.Vals? ==> Runs(h, code, After(m, r1.vs, r1.env, n1), n2, r2)
    ensures Runs(h, code, m, n1 + n2, Both(r1, r2))
  {
    ExecAdd(h, code, m, n1, n2);
    if r1.Vals? && r2.Vals? {
      assert m.stack + r1.vs + r2.vs == m.stack + (r1.vs + r2.vs);
    }
  }

  /** What an instruction makes of the values it pops. */
  function Consumed(h: Host, ins: Instruction, r: EvaluatedList): EvaluatedList
    requires IsData(ins.op) && OperandFits(ins) && r.Vals? && |r.vs| == Pops(ins)
  {
    match DataEffect(h, ins, r.vs, r.env)
    case Push(vs, env) => Vals(vs, env)
    case other => FailList(other.env)
  }

  /** A segment followed by an instruction that pops all its values. */
  lemma ThenApply(h: Host, code: seq<Instruction>, m: Vm, n: nat, r: EvaluatedList, ins: Instruction)
    requires Runs(h, code, m, n, r) && IsData(ins.op) && OperandFits(ins) && At(code, m.ip + n, [ins])
    requires r.Vals? ==> |r.vs| == Pops(ins)
    requires IoOf(ins.op).None? && ins.op != Chain
    ensures r.Vals? ==> Runs(h, code, m, n + 1, Consumed(h, ins, r))
    ensures r.FailList? ==> Runs(h, code, m, n + 1, r)
  {
    hide Step, DataEffect, IsData, OperandFits, Pops, IoOf;
    ExecAdd(h, code, m, n, 1);
    if r.Vals? {
      DataStepOn(h, code, After(m, r.vs, r.env, n), m.stack, r.vs, ins);
      PushesOrRaises(h, ins, r.vs, r.env);
    }
  }

  /** Only file operations can clash, and only CHAIN leaves the program. */
  lemma PushesOrRaises(h: Host, ins: Instruction, args: seq<Value>, env: Env)
    requires IsData(ins.op) && OperandFits(ins) && |args| == Pops(ins) && IoOf(ins.op).None? && ins.op != Chain
    ensures var r := DataEffect(h, ins, args, env); r.Push? || r.Raise?
  {
  }

  /** A single instruction that pops nothing. */
  lemma Alone(h: Host, code: seq<Instruction>, m: Vm, ins: Instruction)
    requires At(code, m.ip, [ins]) && IsData(ins.op) && OperandFits(ins) && Pops(ins) == 0
    requires IoOf(ins.op).None? && ins.op != Chain
    ensures Runs(h, code, m, 1, Consumed(h, ins, Vals([], m.env)))
  {
    assert m.stack + [] == m.stack;
    ThenApply(h, code, m, 0, Vals([], m.env), ins);
  }

  lemma ConsumedOperator(h: Host, op: OpCode, a: Value, b: Value, env: Env)
    requires IsOperator(op)
    ensures Consumed(h, Plain(op), Vals([a, b], env)) == AsList(ValIf(Operate(h, op, a, b), env))
  {
  }

  lemma ConsumedPush(h: Host, v: Value, env: Env)
    ensures Consumed(h, PushOf(v), Vals([], env)) == Vals([v], env)
  {
  }

  function PushOf(v: Value): (i: Instruction)
    ensures IsData(i.op) && OperandFits(i) && Pops(i) == 0 && IoOf(i.op).None? && i.op != Chain
  {
    Instruction(match v case IntV(_) => PushInt case FltV(_) => PushFlt case StrV(_) => PushStr, v, NO_FUNC)
  }

  lemma ConsumedLoad(h: Host, name: string, env: Env)
    ensures Consumed(h, WithStr(LoadVar, Uppercase(name)), Vals([], env)) ==
            AsList(ValIf(ReadVariable(h, env, Uppercase(name)), env))
  {
    UppercaseTwice(name);
  }

  lemma ConsumedCell(h: Host, name: string, i: Value, env: Env)
    ensures Consumed(h, WithStr(LoadArr, Uppercase(name)), Vals([i], env)) ==
            AsList(ValIf(ReadCell(env, Uppercase(name), h.toInt(i)), env))
  {
    UppercaseTwice(name);
  }

  lemma ConsumedExtract(h: Host, rec: Value, a: Value, i: Value, env: Env)
    ensures Consumed(h, Plain(ExtractAttr), Vals([rec, a, i], env)) == Vals([Extract(h, rec, a, i)], env)
  {
  }

  lemma ConsumedCall(h: Host, f: FuncRef, vs: seq<Value>, env: Env)
    requires |vs| == f.argCount
    ensures Consumed(h, Invoke(f), Vals(vs, env)) ==
            AsList(ValIf(h.builtin(env.log, env.status, f, vs), Log(env, BuiltinCalled(f, vs))))
  {
  }

  /** Running the code of an expression pushes exactly its value on the old stack, or fails exactly
      when evaluation fails, with the same use of the outside world in the same order. */
  lemma {:induction false} ExprCorrect(h: Host, e: Expr, inArith: bool, code: seq<Instruction>, m: Vm)
    requires ExprOk(e, inArith) && At(code, m.ip, ExprCode(e, inArith))
    ensures Runs(h, code, m, |ExprCode(e, inArith)|, AsList(Eval(h, e, inArith, m.env)))
    decreases e, 1
  {
    hide Runs, Consumed, At, BuiltinCallOk, BuiltinRef, BuiltinArgInArithmetic, IsValidVariableName, IsStringVar;
    match e
    case IntLiteral(n) => PushCorrect(h, IntV(n), code, m);
    case FloatLiteral(d) => PushCorrect(h, FltV(d), code, m);
    case StringLiteral(s) => PushCorrect(h, StrV(s), code, m);
    case DictField(s) => PushCorrect(h, StrV(s), code, m);
    case Identifier(name) => LoadCorrect(h, name, code, m);
    case Grouped(x) => ExprCorrect(h, x, inArith, code, m);
    case Negate(x) => NegateCorrect(h, x, inArith, code, m);
    case Binary(op, l, r) => BinaryCorrect(h, op, l, r, inArith, code, m);
    case Subscript(name, i) => SubscriptCorrect(h, name, i, inArith, code, m);
    case AttributeAccess(name, a, vi) => AttributeCorrect(h, name, a, vi, inArith, code, m);
    case FunctionCall(name, args) => CallCorrect(h, name, args, inArith, code, m);
  }

  lemma {:induction false} NegateCorrect(h: Host, x: Expr, inArith: bool, code: seq<Instruction>, m: Vm)
    requires ExprOk(Negate(x), inArith) && At(code, m.ip, ExprCode(Negate(x), inArith))
    ensures Runs(h, code, m, |ExprCode(Negate(x), inArith)|, AsList(Eval(h, Negate(x), inArith, m.env)))
    decreases Negate(x), 0
  {
    hide Runs, At, Operate, BuiltinCallOk, BuiltinRef, IsValidVariableName, IsStringVar;
    var zero, cx := [WithInt(PushInt, 0)], ExprCode(x, true);
    AtSplit3(code, m.ip, zero, cx, [Plain(Sub)]);
    PushCorrect(h, IntV(0), code, m);
    ExprCorrect(h, x, true, code, After(m, [IntV(0)], m.env, 1));
    OperatorCorrect(h, code, m, Sub, 1, Val(IntV(0), m.env), |cx|, Eval(h, x, true, m.env));
  }

  lemma {:induction false} BinaryCorrect(h: Host, op: BinaryOp, l: Expr, r: Expr, inArith: bool, code: seq<Instruction>, m: Vm)
    requires ExprOk(Binary(op, l, r), inArith) && At(code, m.ip, ExprCode(Binary(op, l, r), inArith))
    ensures Runs(h, code, m, |ExprCode(Binary(op, l, r), inArith)|, AsList(Eval(h, Binary(op, l, r), inArith, m.env)))
    decreases Binary(op, l, r), 0
  {
    hide Runs, At, Operate, OpOf, IsArithmetic, IsOperator, Extract, ReadVariable, ReadCell, ArgsOk, ArgsCode, EvalArgs, BuiltinCallOk, BuiltinRef, IsValidVariableName, IsStringVar;
    var a := IsArithmetic(op);
    var cl, cr := ExprCode(l, a), ExprCode(r, a);
    AtSplit3(code, m.ip, cl, cr, [Plain(OpOf(op))]);
    ExprCorrect(h, l, a, code, m);
    var el := Eval(h, l, a, m.env);
    if el.Val? {
      ExprCorrect(h, r, a, code, After(m, [el.v], el.env, |cl|));
      OperatorCorrect(h, code, m, OpOf(op), |cl|, el, |cr|, Eval(h, r, a, el.env));
    } else {
      OperatorCorrect(h, code, m, OpOf(op), |cl|, el, |cr|, el);
    }
  }

  lemma {:induction false} SubscriptCorrect(h: Host, name: string, i: Expr, inArith: bool, code: seq<Instruction>, m: Vm)
    requires ExprOk(Subscript(name, i), inArith) && At(code, m.ip, ExprCode(Subscript(name, i), inArith))
    ensures Runs(h, code, m, |ExprCode(Subscript(name, i), inArith)|, AsList(Eval(h, Subscript(name, i), inArith, m.env)))
    decreases Subscript(name, i), 0
  {
    hide Runs, At, ReadCell, BuiltinCallOk, BuiltinRef, IsValidVariableName, IsStringVar;
    var ci := ExprCode(i, false);
    AtSplit(code, m.ip, ci, [WithStr(LoadArr, Uppercase(name))]);
    ExprCorrect(h, i, false, code, m);
    CellCorrect(h, code, m, name, |ci|, Eval(h, i, false, m.env));
  }

  lemma AtSplit3(code: seq<Instruction>, at: nat, a: seq<Instruction>, b: seq<Instruction>, c: seq<Instruction>)
    requires At(code, at, a + b + c)
    ensures At(code, at, a) && At(code, at + |a|, b) && At(code, at + |a| + |b|, c)
  {
    AtSplit(code, at, a + b, c);
    AtSplit(code, at, a, b);
  }

  /** Two operand segments followed by their operator. */
  lemma OperatorCorrect(h: Host, code: seq<Instruction>, m: Vm, op: OpCode, n1: nat, e1: Evaluated, n2: nat, e2: Evaluated)
    requires IsOperator(op) && At(code, m.ip + n1 + n2, [Plain(op)])
    requires Runs(h, code, m, n1, AsList(e1))
    requires e1.Val? ==> Runs(h, code, After(m, [e1.v], e1.env, n1), n2, AsList(e2))
    ensures Runs(h, code, m, n1 + n2 + 1,
                 if e1.Fail? then FailList(e1.env)
                 else if e2.Fail? then FailList(e2.env)
                 else AsList(ValIf(Operate(h, op, e1.v, e2.v), e2.env)))
  {
    hide Runs, Consumed, Operate, At;
    Then(h, code, m, n1, AsList(e1), n2, AsList(e2));
    var both := Both(AsList(e1), AsList(e2));
    assert both.Vals? ==> both.vs == [e1.v, e2.v];
    ThenApply(h, code, m, n1 + n2, both, Plain(op));
    if both.Vals? {
      ConsumedOperator(h, op, e1.v, e2.v, e2.env);
    }
  }

  lemma CellCorrect(h: Host, code: seq<Instruction>, m: Vm, name: string, n: nat, e: Evaluated)
    requires At(code, m.ip + n, [WithStr(LoadArr, Uppercase(name))]) && Runs(h, code, m, n, AsList(e))
    ensures Runs(h, code, m, n + 1,
                 if e.Fail? then FailList(e.env) else AsList(ValIf(ReadCell(e.env, Uppercase(name), h.toInt(e.v)), e.env)))
  {
    hide Runs, Consumed;
    ThenApply(h, code, m, n, AsList(e), WithStr(LoadArr, Uppercase(name)));
    if e.Val? {
      ConsumedCell(h, name, e.v, e.env);
    }
  }

  lemma LoadCorrect(h: Host, name: string, code: seq<Instruction>, m: Vm)
    requires At(code, m.ip, [WithStr(LoadVar, Uppercase(name))])
    ensures Runs(h, code, m, 1, AsList(ValIf(ReadVariable(h, m.env, Uppercase(name)), m.env)))
  {
    hide Runs, Consumed;
    Alone(h, code, m, WithStr(LoadVar, Uppercase(name)));
    ConsumedLoad(h, name, m.env);
  }

  /** Three segments that push a record, an attribute number and a value number, then EXTRACT_ATTR. */
  lemma ExtractCorrect(h: Host, code: seq<Instruction>, m: Vm, e0: Evaluated, n1: nat, e1: Evaluated, n2: nat, e2: Evaluated)
    requires At(code, m.ip + 1 + n1 + n2, [Plain(ExtractAttr)])
    requires Runs(h, code, m, 1, AsList(e0))
    requires e0.Val? ==> Runs(h, code, After(m, [e0.v], e0.env, 1), n1, AsList(e1))
    requires e0.Val? && e1.Val? ==> Runs(h, code, After(m, [e0.v, e1.v], e1.env, 1 + n1), n2, AsList(e2))
    ensures Runs(h, code, m, 1 + n1 + n2 + 1,
                 if e0.Fail? then FailList(e0.env)
                 else if e1.Fail? then FailList(e1.env)
                 else if e2.Fail? then FailList(e2.env)
                 else Vals([Extract(h, e0.v, e1.v, e2.v)], e2.env))
  {
    hide Runs, Consumed, Extract, At;
    Then(h, code, m, 1, AsList(e0), n1, AsList(e1));
    var two := Both(AsList(e0), AsList(e1));
    assert two.Vals? ==> two.vs == [e0.v, e1.v];
    Then(h, code, m, 1 + n1, two, n2, AsList(e2));
    var three := Both(two, AsList(e2));
    assert three.Vals? ==> three.vs == [e0.v, e1.v, e2.v];
    ThenApply(h, code, m, 1 + n1 + n2, three, Plain(ExtractAttr));
    if three.Vals? {
      ConsumedExtract(h, e0.v, e1.v, e2.v, e2.env);
    }
  }

  lemma {:induction false} AttributeCorrect(h: Host, name: string, a: Expr, vi: Option<Expr>, inArith: bool,
                                            code: seq<Instruction>, m: Vm)
    requires ExprOk(AttributeAccess(name, a, vi), inArith) && At(code, m.ip, ExprCode(AttributeAccess(name, a, vi), inArith))
    ensures Runs(h, code, m, |ExprCode(AttributeAccess(name, a, vi), inArith)|,
                 AsList(Eval(h, AttributeAccess(name, a, vi), inArith, m.env)))
    decreases AttributeAccess(name, a, vi), 0
  {
    hide Runs, At, Extract, ReadVariable, BuiltinCallOk, BuiltinRef, IsValidVariableName, IsStringVar;
    var load, ca := [WithStr(LoadVar, Uppercase(name))], ExprCode(a, false);
    var cv := if vi.Some? then ExprCode(vi.value, false) else [WithInt(PushInt, 0)];
    AtSplit3(code, m.ip, load + ca, cv, [Plain(ExtractAttr)]);
    AtSplit(code, m.ip, load, ca);
    LoadCorrect(h, name, code, m);
    var e0 := ValIf(ReadVariable(h, m.env, Uppercase(name)), m.env);
    var e1, e2 := e0, e0;
    if e0.Val? {
      ExprCorrect(h, a, false, code, After(m, [e0.v], e0.env, 1));
      e1 := Eval(h, a, false, m.env);
      if e1.Val? {
        var m2 := After(m, [e0.v, e1.v], e1.env, 1 + |ca|);
        if vi.Some? {
          ExprCorrect(h, vi.value, false, code, m2);
          e2 := Eval(h, vi.value, false, e1.env);
        } else {
          PushCorrect(h, IntV(0), code, m2);
          e2 := Val(IntV(0), e1.env);
        }
      }
    }
    ExtractCorrect(h, code, m, e0, |ca|, e1, |cv|, e2);
  }

  /** The last part of a builtin call: the implied third argument of INDEX and the call itself. */
  lemma CallTail(h: Host, code: seq<Instruction>, m: Vm, n: nat, ev: EvaluatedList, extra: bool, f: FuncRef)
    requires Runs(h, code, m, n, ev)
    requires At(code, m.ip + n, (if extra then [WithInt(PushInt, 1)] else []) + [Invoke(f)])
    requires ev.Vals? ==> f.argCount == |ev.vs| + if extra then 1 else 0
    ensures Runs(h, code, m, n + (if extra then 2 else 1),
                 if ev.FailList? then ev
                 else
                   var all := if extra then ev.vs + [IntV(1)] else ev.vs;
                   AsList(ValIf(h.builtin(ev.env.log, ev.env.status, f, all), Log(ev.env, BuiltinCalled(f, all)))))
  {
    hide Runs, Consumed, At;
    var one := if extra then [WithInt(PushInt, 1)] else [];
    AtSplit(code, m.ip + n, one, [Invoke(f)]);
    var all := ev;
    if extra {
      if ev.Vals? {
        all := Vals(ev.vs + [IntV(1)], ev.env);
        PushCorrect(h, IntV(1), code, After(m, ev.vs, ev.env, n));
      }
      Then(h, code, m, n, ev, 1, Vals([IntV(1)], ev.env));
    }
    ThenApply(h, code, m, n + |one|, all, Invoke(f));
    if ev.Vals? {
      ConsumedCall(h, f, all.vs, ev.env);
    }
  }

  lemma {:induction false} CallCorrect(h: Host, name: string, args: seq<Expr>, inArith: bool, code: seq<Instruction>, m: Vm)
    requires ExprOk(FunctionCall(name, args), inArith) && At(code, m.ip, ExprCode(FunctionCall(name, args), inArith))
    ensures Runs(h, code, m, |ExprCode(FunctionCall(name, args), inArith)|,
                 AsList(Eval(h, FunctionCall(name, args), inArith, m.env)))
    decreases FunctionCall(name, args), 0
  {
    hide Runs, At, BuiltinCallOk, BuiltinRef, ThirdArgImplied;
    var extra, f := ThirdArgImplied(name, |args|), BuiltinRef(name, |args|);
    var ca, one := ArgsCode(name, args, 0), if extra then [WithInt(PushInt, 1)] else [];
    assert ca + one + [Invoke(f)] == ca + (one + [Invoke(f)]);
    AtSplit(code, m.ip, ca, one + [Invoke(f)]);
    ArgsCorrect(h, name, args, 0, code, m);
    CallTail(h, code, m, |ca|, EvalArgs(h, name, args, 0, m.env), extra, f);
  }

  lemma PushCorrect(h: Host, v: Value, code: seq<Instruction>, m: Vm)
    requires At(code, m.ip, [PushOf(v)])
    ensures Runs(h, code, m, 1, Vals([v], m.env))
  {
    hide Runs, Consumed;
    Alone(h, code, m, PushOf(v));
    ConsumedPush(h, v, m.env);
  }

  lemma Nothing(h: Host, code: seq<Instruction>, m: Vm)
    ensures Runs(h, code, m, 0, Vals([], m.env))
  {
    assert m.stack + [] == m.stack;
  }

  lemma {:induction false} ArgsCorrect(h: Host, name: string, args: seq<Expr>, i: nat, code: seq<Instruction>, m: Vm)
    requires ArgsOk(name, args, i) && At(code, m.ip, ArgsCode(name, args, i))
    ensures Runs(h, code, m, |ArgsCode(name, args, i)|, EvalArgs(h, name, args, i, m.env))
    decreases args, 0
  {
    hide Runs, At, BuiltinArgInArithmetic, ExprOk, ExprCode, Eval;
    if args == [] {
      Nothing(h, code, m);
    } else {
      var inA := BuiltinArgInArithmetic(name, i);
      var c0, rest := ExprCode(args[0], inA), ArgsCode(name, args[1..], i + 1);
      AtSplit(code, m.ip, c0, rest);
      ExprCorrect(h, args[0], inA, code, m);
      var e0 := AsList(Eval(h, args[0], inA, m.env));
      if e0.Vals? {
        ArgsCorrect(h, name, args[1..], i + 1, code, After(m, e0.vs, e0.env, |c0|));
        Then(h, code, m, |c0|, e0, |rest|, EvalArgs(h, name, args[1..], i + 1, e0.env));
      } else {
        Then(h, code, m, |c0|, e0, |rest|, e0);
      }
    }
  }
}
