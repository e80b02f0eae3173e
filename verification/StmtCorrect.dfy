/** Running the code of a statement does what the statement means: straight-line statements, arms and
    nested IFs with their patched jumps, and file statements with and without ELSE. */
module StmtCorrect {
  import opened Bytecode
  import opened BasicAst
  import opened Machine
  import opened ExprCompile
  import opened StmtCompile

  // ---------------------------------------------------------------------------------------------
  // Where the machine must be after a statement
  // ---------------------------------------------------------------------------------------------

  /** Unconditional forward jumps lead from `a` to `b`. */
  ghost predicate LeadsTo(code: seq<Instruction>, a: nat, b: nat)
    decreases |code| - a
  {
    a == b ||
    (a < |code| && code[a].op.Jump? && code[a].operand.IntV? && code[a].operand.i > a &&
     LeadsTo(code, code[a].operand.i, b))
  }

  lemma {:induction false} LeadsFurther(code: seq<Instruction>, a: nat, b: nat, c: nat)
    requires LeadsTo(code, a, b) && b < |code| && code[b] == WithInt(Jump, c) && c > b
    ensures LeadsTo(code, a, c)
    decreases |code| - a
  {
    if a == b {
      assert LeadsTo(code, c, c);
    } else {
      LeadsFurther(code, code[a].operand.i, b, c);
    }
  }

  /** The ON ERROR target as the machine keeps it: address 0 means no handler. */
  function HandlerAddress(lines: LineMap, target: Option<int>): Option<nat> {
    if target.None? || Address(lines, target.value) == 0 then None else Some(Address(lines, target.value))
  }

  /** `o` is the outcome the flow `f` calls for, when the machine started at `m` and the code of the
      statement ends at `end`. RETURN, NEXT and the entry of a FOR loop are left to the last
      instruction, which the machine is about to execute. */
  ghost predicate Lands(code: seq<Instruction>, lines: LineMap, m: Vm, end: nat, f: Flow, o: Outcome) {
    match f
    case Fall(env) => o == Running(m.(env := env, ip := end))
    case ToLine(n, env) => o == Running(m.(env := env, ip := Address(lines, n)))
    case SubLine(n, env) =>
      o.Running? && |o.vm.calls| == |m.calls| + 1 && LeadsTo(code, o.vm.calls[|m.calls|], end) &&
      o.vm == m.(env := env, ip := Address(lines, n), calls := m.calls + [o.vm.calls[|m.calls|]])
    case Back(env) =>
      o.Running? && o.vm.ip < |code| && code[o.vm.ip] == Plain(Return) && o.vm == m.(env := env, ip := o.vm.ip)
    case Quit(env) => o == Running(m.(env := env, ip := |code|))
    case Away(program, env) => o == Chained(program, env)
    case Err(env) => o == Fault(Raised, env)
    case Blocked(env) => o == OnClash(m, env)
    case LoopBegin(v, limit, step, env) =>
      end > 0 && end - 1 < |code| && code[end - 1] == WithStr(ForSetup, v) &&
      o == Running(m.(env := env, stack := m.stack + [limit, step], ip := end - 1))
    case LoopNext(v, env) =>
      end > 0 && end - 1 < |code| && code[end - 1] == WithStr(ForNext, v) &&
      o == Running(m.(env := env, ip := end - 1))
    case Handler(target, env) =>
      o == Running(m.(env := env, ip := end, onError := HandlerAddress(lines, target)))
  }

  /** The flow of a segment that computes no value. */
  function Finished(r: EvaluatedList): Flow {
    if r.Vals? then Fall(r.env) else Err(r.env)
  }

  lemma RunsLands(h: Host, code: seq<Instruction>, lines: LineMap, m: Vm, n: nat, r: EvaluatedList)
    requires Runs(h, code, m, n, r) && (r.Vals? ==> r.vs == [])
    ensures Lands(code, lines, m, m.ip + n, Finished(r), Exec(h, code, m, n))
  {
    hide Exec;
    assert m.stack + [] == m.stack;
  }

  /** A run that got as far as `m1` without touching the stacks, then lands, lands as a whole. */
  lemma LandsAfter(h: Host, code: seq<Instruction>, lines: LineMap, m: Vm, n1: nat, m1: Vm, n2: nat, end: nat, f: Flow)
    requires Exec(h, code, m, n1) == Running(m1) && m1 == m.(env := m1.env, ip := m1.ip)
    requires Lands(code, lines, m1, end, f, Exec(h, code, m1, n2))
    ensures Lands(code, lines, m, end, f, Exec(h, code, m, n1 + n2))
  {
    hide Exec;
    ExecAdd(h, code, m, n1, n2);
  }

  /** A statement followed by a jump to `end` lands at `end`. */
  lemma LandsBefore(h: Host, code: seq<Instruction>, lines: LineMap, m: Vm, n: nat, mid: nat, end: nat, f: Flow) returns (n': nat)
    requires Lands(code, lines, m, mid, f, Exec(h, code, m, n))
    requires mid < end && mid < |code| && code[mid] == WithInt(Jump, end)
    requires !f.LoopBegin? && !f.LoopNext? && !f.Handler?
    ensures n' >= n && Lands(code, lines, m, end, f, Exec(h, code, m, n'))
  {
    hide Exec, Step;
    if f.Fall? {
      var m1 := m.(env := f.env, ip := mid);
      JumpStep(h, code, m1, end);
      ExecAdd(h, code, m, n, 1);
      n' := n + 1;
    } else {
      n' := n;
      if f.SubLine? {
        var a := Exec(h, code, m, n).vm.calls[|m.calls|];
        LeadsFurther(code, a, mid, end);
      }
    }
  }

  lemma JumpStep(h: Host, code: seq<Instruction>, m: Vm, target: nat)
    requires m.ip < |code| && code[m.ip] == WithInt(Jump, target)
    ensures Exec(h, code, m, 1) == Running(m.(ip := target))
  {
    hide DataStep;
    assert Step(h, code, m) == Running(m.(ip := target));
    assert Exec(h, code, m.(ip := target), 0) == Running(m.(ip := target));
  }

  lemma BranchStep(h: Host, code: seq<Instruction>, m: Vm, base: seq<Value>, v: Value, target: nat)
    requires m.ip < |code| && code[m.ip] == WithInt(JumpIfZero, target) && m.stack == base + [v]
    ensures Exec(h, code, m, 1) ==
            if !v.IntV? then Fault(Raised, m.env)
            else Running(m.(stack := base, ip := if v.i == 0 then target else m.ip + 1))
  {
    hide DataStep;
    assert m.stack[..|m.stack| - 1] == base;
    var o := Step(h, code, m);
    assert o.Running? ==> Exec(h, code, o.vm, 0) == o;
  }

  // ---------------------------------------------------------------------------------------------
  // The effect of single instructions
  // ---------------------------------------------------------------------------------------------

  function OfChange(c: Change): EvaluatedList {
    if c.Done? then Vals([], c.env) else FailList(c.env)
  }

  lemma ConsumedCoerce(h: Host, v: Value, env: Env)
    ensures Consumed(h, Plain(CoerceInt), Vals([v], env)) == Vals([IntV(h.toInt(v))], env)
  {
  }

  lemma ConsumedStore(h: Host, name: string, v: Value, env: Env)
    ensures Consumed(h, WithStr(StoreVar, Uppercase(name)), Vals([v], env)) == OfChange(StoreVariable(env, Uppercase(name), v))
  {
    hide StoreVariable;
    UppercaseTwice(name);
  }

  lemma ConsumedPrint(h: Host, v: Value, env: Env)
    ensures Consumed(h, Plain(PrintVal), Vals([v], env)) == Vals([], Log(env, Printed(h.toText(v))))
  {
  }

  lemma ConsumedEol(h: Host, env: Env)
    ensures Consumed(h, Plain(PrintEol), Vals([], env)) == Vals([], Log(env, Printed("\n")))
  {
  }

  lemma ConsumedInput(h: Host, env: Env)
    ensures Consumed(h, Plain(InputStr), Vals([], env)) ==
            var line := h.input(env.log);
            if line.None? then FailList(Log(env, InputTaken)) else Vals([StrV(Trimmed(line.value))], Log(env, InputTaken))
  {
    hide Trimmed;
  }

  lemma ConsumedDim(h: Host, name: string, v: Value, env: Env)
    ensures Consumed(h, WithStr(DimArray, Uppercase(name)), Vals([v], env)) == OfChange(Dimension(h, env, Uppercase(name), v))
  {
    hide Dimension;
    UppercaseTwice(name);
  }

  lemma ConsumedCellStore(h: Host, name: string, v: Value, i: Value, env: Env)
    ensures Consumed(h, WithStr(StoreArr, Uppercase(name)), Vals([v, i], env)) == OfChange(StoreCell(h, env, Uppercase(name), i, v))
  {
    hide StoreCell;
    UppercaseTwice(name);
  }

  lemma ConsumedFill(h: Host, name: string, v: Value, env: Env)
    ensures Consumed(h, WithStr(MatInit, Uppercase(name)), Vals([v], env)) == OfChange(FillArray(h, env, Uppercase(name), v))
  {
    hide FillArray;
    UppercaseTwice(name);
  }

  lemma ConsumedLoadArray(h: Host, name: string, v: Value, env: Env)
    ensures Consumed(h, WithStr(MatLoadFromRec, Uppercase(name)), Vals([v], env)) == OfChange(LoadArray(h, env, Uppercase(name), v))
  {
    hide LoadArray;
    UppercaseTwice(name);
  }

  lemma ConsumedPack(h: Host, name: string, env: Env)
    ensures Consumed(h, WithStr(MatStoreToRec, Uppercase(name)), Vals([], env)) == AsList(ValIf(PackArray(h, env, Uppercase(name)), env))
  {
    hide PackArray;
    UppercaseTwice(name);
  }

  lemma ConsumedResolve(h: Host, fileVar: string, v: Value, env: Env)
    ensures Consumed(h, WithStr(ResolveDictAttr, Uppercase(fileVar)), Vals([v], env)) ==
            var r := ResolveDict(h, env, Uppercase(fileVar), v); Vals([r.0], r.1)
  {
    hide ResolveDict;
    UppercaseTwice(fileVar);
  }

  lemma ConsumedClear(h: Host, env: Env)
    ensures Consumed(h, Plain(ClearVars), Vals([], env)) == Vals([], env.(vars := map[], arrays := map[]))
  {
  }

  lemma ConsumedClose(h: Host, fileVar: string, env: Env)
    ensures Consumed(h, WithStr(CloseFile, Uppercase(fileVar)), Vals([], env)) ==
            Vals([], CallFiles(h, env, IoClose, Uppercase(fileVar), []).env)
  {
    hide CallFiles;
    UppercaseTwice(fileVar);
  }

  lemma ConsumedRelease(h: Host, fileVar: string, v: Value, env: Env)
    ensures Consumed(h, WithStr(ReleaseRec, Uppercase(fileVar)), Vals([v], env)) ==
            var a := CallFiles(h, env, IoRelease, Uppercase(fileVar), [v]);
            if a.answer.NotThere? then FailList(a.env) else Vals([], a.env)
  {
    hide CallFiles;
    UppercaseTwice(fileVar);
  }

  /** The operand of MAT copy splits at its first bar, which is the one the emitter wrote. */
  lemma {:induction false} BarFound(a: string, b: string)
    requires '|' !in a
    ensures FirstBar(a + "|" + b) == Some(|a|)
  {
    var whole := a + "|" + b;
    if a != "" {
      assert whole[1..] == a[1..] + "|" + b;
      BarFound(a[1..], b);
    }
  }

  lemma ConsumedCopy(h: Host, dst: string, src: string, env: Env)
    requires '|' !in Uppercase(dst)
    ensures Consumed(h, WithStr(MatCopy, Uppercase(dst) + "|" + Uppercase(src)), Vals([], env)) ==
            OfChange(CopyArray(h, env, Uppercase(dst), Uppercase(src)))
  {
    hide CopyArray, Uppercase, FirstBar;
    var a, b := Uppercase(dst), Uppercase(src);
    BarFound(a, b);
    var whole := a + "|" + b;
    assert whole[..|a|] == a && whole[|a| + 1..] == b;
    UppercaseTwice(dst);
    UppercaseTwice(src);
  }

  // ---------------------------------------------------------------------------------------------
  // Straight-line statements
  // ---------------------------------------------------------------------------------------------

  /** Flows that either fall through or fail, seen as a segment that computes no value. */
  function AsRun(f: Flow): EvaluatedList
    requires f.Fall? || f.Err?
  {
    if f.Fall? then Vals([], f.env) else FailList(f.env)
  }

  /** An expression followed by an instruction that uses its value. */
  lemma UseValue(h: Host, code: seq<Instruction>, m: Vm, n: nat, r: Evaluated, ins: Instruction, r2: EvaluatedList)
    requires Runs(h, code, m, n, AsList(r)) && At(code, m.ip + n, [ins])
    requires IsData(ins.op) && OperandFits(ins) && IoOf(ins.op).None? && ins.op != Chain && Pops(ins) == 1
    requires if r.Val? then r2 == Consumed(h, ins, Vals([r.v], r.env)) else r2 == FailList(r.env)
    ensures Runs(h, code, m, n + 1, r2)
  {
    hide Runs, Consumed, At, IsData, OperandFits, IoOf;
    ThenApply(h, code, m, n, AsList(r), ins);
  }

  /** The optional coercion of an assigned value. */
  lemma CoerceRuns(h: Host, code: seq<Instruction>, m: Vm, n: nat, name: string, r: Evaluated)
    requires Runs(h, code, m, n, AsList(r)) && At(code, m.ip + n, CoerceCode(name))
    ensures Runs(h, code, m, n + |CoerceCode(name)|,
                 if r.Fail? then FailList(r.env) else Vals([Coerced(h, name, r.v)], r.env))
  {
    hide Runs, Consumed, At, IsIntVar;
    if IsIntVar(name) {
      if r.Val? {
        ConsumedCoerce(h, r.v, r.env);
      }
      UseValue(h, code, m, n, r, Plain(CoerceInt), if r.Fail? then FailList(r.env) else Vals([IntV(h.toInt(r.v))], r.env));
    }
  }

  lemma AssignRuns(h: Host, code: seq<Instruction>, m: Vm, n: nat, name: string, r: Evaluated)
    requires Runs(h, code, m, n, AsList(r)) && At(code, m.ip + n, StoreCode(name))
    ensures Runs(h, code, m, n + |StoreCode(name)|, AsRun(Assign(h, name, r)))
  {
    hide Runs, Consumed, At, CoerceCode, Coerced, StoreVariable, Uppercase;
    AtSplit(code, m.ip + n, CoerceCode(name), [WithStr(StoreVar, Uppercase(name))]);
    CoerceRuns(h, code, m, n, name, r);
    var r' := if r.Fail? then r else Val(Coerced(h, name, r.v), r.env);
    if r'.Val? {
      ConsumedStore(h, name, r'.v, r'.env);
    }
    UseValue(h, code, m, n + |CoerceCode(name)|, r', WithStr(StoreVar, Uppercase(name)),
             if r'.Fail? then FailList(r'.env) else OfChange(StoreVariable(r'.env, Uppercase(name), r'.v)));
  }

  lemma InputRuns(h: Host, code: seq<Instruction>, m: Vm, name: string)
    requires At(code, m.ip, [Plain(InputStr)] + StoreCode(name))
    ensures Runs(h, code, m, 1 + |StoreCode(name)|, AsRun(TakeInput(h, name, m.env)))
  {
    hide Runs, Consumed, At, StoreCode, Assign, Trimmed;
    AtSplit(code, m.ip, [Plain(InputStr)], StoreCode(name));
    Alone(h, code, m, Plain(InputStr));
    ConsumedInput(h, m.env);
    var line := h.input(m.env.log);
    if line.Some? {
      AssignRuns(h, code, m, 1, name, Val(StrV(Trimmed(line.value)), Log(m.env, InputTaken)));
    } else {
      Then(h, code, m, 1, FailList(Log(m.env, InputTaken)), |StoreCode(name)|, FailList(m.env));
    }
  }

  /** A segment without a value followed by another segment. */
  lemma ThenRun(h: Host, code: seq<Instruction>, m: Vm, n1: nat, r1: EvaluatedList, n2: nat, r2: EvaluatedList)
    requires Runs(h, code, m, n1, r1) && (r1.Vals? ==> r1.vs == [])
    requires if r1.Vals? then Runs(h, code, m.(env := r1.env, ip := m.ip + n1), n2, r2) else r2 == r1
    ensures Runs(h, code, m, n1 + n2, r2)
  {
    hide Runs;
    if r1.Vals? {
      assert m.stack + r1.vs == m.stack;
      assert r2.Vals? ==> [] + r2.vs == r2.vs;
    }
    Then(h, code, m, n1, r1, n2, r2);
  }

  lemma PrintValRuns(h: Host, code: seq<Instruction>, m: Vm, n: nat, r: Evaluated, shown: EvaluatedList)
    requires Runs(h, code, m, n, AsList(r)) && At(code, m.ip + n, [Plain(PrintVal)])
    requires shown == if r.Fail? then FailList(r.env) else Vals([], Log(r.env, Printed(h.toText(r.v))))
    ensures Runs(h, code, m, n + 1, shown)
  {
    hide Runs, Consumed, At;
    if r.Val? {
      ConsumedPrint(h, r.v, r.env);
    }
    UseValue(h, code, m, n, r, Plain(PrintVal), shown);
  }

  lemma EolRuns(h: Host, code: seq<Instruction>, m: Vm)
    requires At(code, m.ip, [Plain(PrintEol)])
    ensures Runs(h, code, m, 1, Vals([], Log(m.env, Printed("\n"))))
  {
    hide Runs, Consumed, At;
    Alone(h, code, m, Plain(PrintEol));
    ConsumedEol(h, m.env);
  }

  lemma PrintRuns(h: Host, code: seq<Instruction>, m: Vm, n: nat, suppressEol: bool, r: Evaluated)
    requires Runs(h, code, m, n, AsList(r))
    requires At(code, m.ip + n, [Plain(PrintVal)] + if suppressEol then [] else [Plain(PrintEol)])
    ensures Runs(h, code, m, n + (if suppressEol then 1 else 2), AsRun(Show(h, suppressEol, r)))
  {
    hide Runs, At;
    var eol := if suppressEol then [] else [Plain(PrintEol)];
    AtSplit(code, m.ip + n, [Plain(PrintVal)], eol);
    var shown := if r.Fail? then FailList(r.env) else Vals([], Log(r.env, Printed(h.toText(r.v))));
    PrintValRuns(h, code, m, n, r, shown);
    if !suppressEol {
      if shown.Vals? {
        var m1 := m.(env := shown.env, ip := m.ip + (n + 1));
        EolRuns(h, code, m1);
        ThenRun(h, code, m, n + 1, shown, 1, Vals([], Log(shown.env, Printed("\n"))));
      } else {
        ThenRun(h, code, m, n + 1, shown, 1, shown);
      }
    }
  }

  lemma ReleaseRuns(h: Host, code: seq<Instruction>, m: Vm, n: nat, fileVar: string, r: Evaluated)
    requires Runs(h, code, m, n, AsList(r)) && At(code, m.ip + n, [WithStr(ReleaseRec, Uppercase(fileVar))])
    ensures Runs(h, code, m, n + 1, AsRun(Free(h, fileVar, r)))
  {
    hide Runs, Consumed, At, CallFiles, Uppercase;
    if r.Val? {
      ConsumedRelease(h, fileVar, r.v, r.env);
    }
    UseValue(h, code, m, n, r, WithStr(ReleaseRec, Uppercase(fileVar)), AsRun(Free(h, fileVar, r)));
  }

  lemma SizeRuns(h: Host, code: seq<Instruction>, m: Vm, n: nat, name: string, r: Evaluated)
    requires Runs(h, code, m, n, AsList(r)) && At(code, m.ip + n, [WithStr(DimArray, Uppercase(name))])
    ensures Runs(h, code, m, n + 1, AsRun(SetSize(h, name, r)))
  {
    hide Runs, Consumed, At, Dimension, Uppercase;
    if r.Val? {
      ConsumedDim(h, name, r.v, r.env);
    }
    UseValue(h, code, m, n, r, WithStr(DimArray, Uppercase(name)), AsRun(SetSize(h, name, r)));
  }

  lemma FillRuns(h: Host, code: seq<Instruction>, m: Vm, n: nat, name: string, r: Evaluated)
    requires Runs(h, code, m, n, AsList(r)) && At(code, m.ip + n, [WithStr(MatInit, Uppercase(name))])
    ensures Runs(h, code, m, n + 1, AsRun(Fill(h, name, r)))
  {
    hide Runs, Consumed, At, FillArray, Uppercase;
    if r.Val? {
      ConsumedFill(h, name, r.v, r.env);
    }
    UseValue(h, code, m, n, r, WithStr(MatInit, Uppercase(name)), AsRun(Fill(h, name, r)));
  }

  /** Value, optional coercion, index, then STORE_ARR. */
  lemma CellRuns(h: Host, code: seq<Instruction>, m: Vm, n1: nat, name: string, r1: Evaluated, n2: nat, r2: Evaluated)
    requires Runs(h, code, m, n1, AsList(r1)) && At(code, m.ip + n1, CoerceCode(name))
    requires r1.Val? ==> Runs(h, code, After(m, [Coerced(h, name, r1.v)], r1.env, n1 + |CoerceCode(name)|), n2, AsList(r2))
    requires At(code, m.ip + n1 + |CoerceCode(name)| + n2, [WithStr(StoreArr, Uppercase(name))])
    ensures Runs(h, code, m, n1 + |CoerceCode(name)| + n2 + 1,
                 if r1.Fail? then FailList(r1.env) else AsRun(SetCell(h, name, r1.v, r2)))
  {
    hide Runs, Consumed, At, CoerceCode, Coerced, StoreCell, Uppercase;
    CoerceRuns(h, code, m, n1, name, r1);
    var k := n1 + |CoerceCode(name)|;
    var first := if r1.Fail? then FailList(r1.env) else Vals([Coerced(h, name, r1.v)], r1.env);
    Then(h, code, m, k, first, n2, AsList(r2));
    var both := Both(first, AsList(r2));
    assert both.Vals? ==> both.vs == [Coerced(h, name, r1.v), r2.v];
    ThenApply(h, code, m, k + n2, both, WithStr(StoreArr, Uppercase(name)));
    if both.Vals? {
      ConsumedCellStore(h, name, both.vs[0], both.vs[1], both.env);
    }
  }

  lemma CopyRuns(h: Host, code: seq<Instruction>, m: Vm, dst: string, src: string)
    requires At(code, m.ip, [WithStr(MatCopy, Uppercase(dst) + "|" + Uppercase(src))]) && '|' !in Uppercase(dst)
    ensures Runs(h, code, m, 1, AsRun(Settled(CopyArray(h, m.env, Uppercase(dst), Uppercase(src)))))
  {
    hide Runs, Consumed, At, CopyArray, Uppercase;
    Alone(h, code, m, WithStr(MatCopy, Uppercase(dst) + "|" + Uppercase(src)));
    ConsumedCopy(h, dst, src, m.env);
  }

  /** Statements without any transfer of control. */
  predicate IsStraight(s: Stmt) {
    s.Let? || s.Input? || s.Print? || s.Dim? || s.LetArray? || s.Clear? || s.Close? || s.Release? || s.MatFill? || s.MatAssign?
  }

  /** MAT COPY carries both array names in one text, separated by a bar. The statement parser admits only
      alphanumeric names, so this holds of every parsed program. */
  predicate MatNamesOk(s: Stmt) {
    s.MatAssign? ==> '|' !in s.matName
  }

  lemma NoBarInUppercase(name: string)
    requires '|' !in name
    ensures '|' !in Uppercase(name)
  {
    var u := Uppercase(name);
    forall i | 0 <= i < |u|
      ensures u[i] != '|'
    {
      assert u[i] == UpperChar(name[i]);
    }
  }

  lemma StraightFlow(h: Host, s: Stmt, env: Env)
    requires IsStraight(s) && StmtOk(s, true)
    ensures ExecSimple(h, s, env).Fall? || ExecSimple(h, s, env).Err?
  {
    hide Eval, ExprOk, StoreVariable, Dimension, StoreCell, FillArray, CopyArray, CallFiles, Uppercase, Trimmed;
  }

  lemma StraightRuns(h: Host, s: Stmt, code: seq<Instruction>, lines: LineMap, m: Vm)
    requires IsStraight(s) && StmtOk(s, true) && MatNamesOk(s) && At(code, m.ip, SimpleCode(s, lines))
    ensures ExecSimple(h, s, m.env).Fall? || ExecSimple(h, s, m.env).Err?
    ensures Runs(h, code, m, |SimpleCode(s, lines)|, AsRun(ExecSimple(h, s, m.env)))
  {
    hide Runs, At, SimpleCode, ExecSimple, IsValidVariableName;
    StraightFlow(h, s, m.env);
    if s.Let? || s.Input? || s.Print? {
      VariableRuns(h, s, code, lines, m);
    } else if s.Dim? || s.LetArray? || s.MatFill? || s.MatAssign? {
      ArrayRuns(h, s, code, lines, m);
    } else {
      PlainRuns(h, s, code, lines, m);
    }
  }

  lemma VariableRuns(h: Host, s: Stmt, code: seq<Instruction>, lines: LineMap, m: Vm)
    requires s.Let? || s.Input? || s.Print?
    requires StmtOk(s, true) && At(code, m.ip, SimpleCode(s, lines))
    requires ExecSimple(h, s, m.env).Fall? || ExecSimple(h, s, m.env).Err?
    ensures Runs(h, code, m, |SimpleCode(s, lines)|, AsRun(ExecSimple(h, s, m.env)))
  {
    hide Runs, Consumed, At, ExprOk, ExprCode, Eval, StoreCode, CoerceCode, Assign, TakeInput, Show, SetSize, SetCell, Fill, Free,
         CopyArray, CallFiles, Uppercase, IsValidVariableName;
    match s
    case Let(v, e) => LetCorrect(h, v, e, code, m);
    case Input(p, v) => InputCorrect(h, p, v, code, m);
    case Print(e, suppressEol) => PrintCorrect(h, e, suppressEol, code, m);
  }

  lemma ArrayRuns(h: Host, s: Stmt, code: seq<Instruction>, lines: LineMap, m: Vm)
    requires (s.Dim? || s.LetArray? || s.MatFill? || s.MatAssign?) && MatNamesOk(s)
    requires StmtOk(s, true) && At(code, m.ip, SimpleCode(s, lines))
    requires ExecSimple(h, s, m.env).Fall? || ExecSimple(h, s, m.env).Err?
    ensures Runs(h, code, m, |SimpleCode(s, lines)|, AsRun(ExecSimple(h, s, m.env)))
  {
    hide Runs, Consumed, At, ExprOk, ExprCode, Eval, StoreCode, CoerceCode, Assign, TakeInput, Show, SetSize, SetCell, Fill, Free,
         CopyArray, CallFiles, Uppercase, IsValidVariableName;
    match s
    case Dim(v, e) => DimCorrect(h, v, e, code, m);
    case LetArray(v, i, e) => LetArrayCorrect(h, v, i, e, code, lines, m);
    case MatFill(a, e) => FillCorrect(h, a, e, code, m);
    case MatAssign(a, src) =>
      NoBarInUppercase(a);
      CopyRuns(h, code, m, a, src);
  }

  lemma PlainRuns(h: Host, s: Stmt, code: seq<Instruction>, lines: LineMap, m: Vm)
    requires s.Clear? || s.Close? || s.Release?
    requires StmtOk(s, true) && At(code, m.ip, SimpleCode(s, lines))
    requires ExecSimple(h, s, m.env).Fall? || ExecSimple(h, s, m.env).Err?
    ensures Runs(h, code, m, |SimpleCode(s, lines)|, AsRun(ExecSimple(h, s, m.env)))
  {
    hide Runs, Consumed, At, ExprOk, ExprCode, Eval, StoreCode, CoerceCode, Assign, TakeInput, Show, SetSize, SetCell, Fill, Free,
         CopyArray, CallFiles, Uppercase, IsValidVariableName;
    match s
    case Clear => ClearCorrect(h, code, m);
    case Close(f) => CloseCorrect(h, f, code, m);
    case Release(f, id) => ReleaseCorrect(h, f, id, code, m);
  }

  lemma ClearCorrect(h: Host, code: seq<Instruction>, m: Vm)
    requires At(code, m.ip, [Plain(ClearVars)])
    ensures Runs(h, code, m, 1, Vals([], m.env.(vars := map[], arrays := map[])))
  {
    hide Runs, At, Consumed;
    Alone(h, code, m, Plain(ClearVars));
    ConsumedClear(h, m.env);
  }

  lemma CloseCorrect(h: Host, f: string, code: seq<Instruction>, m: Vm)
    requires At(code, m.ip, [WithStr(CloseFile, Uppercase(f))])
    ensures Runs(h, code, m, 1, Vals([], CallFiles(h, m.env, IoClose, Uppercase(f), []).env))
  {
    hide Runs, At, Consumed, CallFiles;
    Alone(h, code, m, WithStr(CloseFile, Uppercase(f)));
    ConsumedClose(h, f, m.env);
  }

  lemma LetCorrect(h: Host, v: string, e: Expr, code: seq<Instruction>, m: Vm)
    requires ExprOk(e, false) && At(code, m.ip, ExprCode(e, false) + StoreCode(v))
    ensures Runs(h, code, m, |ExprCode(e, false) + StoreCode(v)|, AsRun(Assign(h, v, Eval(h, e, false, m.env))))
  {
    hide Runs, At, ExprOk, ExprCode, Eval, StoreCode, Assign;
    AtSplit(code, m.ip, ExprCode(e, false), StoreCode(v));
    ExprCorrect(h, e, false, code, m);
    AssignRuns(h, code, m, |ExprCode(e, false)|, v, Eval(h, e, false, m.env));
  }

  lemma PrintCorrect(h: Host, e: Expr, suppressEol: bool, code: seq<Instruction>, m: Vm)
    requires ExprOk(e, false)
    requires At(code, m.ip, ExprCode(e, false) + [Plain(PrintVal)] + (if suppressEol then [] else [Plain(PrintEol)]))
    ensures Runs(h, code, m, |ExprCode(e, false) + [Plain(PrintVal)] + (if suppressEol then [] else [Plain(PrintEol)])|,
                 AsRun(Show(h, suppressEol, Eval(h, e, false, m.env))))
  {
    hide Runs, At, ExprOk, ExprCode, Eval;
    var eol := if suppressEol then [] else [Plain(PrintEol)];
    assert ExprCode(e, false) + [Plain(PrintVal)] + eol == ExprCode(e, false) + ([Plain(PrintVal)] + eol);
    AtSplit(code, m.ip, ExprCode(e, false), [Plain(PrintVal)] + eol);
    ExprCorrect(h, e, false, code, m);
    PrintRuns(h, code, m, |ExprCode(e, false)|, suppressEol, Eval(h, e, false, m.env));
  }

  lemma DimCorrect(h: Host, v: string, e: Expr, code: seq<Instruction>, m: Vm)
    requires ExprOk(e, false) && At(code, m.ip, ExprCode(e, false) + [WithStr(DimArray, Uppercase(v))])
    ensures Runs(h, code, m, |ExprCode(e, false) + [WithStr(DimArray, Uppercase(v))]|, AsRun(SetSize(h, v, Eval(h, e, false, m.env))))
  {
    hide Runs, At, ExprOk, ExprCode, Eval, SetSize, Uppercase;
    AtSplit(code, m.ip, ExprCode(e, false), [WithStr(DimArray, Uppercase(v))]);
    ExprCorrect(h, e, false, code, m);
    SizeRuns(h, code, m, |ExprCode(e, false)|, v, Eval(h, e, false, m.env));
  }

  lemma ReleaseCorrect(h: Host, f: string, e: Expr, code: seq<Instruction>, m: Vm)
    requires ExprOk(e, false) && At(code, m.ip, ExprCode(e, false) + [WithStr(ReleaseRec, Uppercase(f))])
    ensures Runs(h, code, m, |ExprCode(e, false) + [WithStr(ReleaseRec, Uppercase(f))]|, AsRun(Free(h, f, Eval(h, e, false, m.env))))
  {
    hide Runs, At, ExprOk, ExprCode, Eval, Free, Uppercase;
    AtSplit(code, m.ip, ExprCode(e, false), [WithStr(ReleaseRec, Uppercase(f))]);
    ExprCorrect(h, e, false, code, m);
    ReleaseRuns(h, code, m, |ExprCode(e, false)|, f, Eval(h, e, false, m.env));
  }

  lemma FillCorrect(h: Host, a: string, e: Expr, code: seq<Instruction>, m: Vm)
    requires ExprOk(e, false) && At(code, m.ip, ExprCode(e, false) + [WithStr(MatInit, Uppercase(a))])
    ensures Runs(h, code, m, |ExprCode(e, false) + [WithStr(MatInit, Uppercase(a))]|, AsRun(Fill(h, a, Eval(h, e, false, m.env))))
  {
    hide Runs, At, ExprOk, ExprCode, Eval, Fill, Uppercase;
    AtSplit(code, m.ip, ExprCode(e, false), [WithStr(MatInit, Uppercase(a))]);
    ExprCorrect(h, e, false, code, m);
    FillRuns(h, code, m, |ExprCode(e, false)|, a, Eval(h, e, false, m.env));
  }

  lemma InputCorrect(h: Host, p: Option<Expr>, v: string, code: seq<Instruction>, m: Vm)
    requires OptOk(p)
    requires At(code, m.ip, (if p.Some? then ExprCode(p.value, false) + [Plain(PrintVal)] else []) + [Plain(InputStr)] + StoreCode(v))
    ensures Runs(h, code, m,
                 |(if p.Some? then ExprCode(p.value, false) + [Plain(PrintVal)] else []) + [Plain(InputStr)] + StoreCode(v)|,
                 AsRun(if p.Some? then ShowPrompt(h, v, Eval(h, p.value, false, m.env)) else TakeInput(h, v, m.env)))
  {
    hide Runs, Consumed, At, ExprOk, ExprCode, Eval, StoreCode, Assign, TakeInput, Uppercase;
    var prompt := if p.Some? then ExprCode(p.value, false) + [Plain(PrintVal)] else [];
    assert prompt + [Plain(InputStr)] + StoreCode(v) == prompt + ([Plain(InputStr)] + StoreCode(v));
    AtSplit(code, m.ip, prompt, [Plain(InputStr)] + StoreCode(v));
    var rest := 1 + |StoreCode(v)|;
    if p.None? {
      InputRuns(h, code, m, v);
    } else {
      AtSplit(code, m.ip, ExprCode(p.value, false), [Plain(PrintVal)]);
      ExprCorrect(h, p.value, false, code, m);
      var r := Eval(h, p.value, false, m.env);
      var shown := if r.Fail? then FailList(r.env) else Vals([], Log(r.env, Printed(h.toText(r.v))));
      if r.Val? {
        ConsumedPrint(h, r.v, r.env);
      }
      UseValue(h, code, m, |ExprCode(p.value, false)|, r, Plain(PrintVal), shown);
      if shown.Vals? {
        InputRuns(h, code, m.(env := shown.env, ip := m.ip + |prompt|), v);
        TakeInputFlow(h, v, shown.env);
        ThenRun(h, code, m, |prompt|, shown, rest, AsRun(TakeInput(h, v, shown.env)));
      } else {
        ThenRun(h, code, m, |prompt|, shown, rest, shown);
      }
    }
  }

  lemma TakeInputFlow(h: Host, name: string, env: Env)
    ensures TakeInput(h, name, env).Fall? || TakeInput(h, name, env).Err?
  {
  }

  lemma LetArrayCorrect(h: Host, v: string, i: Expr, e: Expr, code: seq<Instruction>, lines: LineMap, m: Vm)
    requires StmtOk(LetArray(v, i, e), true) && At(code, m.ip, SimpleCode(LetArray(v, i, e), lines))
    requires ExecSimple(h, LetArray(v, i, e), m.env).Fall? || ExecSimple(h, LetArray(v, i, e), m.env).Err?
    ensures Runs(h, code, m, |SimpleCode(LetArray(v, i, e), lines)|, AsRun(ExecSimple(h, LetArray(v, i, e), m.env)))
  {
    hide Runs, Consumed, At, ExprOk, ExprCode, Eval, CoerceCode, Coerced, StoreCell, Uppercase;
    var ce, ci := ExprCode(e, false), ExprCode(i, false);
    AtSplit3(code, m.ip, ce + CoerceCode(v), ci, [WithStr(StoreArr, Uppercase(v))]);
    AtSplit(code, m.ip, ce, CoerceCode(v));
    ExprCorrect(h, e, false, code, m);
    var r1 := Eval(h, e, false, m.env);
    if r1.Val? {
      ExprCorrect(h, i, false, code, After(m, [Coerced(h, v, r1.v)], r1.env, |ce| + |CoerceCode(v)|));
      CellRuns(h, code, m, |ce|, v, r1, |ci|, Eval(h, i, false, r1.env));
    } else {
      CellRuns(h, code, m, |ce|, v, r1, |ci|, r1);
    }
  }

  // ---------------------------------------------------------------------------------------------
  // Statements that transfer control
  // ---------------------------------------------------------------------------------------------

  lemma ChainLands(h: Host, e: Expr, code: seq<Instruction>, lines: LineMap, m: Vm)
    requires ExprOk(e, false) && At(code, m.ip, ExprCode(e, false) + [Plain(Chain)])
    ensures Lands(code, lines, m, m.ip + |ExprCode(e, false)| + 1, LeaveFor(h, Eval(h, e, false, m.env)),
                  Exec(h, code, m, |ExprCode(e, false)| + 1))
  {
    hide At, ExprOk, ExprCode, Eval, Exec, Step, DataEffect;
    var n := |ExprCode(e, false)|;
    AtSplit(code, m.ip, ExprCode(e, false), [Plain(Chain)]);
    ExprCorrect(h, e, false, code, m);
    ExecAdd(h, code, m, n, 1);
    var r := Eval(h, e, false, m.env);
    if r.Val? {
      DataStepOn(h, code, After(m, [r.v], r.env, n), m.stack, [r.v], Plain(Chain));
      ChainEffect(h, r.v, r.env);
    }
  }

  lemma ChainToLands(h: Host, s: Stmt, code: seq<Instruction>, lines: LineMap, m: Vm) returns (n: nat)
    requires s.ChainTo? && StmtOk(s, true) && At(code, m.ip, SimpleCode(s, lines))
    ensures Lands(code, lines, m, m.ip + |SimpleCode(s, lines)|, ExecSimple(h, s, m.env), Exec(h, code, m, n))
    ensures n > 0
  {
    hide At, ExprOk, ExprCode, Eval, Exec, Lands, LeaveFor;
    n := |SimpleCode(s, lines)|;
    ChainLands(h, s.program, code, lines, m);
  }

  lemma ChainEffect(h: Host, v: Value, env: Env)
    ensures DataEffect(h, Plain(Chain), [v], env) == if h.toText(v) == "" then Raise(env) else Leave(h.toText(v), env)
  {
  }

  lemma CallStep(h: Host, code: seq<Instruction>, m: Vm, target: nat)
    requires m.ip < |code| && code[m.ip] == WithInt(Call, target)
    ensures Exec(h, code, m, 1) == Running(m.(calls := m.calls + [m.ip + 1], ip := target))
  {
    hide DataStep;
    var o := Step(h, code, m);
    assert o == Running(m.(calls := m.calls + [m.ip + 1], ip := target));
    assert Exec(h, code, o.vm, 0) == o;
  }

  lemma HaltStep(h: Host, code: seq<Instruction>, m: Vm)
    requires m.ip < |code| && code[m.ip] == Plain(Halt)
    ensures Exec(h, code, m, 1) == Running(m.(ip := |code|))
  {
    hide DataStep;
    var o := Step(h, code, m);
    assert Exec(h, code, o.vm, 0) == o;
  }

  lemma HandlerStep(h: Host, code: seq<Instruction>, m: Vm, target: nat)
    requires m.ip < |code| && code[m.ip] == WithInt(SetOnErrorHandler, target)
    ensures Exec(h, code, m, 1) == Running(m.(onError := if target == 0 then None else Some(target), ip := m.ip + 1))
  {
    hide DataStep;
    var o := Step(h, code, m);
    assert Exec(h, code, o.vm, 0) == o;
  }

  /** What is on the stack when FOR_SETUP is reached. */
  function LoopValues(stored: Flow, r1: Evaluated, r2: Evaluated): EvaluatedList
    requires stored.Fall? || stored.Err?
  {
    if stored.Err? then FailList(stored.env)
    else if r1.Fail? then FailList(r1.env)
    else if r2.Fail? then FailList(r2.env)
    else Vals([r1.v, r2.v], r2.env)
  }

  lemma LoopRuns(h: Host, code: seq<Instruction>, m: Vm, k: nat, stored: Flow, n1: nat, r1: Evaluated, n2: nat, r2: Evaluated)
    requires (stored.Fall? || stored.Err?) && Runs(h, code, m, k, AsRun(stored))
    requires stored.Fall? ==> Runs(h, code, m.(env := stored.env, ip := m.ip + k), n1, AsList(r1))
    requires stored.Fall? && r1.Val? ==>
               Runs(h, code, After(m.(env := stored.env, ip := m.ip + k), [r1.v], r1.env, n1), n2, AsList(r2))
    ensures Runs(h, code, m, k + (n1 + n2), LoopValues(stored, r1, r2))
  {
    hide Runs;
    if stored.Fall? {
      Then(h, code, m.(env := stored.env, ip := m.ip + k), n1, AsList(r1), n2, AsList(r2));
      var both := Both(AsList(r1), AsList(r2));
      assert both.Vals? ==> both.vs == [r1.v, r2.v];
    }
    ThenRun(h, code, m, k, AsRun(stored), n1 + n2, LoopValues(stored, r1, r2));
  }

  /** FOR up to its last instruction: assignment, limit and step. */
  lemma ForRuns(h: Host, v: string, init: Expr, limit: Expr, step: Option<Expr>, code: seq<Instruction>, m: Vm)
    requires ExprOk(init, false) && ExprOk(limit, false) && OptOk(step)
    requires At(code, m.ip, ExprCode(init, false) + StoreCode(v) + ExprCode(limit, false) + OptCode(step, [WithInt(PushInt, 1)]))
    ensures var stored := Assign(h, v, Eval(h, init, false, m.env));
            (stored.Fall? || stored.Err?) &&
            var r1 := if stored.Fall? then Eval(h, limit, false, stored.env) else Fail(stored.env);
            var r2 := if r1.Val? then EvalOpt(h, step, IntV(1), r1.env) else r1;
            Runs(h, code, m, |ExprCode(init, false)| + |StoreCode(v)| + (|ExprCode(limit, false)| + |OptCode(step, [WithInt(PushInt, 1)])|),
                 LoopValues(stored, r1, r2))
  {
    hide At, Runs, ExprOk, ExprCode, Eval, OptOk, OptCode, EvalOpt, StoreCode, Assign, LoopValues, AsRun, AsList;
    var ci, cs, cl, cp := ExprCode(init, false), StoreCode(v), ExprCode(limit, false), OptCode(step, [WithInt(PushInt, 1)]);
    AtSplit(code, m.ip, ci + cs + cl, cp);
    AtSplit3(code, m.ip, ci, cs, cl);
    ExprCorrect(h, init, false, code, m);
    AssignFlow(h, v, Eval(h, init, false, m.env));
    AssignRuns(h, code, m, |ci|, v, Eval(h, init, false, m.env));
    var stored := Assign(h, v, Eval(h, init, false, m.env));
    var k := |ci| + |cs|;
    var r1 := if stored.Fall? then Eval(h, limit, false, stored.env) else Fail(stored.env);
    var r2 := if r1.Val? then EvalOpt(h, step, IntV(1), r1.env) else r1;
    if stored.Fall? {
      var m1 := m.(env := stored.env, ip := m.ip + k);
      ExprCorrect(h, limit, false, code, m1);
      if r1.Val? {
        OptRuns(h, step, IntV(1), code, After(m1, [r1.v], r1.env, |cl|));
      }
    }
    LoopRuns(h, code, m, k, stored, |cl|, r1, |cp|, r2);
  }

  lemma ForLands(h: Host, s: Stmt, code: seq<Instruction>, lines: LineMap, m: Vm)
    requires s.For? && StmtOk(s, true) && At(code, m.ip, SimpleCode(s, lines))
    ensures |SimpleCode(s, lines)| >= 2
    ensures Lands(code, lines, m, m.ip + |SimpleCode(s, lines)|, ExecSimple(h, s, m.env),
                  Exec(h, code, m, |SimpleCode(s, lines)| - 1))
  {
    hide At, Runs, ExprOk, ExprCode, Eval, OptOk, OptCode, EvalOpt, Assign, Uppercase, Exec, CoerceCode;
    var For(v, init, limit, step) := s;
    var ci, cs, cl, cp := ExprCode(init, false), StoreCode(v), ExprCode(limit, false), OptCode(step, [WithInt(PushInt, 1)]);
    var setup := [WithStr(ForSetup, Uppercase(v))];
    AtSplit(code, m.ip, ci + cs + cl + cp, setup);
    ForRuns(h, v, init, limit, step, code, m);
    var stored := Assign(h, v, Eval(h, init, false, m.env));
    var r1 := if stored.Fall? then Eval(h, limit, false, stored.env) else Fail(stored.env);
    var r2 := if r1.Val? then EvalOpt(h, step, IntV(1), r1.env) else r1;
    RunsExec(h, code, m, |ci| + |cs| + (|cl| + |cp|), LoopValues(stored, r1, r2));
    AtOne(code, m.ip + |ci + cs + cl + cp|, setup[0]);
    AtInside(code, m.ip, SimpleCode(s, lines));
  }

  lemma AtInside(code: seq<Instruction>, at: nat, part: seq<Instruction>)
    requires At(code, at, part)
    ensures at + |part| <= |code|
  {
  }

  lemma RunsExec(h: Host, code: seq<Instruction>, m: Vm, n: nat, r: EvaluatedList)
    requires Runs(h, code, m, n, r)
    ensures Exec(h, code, m, n) == Delivered(m, r, n)
  {
  }

  lemma AssignFlow(h: Host, name: string, r: Evaluated)
    ensures Assign(h, name, r).Fall? || Assign(h, name, r).Err?
  {
  }

  lemma OptRuns(h: Host, e: Option<Expr>, v: Value, code: seq<Instruction>, m: Vm)
    requires OptOk(e) && At(code, m.ip, OptCode(e, [PushOf(v)]))
    ensures Runs(h, code, m, |OptCode(e, [PushOf(v)])|, AsList(EvalOpt(h, e, v, m.env)))
  {
    hide Runs, At, ExprCode, Eval;
    if e.Some? {
      ExprCorrect(h, e.value, false, code, m);
    } else {
      PushCorrect(h, v, code, m);
    }
  }

  /** Every statement other than file statements and IF. */
  lemma SimpleLands(h: Host, s: Stmt, code: seq<Instruction>, lines: LineMap, m: Vm) returns (n: nat)
    requires IsSimple(s) && StmtOk(s, true) && MatNamesOk(s) && At(code, m.ip, SimpleCode(s, lines))
    ensures Lands(code, lines, m, m.ip + |SimpleCode(s, lines)|, ExecSimple(h, s, m.env), Exec(h, code, m, n))
    ensures n == 0 ==> s.Rem? || s.Next? || s.ReturnStmt?
  {
    hide Lands, At, SimpleCode, ExecSimple, Exec, ExprOk, IsValidVariableName;
    if IsStraight(s) {
      n := StraightLands(h, s, code, lines, m);
    } else if s.For? {
      ForLands(h, s, code, lines, m);
      n := |SimpleCode(s, lines)| - 1;
    } else if s.ChainTo? {
      n := ChainToLands(h, s, code, lines, m);
    } else {
      n := JumpLands(h, s, code, lines, m);
    }
  }

  lemma StraightLands(h: Host, s: Stmt, code: seq<Instruction>, lines: LineMap, m: Vm) returns (n: nat)
    requires IsStraight(s) && StmtOk(s, true) && MatNamesOk(s) && At(code, m.ip, SimpleCode(s, lines))
    ensures Lands(code, lines, m, m.ip + |SimpleCode(s, lines)|, ExecSimple(h, s, m.env), Exec(h, code, m, n))
    ensures n > 0
  {
    hide Lands, At, ExecSimple, ExprCode, ExprOk, IsValidVariableName, Runs, Exec;
    n := |SimpleCode(s, lines)|;
    StraightRuns(h, s, code, lines, m);
    RunsLands(h, code, lines, m, n, AsRun(ExecSimple(h, s, m.env)));
  }

  /** The code and the flow of the statements that only transfer control. */
  lemma JumpMeaning(h: Host, s: Stmt, lines: LineMap, env: Env)
    requires s.Goto? || s.Gosub? || s.ReturnStmt? || s.Next? || s.Rem? || s.Stop? || s.End? || s.OnError?
    ensures StmtOk(s, true)
    ensures SimpleCode(s, lines) ==
            if s.Goto? then [WithInt(Jump, Address(lines, s.target))]
            else if s.Gosub? then [WithInt(Call, Address(lines, s.target))]
            else if s.ReturnStmt? then [Plain(Return)]
            else if s.Next? then [WithStr(ForNext, Uppercase(s.variable))]
            else if s.Rem? then []
            else if s.OnError? then [WithInt(SetOnErrorHandler, if s.stop then 0 else Address(lines, s.target))]
            else [Plain(Halt)]
    ensures ExecSimple(h, s, env) ==
            if s.Goto? then ToLine(s.target, env)
            else if s.Gosub? then SubLine(s.target, env)
            else if s.ReturnStmt? then Back(env)
            else if s.Next? then LoopNext(Uppercase(s.variable), env)
            else if s.Rem? then Fall(env)
            else if s.OnError? then Handler(if s.stop then None else Some(s.target), env)
            else Quit(env)
  {
    hide ExprOk, ExprCode, Eval, Uppercase, Address;
  }

  lemma LeadsHere(code: seq<Instruction>, at: nat)
    ensures LeadsTo(code, at, at)
  {
  }

  lemma JumpLands(h: Host, s: Stmt, code: seq<Instruction>, lines: LineMap, m: Vm) returns (n: nat)
    requires s.Goto? || s.Gosub? || s.ReturnStmt? || s.Next? || s.Rem? || s.Stop? || s.End? || s.OnError?
    requires StmtOk(s, true) && At(code, m.ip, SimpleCode(s, lines))
    ensures Lands(code, lines, m, m.ip + |SimpleCode(s, lines)|, ExecSimple(h, s, m.env), Exec(h, code, m, n))
    ensures n == 0 ==> s.Rem? || s.Next? || s.ReturnStmt?
  {
    hide Exec, StmtOk, SimpleCode, ExecSimple, Uppercase, LeadsTo;
    JumpMeaning(h, s, lines, m.env);
    ExecZero(h, code, m);
    if !s.Rem? {
      AtOne(code, m.ip, SimpleCode(s, lines)[0]);
    }
    match s
    case Goto(k) => JumpStep(h, code, m, Address(lines, k)); n := 1;
    case Gosub(k) =>
      CallStep(h, code, m, Address(lines, k));
      LeadsHere(code, m.ip + 1);
      n := 1;
    case ReturnStmt => n := 0;
    case Next(_) => n := 0;
    case Rem => n := 0;
    case Stop => HaltStep(h, code, m); n := 1;
    case End => HaltStep(h, code, m); n := 1;
    case OnError(stop, k) => HandlerStep(h, code, m, if stop then 0 else Address(lines, k)); n := 1;
  }

  lemma ExecZero(h: Host, code: seq<Instruction>, m: Vm)
    ensures Exec(h, code, m, 0) == Running(m)
  {
  }

  // ---------------------------------------------------------------------------------------------
  // File statements
  // ---------------------------------------------------------------------------------------------

  lemma FileArgRuns(h: Host, fileVar: string, a: FileArg, code: seq<Instruction>, m: Vm)
    requires FileArgOk(a) && At(code, m.ip, FileArgCode(fileVar, a))
    ensures Runs(h, code, m, |FileArgCode(fileVar, a)|, AsList(EvalFileArg(h, fileVar, a, m.env)))
  {
    hide Runs, At, Consumed, ExprCode, ExprOk, Eval, PackArray, ResolveDict, Uppercase;
    match a
    case ConstArg(n) => PushCorrect(h, IntV(n), code, m);
    case PackArg(name) =>
      Alone(h, code, m, WithStr(MatStoreToRec, Uppercase(name)));
      ConsumedPack(h, name, m.env);
    case ExprArg(e) => ExprCorrect(h, e, false, code, m);
    case DictArg(e) =>
      AtSplit(code, m.ip, ExprCode(e, false), [WithStr(ResolveDictAttr, Uppercase(fileVar))]);
      ExprCorrect(h, e, false, code, m);
      var r := Eval(h, e, false, m.env);
      if r.Val? {
        ConsumedResolve(h, fileVar, r.v, r.env);
      }
      UseValue(h, code, m, |ExprCode(e, false)|, r, WithStr(ResolveDictAttr, Uppercase(fileVar)), AsList(EvalFileArg(h, fileVar, a, m.env)));
  }

  lemma {:induction false} FileArgsRuns(h: Host, fileVar: string, args: seq<FileArg>, code: seq<Instruction>, m: Vm)
    requires (forall a | a in args :: FileArgOk(a)) && At(code, m.ip, FileArgsCode(fileVar, args))
    ensures Runs(h, code, m, |FileArgsCode(fileVar, args)|, EvalFileArgs(h, fileVar, args, m.env))
    decreases |args|
  {
    hide Runs, At, FileArgCode, EvalFileArg, FileArgOk;
    if args == [] {
      Nothing(h, code, m);
    } else {
      var c0, rest := FileArgCode(fileVar, args[0]), FileArgsCode(fileVar, args[1..]);
      AtSplit(code, m.ip, c0, rest);
      FileArgRuns(h, fileVar, args[0], code, m);
      var e0 := AsList(EvalFileArg(h, fileVar, args[0], m.env));
      if e0.Vals? {
        FileArgsRuns(h, fileVar, args[1..], code, After(m, e0.vs, e0.env, |c0|));
        Then(h, code, m, |c0|, e0, |rest|, EvalFileArgs(h, fileVar, args[1..], e0.env));
      } else {
        Then(h, code, m, |c0|, e0, |rest|, e0);
      }
    }
  }

  /** Values left by a file opcode that completed: what it read, then the flag of a trying form. */
  function Left(kind: IoKind, trying: bool, v: Value, flag: int): seq<Value> {
    (if Reads(kind) then [v] else []) + (if trying then [IntV(flag)] else [])
  }

  /** The file opcode applied to its operands. */
  lemma FileOpStep(h: Host, code: seq<Instruction>, m: Vm, base: seq<Value>, args: seq<Value>, op: OpCode, fileVar: string)
    requires IoOf(op).Some? && |args| == IoArity(IoOf(op).value)
    requires At(code, m.ip, [WithStr(op, Uppercase(fileVar))]) && m.stack == base + args
    ensures var kind := IoOf(op).value;
            var a := CallFiles(h, m.env, kind, Uppercase(fileVar), args);
            var m' := m.(env := a.env, ip := m.ip + 1);
            Exec(h, code, m, 1) ==
            match Judge(kind, IsTry(op), a.answer)
            case Success(v) => Running(m'.(stack := base + Left(kind, IsTry(op), v, 1)))
            case Miss => Running(m'.(stack := base + Left(kind, IsTry(op), StrV(""), 0)))
            case Conflict => OnClash(m.(stack := base), a.env)
            case Stops => Fault(Raised, a.env)
  {
    hide Exec, Step, DataStep, At, CallFiles, Judge, OnClash;
    var ins := WithStr(op, Uppercase(fileVar));
    UppercaseTwice(fileVar);
    FileOpIsData(op, fileVar);
    MissOnlyWhenTrying(IoOf(op).value, CallFiles(h, m.env, IoOf(op).value, Uppercase(fileVar), args).answer);
    DataStepOn(h, code, m, base, args, ins);
  }

  lemma FileOpIsData(op: OpCode, fileVar: string)
    requires IoOf(op).Some?
    ensures IsData(op) && OperandFits(WithStr(op, Uppercase(fileVar))) && !IsOperator(op) &&
            Pops(WithStr(op, Uppercase(fileVar))) == IoArity(IoOf(op).value)
  {
  }

  lemma MissOnlyWhenTrying(kind: IoKind, answer: IoAnswer)
    ensures Judge(kind, false, answer) != Miss
    ensures Judge(kind, true, answer) != Conflict
  {
  }

  /** Facts about the ten file statements. */
  lemma FileShape(s: Stmt, top: bool)
    requires IsFile(s)
    ensures IoOf(FileOp(s)).Some? && !IsTry(FileOp(s))
    ensures IoOf(TryOp(FileOp(s))) == IoOf(FileOp(s)) && IsTry(TryOp(FileOp(s)))
    ensures |FileArgs(s, top)| == IoArity(FileIo(s))
    ensures Reads(FileIo(s)) <==> !FileSink(s).NoSink?
  {
  }

  /** Delivering an obtained value, which is on top of the stack `base`. */
  lemma SinkLands(h: Host, code: seq<Instruction>, lines: LineMap, m: Vm, base: seq<Value>, sink: Sink, v: Value)
    requires At(code, m.ip, SinkCode(sink)) && m.stack == base + (if sink.NoSink? then [] else [v])
    ensures Lands(code, lines, m.(stack := base), m.ip + |SinkCode(sink)|, Deliver(h, sink, v, m.env),
                  Exec(h, code, m, |SinkCode(sink)|))
  {
    hide Exec, At, Consumed, StoreVariable, LoadArray, Uppercase;
    if sink.NoSink? {
      ExecZero(h, code, m);
      assert m.stack == base;
    } else {
      var m0 := m.(stack := base, ip := m.ip);
      var ins := SinkCode(sink)[0];
      var flow := Deliver(h, sink, v, m.env);
      if sink.VarSink? {
        ConsumedStore(h, sink.name, v, m.env);
      } else {
        ConsumedLoadArray(h, sink.name, v, m.env);
      }
      StoreStep(h, code, m, base, v, ins);
    }
  }

  lemma StoreStep(h: Host, code: seq<Instruction>, m: Vm, base: seq<Value>, v: Value, ins: Instruction)
    requires At(code, m.ip, [ins]) && m.stack == base + [v] && (ins.op.StoreVar? || ins.op.MatLoadFromRec?) && ins.operand.StrV?
    ensures var r := Consumed(h, ins, Vals([v], m.env));
            Exec(h, code, m, 1) ==
            if r.FailList? then Fault(Raised, r.env) else Running(m.(env := r.env, stack := base, ip := m.ip + 1))
  {
    hide Exec, Step, At, DataEffect;
    DataStepOn(h, code, m, base, [v], ins);
    PushesOrRaises(h, ins, [v], m.env);
    var e := DataEffect(h, ins, [v], m.env);
    assert e.Push? ==> e.vs == [] && base + e.vs == base;
  }

  /** The flow of a file operation once its operands are known; `other` is the flow of the ELSE arm. */
  function FileFlow(h: Host, s: Stmt, vs: seq<Value>, env: Env, other: Flow): Flow
    requires IsFile(s)
  {
    var a := CallFiles(h, env, FileIo(s), Uppercase(s.fileVar), vs);
    match Judge(FileIo(s), s.elseArm.Some?, a.answer)
    case Success(v) => Deliver(h, FileSink(s), v, a.env)
    case Miss => other
    case Conflict => Blocked(a.env)
    case Stops => Err(a.env)
  }

  /** Without ELSE: operands, the failing opcode, the sink. */
  lemma PlainFileLands(h: Host, s: Stmt, code: seq<Instruction>, lines: LineMap, m: Vm, n: nat, vs: seq<Value>, env: Env) returns (n': nat)
    requires IsFile(s) && s.elseArm.None? && Runs(h, code, m, n, Vals(vs, env)) && |vs| == IoArity(FileIo(s))
    requires At(code, m.ip + n, [WithStr(FileOp(s), Uppercase(s.fileVar))] + SinkCode(FileSink(s)))
    ensures Lands(code, lines, m, m.ip + n + 1 + |SinkCode(FileSink(s))|, FileFlow(h, s, vs, env, Err(env)), Exec(h, code, m, n'))
    ensures n' > 0
  {
    hide Exec, At, Runs, SinkCode, FileOp, FileSink, FileIo, CallFiles, Judge, Deliver, Uppercase, Reads;
    FileShape(s, true);
    var op, sink := FileOp(s), FileSink(s);
    assert IoOf(op).value == FileIo(s) by { FileIoIs(s); }
    AtSplit(code, m.ip + n, [WithStr(op, Uppercase(s.fileVar))], SinkCode(sink));
    RunsExec(h, code, m, n, Vals(vs, env));
    var m1 := After(m, vs, env, n);
    FileOpStep(h, code, m1, m.stack, vs, op, s.fileVar);
    ExecAdd(h, code, m, n, 1);
    var a := CallFiles(h, env, FileIo(s), Uppercase(s.fileVar), vs);
    var verdict := Judge(FileIo(s), false, a.answer);
    MissOnlyWhenTrying(FileIo(s), a.answer);
    n' := n + 1;
    if verdict.Success? {
      var m2 := Exec(h, code, m1, 1).vm;
      assert m2.stack == m.stack + (if sink.NoSink? then [] else [verdict.v]);
      SinkLands(h, code, lines, m2, m.stack, sink, verdict.v);
      ExecAdd(h, code, m, n + 1, |SinkCode(sink)|);
      LandsSame(h, code, lines, m2.(stack := m.stack), m, m2.ip + |SinkCode(sink)|, Deliver(h, sink, verdict.v, a.env),
                Exec(h, code, m2, |SinkCode(sink)|));
      n' := n + 1 + |SinkCode(sink)|;
    }
  }

  lemma FileIoIs(s: Stmt)
    requires IsFile(s)
    ensures IoOf(FileOp(s)) == Some(FileIo(s))
  {
    FileShape(s, true);
  }

  /** Landing does not depend on the starting environment and address. */
  lemma LandsSame(h: Host, code: seq<Instruction>, lines: LineMap, m: Vm, m': Vm, end: nat, f: Flow, o: Outcome)
    requires m' == m.(env := m'.env, ip := m'.ip) && Lands(code, lines, m, end, f, o)
    ensures Lands(code, lines, m', end, f, o)
  {
  }

  /** With ELSE: operands, the trying opcode and its flag test. A success continues with the sink and a
      jump over the arm; a miss continues at the arm, after dropping the placeholder value. */
  lemma TryStep(h: Host, s: Stmt, code: seq<Instruction>, m: Vm, n: nat, vs: seq<Value>, env: Env, miss: nat)
    requires IsFile(s) && s.elseArm.Some? && Runs(h, code, m, n, Vals(vs, env)) && |vs| == IoArity(FileIo(s))
    requires At(code, m.ip + n, [WithStr(TryOp(FileOp(s)), Uppercase(s.fileVar)), WithInt(JumpIfZero, miss)])
    ensures var a := CallFiles(h, env, FileIo(s), Uppercase(s.fileVar), vs);
            var got := (v: Value) => if FileSink(s).NoSink? then [] else [v];
            Exec(h, code, m, n + 2) ==
            match Judge(FileIo(s), true, a.answer)
            case Success(v) => Running(m.(env := a.env, stack := m.stack + got(v), ip := m.ip + n + 2))
            case Miss => Running(m.(env := a.env, stack := m.stack + got(StrV("")), ip := miss))
            case Conflict => Fault(Raised, a.env)
            case Stops => Fault(Raised, a.env)
  {
    hide Exec, Step, At, Runs, FileOp, TryOp, FileSink, FileIo, CallFiles, Judge, Uppercase, Reads;
    FileShape(s, true);
    FileIoIs(s);
    var op := TryOp(FileOp(s));
    var both := [WithStr(op, Uppercase(s.fileVar)), WithInt(JumpIfZero, miss)];
    assert both == [both[0]] + [both[1]];
    AtSplit(code, m.ip + n, [both[0]], [both[1]]);
    AtOne(code, m.ip + n + 1, both[1]);
    AtInside(code, m.ip + n + 1, [both[1]]);
    RunsExec(h, code, m, n, Vals(vs, env));
    var m1 := After(m, vs, env, n);
    FileOpStep(h, code, m1, m.stack, vs, op, s.fileVar);
    ExecAdd(h, code, m, n, 1);
    ExecAdd(h, code, m, n + 1, 1);
    var a := CallFiles(h, env, FileIo(s), Uppercase(s.fileVar), vs);
    MissOnlyWhenTrying(FileIo(s), a.answer);
    var verdict := Judge(FileIo(s), true, a.answer);
    if verdict.Success? || verdict.Miss? {
      var v, flag := if verdict.Success? then verdict.v else StrV(""), if verdict.Success? then 1 else 0;
      var read := if FileSink(s).NoSink? then [] else [v];
      var m2 := Exec(h, code, m1, 1).vm;
      assert m2.stack == m.stack + read + [IntV(flag)];
      BranchStep(h, code, m2, m.stack + read, IntV(flag), miss);
    }
  }

  /** Dropping the placeholder before the ELSE arm. */
  lemma DropStep(h: Host, code: seq<Instruction>, m: Vm, base: seq<Value>, sink: Sink, v: Value)
    requires At(code, m.ip, DropCode(sink)) && m.stack == base + (if sink.NoSink? then [] else [v])
    ensures Exec(h, code, m, |DropCode(sink)|) == Running(m.(stack := base, ip := m.ip + |DropCode(sink)|))
  {
    hide Exec, At;
    if sink.NoSink? {
      ExecZero(h, code, m);
      assert m.stack == base;
    } else {
      DropEffect(h, v, m.env);
      DataStepOn(h, code, m, base, [v], Plain(Drop));
      assert base + [] == base;
    }
  }

  lemma DropEffect(h: Host, v: Value, env: Env)
    ensures IsData(Drop) && OperandFits(Plain(Drop)) && Pops(Plain(Drop)) == 1
    ensures DataEffect(h, Plain(Drop), [v], env) == Push([], env)
  {
  }

  /** A successful trying operation: the sink, then the jump over the arm. */
  lemma TrySuccess(h: Host, code: seq<Instruction>, lines: LineMap, m: Vm, n: nat, m2: Vm, sink: Sink, v: Value, end: nat) returns (n': nat)
    requires Exec(h, code, m, n) == Running(m2) && n > 0
    requires m2 == m.(env := m2.env, stack := m.stack + (if sink.NoSink? then [] else [v]), ip := m2.ip)
    requires At(code, m2.ip, SinkCode(sink)) && m2.ip + |SinkCode(sink)| < end
    requires m2.ip + |SinkCode(sink)| < |code| && code[m2.ip + |SinkCode(sink)|] == WithInt(Jump, end)
    ensures n' > 0 && Lands(code, lines, m, end, Deliver(h, sink, v, m2.env), Exec(h, code, m, n'))
  {
    hide Exec, At, SinkCode, Deliver, Lands;
    var k := |SinkCode(sink)|;
    SinkLands(h, code, lines, m2, m.stack, sink, v);
    LandsSame(h, code, lines, m2.(stack := m.stack), m, m2.ip + k, Deliver(h, sink, v, m2.env), Exec(h, code, m2, k));
    ExecAdd(h, code, m, n, k);
    DeliverFlow(h, sink, v, m2.env);
    n' := LandsBefore(h, code, lines, m, n + k, m2.ip + k, end, Deliver(h, sink, v, m2.env));
  }

  lemma DeliverFlow(h: Host, sink: Sink, v: Value, env: Env)
    ensures Deliver(h, sink, v, env).Fall? || Deliver(h, sink, v, env).Err?
  {
  }

  /** A missed trying operation: drop the placeholder, then the arm. */
  lemma TryMiss(h: Host, code: seq<Instruction>, lines: LineMap, m: Vm, n: nat, m2: Vm, sink: Sink, v: Value, k: nat, end: nat, f: Flow)
    requires Exec(h, code, m, n) == Running(m2) && At(code, m2.ip, DropCode(sink))
    requires m2 == m.(env := m2.env, stack := m.stack + (if sink.NoSink? then [] else [v]), ip := m2.ip)
    requires var m3 := m.(env := m2.env, ip := m2.ip + |DropCode(sink)|); Lands(code, lines, m3, end, f, Exec(h, code, m3, k))
    ensures Lands(code, lines, m, end, f, Exec(h, code, m, n + |DropCode(sink)| + k))
  {
    hide Exec, At, DropCode, Lands;
    DropStep(h, code, m2, m.stack, sink, v);
    ExecAdd(h, code, m, n, |DropCode(sink)|);
    var m3 := m.(env := m2.env, ip := m2.ip + |DropCode(sink)|);
    LandsAfter(h, code, lines, m, n + |DropCode(sink)|, m3, k, end, f);
  }

  // ---------------------------------------------------------------------------------------------
  // All statements
  // ---------------------------------------------------------------------------------------------

  /** Flows that only statements at the top of a line have. */
  predicate TopOnly(f: Flow) {
    f.LoopBegin? || f.LoopNext? || f.Handler?
  }

  lemma {:induction false} InlineFlow(h: Host, s: Stmt, env: Env)
    requires StmtOk(s, false)
    ensures !TopOnly(ExecStmt(h, s, false, env))
    decreases s, 1
  {
    hide ExprOk, Eval, FileArgs, EvalFileArgs, FileArgOk, Judge, CallFiles, FileOp, FileSink, Uppercase, StoreVariable, Dimension, StoreCell,
         FillArray, CopyArray, LoadArray, Trimmed, FileIo;
    if IsFile(s) {
      if s.elseArm.Some? {
        forall e: Env
          ensures !TopOnly(ExecArm(h, s.elseArm.value, e))
        {
          ArmFlow(h, s.elseArm.value, e);
        }
      }
      FileInlineFlow(h, s, false, env);
    } else if s.If? {
      IfInlineFlow(h, s, env);
    } else {
      SimpleInlineFlow(h, s, env);
    }
  }

  lemma {:induction false} ArmFlow(h: Host, a: BranchArm, env: Env)
    requires ArmOk(a)
    ensures !TopOnly(ExecArm(h, a, env))
    decreases a, 0
  {
    if a.InlineArm? {
      InlineFlow(h, a.stmt, env);
    }
  }

  lemma SimpleInlineFlow(h: Host, s: Stmt, env: Env)
    requires IsSimple(s) && StmtOk(s, false)
    ensures !TopOnly(ExecSimple(h, s, env))
  {
    hide ExprOk, Eval, CallFiles, Uppercase, StoreVariable, Dimension, StoreCell, FillArray, CopyArray, Trimmed;
  }

  lemma FileInlineFlow(h: Host, s: Stmt, top: bool, env: Env)
    requires IsFile(s) && StmtOk(s, top)
    requires s.elseArm.Some? ==> forall e: Env :: !TopOnly(ExecArm(h, s.elseArm.value, e))
    ensures !TopOnly(ExecFile(h, s, top, env))
  {
    hide ExprOk, FileArgs, EvalFileArgs, FileArgOk, Judge, CallFiles, FileOp, FileSink, Uppercase, ExecArm, FileIo, Deliver;
    forall sink: Sink, v: Value, e: Env
      ensures !TopOnly(Deliver(h, sink, v, e))
    {
      DeliverFlow(h, sink, v, e);
    }
  }

  lemma {:induction false} IfInlineFlow(h: Host, s: Stmt, env: Env)
    requires s.If? && StmtOk(s, false)
    ensures !TopOnly(ExecIf(h, s, env))
    decreases s, 0
  {
    hide ExprOk, Eval, ExecArm;
    var r := Eval(h, s.condition, false, env);
    ArmFlow(h, s.thenArm, r.env);
    if s.elseArm.Some? {
      ArmFlow(h, s.elseArm.value, r.env);
    }
  }

  /** A GOTO flow does not depend on where the statement ends. */
  lemma LandsAnywhere(h: Host, code: seq<Instruction>, lines: LineMap, m: Vm, end: nat, end': nat, f: Flow, o: Outcome)
    requires f.ToLine? && Lands(code, lines, m, end, f, o)
    ensures Lands(code, lines, m, end', f, o)
  {
  }

  /** The condition of an IF and its branch instruction. */
  lemma ConditionStep(h: Host, c: Expr, code: seq<Instruction>, m: Vm, target: nat)
    requires ExprOk(c, false) && At(code, m.ip, ExprCode(c, false) + [WithInt(JumpIfZero, target)])
    ensures var r, n := Eval(h, c, false, m.env), |ExprCode(c, false)|;
            Exec(h, code, m, n + 1) ==
            if r.Fail? || !r.v.IntV? then Fault(Raised, r.env)
            else Running(m.(env := r.env, ip := if r.v.i == 0 then target else m.ip + n + 1))
  {
    hide Exec, At, Runs, ExprCode, ExprOk, Eval;
    var r, n := Eval(h, c, false, m.env), |ExprCode(c, false)|;
    AtSplit(code, m.ip, ExprCode(c, false), [WithInt(JumpIfZero, target)]);
    AtOne(code, m.ip + n, WithInt(JumpIfZero, target));
    AtInside(code, m.ip + n, [WithInt(JumpIfZero, target)]);
    ExprCorrect(h, c, false, code, m);
    RunsExec(h, code, m, n, AsList(r));
    ExecAdd(h, code, m, n, 1);
    if r.Val? {
      BranchStep(h, code, After(m, [r.v], r.env, n), m.stack, r.v, target);
    }
  }

  lemma {:induction false} ArmLands(h: Host, a: BranchArm, code: seq<Instruction>, lines: LineMap, m: Vm) returns (n: nat)
    requires ArmOk(a) && At(code, m.ip, ArmCode(a, m.ip, lines))
    ensures Lands(code, lines, m, m.ip + |ArmCode(a, m.ip, lines)|, ExecArm(h, a, m.env), Exec(h, code, m, n))
    decreases a, 0
  {
    hide Exec, Step;
    match a
    case LineArm(k) =>
      AtOne(code, m.ip, WithInt(Jump, Address(lines, k)));
      JumpStep(h, code, m, Address(lines, k));
      n := 1;
    case InlineArm(s) =>
      n := StmtLands(h, s, false, code, lines, m);
  }

  lemma {:induction false} IfLands(h: Host, s: Stmt, code: seq<Instruction>, lines: LineMap, m: Vm) returns (n: nat)
    requires s.If? && StmtOk(s, false) && At(code, m.ip, IfCode(s, m.ip, lines))
    ensures Lands(code, lines, m, m.ip + |IfCode(s, m.ip, lines)|, ExecIf(h, s, m.env), Exec(h, code, m, n))
    ensures n > 0
    decreases s, 0
  {
    hide Exec, At, ExprOk, ExprCode, Eval, ArmCode, ExecArm, Lands;
    var cond := ExprCode(s.condition, false);
    var thenAt := m.ip + |cond| + 1;
    var thenCode := ArmCode(s.thenArm, thenAt, lines);
    var r := Eval(h, s.condition, false, m.env);
    var end := m.ip + |IfCode(s, m.ip, lines)|;
    n := |cond| + 1;
    if s.elseArm.None? {
      AtSplit(code, m.ip, cond + [WithInt(JumpIfZero, end)], thenCode);
      ConditionStep(h, s.condition, code, m, end);
      if r.Val? && r.v.IntV? {
        if r.v.i != 0 {
          var m2 := m.(env := r.env, ip := thenAt);
          var k := ArmLands(h, s.thenArm, code, lines, m2);
          LandsAfter(h, code, lines, m, n, m2, k, end, ExecArm(h, s.thenArm, r.env));
          n := n + k;
        } else {
          LandsFall(code, lines, m, end, r.env);
        }
      } else {
        LandsErr(code, lines, m, end, r.env);
      }
    } else {
      var over := if s.thenArm.LineArm? then 0 else 1;
      var elseAt := thenAt + |thenCode| + over;
      var elseCode := ArmCode(s.elseArm.value, elseAt, lines);
      var jump := if s.thenArm.LineArm? then [] else [WithInt(Jump, end)];
      assert end == elseAt + |elseCode|;
      AtSplit(code, m.ip, cond + [WithInt(JumpIfZero, elseAt)] + thenCode + jump, elseCode);
      AtSplit3(code, m.ip, cond + [WithInt(JumpIfZero, elseAt)], thenCode, jump);
      ConditionStep(h, s.condition, code, m, elseAt);
      if r.Val? && r.v.IntV? {
        if r.v.i != 0 {
          var k := ThenLands(h, s.thenArm, code, lines, m.(env := r.env, ip := thenAt), end);
          LandsAfter(h, code, lines, m, n, m.(env := r.env, ip := thenAt), k, end, ExecArm(h, s.thenArm, r.env));
          n := n + k;
        } else {
          var m2 := m.(env := r.env, ip := elseAt);
          var k := ArmLands(h, s.elseArm.value, code, lines, m2);
          LandsAfter(h, code, lines, m, n, m2, k, end, ExecArm(h, s.elseArm.value, r.env));
          n := n + k;
        }
      } else {
        LandsErr(code, lines, m, end, r.env);
      }
    }
  }

  /** A THEN arm that is followed by ELSE: a statement jumps over the ELSE code, a line number needs not. */
  lemma {:induction false} ThenLands(h: Host, a: BranchArm, code: seq<Instruction>, lines: LineMap, m: Vm, end: nat) returns (n: nat)
    requires ArmOk(a) && At(code, m.ip, ArmCode(a, m.ip, lines))
    requires m.ip + |ArmCode(a, m.ip, lines)| <= end
    requires a.LineArm? || At(code, m.ip + |ArmCode(a, m.ip, lines)|, [WithInt(Jump, end)])
    requires a.LineArm? || m.ip + |ArmCode(a, m.ip, lines)| < end
    ensures Lands(code, lines, m, end, ExecArm(h, a, m.env), Exec(h, code, m, n))
    decreases a, 1
  {
    hide Exec, ArmCode, Lands, ArmOk;
    var mid := m.ip + |ArmCode(a, m.ip, lines)|;
    n := ArmLands(h, a, code, lines, m);
    if a.LineArm? {
      LandsAnywhere(h, code, lines, m, mid, end, ExecArm(h, a, m.env), Exec(h, code, m, n));
    } else {
      AtOne(code, mid, WithInt(Jump, end));
      ArmFlow(h, a, m.env);
      n := LandsBefore(h, code, lines, m, n, mid, end, ExecArm(h, a, m.env));
    }
  }

  lemma LandsFall(code: seq<Instruction>, lines: LineMap, m: Vm, end: nat, env: Env)
    ensures Lands(code, lines, m, end, Fall(env), Running(m.(env := env, ip := end)))
  {
  }

  lemma LandsErr(code: seq<Instruction>, lines: LineMap, m: Vm, end: nat, env: Env)
    ensures Lands(code, lines, m, end, Err(env), Fault(Raised, env))
  {
  }

  /** The layout of a file statement with an ELSE arm. */
  lemma TryLayout(s: Stmt, top: bool, code: seq<Instruction>, lines: LineMap, at: nat)
    requires IsFile(s) && StmtOk(s, top) && s.elseArm.Some? && At(code, at, FileCode(s, top, at, lines))
    ensures var args, sink, drop := FileArgsCode(s.fileVar, FileArgs(s, top)), SinkCode(FileSink(s)), DropCode(FileSink(s));
            var miss := at + |args| + 3 + |sink|;
            var arm := ArmCode(s.elseArm.value, miss + |drop|, lines);
            var end := miss + |drop| + |arm|;
            && end == at + |FileCode(s, top, at, lines)|
            && At(code, at, args)
            && At(code, at + |args|, [WithStr(TryOp(FileOp(s)), Uppercase(s.fileVar)), WithInt(JumpIfZero, miss)])
            && At(code, at + |args| + 2, sink)
            && at + |args| + 2 + |sink| < |code| && code[at + |args| + 2 + |sink|] == WithInt(Jump, end)
            && At(code, miss, drop) && At(code, miss + |drop|, arm)
  {
    hide At, FileArgs, FileArgsCode, SinkCode, DropCode, FileSink, FileOp, TryOp, ArmCode, Uppercase, ExprOk, FileArgOk;
    var args, sink, drop := FileArgsCode(s.fileVar, FileArgs(s, top)), SinkCode(FileSink(s)), DropCode(FileSink(s));
    var miss := at + |args| + 3 + |sink|;
    var arm := ArmCode(s.elseArm.value, miss + |drop|, lines);
    var test := [WithStr(TryOp(FileOp(s)), Uppercase(s.fileVar)), WithInt(JumpIfZero, miss)];
    var jump := [WithInt(Jump, miss + |drop| + |arm|)];
    assert FileCode(s, top, at, lines) == args + test + sink + jump + drop + arm;
    AtSplit3(code, at, args + test + sink + jump, drop, arm);
    AtSplit3(code, at, args + test, sink, jump);
    AtSplit(code, at, args, test);
    AtOne(code, at + |args| + 2 + |sink|, jump[0]);
    AtInside(code, at + |args| + 2 + |sink|, jump);
  }

  lemma {:induction false} TryFileLands(h: Host, s: Stmt, top: bool, code: seq<Instruction>, lines: LineMap, m: Vm) returns (n: nat)
    requires IsFile(s) && StmtOk(s, top) && s.elseArm.Some? && At(code, m.ip, FileCode(s, top, m.ip, lines))
    ensures Lands(code, lines, m, m.ip + |FileCode(s, top, m.ip, lines)|, ExecFile(h, s, top, m.env), Exec(h, code, m, n))
    ensures n > 0
    decreases s, 0
  {
    hide Exec, At, Runs, FileCode, FileArgsCode, EvalFileArgs, FileArgs, FileArgOk, FileOp, TryOp, FileSink, FileIo, SinkCode, DropCode, Judge,
         CallFiles, Deliver, Uppercase, ArmCode, ExecArm, Lands, ExprOk;
    TryLayout(s, top, code, lines, m.ip);
    var args, sink := FileArgsCode(s.fileVar, FileArgs(s, top)), FileSink(s);
    var miss := m.ip + |args| + 3 + |SinkCode(sink)|;
    var end := m.ip + |FileCode(s, top, m.ip, lines)|;
    FileArgsRuns(h, s.fileVar, FileArgs(s, top), code, m);
    var ev := EvalFileArgs(h, s.fileVar, FileArgs(s, top), m.env);
    if ev.FailList? {
      RunsExec(h, code, m, |args|, ev);
      LandsErr(code, lines, m, end, ev.env);
      FailNeedsCode(h, code, m, |args|, ev);
      n := |args|;
    } else {
      FileShape(s, top);
      TryStep(h, s, code, m, |args|, ev.vs, ev.env, miss);
      n := |args| + 2;
      var a := CallFiles(h, ev.env, FileIo(s), Uppercase(s.fileVar), ev.vs);
      MissOnlyWhenTrying(FileIo(s), a.answer);
      var verdict := Judge(FileIo(s), true, a.answer);
      if verdict.Success? {
        n := TrySuccess(h, code, lines, m, n, Exec(h, code, m, n).vm, sink, verdict.v, end);
      } else if verdict.Miss? {
        var at := miss + |DropCode(sink)|;
        var k := ArmLands(h, s.elseArm.value, code, lines, m.(env := a.env, ip := at));
        TryMiss(h, code, lines, m, n, Exec(h, code, m, n).vm, sink, StrV(""), k, end, ExecArm(h, s.elseArm.value, a.env));
        n := n + |DropCode(sink)| + k;
      } else {
        LandsErr(code, lines, m, end, a.env);
      }
    }
  }

  lemma FailNeedsCode(h: Host, code: seq<Instruction>, m: Vm, n: nat, r: EvaluatedList)
    requires Runs(h, code, m, n, r) && r.FailList?
    ensures n > 0
  {
    hide Step;
  }

  lemma NoElseLands(h: Host, s: Stmt, top: bool, code: seq<Instruction>, lines: LineMap, m: Vm) returns (n: nat)
    requires IsFile(s) && StmtOk(s, top) && s.elseArm.None? && At(code, m.ip, FileCode(s, top, m.ip, lines))
    ensures Lands(code, lines, m, m.ip + |FileCode(s, top, m.ip, lines)|, ExecFile(h, s, top, m.env), Exec(h, code, m, n))
    ensures n > 0
  {
    hide Exec, At, Runs, FileArgsCode, EvalFileArgs, FileArgs, FileArgOk, FileOp, FileSink, FileIo, SinkCode, Judge,
         CallFiles, Deliver, Uppercase, Lands, ExprOk;
    var args, tail := FileArgsCode(s.fileVar, FileArgs(s, top)), [WithStr(FileOp(s), Uppercase(s.fileVar))] + SinkCode(FileSink(s));
    assert FileCode(s, top, m.ip, lines) == args + tail;
    AtSplit(code, m.ip, args, tail);
    FileArgsRuns(h, s.fileVar, FileArgs(s, top), code, m);
    var ev := EvalFileArgs(h, s.fileVar, FileArgs(s, top), m.env);
    var end := m.ip + |FileCode(s, top, m.ip, lines)|;
    if ev.FailList? {
      RunsExec(h, code, m, |args|, ev);
      LandsErr(code, lines, m, end, ev.env);
      FailNeedsCode(h, code, m, |args|, ev);
      n := |args|;
    } else {
      FileShape(s, top);
      n := PlainFileLands(h, s, code, lines, m, |args|, ev.vs, ev.env);
      MissOnlyWhenTrying(FileIo(s), CallFiles(h, ev.env, FileIo(s), Uppercase(s.fileVar), ev.vs).answer);
    }
  }

  /** Running the code of any statement does what the statement means. */
  lemma {:induction false} StmtLands(h: Host, s: Stmt, top: bool, code: seq<Instruction>, lines: LineMap, m: Vm) returns (n: nat)
    requires StmtOk(s, top) && (top ==> MatNamesOk(s)) && At(code, m.ip, StmtCode(s, top, m.ip, lines))
    ensures Lands(code, lines, m, m.ip + |StmtCode(s, top, m.ip, lines)|, ExecStmt(h, s, top, m.env), Exec(h, code, m, n))
    ensures n == 0 ==> s.Rem? || s.Next? || s.ReturnStmt?
    decreases s, 1
  {
    hide Exec, At, Lands, FileCode, IfCode, SimpleCode, ExecFile, ExecIf, ExecSimple, ExprOk, FileArgs, FileArgOk, IsValidVariableName;
    if IsFile(s) {
      if s.elseArm.Some? {
        n := TryFileLands(h, s, top, code, lines, m);
      } else {
        n := NoElseLands(h, s, top, code, lines, m);
      }
    } else if s.If? {
      n := IfLands(h, s, code, lines, m);
    } else {
      n := SimpleLands(h, s, code, lines, m);
    }
  }
}
