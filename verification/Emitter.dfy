/** The emitter as it works: instructions are appended to a growing program, branches are patched once
    their target is known, and jumps to line numbers wait in a fixup list until all lines are out. */
module Emitter {
  import opened Bytecode
  import opened BasicAst
  import opened ExprCompile
  import opened StmtCompile
  import opened StmtCorrect
  import opened ProgramCorrect

  /** A jump whose operand is the address of a line not necessarily emitted yet. */
  datatype Fixup = Fixup(at: nat, target: int)

  // ---------------------------------------------------------------------------------------------
  // Programs with pending fixups
  // ---------------------------------------------------------------------------------------------

  predicate Inside(program: seq<Instruction>, fixups: seq<Fixup>) {
    forall i | 0 <= i < |fixups| :: fixups[i].at < |program|
  }

  function Resolve(program: seq<Instruction>, f: Fixup, lines: LineMap): (r: seq<Instruction>)
    requires f.at < |program|
    ensures |r| == |program|
  {
    if f.target in lines then program[f.at := program[f.at].(operand := IntV(lines[f.target]))] else program
  }

  /** The program after the fixups have been applied in order. */
  function Patched(program: seq<Instruction>, fixups: seq<Fixup>, lines: LineMap): (r: seq<Instruction>)
    requires Inside(program, fixups)
    ensures |r| == |program|
  {
    if fixups == [] then program
    else Resolve(Patched(program, fixups[..|fixups| - 1], lines), fixups[|fixups| - 1], lines)
  }

  lemma {:induction false} PatchedAppend(program: seq<Instruction>, more: seq<Instruction>, fixups: seq<Fixup>, lines: LineMap)
    requires Inside(program, fixups)
    ensures Patched(program + more, fixups, lines) == Patched(program, fixups, lines) + more
  {
    if fixups != [] {
      PatchedAppend(program, more, fixups[..|fixups| - 1], lines);
    }
  }

  lemma {:induction false} PatchedUpdate(program: seq<Instruction>, i: nat, x: Instruction, fixups: seq<Fixup>, lines: LineMap)
    requires Inside(program, fixups) && i < |program|
    requires forall k | 0 <= k < |fixups| :: fixups[k].at != i
    ensures Patched(program[i := x], fixups, lines) == Patched(program, fixups, lines)[i := x]
  {
    if fixups != [] {
      var rest, f := fixups[..|fixups| - 1], fixups[|fixups| - 1];
      PatchedUpdate(program, i, x, rest, lines);
      var q := Patched(program, rest, lines);
      assert Resolve(q[i := x], f, lines) == Resolve(q, f, lines)[i := x];
    }
  }

  /** From program and fixups `p0`, `f0` to `p1`, `f1`: after resolution exactly `code` was appended. */
  ghost predicate Extends(p0: seq<Instruction>, f0: seq<Fixup>, p1: seq<Instruction>, f1: seq<Fixup>, lines: LineMap, code: seq<Instruction>) {
    && Inside(p0, f0) && Inside(p1, f1)
    && |p1| == |p0| + |code|
    && |f0| <= |f1| && f1[..|f0|] == f0
    && (forall i | |f0| <= i < |f1| :: |p0| <= f1[i].at)
    && Patched(p1, f1, lines) == Patched(p0, f0, lines) + code
  }

  lemma ExtendsPlain(p0: seq<Instruction>, f0: seq<Fixup>, lines: LineMap, code: seq<Instruction>)
    requires Inside(p0, f0)
    ensures Extends(p0, f0, p0 + code, f0, lines, code)
  {
    PatchedAppend(p0, code, f0, lines);
  }

  lemma ExtendsJump(p0: seq<Instruction>, f0: seq<Fixup>, lines: LineMap, op: OpCode, n: int)
    requires Inside(p0, f0)
    ensures Extends(p0, f0, p0 + [WithInt(op, 0)], f0 + [Fixup(|p0|, n)], lines, [WithInt(op, Address(lines, n))])
  {
    var p1, f1 := p0 + [WithInt(op, 0)], f0 + [Fixup(|p0|, n)];
    PatchedAppend(p0, [WithInt(op, 0)], f0, lines);
    assert f1[..|f1| - 1] == f0;
  }

  lemma ExtendsThen(p0: seq<Instruction>, f0: seq<Fixup>, p1: seq<Instruction>, f1: seq<Fixup>, p2: seq<Instruction>, f2: seq<Fixup>,
                    lines: LineMap, a: seq<Instruction>, b: seq<Instruction>)
    requires Extends(p0, f0, p1, f1, lines, a) && Extends(p1, f1, p2, f2, lines, b)
    ensures Extends(p0, f0, p2, f2, lines, a + b)
  {
    hide Patched;
    assert f2[..|f0|] == f2[..|f1|][..|f0|];
    forall i | |f0| <= i < |f2|
      ensures |p0| <= f2[i].at
    {
      if i < |f1| {
        assert f2[i] == f2[..|f1|][i];
      }
    }
  }

  /** Setting the operand of a branch emitted between two extensions. */
  lemma ExtendsPatch(p0: seq<Instruction>, f0: seq<Fixup>, p1: seq<Instruction>, f1: seq<Fixup>, p2: seq<Instruction>, f2: seq<Fixup>,
                     lines: LineMap, a: seq<Instruction>, old': Instruction, b: seq<Instruction>, x: Instruction)
    requires Extends(p0, f0, p1, f1, lines, a) && Extends(p1 + [old'], f1, p2, f2, lines, b)
    ensures Extends(p0, f0, p2[|p1| := x], f2, lines, a + [x] + b)
  {
    hide Patched;
    ExtendsPlain(p1, f1, lines, [old']);
    forall k | 0 <= k < |f2|
      ensures f2[k].at != |p1|
    {
      if k < |f1| {
        assert f2[k] == f2[..|f1|][k];
      }
    }
    PatchedUpdate(p2, |p1|, x, f2, lines);
    assert f2[..|f0|] == f2[..|f1|][..|f0|];
    forall i | |f0| <= i < |f2|
      ensures |p0| <= f2[i].at
    {
      if i < |f1| {
        assert f2[i] == f2[..|f1|][i];
      }
    }
    var q := Patched(p0, f0, lines);
    assert Patched(p2[|p1| := x], f2, lines) == (q + a + [old'] + b)[|p1| := x] == q + (a + [x] + b);
  }

  lemma {:induction false} PatchedElsewhere(program: seq<Instruction>, fixups: seq<Fixup>, lines: LineMap, i: nat)
    requires Inside(program, fixups) && i < |program|
    requires forall k | 0 <= k < |fixups| :: fixups[k].at != i
    ensures Patched(program, fixups, lines)[i] == program[i]
  {
    if fixups != [] {
      PatchedElsewhere(program, fixups[..|fixups| - 1], lines, i);
    }
  }

  /** A branch waiting for its operand is left alone by everything emitted after it. */
  lemma ExtendsKeeps(p1: seq<Instruction>, f1: seq<Fixup>, i: Instruction, p2: seq<Instruction>, f2: seq<Fixup>,
                     lines: LineMap, b: seq<Instruction>)
    requires Inside(p1, f1) && Extends(p1 + [i], f1, p2, f2, lines, b)
    ensures |p1| < |p2| && p2[|p1|] == i
  {
    hide Patched;
    forall k | 0 <= k < |f2|
      ensures f2[k].at != |p1|
    {
      if k < |f1| {
        assert f2[k] == f2[..|f1|][k];
      }
    }
    PatchedElsewhere(p2, f2, lines, |p1|);
    PatchedAppend(p1, [i], f1, lines);
  }

  lemma ExtendsNothing(p0: seq<Instruction>, f0: seq<Fixup>, lines: LineMap)
    requires Inside(p0, f0)
    ensures Extends(p0, f0, p0, f0, lines, [])
  {
    ExtendsPlain(p0, f0, lines, []);
    assert p0 + [] == p0;
  }

  /** The two arms of an IF with the jump between them, once that jump is aimed at the end. */
  lemma JoinArms(p2: seq<Instruction>, f2: seq<Fixup>, p3: seq<Instruction>, f3: seq<Fixup>, p4: seq<Instruction>, f4: seq<Fixup>,
                 lines: LineMap, body: seq<Instruction>, other: seq<Instruction>, falls: bool)
    returns (tail: seq<Instruction>)
    requires Extends(p2, f2, p3, f3, lines, body)
    requires Extends(if falls then p3 + [WithInt(Jump, 0)] else p3, f3, p4, f4, lines, other)
    ensures tail == if falls then body + [WithInt(Jump, |p4|)] + other else body + other
    ensures Extends(p2, f2, if falls then p4[|p3| := WithInt(Jump, |p4|)] else p4, f4, lines, tail)
  {
    if falls {
      ExtendsPatch(p2, f2, p3, f3, p4, f4, lines, body, WithInt(Jump, 0), other, WithInt(Jump, |p4|));
      tail := body + [WithInt(Jump, |p4|)] + other;
    } else {
      ExtendsThen(p2, f2, p3, f3, p4, f4, lines, body, other);
      tail := body + other;
    }
  }

  /** The whole of an IF with two arms, once its branch and the jump between the arms are aimed. */
  lemma AimedArms(p0: seq<Instruction>, f0: seq<Fixup>, p1: seq<Instruction>, p3: seq<Instruction>, f3: seq<Fixup>,
                  p4: seq<Instruction>, f4: seq<Fixup>, lines: LineMap,
                  cond: seq<Instruction>, body: seq<Instruction>, other: seq<Instruction>, falls: bool)
    requires Extends(p0, f0, p1, f0, lines, cond)
    requires Extends(p1 + [WithInt(JumpIfZero, 0)], f0, p3, f3, lines, body)
    requires Extends(if falls then p3 + [WithInt(Jump, 0)] else p3, f3, p4, f4, lines, other)
    ensures |p1| < |p4| && p4[|p1|] == WithInt(JumpIfZero, 0)
    ensures falls ==> |p1| < |p3| < |p4| && p4[|p3|] == WithInt(Jump, 0)
    ensures var elseAt := |p3| + if falls then 1 else 0;
            var aimed := p4[|p1| := WithInt(JumpIfZero, elseAt)];
            Extends(p0, f0, if falls then aimed[|p3| := WithInt(Jump, |p4|)] else aimed, f4, lines,
                    cond + [WithInt(JumpIfZero, elseAt)] + (if falls then body + [WithInt(Jump, |p4|)] + other else body + other))
  {
    hide Extends;
    var elseAt := |p3| + if falls then 1 else 0;
    var p2 := p1 + [WithInt(JumpIfZero, 0)];
    ExtendsInside(p2, f0, p3, f3, lines, body);
    ExtendsInside(p0, f0, p1, f0, lines, cond);
    ExtendsInside(if falls then p3 + [WithInt(Jump, 0)] else p3, f3, p4, f4, lines, other);
    var tail := JoinArms(p2, f0, p3, f3, p4, f4, lines, body, other, falls);
    var p5 := if falls then p4[|p3| := WithInt(Jump, |p4|)] else p4;
    ExtendsKeeps(p1, f0, WithInt(JumpIfZero, 0), p5, f4, lines, tail);
    ExtendsPatch(p0, f0, p1, f0, p5, f4, lines, cond, WithInt(JumpIfZero, 0), tail, WithInt(JumpIfZero, elseAt));
    if falls {
      ExtendsKeeps(p3, f3, WithInt(Jump, 0), p4, f4, lines, other);
      assert p5[|p1| := WithInt(JumpIfZero, elseAt)] == p4[|p1| := WithInt(JumpIfZero, elseAt)][|p3| := WithInt(Jump, |p4|)];
    }
  }

  lemma ExtendsInside(p0: seq<Instruction>, f0: seq<Fixup>, p1: seq<Instruction>, f1: seq<Fixup>, lines: LineMap, code: seq<Instruction>)
    requires Extends(p0, f0, p1, f1, lines, code)
    ensures Inside(p0, f0) && Inside(p1, f1) && |p1| == |p0| + |code|
  {
  }

  // ---------------------------------------------------------------------------------------------
  // Results over whole programs
  // ---------------------------------------------------------------------------------------------

  /** Numbers of the lines that cannot be emitted, in order. */
  function Rejected(p: Program, k: nat): seq<int>
    requires k <= |p|
  {
    if k == 0 then [] else Rejected(p, k - 1) + if StmtOk(p[k - 1].stmt, true) then [] else [p[k - 1].number]
  }

  lemma {:induction false} RejectedNone(p: Program, k: nat)
    requires k <= |p|
    ensures Rejected(p, k) == [] <==> forall i | 0 <= i < k :: StmtOk(p[i].stmt, true)
  {
    hide StmtOk;
    if k > 0 {
      RejectedNone(p, k - 1);
    }
  }

  /** The source line of every instruction of the first `k` lines. */
  function LinePerInstruction(p: Program, k: nat): seq<int>
    requires k <= |p| && Compilable(p)
  {
    if k == 0 then [] else LinePerInstruction(p, k - 1) + Repeat(p[k - 1].number, LineSize(p[k - 1]))
  }

  function Repeat(n: int, count: nat): (r: seq<int>)
    ensures |r| == count && forall i | 0 <= i < count :: r[i] == n
  {
    seq(count, _ => n)
  }

  /** Line attribution is by position: instruction `i` belongs to the line whose code spans it. */
  lemma {:induction false} LineOfInstruction(p: Program, k: nat, j: nat, i: nat)
    requires j < k <= |p| && Compilable(p) && Start(p, j) <= i < Start(p, j + 1)
    ensures |LinePerInstruction(p, k)| == Start(p, k) && i < Start(p, k) && LinePerInstruction(p, k)[i] == p[j].number
    decreases k
  {
    hide LineOk, LineSize;
    LineCount(p, k - 1);
    if j < k - 1 {
      LineOfInstruction(p, k - 1, j, i);
    }
  }

  lemma {:induction false} LineCount(p: Program, k: nat)
    requires k <= |p| && Compilable(p)
    ensures |LinePerInstruction(p, k)| == Start(p, k)
  {
    hide LineOk, LineSize;
    if k > 0 {
      LineCount(p, k - 1);
    }
  }

  predicate HasEnd(p: Program, k: nat)
    requires k <= |p|
  {
    exists i :: 0 <= i < k && p[i].stmt.End?
  }

  // ---------------------------------------------------------------------------------------------
  // The emitter
  // ---------------------------------------------------------------------------------------------

  lemma OperationParts(e: Expr, inArith: bool)
    ensures e.Negate? ==> (ExprOk(e, inArith) <==> ExprOk(e.operand, true))
    ensures e.Negate? && ExprOk(e, inArith) ==> ExprCode(e, inArith) == [WithInt(PushInt, 0)] + ExprCode(e.operand, true) + [Plain(Sub)]
    ensures e.Binary? ==> (ExprOk(e, inArith) <==> ExprOk(e.left, IsArithmetic(e.op)) && ExprOk(e.right, IsArithmetic(e.op)))
    ensures e.Binary? && ExprOk(e, inArith) ==>
            ExprCode(e, inArith) == ExprCode(e.left, IsArithmetic(e.op)) + ExprCode(e.right, IsArithmetic(e.op)) + [Plain(OpOf(e.op))]
    ensures e.Subscript? ==>
            (ExprOk(e, inArith) <==> IsValidVariableName(e.arrayName) && !(inArith && IsStringVar(e.arrayName)) && ExprOk(e.index, false))
    ensures e.Subscript? && ExprOk(e, inArith) ==> ExprCode(e, inArith) == ExprCode(e.index, false) + [WithStr(LoadArr, Uppercase(e.arrayName))]
  {
    hide IsValidVariableName, Uppercase, IsStringVar, OpOf, IsArithmetic;
  }

  lemma AttributeParts(e: Expr, inArith: bool)
    requires e.AttributeAccess?
    ensures ExprOk(e, inArith) <==>
            IsValidVariableName(e.recordName) && ExprOk(e.attr, false) && (e.valueIndex.Some? ==> ExprOk(e.valueIndex.value, false))
    ensures ExprOk(e, inArith) ==>
            ExprCode(e, inArith) == [WithStr(LoadVar, Uppercase(e.recordName))] + ExprCode(e.attr, false)
            + (if e.valueIndex.Some? then ExprCode(e.valueIndex.value, false) else [WithInt(PushInt, 0)]) + [Plain(ExtractAttr)]
  {
    hide IsValidVariableName, Uppercase;
  }

  lemma ForParts(s: Stmt)
    requires s.For?
    ensures StmtOk(s, true) <==> !IsStringVar(s.variable) && ExprOk(s.init, false) && ExprOk(s.limit, false) && OptOk(s.step)
    ensures StmtOk(s, true) ==>
            SimpleCode(s, map[]) == ExprCode(s.init, false) + StoreCode(s.variable) + ExprCode(s.limit, false)
                                    + OptCode(s.step, [WithInt(PushInt, 1)]) + [WithStr(ForSetup, Uppercase(s.variable))]
  {
    hide ExprOk, ExprCode, OptOk, OptCode, StoreCode, Uppercase;
  }

  lemma LetArrayParts(s: Stmt)
    requires s.LetArray?
    ensures StmtOk(s, true) <==> ExprOk(s.index, false) && ExprOk(s.value, false)
    ensures StmtOk(s, true) ==>
            SimpleCode(s, map[]) == ExprCode(s.value, false) + CoerceCode(s.variable) + ExprCode(s.index, false)
                                    + [WithStr(StoreArr, Uppercase(s.variable))]
  {
    hide ExprOk, ExprCode, CoerceCode, Uppercase;
  }

  lemma VariableParts(s: Stmt)
    requires s.Let? || s.Input? || s.Print?
    ensures s.Let? ==> (StmtOk(s, true) <==> ExprOk(s.expr, false)) && (StmtOk(s, true) ==>
              SimpleCode(s, map[]) == ExprCode(s.expr, false) + StoreCode(s.variable))
    ensures s.Print? ==> (StmtOk(s, true) <==> ExprOk(s.expr, false)) && (StmtOk(s, true) ==>
              SimpleCode(s, map[]) == ExprCode(s.expr, false) + [Plain(PrintVal)] + (if s.suppressEol then [] else [Plain(PrintEol)]))
    ensures s.Input? ==> (StmtOk(s, true) <==> OptOk(s.prompt)) && (StmtOk(s, true) ==>
              SimpleCode(s, map[]) == (if s.prompt.Some? then ExprCode(s.prompt.value, false) + [Plain(PrintVal)] else [])
                                      + [Plain(InputStr)] + StoreCode(s.variable))
  {
    hide ExprOk, ExprCode, StoreCode, Uppercase;
  }

  predicate IsPlainAction(s: Stmt) {
    || s.MatAssign? || s.ReturnStmt? || s.Next? || s.Stop? || s.End? || s.Clear? || s.Close? || s.Rem?
    || (s.OnError? && s.stop)
  }

  /** The value a statement hands over, and the instruction that takes it. */
  function ValueUse(s: Stmt): (Expr, Instruction)
    requires s.ChainTo? || s.Dim? || s.Release? || s.MatFill?
  {
    match s
    case ChainTo(e) => (e, Plain(Chain))
    case Dim(v, e) => (e, WithStr(DimArray, Uppercase(v)))
    case Release(f, id) => (id, WithStr(ReleaseRec, Uppercase(f)))
    case MatFill(a, e) => (e, WithStr(MatInit, Uppercase(a)))
  }

  lemma ValueParts(s: Stmt)
    requires s.ChainTo? || s.Dim? || s.Release? || s.MatFill?
    ensures StmtOk(s, true) <==> ExprOk(ValueUse(s).0, false)
    ensures StmtOk(s, true) ==> SimpleCode(s, map[]) == ExprCode(ValueUse(s).0, false) + [ValueUse(s).1]
  {
    hide ExprOk, ExprCode, Uppercase;
  }

  lemma PlainParts(s: Stmt)
    requires IsPlainAction(s)
    ensures StmtOk(s, true)
    ensures SimpleCode(s, map[]) ==
            if s.MatAssign? then [WithStr(MatCopy, Uppercase(s.matName) + "|" + Uppercase(s.source))]
            else if s.ReturnStmt? then [Plain(Return)]
            else if s.Next? then [WithStr(ForNext, Uppercase(s.variable))]
            else if s.Stop? || s.End? then [Plain(Halt)]
            else if s.Clear? then [Plain(ClearVars)]
            else if s.Close? then [WithStr(CloseFile, Uppercase(s.fileVar))]
            else if s.OnError? then [WithInt(SetOnErrorHandler, 0)]
            else []
  {
    hide ExprOk, Uppercase;
  }

  /** Statements the emitter refuses inside an arm. */
  predicate TopOnlyStatement(s: Stmt) {
    s.For? || s.Next? || s.Dim? || s.LetArray? || s.OnError? || s.MatFill? || s.MatAssign? || s.MatRead? || s.MatWrite?
  }

  lemma SimpleContexts(s: Stmt)
    requires IsSimple(s)
    ensures StmtOk(s, false) <==> StmtOk(s, true) && !TopOnlyStatement(s)
  {
    hide ExprOk;
  }

  lemma JumpParts(s: Stmt, lines: LineMap)
    requires s.Goto? || s.Gosub? || (s.OnError? && !s.stop)
    ensures StmtOk(s, true)
    ensures SimpleCode(s, lines) ==
            [WithInt(if s.Goto? then Jump else if s.Gosub? then Call else SetOnErrorHandler, Address(lines, s.target))]
  {
  }

  /** Code without line numbers does not depend on the line table. */
  lemma StraightLines(s: Stmt, lines: LineMap)
    requires IsSimple(s) && StmtOk(s, true) && !(s.Goto? || s.Gosub? || (s.OnError? && !s.stop))
    ensures SimpleCode(s, lines) == SimpleCode(s, map[])
  {
    hide ExprOk, ExprCode, Uppercase;
  }

  lemma FileParts(s: Stmt, top: bool)
    requires IsFile(s)
    ensures StmtOk(s, top) <==>
            && (top || !TopOnlyStatement(s))
            && (forall a | a in FileArgs(s, top) :: FileArgOk(a))
            && (s.elseArm.Some? ==> ArmOk(s.elseArm.value))
  {
    hide ExprOk, FileArgs, FileArgOk;
  }

  lemma TryParts(s: Stmt, top: bool, at: nat, lines: LineMap)
    requires IsFile(s) && StmtOk(s, top) && s.elseArm.Some?
    ensures var args := FileArgsCode(s.fileVar, FileArgs(s, top));
            var sink, drop := SinkCode(FileSink(s)), DropCode(FileSink(s));
            var miss := at + |args| + 3 + |sink|;
            var arm := ArmCode(s.elseArm.value, miss + |drop|, lines);
            FileCode(s, top, at, lines) ==
            args + [WithStr(TryOp(FileOp(s)), Uppercase(s.fileVar))] + [WithInt(JumpIfZero, miss)]
            + (sink + [WithInt(Jump, miss + |drop| + |arm|)] + (drop + arm))
  {
    hide ExprOk, FileArgs, FileArgsCode, FileArgOk, FileOp, TryOp, FileSink, SinkCode, DropCode, Uppercase, ArmCode;
  }

  lemma NoElseParts(s: Stmt, top: bool, at: nat, lines: LineMap)
    requires IsFile(s) && StmtOk(s, top) && s.elseArm.None?
    ensures FileCode(s, top, at, lines) ==
            FileArgsCode(s.fileVar, FileArgs(s, top)) + [WithStr(FileOp(s), Uppercase(s.fileVar))] + SinkCode(FileSink(s))
  {
    hide ExprOk, FileArgs, FileArgsCode, FileArgOk, FileOp, FileSink, SinkCode, Uppercase;
  }

  lemma IfParts(s: Stmt)
    requires s.If?
    ensures StmtOk(s, true) <==> ExprOk(s.condition, false) && ArmOk(s.thenArm) && (s.elseArm.Some? ==> ArmOk(s.elseArm.value))
    ensures StmtOk(s, false) <==> StmtOk(s, true)
  {
    hide ExprOk, ArmOk;
  }

  lemma OneArmParts(s: Stmt, at: nat, lines: LineMap)
    requires s.If? && StmtOk(s, false) && s.elseArm.None?
    ensures var cond := ExprCode(s.condition, false);
            var body := ArmCode(s.thenArm, at + |cond| + 1, lines);
            IfCode(s, at, lines) == cond + [WithInt(JumpIfZero, at + |cond| + 1 + |body|)] + body
  {
    hide ExprOk, ExprCode, ArmCode;
  }

  lemma TwoArmParts(s: Stmt, at: nat, lines: LineMap)
    requires s.If? && StmtOk(s, false) && s.elseArm.Some?
    ensures var cond := ExprCode(s.condition, false);
            var body := ArmCode(s.thenArm, at + |cond| + 1, lines);
            var falls := !s.thenArm.LineArm?;
            var elseAt := at + |cond| + 1 + |body| + if falls then 1 else 0;
            var other := ArmCode(s.elseArm.value, elseAt, lines);
            IfCode(s, at, lines) == cond + [WithInt(JumpIfZero, elseAt)]
                                    + (if falls then body + [WithInt(Jump, elseAt + |other|)] + other else body + other)
  {
    hide ExprOk, ExprCode, ArmCode;
  }

  lemma EndOk(s: Stmt)
    requires s.End?
    ensures StmtOk(s, true)
  {
    hide ExprOk;
  }

  lemma EmptyEmitted(p: Program)
    ensures Compilable(p) ==> Start(p, 0) == 0 && BodyCode(p, 0, LineTable(p, |p|)) == [] && LineTable(p, 0) == map[] && LinePerInstruction(p, 0) == []
    ensures Compilable(p) ==> Patched([], [], LineTable(p, |p|)) == []
  {
    hide LineOk;
  }

  lemma LineEmitted(p: Program, k: nat, p0: seq<Instruction>, f0: seq<Fixup>, p1: seq<Instruction>, f1: seq<Fixup>)
    requires k < |p| && Compilable(p) && |p0| == Start(p, k)
    requires Extends(p0, f0, p1, f1, LineTable(p, |p|), StmtCode(p[k].stmt, true, |p0|, LineTable(p, |p|)))
    requires Patched(p0, f0, LineTable(p, |p|)) == BodyCode(p, k, LineTable(p, |p|))
    ensures |p1| == Start(p, k + 1) && |p1| - |p0| == LineSize(p[k])
    ensures Patched(p1, f1, LineTable(p, |p|)) == BodyCode(p, k + 1, LineTable(p, |p|))
    ensures LineTable(p, k + 1) == LineTable(p, k)[p[k].number := Start(p, k)]
    ensures LinePerInstruction(p, k + 1) == LinePerInstruction(p, k) + Repeat(p[k].number, LineSize(p[k]))
  {
    hide StmtOk, StmtCode, Patched, LineSize;
    SameSize(p[k], |p0|, LineTable(p, |p|));
  }

  class BytecodeEmitter {
    var program: seq<Instruction>
    var fixups: seq<Fixup>
    /** Line numbers of the errors reported so far. */
    var errors: seq<int>
    var addressOfLine: LineMap
    var sourceLinePerInstr: seq<int>
    var explicitEnd: bool

    constructor ()
      ensures program == [] && fixups == [] && errors == [] && addressOfLine == map[] && sourceLinePerInstr == [] && !explicitEnd
    {
      program, fixups, errors, addressOfLine, sourceLinePerInstr, explicitEnd := [], [], [], map[], [], false;
    }

    method Push(i: Instruction)
      modifies this`program
      ensures program == old(program) + [i]
    {
      program := program + [i];
    }

    method EmitNode(e: Expr, inArith: bool) returns (ok: bool)
      modifies this`program
      ensures ok <==> ExprOk(e, inArith)
      ensures ok ==> program == old(program) + ExprCode(e, inArith)
      ensures |program| >= |old(program)|
      decreases e, 1
    {
      hide IsValidVariableName, BuiltinCallOk, Uppercase, ArgsOk, ArgsCode;
      if e.Negate? || e.Binary? || e.Subscript? {
        ok := EmitOperation(e, inArith);
        return;
      }
      ok := true;
      match e
      case IntLiteral(n) => Push(WithInt(PushInt, n));
      case FloatLiteral(d) => Push(Instruction(PushFlt, FltV(d), NO_FUNC));
      case StringLiteral(s) => Push(WithStr(PushStr, s));
      case DictField(token) =>
        if inArith || token == "" { return false; }
        Push(WithStr(PushStr, token));
      case Identifier(name) =>
        if !IsValidVariableName(name) { return false; }
        if inArith && IsStringVar(name) { return false; }
        Push(WithStr(LoadVar, Uppercase(name)));
      case Grouped(x) => ok := EmitNode(x, inArith);
      case AttributeAccess(name, a, vi) =>
        ok := EmitAttribute(e, inArith);
      case FunctionCall(name, args) =>
        ok := EmitBuiltinCall(e, inArith);
    }

    /** Operators and subscripts. */
    method EmitOperation(e: Expr, inArith: bool) returns (ok: bool)
      requires e.Negate? || e.Binary? || e.Subscript?
      modifies this`program
      ensures ok <==> ExprOk(e, inArith)
      ensures ok ==> program == old(program) + ExprCode(e, inArith)
      ensures |program| >= |old(program)|
      decreases e, 0
    {
      hide IsValidVariableName, Uppercase, ExprOk, ExprCode;
      OperationParts(e, inArith);
      match e
      case Negate(x) =>
        Push(WithInt(PushInt, 0));
        ok := EmitNode(x, true);
        if ok { Push(Plain(Sub)); }
      case Binary(op, l, r) =>
        ok := EmitNode(l, IsArithmetic(op));
        if !ok { return; }
        ok := EmitNode(r, IsArithmetic(op));
        if ok { Push(Plain(OpOf(op))); }
      case Subscript(name, i) =>
        if !IsValidVariableName(name) { return false; }
        if inArith && IsStringVar(name) { return false; }
        ok := EmitNode(i, false);
        if ok { Push(WithStr(LoadArr, Uppercase(name))); }
    }

    method EmitAttribute(e: Expr, inArith: bool) returns (ok: bool)
      requires e.AttributeAccess?
      modifies this`program
      ensures ok <==> ExprOk(e, inArith)
      ensures ok ==> program == old(program) + ExprCode(e, inArith)
      ensures |program| >= |old(program)|
      decreases e, 0
    {
      hide IsValidVariableName, Uppercase, ExprOk, ExprCode;
      AttributeParts(e, inArith);
      var AttributeAccess(name, a, vi) := e;
      if !IsValidVariableName(name) { return false; }
      Push(WithStr(LoadVar, Uppercase(name)));
      ok := EmitNode(a, false);
      if !ok { return; }
      if vi.Some? {
        ok := EmitNode(vi.value, false);
        if !ok { return; }
      } else {
        Push(WithInt(PushInt, 0));
      }
      Push(Plain(ExtractAttr));
    }

    method EmitBuiltinCall(e: Expr, inArith: bool) returns (ok: bool)
      requires e.FunctionCall?
      modifies this`program
      ensures ok <==> ExprOk(e, inArith)
      ensures ok ==> program == old(program) + ExprCode(e, inArith)
      ensures |program| >= |old(program)|
      decreases e, 0
    {
      hide BuiltinArity, FunctionId, BuiltinArgInArithmetic, Uppercase, ArgsOk, ArgsCode;
      var FunctionCall(name, args) := e;
      var bounds := BuiltinArity(name);
      if bounds.None? { return false; }
      if |args| < bounds.value.0 || |args| > bounds.value.1 { return false; }
      ok := EmitArguments(e);
      if !ok { return; }
      if name == "INDEX" && |args| == 2 {
        Push(WithInt(PushInt, 1));
      }
      var effective := if name == "INDEX" && |args| == 2 then 3 else |args|;
      var id := FunctionId(name, effective);
      if id.None? { return false; }
      Push(Invoke(FuncRef(BASIC_NAMESPACE, id.value, effective)));
    }

    method EmitArguments(e: Expr) returns (ok: bool)
      requires e.FunctionCall?
      modifies this`program
      ensures ok <==> ArgsOk(e.builtin, e.args, 0)
      ensures ok ==> program == old(program) + ArgsCode(e.builtin, e.args, 0)
      ensures |program| >= |old(program)|
      decreases e, 0, 0
    {
      hide ExprOk, ExprCode, BuiltinArgInArithmetic;
      var name, args := e.builtin, e.args;
      var i := 0;
      assert args[0..] == args;
      while i < |args|
        invariant 0 <= i <= |args| && |program| >= |old(program)|
        invariant ArgsOk(name, args, 0) <==> ArgsOk(name, args[i..], i)
        invariant ArgsOk(name, args, 0) ==> program + ArgsCode(name, args[i..], i) == old(program) + ArgsCode(name, args, 0)
      {
        assert args[i..][0] == args[i] && args[i..][1..] == args[i + 1..];
        ok := EmitNode(args[i], BuiltinArgInArithmetic(name, i));
        if !ok { return; }
        i := i + 1;
      }
      return true;
    }

    /** An expression and one instruction that uses it. */
    method EmitUse(e: Expr, i: Instruction) returns (ok: bool)
      modifies this`program
      ensures ok <==> ExprOk(e, false)
      ensures ok ==> program == old(program) + (ExprCode(e, false) + [i])
      ensures |program| >= |old(program)|
    {
      hide ExprOk, ExprCode;
      ok := EmitNode(e, false);
      if ok { Push(i); }
    }

    method EmitOptional(e: Option<Expr>, default: int) returns (ok: bool)
      modifies this`program
      ensures ok <==> OptOk(e)
      ensures ok ==> program == old(program) + OptCode(e, [WithInt(PushInt, default)])
      ensures |program| >= |old(program)|
    {
      hide ExprOk, ExprCode;
      if e.Some? {
        ok := EmitNode(e.value, false);
      } else {
        Push(WithInt(PushInt, default));
        ok := true;
      }
    }

    /** `%` variables are always integers: coerce on assignment. */
    method EmitCoerce(name: string)
      modifies this`program
      ensures program == old(program) + CoerceCode(name)
    {
      if IsIntVar(name) { Push(Plain(CoerceInt)); }
    }

    method EmitStore(name: string)
      modifies this`program
      ensures program == old(program) + StoreCode(name)
    {
      hide Uppercase;
      EmitCoerce(name);
      Push(WithStr(StoreVar, Uppercase(name)));
    }

    method EmitFor(s: Stmt) returns (ok: bool)
      requires s.For?
      modifies this`program
      ensures ok <==> StmtOk(s, true)
      ensures ok ==> program == old(program) + SimpleCode(s, map[])
      ensures |program| >= |old(program)|
    {
      hide ExprOk, ExprCode, OptOk, OptCode, Uppercase, StoreCode, CoerceCode, IsStringVar, SimpleCode, StmtOk;
      ForParts(s);
      var For(v, init, limit, step) := s;
      if IsStringVar(v) { return false; }
      ok := EmitNode(init, false);
      if !ok { return; }
      EmitStore(v);
      ok := EmitNode(limit, false);
      if !ok { return; }
      ok := EmitOptional(step, 1);
      if !ok { return; }
      Push(WithStr(ForSetup, Uppercase(v)));
    }

    method EmitLetArray(s: Stmt) returns (ok: bool)
      requires s.LetArray?
      modifies this`program
      ensures ok <==> StmtOk(s, true)
      ensures ok ==> program == old(program) + SimpleCode(s, map[])
      ensures |program| >= |old(program)|
    {
      hide ExprOk, ExprCode, Uppercase, CoerceCode, SimpleCode, StmtOk;
      LetArrayParts(s);
      var LetArray(v, i, value) := s;
      ok := EmitNode(value, false);
      if !ok { return; }
      EmitCoerce(v);
      ok := EmitNode(i, false);
      if !ok { return; }
      Push(WithStr(StoreArr, Uppercase(v)));
    }

    /** LET, INPUT and PRINT. */
    method EmitVariable(s: Stmt) returns (ok: bool)
      requires s.Let? || s.Input? || s.Print?
      modifies this`program
      ensures ok <==> StmtOk(s, true)
      ensures ok ==> program == old(program) + SimpleCode(s, map[])
      ensures |program| >= |old(program)|
    {
      hide ExprOk, ExprCode, Uppercase, StoreCode, CoerceCode, SimpleCode, StmtOk;
      VariableParts(s);
      ok := true;
      match s
      case Let(v, e) =>
        ok := EmitNode(e, false);
        if ok { EmitStore(v); }
      case Input(prompt, v) =>
        if prompt.Some? {
          ok := EmitUse(prompt.value, Plain(PrintVal));
          if !ok { return; }
        }
        Push(Plain(InputStr));
        EmitStore(v);
      case Print(e, suppressEol) =>
        ok := EmitUse(e, Plain(PrintVal));
        if ok && !suppressEol { Push(Plain(PrintEol)); }
    }

    /** Statements that hand one value to one instruction. */
    method EmitValueAction(s: Stmt) returns (ok: bool)
      requires s.ChainTo? || s.Dim? || s.Release? || s.MatFill?
      modifies this`program
      ensures ok <==> StmtOk(s, true)
      ensures ok ==> program == old(program) + SimpleCode(s, map[])
      ensures |program| >= |old(program)|
    {
      hide ExprOk, ExprCode, StmtOk, SimpleCode, ValueUse;
      ValueParts(s);
      var (e, ins) := ValueUse(s);
      ok := EmitUse(e, ins);
    }

    /** Statements that are one instruction, or none. */
    method EmitPlainAction(s: Stmt)
      requires IsPlainAction(s)
      modifies this`program
      ensures StmtOk(s, true) && program == old(program) + SimpleCode(s, map[])
    {
      hide Uppercase, StmtOk, SimpleCode;
      PlainParts(s);
      match s
      case MatAssign(a, src) => Push(WithStr(MatCopy, Uppercase(a) + "|" + Uppercase(src)));
      case ReturnStmt => Push(Plain(Return));
      case Next(v) => Push(WithStr(ForNext, Uppercase(v)));
      case Stop => Push(Plain(Halt));
      case End => Push(Plain(Halt));
      case Clear => Push(Plain(ClearVars));
      case Close(f) => Push(WithStr(CloseFile, Uppercase(f)));
      case OnError(_, _) => Push(WithInt(SetOnErrorHandler, 0));
      case Rem =>
    }

    /** A jump to a line number, resolved later. */
    method PushJump(op: OpCode, target: int, ghost lines: LineMap)
      requires Inside(program, fixups)
      modifies this`program, this`fixups
      ensures Extends(old(program), old(fixups), program, fixups, lines, [WithInt(op, Address(lines, target))])
    {
      ExtendsJump(program, fixups, lines, op, target);
      fixups := fixups + [Fixup(|program|, target)];
      program := program + [WithInt(op, 0)];
    }

    /** Statements other than IF and file statements. `top` is false inside an arm. */
    method EmitSimple(s: Stmt, top: bool, line: int, ghost lines: LineMap) returns (ok: bool)
      requires IsSimple(s) && Inside(program, fixups)
      modifies this`program, this`fixups, this`errors
      ensures Inside(program, fixups)
      ensures ok <==> StmtOk(s, top)
      ensures errors == if ok then old(errors) else old(errors) + [line]
      ensures ok ==> Extends(old(program), old(fixups), program, fixups, lines, SimpleCode(s, lines))
    {
      hide ExprOk, SimpleCode, StmtOk, Extends, Uppercase, Address;
      SimpleContexts(s);
      if !top && TopOnlyStatement(s) {
        ok := false;
      } else if s.Goto? || s.Gosub? || (s.OnError? && !s.stop) {
        JumpParts(s, lines);
        PushJump(if s.Goto? then Jump else if s.Gosub? then Call else SetOnErrorHandler, s.target, lines);
        ok := true;
      } else {
        if s.For? {
          ok := EmitFor(s);
        } else if s.LetArray? {
          ok := EmitLetArray(s);
        } else if s.Let? || s.Input? || s.Print? {
          ok := EmitVariable(s);
        } else if s.ChainTo? || s.Dim? || s.Release? || s.MatFill? {
          ok := EmitValueAction(s);
        } else {
          EmitPlainAction(s);
          ok := true;
        }
        if ok {
          StraightLines(s, lines);
          ExtendsPlain(old(program), fixups, lines, SimpleCode(s, lines));
        }
      }
      if !ok {
        errors := errors + [line];
      }
      if ok {
        ExtendsInside(old(program), old(fixups), program, fixups, lines, SimpleCode(s, lines));
      }
    }

    /** Sets the operand of a branch already emitted. */
    method Aim(at: nat, target: nat)
      requires at < |program|
      modifies this`program
      ensures program == old(program)[at := old(program)[at].(operand := IntV(target))]
    {
      program := program[at := program[at].(operand := IntV(target))];
    }

    method EmitFileArg(fileVar: string, a: FileArg) returns (ok: bool)
      modifies this`program
      ensures ok <==> FileArgOk(a)
      ensures ok ==> program == old(program) + FileArgCode(fileVar, a)
      ensures |program| >= |old(program)|
    {
      hide ExprOk, ExprCode, Uppercase;
      ok := true;
      match a
      case ConstArg(n) => Push(WithInt(PushInt, n));
      case PackArg(name) => Push(WithStr(MatStoreToRec, Uppercase(name)));
      case ExprArg(e) => ok := EmitNode(e, false);
      case DictArg(e) => ok := EmitUse(e, WithStr(ResolveDictAttr, Uppercase(fileVar)));
    }

    method EmitFileArgs(fileVar: string, args: seq<FileArg>) returns (ok: bool)
      modifies this`program
      ensures ok <==> forall a | a in args :: FileArgOk(a)
      ensures ok ==> program == old(program) + FileArgsCode(fileVar, args)
      ensures |program| >= |old(program)|
    {
      hide FileArgCode, FileArgOk;
      var i := 0;
      assert args[0..] == args;
      while i < |args|
        invariant 0 <= i <= |args| && |program| >= |old(program)|
        invariant forall k | 0 <= k < i :: FileArgOk(args[k])
        invariant (forall a | a in args :: FileArgOk(a)) ==>
                    program + FileArgsCode(fileVar, args[i..]) == old(program) + FileArgsCode(fileVar, args)
      {
        assert args[i..][0] == args[i] && args[i..][1..] == args[i + 1..];
        assert args[i] in args;
        ok := EmitFileArg(fileVar, args[i]);
        if !ok { return; }
        i := i + 1;
      }
      return true;
    }

    method EmitSink(sink: Sink)
      modifies this`program
      ensures program == old(program) + SinkCode(sink)
    {
      hide Uppercase;
      match sink
      case NoSink =>
      case VarSink(name) => Push(WithStr(StoreVar, Uppercase(name)));
      case ArraySink(name) => Push(WithStr(MatLoadFromRec, Uppercase(name)));
    }

    method EmitDrop(sink: Sink)
      modifies this`program
      ensures program == old(program) + DropCode(sink)
    {
      if !sink.NoSink? { Push(Plain(Drop)); }
    }

    method EmitArm(a: BranchArm, line: int, ghost lines: LineMap) returns (ok: bool)
      requires Inside(program, fixups)
      modifies this`program, this`fixups, this`errors
      ensures Inside(program, fixups)
      ensures ok <==> ArmOk(a)
      ensures errors == if ok then old(errors) else old(errors) + [line]
      ensures ok ==> Extends(old(program), old(fixups), program, fixups, lines, ArmCode(a, |old(program)|, lines))
      decreases a, 0
    {
      hide StmtOk, StmtCode, Extends, Address;
      match a
      case LineArm(n) =>
        PushJump(Jump, n, lines);
        ExtendsInside(old(program), old(fixups), program, fixups, lines, ArmCode(a, |old(program)|, lines));
        ok := true;
      case InlineArm(s) =>
        ok := EmitStatement(s, false, line, lines);
      case EmptyArm =>
        errors := errors + [line];
        ok := false;
    }

    /** The failure path of a file statement: test the flag, store on success, else drop and run the arm. */
    method EmitElse(s: Stmt, line: int, ghost lines: LineMap) returns (ok: bool)
      requires IsFile(s) && s.elseArm.Some? && Inside(program, fixups)
      modifies this`program, this`fixups, this`errors
      ensures Inside(program, fixups)
      ensures ok <==> ArmOk(s.elseArm.value)
      ensures errors == if ok then old(errors) else old(errors) + [line]
      ensures ok ==>
              var sink, drop := SinkCode(FileSink(s)), DropCode(FileSink(s));
              var miss := |old(program)| + 2 + |sink|;
              var arm := ArmCode(s.elseArm.value, miss + |drop|, lines);
              Extends(old(program), old(fixups), program, fixups, lines,
                      [WithInt(JumpIfZero, miss)] + (sink + [WithInt(Jump, miss + |drop| + |arm|)] + (drop + arm)))
      decreases s, 0
    {
      hide StmtOk, ArmOk, ArmCode, Extends, FileSink, SinkCode, DropCode, FileOp, FileArgs;
      ghost var sink, drop := SinkCode(FileSink(s)), DropCode(FileSink(s));
      ghost var p1, f1 := program, fixups;
      var test := |program|;
      Push(WithInt(JumpIfZero, 0));
      ghost var p1' := program;
      assert Inside(p1', f1);
      EmitSink(FileSink(s));
      ExtendsPlain(p1', f1, lines, sink);
      var skip := |program|;
      ghost var p2 := program;
      assert Inside(p2, f1);
      Push(WithInt(Jump, 0));
      ghost var p2' := program;
      assert Inside(p2', f1);
      var miss := |program|;
      EmitDrop(FileSink(s));
      ExtendsPlain(p2', f1, lines, drop);
      ghost var p3 := program;
      ghost var arm := if ArmOk(s.elseArm.value) then ArmCode(s.elseArm.value, |p3|, lines) else [];
      ok := EmitArm(s.elseArm.value, line, lines);
      if !ok { return; }
      ExtendsInside(p3, f1, program, fixups, lines, arm);
      ExtendsThen(p2', f1, p3, f1, program, fixups, lines, drop, arm);
      ghost var p4 := program;
      ExtendsKeeps(p2, f1, WithInt(Jump, 0), p4, fixups, lines, drop + arm);
      ExtendsPatch(p1', f1, p2, f1, p4, fixups, lines, sink, WithInt(Jump, 0), drop + arm, WithInt(Jump, |p4|));
      ghost var p5 := p4[skip := WithInt(Jump, |p4|)];
      ghost var rest := sink + [WithInt(Jump, |p4|)] + (drop + arm);
      ExtendsKeeps(p1, f1, WithInt(JumpIfZero, 0), p5, fixups, lines, rest);
      ExtendsNothing(p1, f1, lines);
      ExtendsPatch(p1, f1, p1, f1, p5, fixups, lines, [], WithInt(JumpIfZero, 0), rest, WithInt(JumpIfZero, miss));
      Aim(test, miss);
      Aim(skip, |program|);
      assert program == p5[test := WithInt(JumpIfZero, miss)];
      assert [] + [WithInt(JumpIfZero, miss)] + rest == [WithInt(JumpIfZero, miss)] + rest;
      ExtendsInside(p1, f1, program, fixups, lines, [WithInt(JumpIfZero, miss)] + rest);
    }

    method EmitFile(s: Stmt, top: bool, line: int, ghost lines: LineMap) returns (ok: bool)
      requires IsFile(s) && Inside(program, fixups)
      modifies this`program, this`fixups, this`errors
      ensures Inside(program, fixups)
      ensures ok <==> StmtOk(s, top)
      ensures errors == if ok then old(errors) else old(errors) + [line]
      ensures ok ==> Extends(old(program), old(fixups), program, fixups, lines, FileCode(s, top, |old(program)|, lines))
      decreases s, 1
    {
      hide StmtOk, ArmOk, ArmCode, Extends, FileSink, SinkCode, DropCode, FileOp, TryOp, FileArgs, FileArgsCode, FileArgOk, FileCode, Uppercase;
      FileParts(s, top);
      if !top && TopOnlyStatement(s) {
        errors := errors + [line];
        return false;
      }
      ok := EmitFileArgs(s.fileVar, FileArgs(s, top));
      if !ok {
        errors := errors + [line];
        return;
      }
      ghost var p0, f0 := old(program), fixups;
      ghost var args := FileArgsCode(s.fileVar, FileArgs(s, top));
      if s.elseArm.None? {
        Push(WithStr(FileOp(s), Uppercase(s.fileVar)));
        EmitSink(FileSink(s));
        NoElseParts(s, top, |p0|, lines);
        assert program == p0 + FileCode(s, top, |p0|, lines);
        ExtendsPlain(p0, f0, lines, FileCode(s, top, |p0|, lines));
      } else {
        Push(WithStr(TryOp(FileOp(s)), Uppercase(s.fileVar)));
        ghost var first := args + [WithStr(TryOp(FileOp(s)), Uppercase(s.fileVar))];
        assert program == p0 + first;
        ghost var p1 := program;
        ExtendsPlain(p0, f0, lines, first);
        ok := EmitElse(s, line, lines);
        if ok {
          TryParts(s, top, |p0|, lines);
          ghost var sink, drop := SinkCode(FileSink(s)), DropCode(FileSink(s));
          ghost var miss := |p1| + 2 + |sink|;
          ghost var arm := ArmCode(s.elseArm.value, miss + |drop|, lines);
          ghost var tail := [WithInt(JumpIfZero, miss)] + (sink + [WithInt(Jump, miss + |drop| + |arm|)] + (drop + arm));
          ExtendsThen(p0, f0, p1, f0, program, fixups, lines, first, tail);
          assert first + tail == FileCode(s, top, |p0|, lines);
        }
      }
    }

    method EmitIf(s: Stmt, line: int, ghost lines: LineMap) returns (ok: bool)
      requires s.If? && Inside(program, fixups)
      modifies this`program, this`fixups, this`errors
      ensures Inside(program, fixups)
      ensures ok <==> StmtOk(s, false)
      ensures errors == if ok then old(errors) else old(errors) + [line]
      ensures ok ==> Extends(old(program), old(fixups), program, fixups, lines, IfCode(s, |old(program)|, lines))
      decreases s, 1
    {
      hide StmtOk, ArmOk, ArmCode, Extends, ExprOk, ExprCode, IfCode;
      IfParts(s);
      ok := EmitNode(s.condition, false);
      if !ok {
        errors := errors + [line];
        return;
      }
      ghost var p0, f0, p1 := old(program), fixups, program;
      ghost var cond := ExprCode(s.condition, false);
      ExtendsPlain(p0, f0, lines, cond);
      var branch := |program|;
      Push(WithInt(JumpIfZero, 0));
      ghost var p2 := program;
      assert Inside(p2, f0);
      ok := EmitArm(s.thenArm, line, lines);
      if !ok { return; }
      ghost var body := ArmCode(s.thenArm, |p2|, lines);
      ExtendsInside(p2, f0, program, fixups, lines, body);
      if s.elseArm.Some? {
        ghost var p3, f3 := program, fixups;
        var falls := !s.thenArm.LineArm?;
        var skip := |program|;
        if falls {
          Push(WithInt(Jump, 0));
        }
        ghost var p3' := program;
        assert Inside(p3', f3);
        var elseAt := |program|;
        ok := EmitArm(s.elseArm.value, line, lines);
        if !ok { return; }
        ghost var other := ArmCode(s.elseArm.value, elseAt, lines);
        ExtendsInside(p3', f3, program, fixups, lines, other);
        ghost var p4, f4 := program, fixups;
        AimedArms(p0, f0, p1, p3, f3, p4, f4, lines, cond, body, other, falls);
        Aim(branch, elseAt);
        if falls {
          Aim(skip, |program|);
        }
        TwoArmParts(s, |p0|, lines);
      } else {
        ExtendsKeeps(p1, f0, WithInt(JumpIfZero, 0), program, fixups, lines, body);
        ExtendsPatch(p0, f0, p1, f0, program, fixups, lines, cond, WithInt(JumpIfZero, 0), body, WithInt(JumpIfZero, |program|));
        Aim(branch, |program|);
        OneArmParts(s, |p0|, lines);
      }
      ExtendsInside(p0, f0, program, fixups, lines, IfCode(s, |p0|, lines));
    }

    method EmitStatement(s: Stmt, top: bool, line: int, ghost lines: LineMap) returns (ok: bool)
      requires Inside(program, fixups)
      modifies this`program, this`fixups, this`errors
      ensures Inside(program, fixups)
      ensures ok <==> StmtOk(s, top)
      ensures errors == if ok then old(errors) else old(errors) + [line]
      ensures ok ==> Extends(old(program), old(fixups), program, fixups, lines, StmtCode(s, top, |old(program)|, lines))
      decreases s, 2
    {
      hide StmtOk, Extends, FileCode, IfCode, SimpleCode;
      if IsFile(s) {
        ok := EmitFile(s, top, line, lines);
        if ok { ExtendsInside(old(program), old(fixups), program, fixups, lines, FileCode(s, top, |old(program)|, lines)); }
      } else if s.If? {
        IfParts(s);
        ok := EmitIf(s, line, lines);
      } else {
        SimpleContexts(s);
        ok := EmitSimple(s, top, line, lines);
      }
    }

    /** What holds after the first `k` lines when every line can be emitted. */
    ghost predicate Emitted(p: Program, k: nat)
      requires k <= |p| && Compilable(p)
      reads this
    {
      && Inside(program, fixups)
      && |program| == Start(p, k)
      && Patched(program, fixups, LineTable(p, |p|)) == BodyCode(p, k, LineTable(p, |p|))
      && addressOfLine == LineTable(p, k)
      && sourceLinePerInstr == LinePerInstruction(p, k)
    }

    method EmitLine(p: Program, k: nat)
      requires k < |p| && Inside(program, fixups)
      modifies this
      ensures Inside(program, fixups)
      ensures errors == old(errors) + if StmtOk(p[k].stmt, true) then [] else [p[k].number]
      ensures explicitEnd == (old(explicitEnd) || p[k].stmt.End?)
      ensures Compilable(p) && old(Emitted(p, k)) ==> Emitted(p, k + 1)
    {
      hide StmtOk, StmtCode, Extends, Start, BodyCode, LineTable, LinePerInstruction, Patched, LineSize;
      ghost var lines := if Compilable(p) then LineTable(p, |p|) else map[];
      var start := |program|;
      addressOfLine := addressOfLine[p[k].number := start];
      var ok := EmitStatement(p[k].stmt, true, p[k].number, lines);
      if p[k].stmt.End? {
        EndOk(p[k].stmt);
        explicitEnd := true;
      }
      if ok && |program| > start {
        sourceLinePerInstr := sourceLinePerInstr + seq(|program| - start, _ => p[k].number);
      }
      if Compilable(p) && old(Emitted(p, k)) {
        LineEmitted(p, k, old(program), old(fixups), program, fixups);
        assert addressOfLine == LineTable(p, k + 1);
        assert sourceLinePerInstr == old(sourceLinePerInstr) + Repeat(p[k].number, |program| - start);
      }
    }

    /** Resolves the pending jumps; a line number that does not exist leaves its jump alone. */
    method ApplyFixups()
      requires Inside(program, fixups)
      modifies this`program
      ensures program == Patched(old(program), fixups, addressOfLine)
    {
      assert fixups[..0] == [];
      for k := 0 to |fixups|
        invariant Inside(old(program), fixups[..k])
        invariant program == Patched(old(program), fixups[..k], addressOfLine)
      {
        var f := fixups[k];
        assert fixups[..k + 1][..k] == fixups[..k] && fixups[..k + 1][k] == f;
        if f.target in addressOfLine {
          Aim(f.at, addressOfLine[f.target]);
        }
      }
      assert fixups[..|fixups|] == fixups;
    }

    /** Emits a whole program. It succeeds exactly when every line can be emitted, reports the other
        lines in order, and a successful result is the compiled program with its source lines. */
    method Emit(p: Program) returns (success: bool)
      requires program == [] && fixups == [] && errors == [] && addressOfLine == map[] && sourceLinePerInstr == [] && !explicitEnd
      modifies this
      ensures success <==> Compilable(p)
      ensures errors == Rejected(p, |p|)
      ensures !success ==> program == [] && sourceLinePerInstr == []
      ensures success ==> program == Compile(p)
      ensures success ==> |sourceLinePerInstr| == |program|
      ensures success ==>
              sourceLinePerInstr == LinePerInstruction(p, |p|) + if |program| > Start(p, |p|) then [0] else []
    {
      hide StmtOk, StmtCode, Start, BodyCode, LinePerInstruction, Patched, LineTable;
      EmptyEmitted(p);
      for k := 0 to |p|
        invariant Inside(program, fixups)
        invariant errors == Rejected(p, k)
        invariant explicitEnd == HasEnd(p, k)
        invariant Compilable(p) ==> Emitted(p, k)
      {
        EmitLine(p, k);
      }
      ApplyFixups();
      RejectedNone(p, |p|);
      if errors != [] {
        program, sourceLinePerInstr := [], [];
        return false;
      }
      if Compilable(p) {
        LineCount(p, |p|);
        assert program == BodyCode(p, |p|, LineTable(p, |p|));
      }
      if !explicitEnd || program == [] || !program[|program| - 1].op.Halt? {
        Push(Plain(Halt));
        sourceLinePerInstr := sourceLinePerInstr + [0];
      }
      return true;
    }
  }
}
