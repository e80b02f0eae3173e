/** The whole way of a BASIC program: analysis of its line targets, emission, and execution. */
module Pipeline {
  import opened Bytecode
  import opened BasicAst
  import opened Machine
  import opened ProgramCorrect
  import opened StackSafety
  import Emitter
  import Runtime

  // ---------------------------------------------------------------------------------------------
  // Semantic analysis
  // ---------------------------------------------------------------------------------------------

  /** An unknown target line, or an arm with neither line nor statement, reported for its owner line. */
  datatype Problem = UnknownTarget(owner: int, target: int) | EmptyBranch(owner: int)

  function TargetProblems(n: int, owner: int, known: set<int>): seq<Problem> {
    if n in known then [] else [UnknownTarget(owner, n)]
  }

  function ArmProblems(a: BranchArm, owner: int, known: set<int>): seq<Problem> {
    match a
    case LineArm(n) => TargetProblems(n, owner, known)
    case InlineArm(s) => Problems(s, owner, known)
    case EmptyArm => [EmptyBranch(owner)]
  }

  function OptArmProblems(a: Option<BranchArm>, owner: int, known: set<int>): seq<Problem> {
    if a.Some? then ArmProblems(a.value, owner, known) else []
  }

  /** What is wrong with the targets of a statement, in the order of the text. */
  function Problems(s: Stmt, owner: int, known: set<int>): seq<Problem> {
    if IsFile(s) then OptArmProblems(s.elseArm, owner, known)
    else if s.If? then ArmProblems(s.thenArm, owner, known) + OptArmProblems(s.elseArm, owner, known)
    else if s.Goto? || s.Gosub? || (s.OnError? && !s.stop) then TargetProblems(s.target, owner, known)
    else []
  }

  lemma {:induction false} NoProblems(s: Stmt, owner: int, known: set<int>)
    ensures Problems(s, owner, known) == [] <==> TargetsKnown(s, known)
    decreases s
  {
    if IsFile(s) {
      if s.elseArm.Some? {
        NoArmProblems(s.elseArm.value, owner, known);
      }
    } else if s.If? {
      NoArmProblems(s.thenArm, owner, known);
      if s.elseArm.Some? {
        NoArmProblems(s.elseArm.value, owner, known);
      }
    }
  }

  lemma {:induction false} NoArmProblems(a: BranchArm, owner: int, known: set<int>)
    ensures ArmProblems(a, owner, known) == [] <==> ArmTargetsKnown(a, known)
    decreases a
  {
    if a.InlineArm? {
      NoProblems(a.stmt, owner, known);
    }
  }

  function AllProblems(p: Program, k: nat, known: set<int>): seq<Problem>
    requires k <= |p|
  {
    if k == 0 then [] else AllProblems(p, k - 1, known) + Problems(p[k - 1].stmt, p[k - 1].number, known)
  }

  lemma {:induction false} NoneAtAll(p: Program, k: nat, known: set<int>)
    requires k <= |p|
    ensures AllProblems(p, k, known) == [] <==> forall i | 0 <= i < k :: TargetsKnown(p[i].stmt, known)
    decreases k
  {
    hide Problems, TargetsKnown;
    if k > 0 {
      NoneAtAll(p, k - 1, known);
      NoProblems(p[k - 1].stmt, p[k - 1].number, known);
    }
  }

  class SemanticAnalyzer {
    var knownLines: set<int>
    var errors: seq<Problem>

    constructor ()
      ensures knownLines == {} && errors == []
    {
      knownLines, errors := {}, [];
    }

    method ValidateTarget(n: int, owner: int)
      modifies this`errors
      ensures errors == old(errors) + TargetProblems(n, owner, knownLines)
    {
      if n !in knownLines {
        errors := errors + [UnknownTarget(owner, n)];
      }
    }

    method ValidateArm(a: BranchArm, owner: int)
      modifies this`errors
      ensures errors == old(errors) + ArmProblems(a, owner, knownLines)
      decreases a
    {
      match a
      case LineArm(n) => ValidateTarget(n, owner);
      case InlineArm(s) => ValidateStatement(s, owner);
      case EmptyArm => errors := errors + [EmptyBranch(owner)];
    }

    method ValidateStatement(s: Stmt, owner: int)
      modifies this`errors
      ensures errors == old(errors) + Problems(s, owner, knownLines)
      decreases s
    {
      if IsFile(s) {
        if s.elseArm.Some? {
          ValidateArm(s.elseArm.value, owner);
        }
      } else if s.If? {
        ValidateArm(s.thenArm, owner);
        if s.elseArm.Some? {
          ValidateArm(s.elseArm.value, owner);
        }
      } else if s.Goto? || s.Gosub? || (s.OnError? && !s.stop) {
        ValidateTarget(s.target, owner);
      }
    }

    /** Accepts exactly the programs whose targets all exist. */
    method Analyze(p: Program) returns (success: bool)
      requires knownLines == {} && errors == []
      modifies this
      ensures success <==> Analyzed(p)
      ensures errors == AllProblems(p, |p|, LineNumbers(p))
    {
      hide Problems, TargetsKnown;
      for i := 0 to |p|
        invariant errors == [] && forall n :: n in knownLines <==> exists j :: 0 <= j < i && p[j].number == n
      {
        knownLines := knownLines + {p[i].number};
      }
      assert forall n :: n in knownLines <==> n in LineNumbers(p);
      assert knownLines == LineNumbers(p);
      for i := 0 to |p|
        invariant knownLines == LineNumbers(p) && errors == AllProblems(p, i, LineNumbers(p))
      {
        ValidateStatement(p[i].stmt, p[i].number);
      }
      NoneAtAll(p, |p|, LineNumbers(p));
      success := errors == [];
    }
  }

  // ---------------------------------------------------------------------------------------------
  // From source to result
  // ---------------------------------------------------------------------------------------------

  /** Analyzes, emits and runs a program for at most `n` instructions. It is rejected exactly when a
      target is unknown or a line cannot be emitted. When the run of an accepted program is over, direct
      execution of its lines is over too, in the same way: same end, variables, arrays and outside
      activity. No accepted program underflows the stack. */
  method CompileAndRun(h: Host, p: Program, n: nat) returns (accepted: bool, o: Outcome)
    ensures accepted <==> Analyzed(p) && Compilable(p)
    ensures accepted && BarFree(p) && !o.Running? ==>
              exists k: nat :: !SrcRun(h, p, FIRST, k).Going? && o == Final(SrcRun(h, p, FIRST, k))
    ensures accepted && o.Fault? ==> o.kind == Raised
  {
    hide StmtOk, TargetsKnown, Exec, Compile, SrcRun, LineOk;
    o := Running(LOADED);
    var analyzer := new SemanticAnalyzer();
    accepted := analyzer.Analyze(p);
    if !accepted {
      return;
    }
    var emitter := new Emitter.BytecodeEmitter();
    accepted := emitter.Emit(p);
    if !accepted {
      return;
    }
    var runtime := new Runtime.BytecodeRuntime(emitter.program);
    o := runtime.Run(h, n);
    OnlyProgramErrors(h, p, n);
    if BarFree(p) && !o.Running? {
      var k := SourceRunEnds(h, p, n);
    }
  }
}
