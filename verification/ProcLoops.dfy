/** PROC scripts: pairing of LOOP and REPEAT lines, and the stack of loop frames that repairs itself
    under arbitrary GO jumps. */
module ProcLoops {
  import opened Bytecode

  /** One statement. `Simple` stands for the commands that only go on to the next line. */
  datatype Stmt =
    | Simple | Go(target: string) | Finish | LoopCmd | RepeatCmd | ExitCmd | ExitIf
    | IfCmd(thenPart: Stmt, elsePart: Option<Stmt>) | Unknown

  /** A blank or label line, a line without tokens, or a statement. */
  datatype Line = Blank | Bare | Do(stmt: Stmt)

  type Script = seq<Line>

  predicate IsLoop(s: Script, i: nat) {
    i < |s| && s[i] == Do(LoopCmd)
  }

  predicate IsRepeat(s: Script, i: nat) {
    i < |s| && s[i] == Do(RepeatCmd)
  }

  // ---------------------------------------------------------------------------------------------
  // Matching LOOP and REPEAT
  // ---------------------------------------------------------------------------------------------

  /** LOOPs minus REPEATs among the first `k` lines. */
  function Depth(s: Script, k: nat): int
    requires k <= |s|
  {
    if k == 0 then 0
    else Depth(s, k - 1) + if IsLoop(s, k - 1) then 1 else if IsRepeat(s, k - 1) then -1 else 0
  }

  predicate Balanced(s: Script) {
    Depth(s, |s|) == 0 && forall k | 0 <= k <= |s| :: Depth(s, k) >= 0
  }

  /** The REPEAT at `r` closes the LOOP at `l`: the nesting returns to its level before `l` at `r`, for
      the first time. */
  ghost predicate Matches(s: Script, l: nat, r: nat) {
    && l < r < |s| && IsLoop(s, l) && IsRepeat(s, r)
    && Depth(s, r + 1) == Depth(s, l)
    && forall k | l < k <= r :: Depth(s, k) > Depth(s, l)
  }

  lemma Deeper(s: Script, l: nat, r: nat, k: nat)
    requires Matches(s, l, r) && l < k <= r
    ensures Depth(s, k) > Depth(s, l) && k <= |s|
  {
  }

  lemma MatchedLevels(s: Script, l: nat, r: nat)
    requires Matches(s, l, r)
    ensures l < r < |s| && Depth(s, r + 1) == Depth(s, l)
  {
  }

  /** A LOOP has at most one REPEAT and a REPEAT at most one LOOP. */
  lemma MatchUnique(s: Script, l: nat, r: nat, l': nat, r': nat)
    requires Matches(s, l, r) && Matches(s, l', r')
    ensures l == l' <==> r == r'
  {
    hide Matches;
    MatchedLevels(s, l, r);
    MatchedLevels(s, l', r');
    if l == l' {
      if r < r' {
        Deeper(s, l, r', r + 1);
      } else if r' < r {
        Deeper(s, l, r, r' + 1);
      }
    } else if r == r' {
      if l < l' {
        Deeper(s, l, r, l');
      } else {
        Deeper(s, l', r, l);
      }
    }
  }

  /** Loops are properly nested: one that begins inside another also ends inside it. */
  lemma ProperlyNested(s: Script, l: nat, r: nat, l': nat, r': nat)
    requires Matches(s, l, r) && Matches(s, l', r') && l < l'
    ensures r < l' || r' < r
  {
    hide Matches;
    MatchedLevels(s, l, r);
    MatchedLevels(s, l', r');
    MatchUnique(s, l, r, l', r');
    if l' <= r {
      Deeper(s, l, r, l');
      if r < r' {
        LoopIsNotRepeat(s, l', r', l, r);
        Deeper(s, l', r', r + 1);
      }
    }
  }

  lemma LoopIsNotRepeat(s: Script, l: nat, r: nat, l': nat, r': nat)
    requires Matches(s, l, r) && Matches(s, l', r')
    ensures l != r'
  {
  }

  /** Position `i` of the prepass with these LOOPs still open. */
  ghost predicate OpenLoops(s: Script, i: nat, open: seq<nat>)
    requires i <= |s|
  {
    && |open| == Depth(s, i)
    && (forall j | 0 <= j < |open| :: open[j] < i && IsLoop(s, open[j]) && Depth(s, open[j]) == j)
    && (forall j, k | 0 <= j < |open| && open[j] < k <= i :: Depth(s, k) > j)
  }

  /** The pairs found among the first `i` lines. */
  ghost predicate Paired(s: Script, i: nat, open: seq<nat>, loopToRepeat: seq<int>, repeatToLoop: seq<int>)
    requires i <= |s|
  {
    && |loopToRepeat| == |repeatToLoop| == |s|
    && (forall l | 0 <= l < |s| :: loopToRepeat[l] == -1 || (0 <= loopToRepeat[l] < i && Matches(s, l, loopToRepeat[l])))
    && (forall r | 0 <= r < |s| :: repeatToLoop[r] == -1 || (0 <= repeatToLoop[r] < r < i && Matches(s, repeatToLoop[r], r)))
    && (forall l | 0 <= l < i && IsLoop(s, l) :: loopToRepeat[l] >= 0 || l in open)
    && (forall r | 0 <= r < i && IsRepeat(s, r) :: repeatToLoop[r] >= 0)
  }

  lemma DepthStep(s: Script, i: nat)
    requires i < |s|
    ensures Depth(s, i + 1) == Depth(s, i) + if IsLoop(s, i) then 1 else if IsRepeat(s, i) then -1 else 0
  {
  }

  /** Pairs LOOP and REPEAT lines; succeeds exactly when they balance. */
  method BuildLoopPairs(s: Script) returns (ok: bool, loopToRepeat: seq<int>, repeatToLoop: seq<int>)
    ensures ok <==> Balanced(s)
    ensures ok ==> |loopToRepeat| == |repeatToLoop| == |s|
    ensures ok ==> forall l, r | 0 <= l < |s| && 0 <= r < |s| :: loopToRepeat[l] == r <==> Matches(s, l, r)
    ensures ok ==> forall l, r | 0 <= l < |s| && 0 <= r < |s| :: repeatToLoop[r] == l <==> Matches(s, l, r)
    ensures ok ==> forall i | 0 <= i < |s| :: loopToRepeat[i] >= -1 && repeatToLoop[i] >= -1
    ensures ok ==> forall i | 0 <= i < |s| :: (loopToRepeat[i] >= 0 <==> IsLoop(s, i)) && (repeatToLoop[i] >= 0 <==> IsRepeat(s, i))
  {
    hide Matches;
    loopToRepeat, repeatToLoop := seq(|s|, _ => -1), seq(|s|, _ => -1);
    var loopStack: seq<nat> := [];
    for i := 0 to |s|
      invariant OpenLoops(s, i, loopStack)
      invariant Paired(s, i, loopStack, loopToRepeat, repeatToLoop)
      invariant forall k | 0 <= k <= i :: Depth(s, k) >= 0
    {
      DepthStep(s, i);
      if IsLoop(s, i) {
        loopStack := loopStack + [i];
      } else if IsRepeat(s, i) {
        if loopStack == [] {
          assert Depth(s, i + 1) < 0;
          return false, loopToRepeat, repeatToLoop;
        }
        var top := |loopStack| - 1;
        var loopPc := loopStack[top];
        ClosesInnermost(s, i, loopStack);
        PairClosed(s, i, loopStack, loopToRepeat, repeatToLoop);
        loopToRepeat := loopToRepeat[loopPc := i];
        repeatToLoop := repeatToLoop[i := loopPc];
        loopStack := loopStack[..top];
      }
    }
    ok := loopStack == [];
    if ok {
      AllPairs(s, loopToRepeat, repeatToLoop);
    }
  }

  lemma ClosesInnermost(s: Script, i: nat, open: seq<nat>)
    requires i < |s| && IsRepeat(s, i) && open != [] && OpenLoops(s, i, open)
    ensures Matches(s, open[|open| - 1], i) && OpenLoops(s, i + 1, open[..|open| - 1])
  {
    DepthStep(s, i);
    var top := |open| - 1;
    assert Depth(s, open[top]) == top;
    assert forall k | open[top] < k <= i :: Depth(s, k) > top;
    assert Depth(s, i + 1) == top;
  }

  lemma PairClosed(s: Script, i: nat, open: seq<nat>, a: seq<int>, b: seq<int>)
    requires i < |s| && IsRepeat(s, i) && open != [] && OpenLoops(s, i, open) && Paired(s, i, open, a, b)
    requires Matches(s, open[|open| - 1], i)
    ensures var top := |open| - 1;
            Paired(s, i + 1, open[..top], a[open[top] := i], b[i := open[top]])
  {
    hide Matches;
    var top := |open| - 1;
    forall l | 0 <= l < i + 1 && IsLoop(s, l)
      ensures a[open[top] := i][l] >= 0 || l in open[..top]
    {
      if l in open && l != open[top] {
        var j :| 0 <= j < |open| && open[j] == l;
        assert open[..top][j] == l;
      }
    }
  }

  lemma AllPairs(s: Script, a: seq<int>, b: seq<int>)
    requires Paired(s, |s|, [], a, b)
    ensures forall l, r | 0 <= l < |s| && 0 <= r < |s| :: a[l] == r <==> Matches(s, l, r)
    ensures forall l, r | 0 <= l < |s| && 0 <= r < |s| :: b[r] == l <==> Matches(s, l, r)
    ensures forall i | 0 <= i < |s| :: (a[i] >= 0 <==> IsLoop(s, i)) && (b[i] >= 0 <==> IsRepeat(s, i))
  {
    forall l, r | 0 <= l < |s| && 0 <= r < |s| && Matches(s, l, r)
      ensures a[l] == r && b[r] == l
    {
      assert a[l] >= 0 && b[r] >= 0;
      MatchUnique(s, l, r, l, a[l]);
      MatchUnique(s, l, r, b[r], r);
    }
  }

  // ---------------------------------------------------------------------------------------------
  // Running a script
  // ---------------------------------------------------------------------------------------------

  datatype LoopFrame = LoopFrame(loopPc: nat, repeatPc: nat)

  type Frames = seq<LoopFrame>

  predicate Holds(f: LoopFrame, pc: nat) {
    f.loopPc < pc <= f.repeatPc
  }

  /** Drops the frames that do not hold `pc`. */
  function Synced(frames: Frames, pc: nat): Frames {
    if frames == [] then []
    else
      var rest := Synced(frames[..|frames| - 1], pc);
      if Holds(frames[|frames| - 1], pc) then rest + [frames[|frames| - 1]] else rest
  }

  /** A script ready to run: label lines and the two pairing tables. */
  datatype Prog = Prog(script: Script, labels: map<string, nat>, loopToRepeat: seq<int>, repeatToLoop: seq<int>)

  ghost predicate Ready(p: Prog) {
    var n := |p.script|;
    && (forall name | name in p.labels :: p.labels[name] < n)
    && |p.loopToRepeat| == |p.repeatToLoop| == n
    && (forall l, r | 0 <= l < n && 0 <= r < n :: p.loopToRepeat[l] == r <==> Matches(p.script, l, r))
    && (forall l, r | 0 <= l < n && 0 <= r < n :: p.repeatToLoop[r] == l <==> Matches(p.script, l, r))
    && (forall i | 0 <= i < n :: -1 <= p.loopToRepeat[i] < n && -1 <= p.repeatToLoop[i] < n)
    && (forall i | 0 <= i < n :: p.loopToRepeat[i] >= 0 <==> IsLoop(p.script, i))
  }

  /** Answers of conditions, and whether a simple statement succeeds. */
  type Oracle = Stmt -> bool

  datatype Moved = Moved(pc: nat, frames: Frames) | Failed

  /** EXIT: the innermost loop that holds `pc` is left behind its REPEAT. */
  function Leave(frames: Frames, pc: nat): Moved {
    var fs := Synced(frames, pc);
    if fs == [] then Failed else Moved(fs[|fs| - 1].repeatPc + 1, fs[..|fs| - 1])
  }

  function NextLine(pc: nat, isInline: bool): nat {
    if isInline then pc else pc + 1
  }

  function Exec(p: Prog, o: Oracle, stmt: Stmt, pc: nat, frames: Frames, isInline: bool): Moved
    requires |p.loopToRepeat| == |p.repeatToLoop| == |p.script| && pc < |p.script|
    decreases stmt
  {
    match stmt
    case Simple => if o(stmt) then Moved(NextLine(pc, isInline), frames) else Failed
    case Go(name) => if name in p.labels then Moved(p.labels[name], frames) else Failed
    case Finish => Moved(|p.script|, frames)
    case LoopCmd =>
      var r := p.loopToRepeat[pc];
      if r < 0 then Failed
      else Moved(NextLine(pc, isInline),
                 if frames == [] || frames[|frames| - 1].loopPc != pc then frames + [LoopFrame(pc, r)] else frames)
    case RepeatCmd =>
      var l := p.repeatToLoop[pc];
      if l < 0 then Failed else Moved(l + 1, frames)
    case ExitCmd => Leave(frames, pc)
    case ExitIf => if o(stmt) then Leave(frames, pc) else Moved(NextLine(pc, isInline), frames)
    case IfCmd(a, b) =>
      var branch := if o(stmt) then Some(a) else b;
      if branch.None? then Moved(NextLine(pc, isInline), frames)
      else
        (match Exec(p, o, branch.value, pc, frames, true)
         case Failed => Failed
         case Moved(pc', frames') => Moved(if !isInline && pc' == pc then pc + 1 else pc', frames'))
    case Unknown => Failed
  }

  /** The next line that is not blank, or the end. */
  function Settle(s: Script, pc: nat): (q: nat)
    ensures pc <= q && (pc <= |s| ==> q <= |s|)
    decreases |s| - pc
  {
    if pc < |s| && s[pc].Blank? then Settle(s, pc + 1) else pc
  }

  /** Standing at a line that is about to run, just after the frames were synchronized. */
  datatype Place = Place(pc: nat, frames: Frames)

  function Arrive(p: Prog, m: Moved): Option<Place> {
    if m.Failed? then None
    else
      var q := Settle(p.script, m.pc);
      if q >= |p.script| then None else Some(Place(q, Synced(m.frames, q)))
  }

  /** Runs one line and goes to the next one; nothing when the script has ended. */
  function Turn(p: Prog, o: Oracle, at: Place): Option<Place>
    requires |p.loopToRepeat| == |p.repeatToLoop| == |p.script| && at.pc < |p.script|
  {
    if p.script[at.pc].Do? then Arrive(p, Exec(p, o, p.script[at.pc].stmt, at.pc, at.frames, false))
    else Arrive(p, Moved(at.pc + 1, at.frames))
  }

  /** A run: the lines at which frames were synchronized, in order, and the frames now. */
  datatype Trace = Trace(visited: seq<nat>, frames: Frames)

  /** The run after one line for each oracle; nothing when it ended before that. */
  function Reach(p: Prog, os: seq<Oracle>): (r: Option<Trace>)
    requires |p.loopToRepeat| == |p.repeatToLoop| == |p.script|
    ensures r.Some? ==> |r.value.visited| > 0 && r.value.visited[|r.value.visited| - 1] < |p.script|
    decreases |os|
  {
    if os == [] then
      match Arrive(p, Moved(0, []))
      case None => None
      case Some(at) => Some(Trace([at.pc], at.frames))
    else
      match Reach(p, os[..|os| - 1])
      case None => None
      case Some(t) =>
        match Turn(p, os[|os| - 1], Place(t.visited[|t.visited| - 1], t.frames))
        case None => None
        case Some(at) => Some(Trace(t.visited + [at.pc], at.frames))
  }

  // ---------------------------------------------------------------------------------------------
  // What the frames are
  // ---------------------------------------------------------------------------------------------

  /** Matched loops, each strictly inside the one before. */
  ghost predicate Chain(s: Script, frames: Frames) {
    && (forall i | 0 <= i < |frames| :: Matches(s, frames[i].loopPc, frames[i].repeatPc))
    && (forall i, j | 0 <= i < j < |frames| :: frames[i].loopPc < frames[j].loopPc && frames[j].repeatPc < frames[i].repeatPc)
  }

  predicate AllHold(frames: Frames, pc: nat) {
    forall i | 0 <= i < |frames| :: Holds(frames[i], pc)
  }

  /** The loop was entered through its LOOP line, and every line visited since then is inside it. */
  ghost predicate Open(s: Script, visited: seq<nat>, f: LoopFrame) {
    && Matches(s, f.loopPc, f.repeatPc)
    && exists k :: 0 <= k < |visited| - 1 && visited[k] == f.loopPc && forall j | k < j < |visited| :: Holds(f, visited[j])
  }

  lemma {:induction false} SyncedIs(frames: Frames, pc: nat)
    ensures forall f: LoopFrame :: f in Synced(frames, pc) <==> f in frames && Holds(f, pc)
    ensures AllHold(Synced(frames, pc), pc)
    ensures AllHold(frames, pc) ==> Synced(frames, pc) == frames
    decreases |frames|
  {
    if frames != [] {
      SyncedIs(frames[..|frames| - 1], pc);
      assert frames == frames[..|frames| - 1] + [frames[|frames| - 1]];
    }
  }

  lemma ChainPush(s: Script, frames: Frames, f: LoopFrame)
    requires Chain(s, frames) && Matches(s, f.loopPc, f.repeatPc)
    requires forall i | 0 <= i < |frames| :: frames[i].loopPc < f.loopPc && f.repeatPc < frames[i].repeatPc
    ensures Chain(s, frames + [f])
  {
    hide Matches;
  }

  lemma ChainPop(s: Script, frames: Frames, n: nat)
    requires Chain(s, frames) && n <= |frames|
    ensures Chain(s, frames[..n])
    ensures n < |frames| ==> Matches(s, frames[n].loopPc, frames[n].repeatPc)
    ensures n < |frames| ==> forall f | f in frames[..n] :: f.loopPc < frames[n].loopPc && frames[n].repeatPc < f.repeatPc
  {
    hide Matches;
  }

  lemma {:induction false} SyncedChain(s: Script, frames: Frames, pc: nat)
    requires Chain(s, frames)
    ensures Chain(s, Synced(frames, pc))
    decreases |frames|
  {
    hide Matches, Chain, AllHold;
    if frames != [] {
      var n := |frames| - 1;
      ChainPop(s, frames, n);
      SyncedChain(s, frames[..n], pc);
      SyncedIs(frames[..n], pc);
      var rest := Synced(frames[..n], pc);
      forall i | 0 <= i < |rest|
        ensures rest[i].loopPc < frames[n].loopPc && frames[n].repeatPc < rest[i].repeatPc
      {
        assert rest[i] in rest;
        assert rest[i] in frames[..n];
      }
      ChainPush(s, rest, frames[n]);
    }
  }

  /** A loop that starts inside all the frames is inside all of them. */
  lemma PushChain(s: Script, frames: Frames, l: nat, r: nat)
    requires Chain(s, frames) && AllHold(frames, l) && Matches(s, l, r)
    ensures Chain(s, frames + [LoopFrame(l, r)])
  {
    hide Matches;
    forall i | 0 <= i < |frames|
      ensures frames[i].loopPc < l && r < frames[i].repeatPc
    {
      assert Holds(frames[i], l);
      ProperlyNested(s, frames[i].loopPc, frames[i].repeatPc, l, r);
    }
    ChainPush(s, frames, LoopFrame(l, r));
  }

  /** The three things a statement can do to the frames. */
  predicate Kept(frames: Frames, m: Moved) {
    m.Moved? && m.frames == frames
  }

  predicate Entered(p: Prog, pc: nat, frames: Frames, m: Moved)
    requires |p.loopToRepeat| == |p.script| && pc < |p.script|
  {
    m.Moved? && p.loopToRepeat[pc] >= 0 && m.frames == frames + [LoopFrame(pc, p.loopToRepeat[pc])] && m.pc == pc + 1
  }

  predicate Left(frames: Frames, m: Moved) {
    m.Moved? && frames != [] && m.frames == frames[..|frames| - 1] && m.pc == frames[|frames| - 1].repeatPc + 1
  }

  lemma {:induction false} ExecFrames(p: Prog, o: Oracle, stmt: Stmt, pc: nat, frames: Frames, isInline: bool)
    requires Ready(p) && pc < |p.script| && Chain(p.script, frames) && AllHold(frames, pc)
    requires if isInline then !IsLoop(p.script, pc) else p.script[pc] == Do(stmt)
    ensures var m := Exec(p, o, stmt, pc, frames, isInline);
            && (m.Moved? ==> m.pc <= |p.script|)
            && (m.Moved? ==> Kept(frames, m) || (!isInline && Entered(p, pc, frames, m)) || Left(frames, m))
            && (m.Moved? && p.loopToRepeat[pc] >= 0 ==> Entered(p, pc, frames, m))
    decreases stmt
  {
    hide Matches, Chain, Ready, AllHold, Synced;
    SyncedIs(frames, pc);
    TablesAt(p, pc);
    FramesEnd(p.script, frames, pc);
    match stmt
    case IfCmd(a, b) =>
      var branch := if o(stmt) then Some(a) else b;
      if branch.Some? {
        ExecFrames(p, o, branch.value, pc, frames, true);
      }
    case _ =>
  }

  lemma TablesAt(p: Prog, pc: nat)
    requires Ready(p) && pc < |p.script|
    ensures |p.loopToRepeat| == |p.repeatToLoop| == |p.script|
    ensures p.loopToRepeat[pc] >= 0 <==> IsLoop(p.script, pc)
    ensures p.repeatToLoop[pc] < |p.script|
    ensures p.loopToRepeat[pc] >= 0 ==> Matches(p.script, pc, p.loopToRepeat[pc])
    ensures forall name | name in p.labels :: p.labels[name] < |p.script|
  {
    hide Matches;
  }

  lemma FramesEnd(s: Script, frames: Frames, pc: nat)
    requires Chain(s, frames) && AllHold(frames, pc)
    ensures frames != [] ==> frames[|frames| - 1].repeatPc < |s| && frames[|frames| - 1].loopPc < pc
  {
  }

  ghost predicate GoodTrace(p: Prog, t: Trace) {
    && |t.visited| > 0
    && (forall i | 0 <= i < |t.visited| :: t.visited[i] < |p.script|)
    && Chain(p.script, t.frames) && AllHold(t.frames, t.visited[|t.visited| - 1])
    && (forall f: LoopFrame :: f in t.frames <==> Open(p.script, t.visited, f))
  }

  /** Visiting one more line keeps exactly the open loops that hold it, and adds the one just entered. */
  lemma OpenNext(s: Script, visited: seq<nat>, q: nat, f: LoopFrame)
    requires |visited| > 0
    ensures var last := visited[|visited| - 1];
            Open(s, visited + [q], f) <==>
            Holds(f, q) && (Open(s, visited, f) || (f.loopPc == last && Matches(s, f.loopPc, f.repeatPc)))
  {
    hide Matches;
    var n := |visited|;
    var longer := visited + [q];
    if Open(s, longer, f) {
      var k :| 0 <= k < n && longer[k] == f.loopPc && forall j | k < j < |longer| :: Holds(f, longer[j]);
      assert Holds(f, longer[n]);
      if k < n - 1 {
        assert forall j | k < j < n :: Holds(f, visited[j]) by { assert forall j | k < j < n :: longer[j] == visited[j]; }
        assert Open(s, visited, f);
      }
    }
    if Holds(f, q) && Open(s, visited, f) {
      var k :| 0 <= k < n - 1 && visited[k] == f.loopPc && forall j | k < j < n :: Holds(f, visited[j]);
      assert forall j | k < j < |longer| :: Holds(f, longer[j]);
      assert longer[k] == f.loopPc;
    }
    if Holds(f, q) && f.loopPc == visited[n - 1] && Matches(s, f.loopPc, f.repeatPc) {
      assert longer[n - 1] == f.loopPc;
      assert forall j | n - 1 < j < |longer| :: Holds(f, longer[j]);
    }
  }

  /** Arriving at the next line after a statement that kept, entered or left a loop. */
  lemma ArriveKeeps(p: Prog, t: Trace, m: Moved)
    requires Ready(p) && GoodTrace(p, t) && m.Moved? && Arrive(p, m).Some?
    requires var pc := t.visited[|t.visited| - 1];
             && |p.loopToRepeat| == |p.script| && pc < |p.script|
             && (if p.loopToRepeat[pc] >= 0 then Entered(p, pc, t.frames, m) else Kept(t.frames, m) || Left(t.frames, m))
    ensures var at := Arrive(p, m).value; GoodTrace(p, Trace(t.visited + [at.pc], at.frames))
  {
    hide Matches, Synced, Settle, Open, Chain, AllHold, Ready;
    var pc := t.visited[|t.visited| - 1];
    var at := Arrive(p, m).value;
    TablesAt(p, pc);
    MovedChain(p, t.frames, pc, m);
    SyncedChain(p.script, m.frames, at.pc);
    SyncedIs(m.frames, at.pc);
    forall f: LoopFrame
      ensures f in at.frames <==> Open(p.script, t.visited + [at.pc], f)
    {
      OpenNext(p.script, t.visited, at.pc, f);
      SameFrames(p, t.frames, pc, m, at.pc, f);
    }
  }

  lemma MovedChain(p: Prog, frames: Frames, pc: nat, m: Moved)
    requires Ready(p) && pc < |p.script| && |p.loopToRepeat| == |p.script| && m.Moved? && Chain(p.script, frames) && AllHold(frames, pc)
    requires if p.loopToRepeat[pc] >= 0 then Entered(p, pc, frames, m) else Kept(frames, m) || Left(frames, m)
    ensures Chain(p.script, m.frames)
  {
    hide Matches, Chain, AllHold, Ready;
    TablesAt(p, pc);
    if p.loopToRepeat[pc] >= 0 {
      PushChain(p.script, frames, pc, p.loopToRepeat[pc]);
    } else if Left(frames, m) {
      ChainPop(p.script, frames, |frames| - 1);
    }
  }

  lemma SameFrames(p: Prog, frames: Frames, pc: nat, m: Moved, q: nat, f: LoopFrame)
    requires Ready(p) && pc < |p.script| && |p.loopToRepeat| == |p.script| && m.Moved? && m.pc <= q
    requires if p.loopToRepeat[pc] >= 0 then Entered(p, pc, frames, m) else Kept(frames, m) || Left(frames, m)
    ensures f in m.frames && Holds(f, q) <==>
            Holds(f, q) && (f in frames || (f.loopPc == pc && Matches(p.script, f.loopPc, f.repeatPc)))
  {
    hide Ready;
    TablesAt(p, pc);
    if p.loopToRepeat[pc] >= 0 {
      if f.loopPc == pc && Matches(p.script, pc, f.repeatPc) {
        MatchUnique(p.script, pc, p.loopToRepeat[pc], pc, f.repeatPc);
      }
    } else if Left(frames, m) {
      var n := |frames| - 1;
      assert frames == frames[..n] + [frames[n]];
    }
  }

  /** Running one line keeps a good trace good. */
  lemma TurnKeeps(p: Prog, o: Oracle, t: Trace)
    requires Ready(p) && GoodTrace(p, t)
    ensures |p.loopToRepeat| == |p.repeatToLoop| == |p.script|
    ensures var at := Turn(p, o, Place(t.visited[|t.visited| - 1], t.frames));
            at.Some? ==> GoodTrace(p, Trace(t.visited + [at.value.pc], at.value.frames))
  {
    hide Matches, Synced, Settle, Open, Chain, AllHold, Ready, Exec, Arrive;
    var pc := t.visited[|t.visited| - 1];
    TablesAt(p, pc);
    if p.script[pc].Do? {
      var stmt := p.script[pc].stmt;
      var m := Exec(p, o, stmt, pc, t.frames, false);
      ExecFrames(p, o, stmt, pc, t.frames, false);
      if Arrive(p, m).Some? {
        ArriveMoved(p, m);
        ArriveKeeps(p, t, m);
      }
    } else {
      var m := Moved(pc + 1, t.frames);
      if Arrive(p, m).Some? {
        ArriveKeeps(p, t, m);
      }
    }
  }

  lemma ArriveMoved(p: Prog, m: Moved)
    requires Arrive(p, m).Some?
    ensures m.Moved?
  {
  }

  /** In every run, under any jumps, after each synchronization the frames are a strictly nested chain
      of matched loops that all hold the current line; they are exactly the loops entered through
      their LOOP with no line outside visited since. All visited lines are inside the script. */
  lemma {:induction false} FramesAreOpenLoops(p: Prog, os: seq<Oracle>)
    requires Ready(p)
    ensures |p.loopToRepeat| == |p.repeatToLoop| == |p.script|
    ensures Reach(p, os).Some? ==> GoodTrace(p, Reach(p, os).value)
    decreases |os|
  {
    hide Matches, Turn, GoodTrace;
    if os == [] {
      StartsGood(p);
    } else {
      FramesAreOpenLoops(p, os[..|os| - 1]);
      var t := Reach(p, os[..|os| - 1]);
      if t.Some? {
        TurnKeeps(p, os[|os| - 1], t.value);
      }
    }
  }

  lemma StartsGood(p: Prog)
    requires Ready(p)
    ensures var at := Arrive(p, Moved(0, [])); at.Some? ==> GoodTrace(p, Trace([at.value.pc], at.value.frames))
  {
  }

  ghost predicate Innermost(s: Script, visited: seq<nat>, f: LoopFrame) {
    Open(s, visited, f) && forall g: LoopFrame | Open(s, visited, g) :: g.loopPc <= f.loopPc
  }

  /** EXIT leaves the innermost open loop, and fails exactly when no loop is open. */
  lemma ExitLeavesInnermost(p: Prog, t: Trace)
    requires Ready(p) && GoodTrace(p, t)
    ensures var m := Leave(t.frames, t.visited[|t.visited| - 1]);
            && (m.Failed? <==> forall f: LoopFrame :: !Open(p.script, t.visited, f))
            && (m.Moved? ==> exists f :: Innermost(p.script, t.visited, f) && m.pc == f.repeatPc + 1)
  {
    hide Matches, Open, Ready, Synced;
    var pc := t.visited[|t.visited| - 1];
    SyncedIs(t.frames, pc);
    if t.frames != [] {
      var f := t.frames[|t.frames| - 1];
      assert f in t.frames;
      forall g: LoopFrame | Open(p.script, t.visited, g)
        ensures g.loopPc <= f.loopPc
      {
        assert g in t.frames;
        var i :| 0 <= i < |t.frames| && t.frames[i] == g;
      }
      assert Innermost(p.script, t.visited, f);
    } else {
      assert forall f: LoopFrame :: f !in t.frames;
    }
  }

  /** The first line at or after `pc` that is not blank. */
  lemma {:induction false} SettleSkips(s: Script, pc: nat, q: nat)
    requires pc <= q < |s| && !s[q].Blank?
    ensures Settle(s, pc) <= q && forall k | pc <= k < Settle(s, pc) :: s[k].Blank?
    ensures !s[Settle(s, pc)].Blank?
    decreases q - pc
  {
    if s[pc].Blank? {
      SettleSkips(s, pc + 1, q);
    }
  }

  /** LOOP and REPEAT both lead to the first line of the body that is not blank, so control stays inside
      the loop; REPEAT does so also when the loop was entered by a jump. */
  lemma LoopsStayInside(p: Prog, o: Oracle, at: Place, l: nat, r: nat)
    requires Ready(p) && Matches(p.script, l, r) && (at.pc == l || at.pc == r)
    ensures |p.loopToRepeat| == |p.repeatToLoop| == |p.script|
    ensures var next := Turn(p, o, at);
            && next.Some? && l < next.value.pc <= r && !p.script[next.value.pc].Blank?
            && (forall k | l < k < next.value.pc :: p.script[k].Blank?)
            && (at.pc == l && at.frames == [] ==> next.value.frames == [LoopFrame(l, r)])
  {
    SettleSkips(p.script, l + 1, r);
    assert p.loopToRepeat[l] == r && p.repeatToLoop[r] == l;
    if at.pc == l && at.frames == [] {
      SyncedIs([LoopFrame(l, r)], Settle(p.script, l + 1));
    }
  }

  // ---------------------------------------------------------------------------------------------
  // The interpreter as it works
  // ---------------------------------------------------------------------------------------------

  class ProcRunner {
    var pc: nat
    var loopFrames: Frames

    constructor ()
      ensures pc == 0 && loopFrames == []
    {
      pc, loopFrames := 0, [];
    }

    /** Drops the frames that do not hold the line. */
    method SyncLoopFrames(current: nat)
      modifies this`loopFrames
      ensures loopFrames == Synced(old(loopFrames), current)
    {
      var kept: Frames := [];
      assert loopFrames[..0] == [];
      for i := 0 to |loopFrames|
        invariant loopFrames == old(loopFrames)
        invariant kept == Synced(loopFrames[..i], current)
      {
        var f := loopFrames[i];
        assert loopFrames[..i + 1][..i] == loopFrames[..i];
        if !(current <= f.loopPc || current > f.repeatPc) {
          kept := kept + [f];
        }
      }
      assert loopFrames[..|loopFrames|] == loopFrames;
      loopFrames := kept;
    }

    method ExitLoop(active: nat) returns (ok: bool, next: nat)
      modifies this`loopFrames
      ensures ok == Leave(old(loopFrames), active).Moved?
      ensures ok ==> Leave(old(loopFrames), active) == Moved(next, loopFrames)
    {
      SyncLoopFrames(active);
      if loopFrames == [] {
        return false, active;
      }
      var frame := loopFrames[|loopFrames| - 1];
      loopFrames := loopFrames[..|loopFrames| - 1];
      return true, frame.repeatPc + 1;
    }

    method ExecStatement(p: Prog, o: Oracle, stmt: Stmt, active: nat, isInline: bool) returns (ok: bool, next: nat)
      requires |p.loopToRepeat| == |p.repeatToLoop| == |p.script| && active < |p.script|
      modifies this`loopFrames
      ensures ok == Exec(p, o, stmt, active, old(loopFrames), isInline).Moved?
      ensures ok ==> Exec(p, o, stmt, active, old(loopFrames), isInline) == Moved(next, loopFrames)
      decreases stmt
    {
      hide Leave;
      ok, next := true, active;
      match stmt
      case Simple =>
        ok := o(stmt);
        next := NextLine(active, isInline);
      case Go(name) =>
        if name !in p.labels {
          return false, active;
        }
        next := p.labels[name];
      case Finish =>
        next := |p.script|;
      case LoopCmd =>
        var repeatPc := p.loopToRepeat[active];
        if repeatPc < 0 {
          return false, active;
        }
        if loopFrames == [] || loopFrames[|loopFrames| - 1].loopPc != active {
          loopFrames := loopFrames + [LoopFrame(active, repeatPc)];
        }
        next := NextLine(active, isInline);
      case RepeatCmd =>
        var loopPc := p.repeatToLoop[active];
        if loopPc < 0 {
          return false, active;
        }
        next := loopPc + 1;
      case ExitCmd =>
        ok, next := ExitLoop(active);
      case ExitIf =>
        if o(stmt) {
          ok, next := ExitLoop(active);
        } else {
          next := NextLine(active, isInline);
        }
      case IfCmd(a, b) =>
        var branch := if o(stmt) then Some(a) else b;
        if branch.None? {
          next := NextLine(active, isInline);
        } else {
          ok, next := ExecStatement(p, o, branch.value, active, true);
          if ok && !isInline && next == active {
            next := active + 1;
          }
        }
      case Unknown =>
        ok := false;
    }

    /** Goes on to the next line that is not blank and synchronizes there, unless the script is over. */
    method GoOn(p: Prog, next: nat) returns (running: bool)
      requires |p.loopToRepeat| == |p.repeatToLoop| == |p.script|
      modifies this
      ensures var at := Arrive(p, Moved(next, old(loopFrames)));
              running == at.Some? && (running ==> at.value == Place(pc, loopFrames))
    {
      pc := next;
      while pc < |p.script| && p.script[pc].Blank?
        invariant Settle(p.script, pc) == Settle(p.script, next) && loopFrames == old(loopFrames)
        decreases |p.script| - pc
      {
        pc := pc + 1;
      }
      if pc >= |p.script| {
        return false;
      }
      SyncLoopFrames(pc);
      return true;
    }

    /** Runs one line for each oracle, or until the script ends. */
    method RunScript(p: Prog, os: seq<Oracle>) returns (running: bool, ghost visited: seq<nat>)
      requires |p.loopToRepeat| == |p.repeatToLoop| == |p.script| && pc == 0 && loopFrames == []
      modifies this
      ensures running == Reach(p, os).Some?
      ensures running ==> Reach(p, os).value == Trace(visited, loopFrames) && pc == visited[|visited| - 1]
    {
      hide Exec, Arrive;
      assert os[..0] == [];
      running := GoOn(p, 0);
      visited := [pc];
      for i := 0 to |os|
        invariant running == Reach(p, os[..i]).Some?
        invariant running ==> Reach(p, os[..i]).value == Trace(visited, loopFrames) && pc == visited[|visited| - 1]
      {
        assert os[..i + 1][..i] == os[..i];
        if !running {
          ReachEnds(p, os, i, |os|);
          return;
        }
        var ok, next := true, pc + 1;
        if p.script[pc].Do? {
          ok, next := ExecStatement(p, os[i], p.script[pc].stmt, pc, false);
        }
        if ok {
          running := GoOn(p, next);
          visited := visited + [pc];
        } else {
          FailedEnds(p);
          running := false;
        }
      }
      assert os[..|os|] == os;
    }
  }

  lemma FailedEnds(p: Prog)
    ensures Arrive(p, Failed).None?
  {
  }

  lemma {:induction false} ReachEnds(p: Prog, os: seq<Oracle>, i: nat, k: nat)
    requires |p.loopToRepeat| == |p.repeatToLoop| == |p.script| && i <= k <= |os| && Reach(p, os[..i]).None?
    ensures Reach(p, os[..k]).None?
    ensures k == |os| ==> Reach(p, os).None?
    decreases k
  {
    if i < k {
      ReachEnds(p, os, i, k - 1);
      assert os[..k][..k - 1] == os[..k - 1];
    }
    assert os[..|os|] == os;
  }
}
