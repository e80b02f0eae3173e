/** The cooperative session token: one session holds it at a time, re-entrantly; waiting sessions are
    served in cyclic order of their ids after the session served last. */
module Scheduler {
  import opened Bytecode

  const ID_COUNT: int := 0x1_0000_0000

  /** Session ids are unsigned 32-bit numbers. */
  type Id = n: int | 0 <= n < 0x1_0000_0000

  datatype RunState = Runnable | Running | WaitingForInput

  datatype State = State(active: Option<Id>, depth: nat, lastServed: Id, states: map<Id, RunState>)

  const INITIAL := State(None, 0, 0, map[])

  /** An unrecorded session counts as runnable. */
  function StateOf(s: State, id: Id): RunState {
    if id in s.states then s.states[id] else Runnable
  }

  // ---------------------------------------------------------------------------------------------
  // Whose turn it is: cyclic order
  // ---------------------------------------------------------------------------------------------

  /** Steps from just after `last` to `id`, going round the id space. */
  function Distance(last: Id, id: Id): (d: int)
    ensures 0 <= d < ID_COUNT
    ensures d == if id > last then id - last - 1 else id - last - 1 + ID_COUNT
  {
    (id - last - 1) % ID_COUNT
  }

  /** Recorded runnable sessions, and the requester if it is runnable. */
  function Candidates(s: State, requester: Option<Id>): set<Id> {
    (set id | id in s.states && s.states[id] == Runnable) +
    if requester.Some? && StateOf(s, requester.value) == Runnable then {requester.value} else {}
  }

  ghost predicate IsNext(s: State, candidates: set<Id>, id: Id) {
    id in candidates && forall c | c in candidates :: Distance(s.lastServed, id) <= Distance(s.lastServed, c)
  }

  ghost predicate CanAcquire(s: State, id: Id) {
    || s.active == Some(id)
    || (s.active.None? && StateOf(s, id) != WaitingForInput &&
        (Candidates(s, Some(id)) == {} || IsNext(s, Candidates(s, Some(id)), id)))
  }

  predicate CanAcquireAfterInputWake(s: State, id: Id) {
    s.active == Some(id) || (s.active.None? && StateOf(s, id) != WaitingForInput)
  }

  // ---------------------------------------------------------------------------------------------
  // Steps. Each runs under the mutex; a blocked acquire or a refused call does not happen.
  // ---------------------------------------------------------------------------------------------

  datatype Op =
    | Acquire(id: Id) | AcquireAfterInputWake(id: Id) | Release(id: Id) | YieldWaitingForInput(id: Id)
    | Resume(id: Id) | Retire(id: Id) | EndExclusive(id: Id)

  function Grant(s: State, id: Id): State {
    State(Some(id), if s.active.None? then 1 else s.depth + 1, s.lastServed, s.states[id := Running])
  }

  /** The token becomes free and its holder was the last one served. */
  function LetGo(s: State, id: Id, left: RunState): State {
    State(None, 0, id, s.states[id := left])
  }

  function GiveBack(s: State, id: Id): State
    requires s.depth > 0
  {
    if s.depth == 1 then LetGo(s, id, Runnable) else s.(depth := s.depth - 1)
  }

  predicate Holds(s: State, id: Id) {
    s.active == Some(id) && s.depth > 0
  }

  ghost predicate Enabled(s: State, op: Op) {
    match op
    case Acquire(id) => CanAcquire(s, id)
    case AcquireAfterInputWake(id) => CanAcquireAfterInputWake(s, id)
    case Release(id) => Holds(s, id)
    case YieldWaitingForInput(id) => Holds(s, id)
    case Resume(_) => true
    case Retire(_) => true
    case EndExclusive(_) => true
  }

  function After(s: State, op: Op): State {
    match op
    case Acquire(id) => Grant(s, id)
    case AcquireAfterInputWake(id) => Grant(s, id)
    case Release(id) => if Holds(s, id) then GiveBack(s, id) else s
    case YieldWaitingForInput(id) => LetGo(s, id, WaitingForInput)
    case Resume(id) => s.(states := s.states[id := Runnable])
    case Retire(id) =>
      var rest := s.states - {id};
      if s.active == Some(id) then State(None, 0, id, rest) else s.(states := rest)
    case EndExclusive(id) =>
      if Holds(s, id) then GiveBack(s, id)
      else if s.active.None? && StateOf(s, id) == WaitingForInput then s.(states := s.states[id := Runnable])
      else s
  }

  /** `ops` can happen in this order from `s`. */
  ghost predicate Run(s: State, ops: seq<Op>)
    decreases |ops|
  {
    ops == [] || (Enabled(s, ops[0]) && Run(After(s, ops[0]), ops[1..]))
  }

  function End(s: State, ops: seq<Op>): State
    decreases |ops|
  {
    if ops == [] then s else End(After(s, ops[0]), ops[1..])
  }

  // ---------------------------------------------------------------------------------------------
  // Invariants of every run
  // ---------------------------------------------------------------------------------------------

  /** A session is active exactly when the depth is positive; it is recorded and not waiting; and no
      other session is in state Running. */
  predicate Inv(s: State) {
    && (s.active.Some? <==> s.depth > 0)
    && (s.active.Some? ==> s.active.value in s.states && s.states[s.active.value] != WaitingForInput)
    && (forall id | id in s.states :: s.states[id] == Running ==> s.active == Some(id))
  }

  lemma StepKeepsInv(s: State, op: Op)
    requires Inv(s) && Enabled(s, op)
    ensures Inv(After(s, op))
  {
  }

  lemma {:induction false} RunKeepsInv(s: State, ops: seq<Op>)
    requires Inv(s) && Run(s, ops)
    ensures Inv(End(s, ops))
    decreases |ops|
  {
    if ops != [] {
      StepKeepsInv(s, ops[0]);
      RunKeepsInv(After(s, ops[0]), ops[1..]);
    }
  }

  /** Between two different holders the token was free. */
  lemma {:induction false} HandoverThroughFree(s: State, ops: seq<Op>) returns (k: nat)
    requires Inv(s) && Run(s, ops) && s.active.Some? && End(s, ops).active.Some? && End(s, ops).active != s.active
    ensures k <= |ops| && End(s, ops[..k]).active.None?
    decreases |ops|
  {
    var s1 := After(s, ops[0]);
    if s1.active.None? {
      k := 1;
      assert ops[..1][1..] == [];
    } else {
      assert s1.active == s.active;
      StepKeepsInv(s, ops[0]);
      var j := HandoverThroughFree(s1, ops[1..]);
      k := j + 1;
      assert ops[..k][1..] == ops[1..][..j];
    }
  }

  // ---------------------------------------------------------------------------------------------
  // Exactly one recorded session can take a free token
  // ---------------------------------------------------------------------------------------------

  lemma DistanceInjective(last: Id, a: Id, b: Id)
    requires Distance(last, a) == Distance(last, b)
    ensures a == b
  {
  }

  lemma {:induction false} NextExists(s: State, candidates: set<Id>) returns (id: Id)
    requires candidates != {}
    ensures IsNext(s, candidates, id)
    decreases |candidates|
  {
    var c :| c in candidates;
    var rest := candidates - {c};
    if rest == {} {
      assert candidates == {c};
      id := c;
    } else {
      id := NextExists(s, rest);
      if Distance(s.lastServed, c) < Distance(s.lastServed, id) {
        id := c;
      }
    }
  }

  lemma NextUnique(s: State, candidates: set<Id>, a: Id, b: Id)
    requires IsNext(s, candidates, a) && IsNext(s, candidates, b)
    ensures a == b
  {
    DistanceInjective(s.lastServed, a, b);
  }

  /** When the token is free, at most one recorded session passes the acquire test, and one does
      exactly when some recorded session is runnable. */
  lemma OneCanAcquire(s: State)
    requires Inv(s) && s.active.None?
    ensures forall a, b | a in s.states && b in s.states && CanAcquire(s, a) && CanAcquire(s, b) :: a == b
    ensures (exists a :: a in s.states && CanAcquire(s, a)) <==> (exists id :: id in s.states && s.states[id] == Runnable)
  {
    var all := Candidates(s, None);
    forall a | a in s.states
      ensures CanAcquire(s, a) <==> IsNext(s, all, a)
    {
      if s.states[a] == Runnable {
        assert Candidates(s, Some(a)) == all;
      }
    }
    forall a, b | a in s.states && b in s.states && CanAcquire(s, a) && CanAcquire(s, b)
      ensures a == b
    {
      NextUnique(s, all, a, b);
    }
    if id :| id in s.states && s.states[id] == Runnable {
      assert id in all;
      var a := NextExists(s, all);
      assert a in s.states && CanAcquire(s, a);
    }
    if a :| a in s.states && CanAcquire(s, a) {
      assert a in all;
    }
  }

  // ---------------------------------------------------------------------------------------------
  // Bounded bypass
  // ---------------------------------------------------------------------------------------------

  /** `w` is recorded as runnable and does not hold the token. */
  predicate Waits(s: State, w: Id) {
    w in s.states && s.states[w] == Runnable && s.active != Some(w)
  }

  /** A step that neither serves nor retires `w`, nor grants a free token by input wake-up. */
  predicate Passes(s: State, op: Op, w: Id) {
    && !(op == Acquire(w) || op == AcquireAfterInputWake(w) || op == Retire(w))
    && !(op.AcquireAfterInputWake? && s.active.None?)
  }

  ghost predicate Bypass(s: State, ops: seq<Op>, w: Id)
    decreases |ops|
  {
    ops == [] || (Passes(s, ops[0], w) && Enabled(s, ops[0]) && Bypass(After(s, ops[0]), ops[1..], w))
  }

  /** Sessions that received a free token during the run, in order. */
  function Turns(s: State, ops: seq<Op>): seq<Id>
    decreases |ops|
  {
    if ops == [] then []
    else
      (if s.active.None? && ops[0].Acquire? then [ops[0].id] else []) + Turns(After(s, ops[0]), ops[1..])
  }

  lemma WaitsOn(s: State, op: Op, w: Id)
    requires Inv(s) && Waits(s, w) && Enabled(s, op) && Passes(s, op, w)
    ensures Waits(After(s, op), w)
  {
  }

  /** A session granted while `w` waits comes before `w` in cyclic order. */
  lemma GrantedBefore(s: State, id: Id, w: Id)
    requires Inv(s) && Waits(s, w) && s.active.None? && CanAcquire(s, id) && id != w
    ensures Distance(s.lastServed, id) < Distance(s.lastServed, w)
  {
    assert w in Candidates(s, Some(id));
    if Distance(s.lastServed, id) == Distance(s.lastServed, w) {
      DistanceInjective(s.lastServed, id, w);
    }
  }

  /** The completed turn of a session before `w` brings `w` closer, and keeps the order of the rest. */
  lemma ServedCloser(last: Id, id: Id, w: Id)
    requires Distance(last, id) < Distance(last, w)
    ensures Distance(id, w) == Distance(last, w) - Distance(last, id) - 1
  {
  }

  /** The reference point of the current cycle: the holder, or the session served last. */
  function Reference(s: State): Id {
    if s.active.Some? then s.active.value else s.lastServed
  }

  /** Turns granted while `w` waits follow one another in cyclic order, all strictly between the
      reference point and `w`. */
  ghost predicate InOrder(from: Id, turns: seq<Id>, w: Id) {
    && (forall i | 0 <= i < |turns| :: Distance(from, turns[i]) < Distance(from, w))
    && (forall i, j | 0 <= i < j < |turns| :: Distance(from, turns[i]) < Distance(from, turns[j]))
  }

  /** The holder changes only by a turn starting, and a finished turn leaves the reference in place. */
  lemma ReferenceStep(s: State, op: Op, w: Id)
    requires Inv(s) && Waits(s, w) && Enabled(s, op) && Passes(s, op, w)
    ensures Reference(After(s, op)) == if s.active.None? && op.Acquire? then op.id else Reference(s)
  {
  }

  lemma PrependTurn(last: Id, id: Id, rest: seq<Id>, w: Id)
    requires Distance(last, id) < Distance(last, w) && InOrder(id, rest, w)
    ensures InOrder(last, [id] + rest, w)
  {
    hide Distance;
    ServedCloser(last, id, w);
    var turns := [id] + rest;
    forall i | 0 <= i < |rest|
      ensures Distance(last, id) < Distance(last, rest[i]) < Distance(last, w)
      ensures Distance(last, rest[i]) == Distance(last, id) + 1 + Distance(id, rest[i])
    {
      Between(last, id, rest[i], w);
    }
    forall i, j | 0 <= i < j < |turns|
      ensures Distance(last, turns[i]) < Distance(last, turns[j])
    {
      if i > 0 {
        assert turns[i] == rest[i - 1] && turns[j] == rest[j - 1];
      } else {
        assert turns[j] == rest[j - 1];
      }
    }
  }

  lemma Between(last: Id, id: Id, x: Id, w: Id)
    requires Distance(last, id) < Distance(last, w) && Distance(id, x) < Distance(id, w)
    ensures Distance(last, x) == Distance(last, id) + 1 + Distance(id, x)
  {
  }

  lemma {:induction false} TurnsInOrder(s: State, ops: seq<Op>, w: Id)
    requires Inv(s) && Waits(s, w) && Bypass(s, ops, w)
    ensures InOrder(Reference(s), Turns(s, ops), w)
    decreases |ops|
  {
    if ops != [] {
      var op, s1 := ops[0], After(s, ops[0]);
      StepKeepsInv(s, op);
      WaitsOn(s, op, w);
      ReferenceStep(s, op, w);
      TurnsInOrder(s1, ops[1..], w);
      if s.active.None? && op.Acquire? {
        GrantedBefore(s, op.id, w);
        PrependTurn(s.lastServed, op.id, Turns(s1, ops[1..]), w);
      }
    }
  }

  /** Bounded bypass: however long `w` waits and whatever sessions appear meanwhile, without input-wake
      grants every other session gets at most one turn before it, the session holding the token when `w`
      started to wait gets none, and there are fewer turns than ids. */
  lemma BoundedBypass(s: State, ops: seq<Op>, w: Id)
    requires Inv(s) && Waits(s, w) && Bypass(s, ops, w)
    ensures var turns := Turns(s, ops);
            && w !in turns
            && (forall i, j | 0 <= i < j < |turns| :: turns[i] != turns[j])
            && (s.active.Some? ==> s.active.value !in turns)
            && |turns| <= Distance(Reference(s), w)
            && Waits(End(s, ops), w)
  {
    TurnsInOrder(s, ops, w);
    StillWaits(s, ops, w);
    CountInOrder(Reference(s), Turns(s, ops), w);
  }

  lemma {:induction false} StillWaits(s: State, ops: seq<Op>, w: Id)
    requires Inv(s) && Waits(s, w) && Bypass(s, ops, w)
    ensures Waits(End(s, ops), w)
    decreases |ops|
  {
    if ops != [] {
      StepKeepsInv(s, ops[0]);
      WaitsOn(s, ops[0], w);
      StillWaits(After(s, ops[0]), ops[1..], w);
    }
  }

  lemma {:induction false} CountInOrder(from: Id, turns: seq<Id>, w: Id)
    requires InOrder(from, turns, w)
    ensures |turns| <= Distance(from, w)
    ensures turns != [] ==> |turns| <= Distance(from, turns[|turns| - 1]) + 1
    decreases |turns|
  {
    if turns != [] {
      var n := |turns| - 1;
      CountInOrder(from, turns[..n], w);
      if n > 0 {
        assert Distance(from, turns[n - 1]) < Distance(from, turns[n]);
      }
    }
  }

  /** Each completed turn of another session strictly decreases the distance of `w` from the session
      served last. */
  lemma TurnDecreasesDistance(s: State, id: Id, turn: seq<Op>, w: Id)
    requires Inv(s) && Waits(s, w) && s.active.None?
    requires turn != [] && turn[0] == Acquire(id) && Bypass(s, turn, w)
    requires End(s, turn).active.None? && Turns(s, turn) == [id]
    ensures Distance(End(s, turn).lastServed, w) < Distance(s.lastServed, w)
  {
    var s1 := After(s, turn[0]);
    GrantedBefore(s, id, w);
    ServedCloser(s.lastServed, id, w);
    StepKeepsInv(s, turn[0]);
    WaitsOn(s, turn[0], w);
    assert Turns(s, turn) == [id] + Turns(s1, turn[1..]);
    assert |Turns(s1, turn[1..])| == 0;
    LastReference(s1, turn[1..], w);
  }

  lemma {:induction false} LastReference(s: State, ops: seq<Op>, w: Id)
    requires Inv(s) && Waits(s, w) && Bypass(s, ops, w) && Turns(s, ops) == []
    ensures Reference(End(s, ops)) == Reference(s)
    decreases |ops|
  {
    if ops != [] {
      var s1 := After(s, ops[0]);
      StepKeepsInv(s, ops[0]);
      WaitsOn(s, ops[0], w);
      ReferenceStep(s, ops[0], w);
      assert |Turns(s, ops)| >= |Turns(s1, ops[1..])|;
      LastReference(s1, ops[1..], w);
    }
  }

  // ---------------------------------------------------------------------------------------------
  // Waiting for input
  // ---------------------------------------------------------------------------------------------

  /** A step that makes a session waiting for input eligible again. The end of its exclusive section does
      so only while nobody holds the token. */
  predicate Wakes(s: State, op: Op, id: Id) {
    op == Resume(id) || op == Retire(id) || (op == EndExclusive(id) && s.active.None?)
  }

  ghost predicate Woken(s: State, ops: seq<Op>, id: Id)
    decreases |ops|
  {
    ops != [] && (Wakes(s, ops[0], id) || Woken(After(s, ops[0]), ops[1..], id))
  }

  /** After a yield, as long as the session does not yield again, it waits exactly until a step wakes it. */
  lemma {:induction false} WaitsUntilWoken(s: State, ops: seq<Op>, id: Id)
    requires Inv(s) && Holds(s, id)
    requires Run(After(s, YieldWaitingForInput(id)), ops) && YieldWaitingForInput(id) !in ops
    ensures var yielded := After(s, YieldWaitingForInput(id));
            StateOf(End(yielded, ops), id) == WaitingForInput <==> !Woken(yielded, ops, id)
  {
    StepKeepsInv(s, YieldWaitingForInput(id));
    StaysWaiting(After(s, YieldWaitingForInput(id)), ops, id);
  }

  lemma {:induction false} StaysWaiting(s: State, ops: seq<Op>, id: Id)
    requires Inv(s) && Run(s, ops) && StateOf(s, id) == WaitingForInput
    ensures !Woken(s, ops, id) ==>
              Inv(End(s, ops)) && StateOf(End(s, ops), id) == WaitingForInput && End(s, ops).active != Some(id)
    ensures YieldWaitingForInput(id) !in ops && Woken(s, ops, id) ==> StateOf(End(s, ops), id) != WaitingForInput
    decreases |ops|
  {
    if ops != [] {
      var s1 := After(s, ops[0]);
      StepKeepsInv(s, ops[0]);
      if Wakes(s, ops[0], id) {
        if YieldWaitingForInput(id) !in ops {
          StaysAwake(s1, ops[1..], id);
        }
      } else {
        StaysWaiting(s1, ops[1..], id);
      }
    }
  }

  /** Only a yield makes a session wait. */
  lemma {:induction false} StaysAwake(s: State, ops: seq<Op>, id: Id)
    requires StateOf(s, id) != WaitingForInput && YieldWaitingForInput(id) !in ops
    ensures StateOf(End(s, ops), id) != WaitingForInput
    decreases |ops|
  {
    if ops != [] {
      StaysAwake(After(s, ops[0]), ops[1..], id);
    }
  }

  /** A session that yielded for input cannot take the token, in either way, before a step wakes it. */
  lemma NoTokenBeforeWake(s: State, ops: seq<Op>, id: Id)
    requires Inv(s) && Holds(s, id) && Run(After(s, YieldWaitingForInput(id)), ops)
    requires !Woken(After(s, YieldWaitingForInput(id)), ops, id)
    ensures var e := End(After(s, YieldWaitingForInput(id)), ops);
            e.active != Some(id) && !CanAcquire(e, id) && !CanAcquireAfterInputWake(e, id)
  {
    StepKeepsInv(s, YieldWaitingForInput(id));
    StaysWaiting(After(s, YieldWaitingForInput(id)), ops, id);
  }

  /** A resume that comes while the session waits lets it take the token as soon as the token is free. */
  lemma ResumeCounts(s: State, ops: seq<Op>, id: Id)
    requires Inv(s) && StateOf(s, id) == WaitingForInput && Run(s, [Resume(id)] + ops) && YieldWaitingForInput(id) !in ops
    ensures var e := End(s, [Resume(id)] + ops); e.active.None? ==> CanAcquireAfterInputWake(e, id)
  {
    var all := [Resume(id)] + ops;
    assert all[0] == Resume(id) && all[1..] == ops;
    StaysAwake(After(s, Resume(id)), ops, id);
  }

  /** A resume that comes before the yield is lost: the yield leaves the same state as without it. */
  lemma EarlyResumeIsLost(s: State, id: Id)
    requires Holds(s, id)
    ensures Holds(After(s, Resume(id)), id)
    ensures After(After(s, Resume(id)), YieldWaitingForInput(id)) == After(s, YieldWaitingForInput(id))
    ensures StateOf(After(s, YieldWaitingForInput(id)), id) == WaitingForInput
  {
    var a, b := After(After(s, Resume(id)), YieldWaitingForInput(id)), After(s, YieldWaitingForInput(id));
    assert a.states == b.states;
  }

  // ---------------------------------------------------------------------------------------------
  // The runner as it works
  // ---------------------------------------------------------------------------------------------

  predicate Sorted(ids: seq<Id>) {
    forall i, j | 0 <= i < j < |ids| :: ids[i] <= ids[j]
  }

  method Insert(ids: seq<Id>, id: Id) returns (r: seq<Id>)
    requires Sorted(ids)
    ensures Sorted(r) && multiset(r) == multiset(ids) + multiset{id}
  {
    var i := |ids|;
    while i > 0 && ids[i - 1] > id
      invariant 0 <= i <= |ids|
      invariant forall k | i <= k < |ids| :: ids[k] > id
    {
      i := i - 1;
    }
    InsertSorted(ids, i, id);
    return ids[..i] + [id] + ids[i..];
  }

  lemma InsertSorted(ids: seq<Id>, i: nat, id: Id)
    requires Sorted(ids) && i <= |ids| && (i > 0 ==> ids[i - 1] <= id) && (i < |ids| ==> id < ids[i])
    ensures Sorted(ids[..i] + [id] + ids[i..])
    ensures multiset(ids[..i] + [id] + ids[i..]) == multiset(ids) + multiset{id}
  {
    AppendSorted(ids[..i], [id]);
    AppendSorted(ids[..i] + [id], ids[i..]);
    InsertContents(ids, i, id);
  }

  lemma InsertContents(ids: seq<Id>, i: nat, id: Id)
    requires i <= |ids|
    ensures multiset(ids[..i] + [id] + ids[i..]) == multiset(ids) + multiset{id}
  {
    assert ids == ids[..i] + ids[i..];
  }

  lemma AppendSorted(a: seq<Id>, b: seq<Id>)
    requires Sorted(a) && Sorted(b) && (a != [] && b != [] ==> a[|a| - 1] <= b[0])
    ensures Sorted(a + b)
  {
    forall i, j | 0 <= i < j < |a + b|
      ensures (a + b)[i] <= (a + b)[j]
    {
      if i < |a| <= j {
        assert a[i] <= a[|a| - 1] && b[0] <= b[j - |a|];
      }
    }
  }

  method Sort(ids: seq<Id>) returns (r: seq<Id>)
    ensures Sorted(r) && multiset(r) == multiset(ids)
  {
    r := [];
    for i := 0 to |ids|
      invariant Sorted(r) && multiset(r) == multiset(ids[..i])
    {
      assert ids[..i + 1] == ids[..i] + [ids[i]];
      r := Insert(r, ids[i]);
    }
    assert ids[..|ids|] == ids;
  }

  /** In a sorted list the first id above the last served one, or else the front, is next in cyclic order. */
  lemma FirstAboveIsNext(s: State, ids: seq<Id>, candidates: set<Id>, k: nat)
    requires Sorted(ids) && k <= |ids| && ids != [] && forall x: Id :: x in ids <==> x in candidates
    requires forall i | 0 <= i < k :: ids[i] <= s.lastServed
    ensures k < |ids| && ids[k] > s.lastServed ==> IsNext(s, candidates, ids[k])
    ensures k == |ids| ==> IsNext(s, candidates, ids[0])
  {
    var first := if k < |ids| then ids[k] else ids[0];
    if k == |ids| || ids[k] > s.lastServed {
      assert first in ids;
      forall c | c in candidates
        ensures Distance(s.lastServed, first) <= Distance(s.lastServed, c)
      {
        var i :| 0 <= i < |ids| && ids[i] == c;
      }
    }
  }

  class SessionRunner {
    var active: Option<Id>
    var depth: nat
    var lastServed: Id
    var states: map<Id, RunState>

    function Abs(): State
      reads this
    {
      State(active, depth, lastServed, states)
    }

    constructor ()
      ensures Abs() == INITIAL && Inv(Abs())
    {
      active, depth, lastServed, states := None, 0, 0, map[];
    }

    /** The candidates, in no particular order. */
    method Collect(requester: Option<Id>) returns (runnable: seq<Id>)
      ensures forall id: Id :: id in runnable <==> id in Candidates(Abs(), requester)
    {
      runnable := [];
      var todo := states.Keys;
      while todo != {}
        invariant todo <= states.Keys
        invariant forall id: Id :: id in runnable <==> id in states && id !in todo && states[id] == Runnable
        decreases |todo|
      {
        var id :| id in todo;
        todo := todo - {id};
        if states[id] == Runnable {
          runnable := runnable + [id];
        }
      }
      if requester.Some? && StateOf(Abs(), requester.value) == Runnable && requester.value !in runnable {
        runnable := runnable + [requester.value];
      }
    }

    /** Runnable sessions are collected, sorted, and scanned for the first id above the last served. */
    method NextRunnable(requester: Option<Id>) returns (r: Option<Id>)
      ensures r.None? <==> Candidates(Abs(), requester) == {}
      ensures r.Some? ==> IsNext(Abs(), Candidates(Abs(), requester), r.value)
    {
      hide Candidates, IsNext, Distance;
      var runnable := Collect(requester);
      ghost var candidates := Candidates(Abs(), requester);
      if runnable == [] {
        assert forall id: Id :: id !in candidates;
        assert candidates == {};
        return None;
      }
      assert runnable[0] in candidates;
      var sorted := Sort(runnable);
      SameElements(sorted, runnable);
      assert |sorted| > 0 by { assert runnable[0] in sorted; }
      for k := 0 to |sorted|
        invariant forall i | 0 <= i < k :: sorted[i] <= lastServed
      {
        FirstAboveIsNext(Abs(), sorted, candidates, k);
        if sorted[k] > lastServed {
          return Some(sorted[k]);
        }
      }
      FirstAboveIsNext(Abs(), sorted, candidates, |sorted|);
      return Some(sorted[0]);
    }

    method TestAcquire(id: Id) returns (can: bool)
      ensures can == CanAcquire(Abs(), id)
    {
      if active == Some(id) { return true; }
      if active.Some? || StateOf(Abs(), id) == WaitingForInput { return false; }
      var next := NextRunnable(Some(id));
      can := next.None? || next.value == id;
      if next.Some? && CanAcquire(Abs(), id) {
        NextUnique(Abs(), Candidates(Abs(), Some(id)), next.value, id);
      }
    }

    /** The token is free or already held by `id`. */
    method GrantAcquire(id: Id)
      requires active.None? || active == Some(id)
      modifies this
      ensures Abs() == Grant(old(Abs()), id)
    {
      if active.None? {
        active, depth := Some(id), 0;
      }
      depth := depth + 1;
      states := states[id := Running];
    }

    /** One wake-up of a session waiting in `acquire`: it goes back to sleep or takes the token. */
    method TryAcquire(id: Id) returns (granted: bool)
      modifies this
      ensures granted == old(Enabled(Abs(), Acquire(id)))
      ensures Abs() == if granted then After(old(Abs()), Acquire(id)) else old(Abs())
    {
      granted := TestAcquire(id);
      if granted { GrantAcquire(id); }
    }

    method TryAcquireAfterInputWake(id: Id) returns (granted: bool)
      modifies this
      ensures granted == old(Enabled(Abs(), AcquireAfterInputWake(id)))
      ensures Abs() == if granted then After(old(Abs()), AcquireAfterInputWake(id)) else old(Abs())
    {
      granted := CanAcquireAfterInputWake(Abs(), id);
      if granted { GrantAcquire(id); }
    }

    /** Refused, with no effect, unless `id` holds the token. */
    method ReleaseToken(id: Id) returns (ok: bool)
      modifies this
      ensures ok == old(Enabled(Abs(), Release(id)))
      ensures Abs() == if ok then After(old(Abs()), Release(id)) else old(Abs())
    {
      if active != Some(id) || depth == 0 { return false; }
      depth := depth - 1;
      if depth == 0 {
        lastServed, active := id, None;
        states := states[id := Runnable];
      }
      return true;
    }

    method Yield(id: Id) returns (ok: bool)
      modifies this
      ensures ok == old(Enabled(Abs(), YieldWaitingForInput(id)))
      ensures Abs() == if ok then After(old(Abs()), YieldWaitingForInput(id)) else old(Abs())
    {
      if active != Some(id) || depth == 0 { return false; }
      lastServed := id;
      states := states[id := WaitingForInput];
      depth, active := 0, None;
      return true;
    }

    method ResumeSession(id: Id)
      modifies this
      ensures Abs() == After(old(Abs()), Resume(id))
    {
      states := states[id := Runnable];
    }

    method RetireSession(id: Id)
      modifies this
      ensures Abs() == After(old(Abs()), Retire(id))
    {
      states := states - {id};
      if active == Some(id) {
        lastServed, active, depth := id, None, 0;
      }
    }

    /** What happens after the function passed to `runExclusive` returns. */
    method LeaveExclusive(id: Id)
      modifies this
      ensures Abs() == After(old(Abs()), EndExclusive(id))
    {
      if active == Some(id) && depth > 0 {
        depth := depth - 1;
        if depth == 0 {
          lastServed, active := id, None;
          states := states[id := Runnable];
        }
      } else if active.None? && StateOf(Abs(), id) == WaitingForInput {
        states := states[id := Runnable];
      }
    }
  }

  lemma SameElements(a: seq<Id>, b: seq<Id>)
    requires multiset(a) == multiset(b)
    ensures forall x: Id :: x in a <==> x in b
  {
    assert forall x: Id :: x in a <==> x in multiset(a);
    assert forall x: Id :: x in b <==> x in multiset(b);
  }
}
