/** The port allocator: a set of ports in use and a hint below which every port is taken. */
module Ports {
  import opened Bytecode

  predicate LowestFree(inUse: set<nat>, port: nat) {
    port >= 1 && port !in inUse && forall p | 1 <= p < port :: p in inUse
  }

  lemma {:induction false} Pigeonhole(inUse: set<nat>, n: nat)
    requires forall p | 1 <= p <= n :: p in inUse
    ensures n <= |inUse|
    decreases n
  {
    if n > 0 {
      Pigeonhole(inUse - {n}, n - 1);
    }
  }

  /** With fewer than `max` ports in use there is a lowest free one, and it is at most `max`. */
  lemma {:induction false} LowestFreeExists(inUse: set<nat>, max: nat, from: nat) returns (port: nat)
    requires |inUse| < max && from >= 1 && forall p | 1 <= p < from :: p in inUse
    ensures LowestFree(inUse, port) && port <= max
    decreases max + 1 - from
  {
    Pigeonhole(inUse, from - 1);
    if from in inUse {
      Pigeonhole(inUse, from);
      port := LowestFreeExists(inUse, max, from + 1);
    } else {
      port := from;
    }
  }

  lemma LowestFreeUnique(inUse: set<nat>, a: nat, b: nat)
    requires LowestFree(inUse, a) && LowestFree(inUse, b)
    ensures a == b
  {
  }

  class PortManager {
    const maxPorts: nat
    var inUse: set<nat>
    var nextCandidate: nat

    /** Every positive port below the hint is in use. */
    predicate Valid()
      reads this
    {
      maxPorts >= 1 && forall p | 1 <= p < nextCandidate :: p in inUse
    }

    constructor (max: nat)
      ensures Valid() && maxPorts == (if max < 1 then 1 else max) && inUse == {} && nextCandidate == 1
    {
      maxPorts := if max < 1 then 1 else max;
      inUse, nextCandidate := {}, 1;
    }

    /** Fails only when full. Otherwise returns the lowest free positive port, which is at most the
        maximum; port 0 is returned exactly when it is free and the hint is 0, and the hint is 0 only
        after port 0 was released. */
    method Allocate() returns (port: Option<nat>)
      requires Valid()
      modifies this
      ensures Valid()
      ensures port.None? <==> |old(inUse)| >= maxPorts
      ensures port.None? ==> inUse == old(inUse) && nextCandidate == old(nextCandidate)
      ensures port.Some? ==> port.value !in old(inUse) && inUse == old(inUse) + {port.value} && nextCandidate == port.value + 1
      ensures port.Some? ==> port.value <= maxPorts
      ensures port.Some? ==> (if old(nextCandidate) == 0 && 0 !in old(inUse) then port.value == 0 else LowestFree(old(inUse), port.value))
    {
      if |inUse| >= maxPorts {
        return None;
      }
      var candidate := nextCandidate;
      Pigeonhole(inUse, if candidate == 0 then 0 else candidate - 1);
      while candidate in inUse
        invariant candidate <= maxPorts
        invariant forall p | 1 <= p < candidate :: p in inUse
        invariant inUse == old(inUse) && nextCandidate == old(nextCandidate) && candidate >= nextCandidate
        invariant candidate == 0 ==> nextCandidate == 0
        invariant candidate > 0 && nextCandidate == 0 ==> 0 in inUse
        decreases maxPorts - candidate
      {
        Pigeonhole(inUse, candidate);
        candidate := candidate + 1;
      }
      inUse := inUse + {candidate};
      nextCandidate := candidate + 1;
      return Some(candidate);
    }

    method Release(port: nat)
      requires Valid()
      modifies this
      ensures Valid()
      ensures inUse == old(inUse) - {port}
      ensures nextCandidate == if port < old(nextCandidate) then port else old(nextCandidate)
    {
      inUse := inUse - {port};
      if port < nextCandidate {
        nextCandidate := port;
      }
    }
  }

  // ---------------------------------------------------------------------------------------------
  // Refinement of the search for the lowest free port
  // ---------------------------------------------------------------------------------------------

  datatype Request = Take | GiveBack(port: nat)

  /** The reference allocator has no hint. */
  ghost predicate Serves(inUse: set<nat>, max: nat, r: Request, answer: Option<nat>, after: set<nat>) {
    match r
    case Take =>
      if |inUse| >= max then answer == None && after == inUse
      else answer.Some? && LowestFree(inUse, answer.value) && after == inUse + {answer.value}
    case GiveBack(port) => answer == None && after == inUse - {port}
  }

  /** The reference leaves no choice: every request has one answer and one new state. */
  lemma ServesUnique(inUse: set<nat>, max: nat, r: Request, a: Option<nat>, x: set<nat>, b: Option<nat>, y: set<nat>)
    requires Serves(inUse, max, r, a, x) && Serves(inUse, max, r, b, y)
    ensures a == b && x == y
  {
    if r.Take? && |inUse| < max {
      LowestFreeUnique(inUse, a.value, b.value);
    }
  }

  /** Over every sequence of requests that gives back only positive ports, the allocator answers as the
      reference does, and every port in use is between 1 and the maximum. */
  method Session(max: nat, requests: seq<Request>) returns (answers: seq<Option<nat>>, ghost states: seq<set<nat>>)
    requires max >= 1 && forall i | 0 <= i < |requests| :: requests[i].GiveBack? ==> requests[i].port > 0
    ensures |answers| == |requests| && |states| == |requests| + 1 && states[0] == {}
    ensures forall i | 0 <= i < |requests| :: Serves(states[i], max, requests[i], answers[i], states[i + 1])
    ensures forall i | 0 <= i <= |requests| :: forall p | p in states[i] :: 1 <= p <= max
  {
    var manager := new PortManager(max);
    answers, states := [], [{}];
    for i := 0 to |requests|
      invariant manager.Valid() && manager.maxPorts == max && manager.nextCandidate >= 1 && fresh(manager)
      invariant |answers| == i && |states| == i + 1 && states[0] == {} && states[i] == manager.inUse
      invariant forall j | 0 <= j < i :: Serves(states[j], max, requests[j], answers[j], states[j + 1])
      invariant forall j | 0 <= j <= i :: forall p | p in states[j] :: 1 <= p <= max
    {
      if requests[i].Take? {
        var port := manager.Allocate();
        answers := answers + [port];
      } else {
        manager.Release(requests[i].port);
        answers := answers + [None];
      }
      states := states + [manager.inUse];
    }
  }
}
