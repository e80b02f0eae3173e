/** Connections of the daemon and the session ports bound to them. */
module Binding {
  import opened Bytecode

  /** Session ports are positive; channels are identified by the order of their creation. */
  datatype Connection = Connection(handshaken: bool, attachedPort: Option<nat>, channel: Option<nat>)

  const ACCEPTED := Connection(false, None, None)

  /** The server's connections and the runner's sessions, bound ports and bound channels. */
  datatype State = State(conns: seq<Connection>, sessions: set<nat>, boundPorts: set<nat>, boundChannels: map<nat, nat>, nextChannel: nat)

  const INITIAL := State([], {}, {}, map[], 0)

  /** A received frame, by what its dispatch looks at: protocol version, type and payload. */
  datatype Message =
    | WrongVersion | Handshake(accepted: bool) | Ping | ShutdownRequest | ReserveSession
    | AttachSession(port: Option<nat>) | DetachSession | SessionInput(valid: bool)
    | SessionOutput | SessionDiagnostic | OtherType

  // ---------------------------------------------------------------------------------------------
  // Steps
  // ---------------------------------------------------------------------------------------------

  function DetachPort(s: State, port: nat): State {
    s.(boundPorts := s.boundPorts - {port}, boundChannels := s.boundChannels - {port})
  }

  function DetachConnection(s: State, i: nat): (r: State)
    requires i < |s.conns|
    ensures |r.conns| == |s.conns|
  {
    var c := s.conns[i];
    if c.attachedPort.None? then s
    else DetachPort(s, c.attachedPort.value).(conns := s.conns[i := c.(attachedPort := None, channel := None)])
  }

  function RemoveConnection(s: State, i: nat): State
    requires i < |s.conns|
  {
    var d := DetachConnection(s, i);
    d.(conns := d.conns[..i] + d.conns[i + 1..])
  }

  /** `created` is what creating a session gives: a new port, or nothing when the table is full. */
  function CreateSession(s: State, created: Option<nat>): State {
    if created.None? then s else s.(sessions := s.sessions + {created.value})
  }

  /** The runner's part of attaching: the port, if the attach is accepted, and the new state. */
  function AttachPort(s: State, requested: nat, created: Option<nat>, channel: nat): (State, Option<nat>) {
    var s1 := if requested == 0 then CreateSession(s, created) else s;
    var port := if requested == 0 then created else Some(requested);
    if port.None? || port.value !in s1.sessions || port.value in s1.boundPorts then (s1, None)
    else
      (s1.(boundPorts := s1.boundPorts + {port.value}, boundChannels := s1.boundChannels[port.value := channel]), port)
  }

  function Attach(s: State, i: nat, requested: Option<nat>, created: Option<nat>, sent: bool): (r: (State, bool))
    requires i < |s.conns|
    ensures |r.0.conns| == |s.conns|
  {
    var c := s.conns[i];
    if c.attachedPort.Some? || requested.None? then (s, false)
    else
      var channel := s.nextChannel;
      var (s1, port) := AttachPort(s.(nextChannel := channel + 1), requested.value, created, channel);
      if port.None? then (s1, false)
      else
        var s2 := s1.(conns := s1.conns[i := c.(attachedPort := port, channel := Some(channel))]);
        if sent then (s2, false) else (DetachConnection(s2, i), true)
  }

  /** The dispatch of one frame; `sent` says whether the acknowledgement could be written. The flag
      returned asks for the connection to be closed. */
  function Dispatch(s: State, i: nat, m: Message, created: Option<nat>, sent: bool): (r: (State, bool))
    requires i < |s.conns|
    ensures |r.0.conns| == |s.conns|
  {
    var c := s.conns[i];
    if m.WrongVersion? then (s, true)
    else if !c.handshaken then
      if !m.Handshake? || !m.accepted || !sent then (s, true)
      else (s.(conns := s.conns[i := c.(handshaken := true)]), false)
    else
      match m
      case Ping => (s, !sent)
      case ShutdownRequest => (s, true)
      case ReserveSession => if created.None? then (s, true) else (CreateSession(s, created), !sent)
      case AttachSession(port) => Attach(s, i, port, created, sent)
      case DetachSession => if c.attachedPort.None? then (s, false) else (DetachConnection(s, i), !sent)
      case SessionInput(_) => (s, false)
      case SessionOutput => (s, false)
      case SessionDiagnostic => (s, false)
      case _ => (s, true)
  }

  datatype Event =
    | Accept
    | Incoming(conn: nat, message: Message, newPort: Option<nat>, sent: bool)
    | Dropped(conn: nat)

  /** The event refers to a live connection, and a created session has a port no session has. */
  predicate Possible(s: State, e: Event) {
    match e
    case Accept => true
    case Incoming(i, _, p, _) => i < |s.conns| && (p.Some? ==> p.value > 0 && p.value !in s.sessions)
    case Dropped(i) => i < |s.conns|
  }

  function Step(s: State, e: Event): State
    requires Possible(s, e)
  {
    match e
    case Accept => s.(conns := s.conns + [ACCEPTED])
    case Incoming(i, m, p, sent) =>
      var (s1, close) := Dispatch(s, i, m, p, sent);
      if close then RemoveConnection(s1, i) else s1
    case Dropped(i) => RemoveConnection(s, i)
  }

  ghost predicate Run(s: State, es: seq<Event>)
    decreases |es|
  {
    es == [] || (Possible(s, es[0]) && Run(Step(s, es[0]), es[1..]))
  }

  function End(s: State, es: seq<Event>): State
    requires Run(s, es)
    decreases |es|
  {
    if es == [] then s else End(Step(s, es[0]), es[1..])
  }

  // ---------------------------------------------------------------------------------------------
  // The binding invariant
  // ---------------------------------------------------------------------------------------------

  /** A connection is attached exactly when it owns a channel, and only after the handshake. */
  predicate ConnectionOk(c: Connection) {
    (c.attachedPort.Some? <==> c.channel.Some?) && (c.attachedPort.Some? ==> c.handshaken)
  }

  predicate AttachedTo(s: State, i: nat, port: nat) {
    i < |s.conns| && s.conns[i].attachedPort == Some(port)
  }

  /** The bound ports are exactly the ports attached by live connections, each by one connection and
      through that connection's channel; they belong to existing sessions. */
  ghost predicate Inv(s: State) {
    && (forall i | 0 <= i < |s.conns| :: ConnectionOk(s.conns[i]))
    && (forall p: nat :: p in s.boundPorts <==> exists i: nat :: AttachedTo(s, i, p))
    && (forall i: nat, j: nat, p: nat | AttachedTo(s, i, p) && AttachedTo(s, j, p) :: i == j)
    && s.boundPorts <= s.sessions && s.boundChannels.Keys == s.boundPorts
    && (forall i: nat, p: nat | AttachedTo(s, i, p) && p in s.boundChannels :: s.conns[i].channel == Some(s.boundChannels[p]))
    && 0 !in s.sessions
  }

  lemma DetachKeeps(s: State, i: nat)
    requires Inv(s) && i < |s.conns|
    ensures Inv(DetachConnection(s, i)) && DetachConnection(s, i).conns[i].attachedPort.None?
  {
    var c, d := s.conns[i], DetachConnection(s, i);
    if c.attachedPort.Some? {
      var port := c.attachedPort.value;
      assert AttachedTo(s, i, port);
      forall j: nat, p: nat
        ensures AttachedTo(d, j, p) <==> AttachedTo(s, j, p) && p != port
      {
      }
      forall p: nat
        ensures p in d.boundPorts <==> exists j: nat :: AttachedTo(d, j, p)
      {
        if p in d.boundPorts {
          var j: nat :| AttachedTo(s, j, p);
          assert AttachedTo(d, j, p);
        }
      }
      assert d.boundChannels.Keys == d.boundPorts;
    }
  }

  lemma RemoveKeeps(s: State, i: nat)
    requires Inv(s) && i < |s.conns|
    ensures Inv(RemoveConnection(s, i))
  {
    hide DetachConnection;
    DetachKeeps(s, i);
    var d, r := DetachConnection(s, i), RemoveConnection(s, i);
    forall j: nat, p: nat
      ensures AttachedTo(r, j, p) <==> AttachedTo(d, if j < i then j else j + 1, p)
    {
    }
    forall p: nat
      ensures p in r.boundPorts <==> exists j: nat :: AttachedTo(r, j, p)
    {
      if p in r.boundPorts {
        var k: nat :| AttachedTo(d, k, p);
        assert k != i;
        assert AttachedTo(r, if k < i then k else k - 1, p);
      }
    }
  }

  lemma CreateKeeps(s: State, p: Option<nat>)
    requires Inv(s) && (p.Some? ==> p.value > 0 && p.value !in s.sessions)
    ensures Inv(CreateSession(s, p))
  {
    var r := CreateSession(s, p);
    assert forall i: nat, q: nat :: AttachedTo(r, i, q) <==> AttachedTo(s, i, q);
  }

  /** Binding a free port of an existing session to a connection that has none. */
  lemma BindKeeps(s: State, i: nat, port: nat, channel: nat)
    requires Inv(s) && i < |s.conns| && s.conns[i].handshaken && s.conns[i].attachedPort.None?
    requires port in s.sessions && port !in s.boundPorts
    ensures var r := s.(boundPorts := s.boundPorts + {port}, boundChannels := s.boundChannels[port := channel],
                        conns := s.conns[i := s.conns[i].(attachedPort := Some(port), channel := Some(channel))]);
            Inv(r)
  {
    var r := s.(boundPorts := s.boundPorts + {port}, boundChannels := s.boundChannels[port := channel],
                conns := s.conns[i := s.conns[i].(attachedPort := Some(port), channel := Some(channel))]);
    forall j: nat, p: nat
      ensures AttachedTo(r, j, p) <==> AttachedTo(s, j, p) || (j == i && p == port)
    {
    }
    forall p: nat
      ensures p in r.boundPorts <==> exists j: nat :: AttachedTo(r, j, p)
    {
      if p in s.boundPorts {
        var j: nat :| AttachedTo(s, j, p);
        assert AttachedTo(r, j, p);
      }
      if p == port {
        assert AttachedTo(r, i, p);
      }
    }
    assert r.boundChannels.Keys == r.boundPorts;
  }

  lemma AttachKeeps(s: State, i: nat, requested: Option<nat>, p: Option<nat>, sent: bool)
    requires Inv(s) && i < |s.conns| && s.conns[i].handshaken && (p.Some? ==> p.value > 0 && p.value !in s.sessions)
    ensures Inv(Attach(s, i, requested, p, sent).0)
  {
    hide Inv, DetachConnection;
    var c := s.conns[i];
    if c.attachedPort.None? && requested.Some? {
      var channel := s.nextChannel;
      var s0 := s.(nextChannel := channel + 1);
      CounterKeeps(s, channel + 1);
      var (s1, port) := AttachPort(s0, requested.value, p, channel);
      CreateKeeps(s0, p);
      if port.Some? {
        var base := if requested.value == 0 then CreateSession(s0, p) else s0;
        BindKeeps(base, i, port.value, channel);
        var s2 := s1.(conns := s1.conns[i := c.(attachedPort := port, channel := Some(channel))]);
        if !sent {
          DetachKeeps(s2, i);
        }
      }
    }
  }

  lemma CounterKeeps(s: State, n: nat)
    requires Inv(s)
    ensures Inv(s.(nextChannel := n))
  {
    var r := s.(nextChannel := n);
    assert forall i: nat, q: nat :: AttachedTo(r, i, q) <==> AttachedTo(s, i, q);
  }

  lemma HandshakeKeeps(s: State, i: nat)
    requires Inv(s) && i < |s.conns|
    ensures Inv(s.(conns := s.conns[i := s.conns[i].(handshaken := true)]))
  {
    var r := s.(conns := s.conns[i := s.conns[i].(handshaken := true)]);
    assert forall j: nat, q: nat :: AttachedTo(r, j, q) <==> AttachedTo(s, j, q);
  }

  lemma AcceptKeeps(s: State)
    requires Inv(s)
    ensures Inv(s.(conns := s.conns + [ACCEPTED]))
  {
    var r := s.(conns := s.conns + [ACCEPTED]);
    assert forall j: nat, q: nat :: AttachedTo(r, j, q) <==> AttachedTo(s, j, q);
  }

  lemma DispatchKeeps(s: State, i: nat, m: Message, p: Option<nat>, sent: bool)
    requires Inv(s) && i < |s.conns| && (p.Some? ==> p.value > 0 && p.value !in s.sessions)
    ensures Inv(Dispatch(s, i, m, p, sent).0)
  {
    hide Inv, DetachConnection, Attach, CreateSession;
    if !s.conns[i].handshaken {
      HandshakeKeeps(s, i);
    } else {
      match m
      case ReserveSession => CreateKeeps(s, p);
      case AttachSession(port) => AttachKeeps(s, i, port, p, sent);
      case DetachSession => DetachKeeps(s, i);
      case _ =>
    }
  }

  /** Every event keeps the binding invariant, including failed acknowledgements and dropped sockets. */
  lemma StepKeeps(s: State, e: Event)
    requires Inv(s) && Possible(s, e)
    ensures Inv(Step(s, e))
  {
    hide Inv, Dispatch, RemoveConnection;
    match e
    case Accept => AcceptKeeps(s);
    case Incoming(i, m, p, sent) =>
      DispatchKeeps(s, i, m, p, sent);
      RemoveKeeps(Dispatch(s, i, m, p, sent).0, i);
    case Dropped(i) => RemoveKeeps(s, i);
  }

  lemma {:induction false} RunKeeps(s: State, es: seq<Event>)
    requires Inv(s) && Run(s, es)
    ensures Inv(End(s, es))
    decreases |es|
  {
    hide Inv, Step;
    if es != [] {
      StepKeeps(s, es[0]);
      RunKeeps(Step(s, es[0]), es[1..]);
    }
  }

  /** An attach request for an existing session on a free port succeeds exactly when the port is not
      attached by any live connection. */
  lemma AttachExactly(s: State, i: nat, port: nat)
    requires Inv(s) && i < |s.conns| && s.conns[i].handshaken && s.conns[i].attachedPort.None? && port in s.sessions
    ensures var r := Step(s, Incoming(i, AttachSession(Some(port)), None, true));
            r.conns[i].attachedPort == Some(port) <==> forall j: nat :: !AttachedTo(s, j, port)
  {
    var r := Dispatch(s, i, AttachSession(Some(port)), None, true);
    assert port != 0;
  }

  // ---------------------------------------------------------------------------------------------
  // The runner and the server as they work
  // ---------------------------------------------------------------------------------------------

  class DaemonRunner {
    var sessions: set<nat>
    var boundSessionPorts: set<nat>
    var boundChannels: map<nat, nat>

    constructor ()
      ensures sessions == {} && boundSessionPorts == {} && boundChannels == map[]
    {
      sessions, boundSessionPorts, boundChannels := {}, {}, map[];
    }

    method NewSession(created: Option<nat>)
      modifies this
      ensures boundSessionPorts == old(boundSessionPorts) && boundChannels == old(boundChannels)
      ensures sessions == if created.Some? then old(sessions) + {created.value} else old(sessions)
    {
      if created.Some? {
        sessions := sessions + {created.value};
      }
    }

    method AttachTo(requested: nat, created: Option<nat>, channel: nat, ghost s: State) returns (port: Option<nat>)
      requires s.sessions == sessions && s.boundPorts == boundSessionPorts && s.boundChannels == boundChannels
      modifies this
      ensures var (r, p) := AttachPort(s, requested, created, channel);
              port == p && r == s.(sessions := sessions, boundPorts := boundSessionPorts, boundChannels := boundChannels)
    {
      var wanted := requested;
      if wanted == 0 {
        NewSession(created);
        if created.None? {
          return None;
        }
        wanted := created.value;
      } else if wanted !in sessions {
        return None;
      }
      if wanted in boundSessionPorts {
        return None;
      }
      if wanted !in sessions {
        return None;
      }
      boundSessionPorts := boundSessionPorts + {wanted};
      boundChannels := boundChannels[wanted := channel];
      return Some(wanted);
    }

    method Detach(port: nat)
      modifies this
      ensures sessions == old(sessions) && boundSessionPorts == old(boundSessionPorts) - {port} && boundChannels == old(boundChannels) - {port}
    {
      if port in boundChannels {
        boundChannels := boundChannels - {port};
      }
      boundSessionPorts := boundSessionPorts - {port};
      assert boundChannels == old(boundChannels) - {port};
    }
  }

  class IpcServer {
    const runner: DaemonRunner
    var connections: seq<Connection>
    var nextChannel: nat

    constructor (runner: DaemonRunner)
      ensures this.runner == runner && connections == [] && nextChannel == 0
    {
      this.runner, connections, nextChannel := runner, [], 0;
    }

    ghost function Now(): State
      reads this, runner
    {
      State(connections, runner.sessions, runner.boundSessionPorts, runner.boundChannels, nextChannel)
    }

    method AcceptConnection()
      requires Inv(Now())
      modifies this
      ensures Now() == Step(old(Now()), Accept) && Inv(Now())
    {
      AcceptKeeps(Now());
      connections := connections + [ACCEPTED];
    }

    method DetachAt(i: nat)
      requires i < |connections|
      modifies this, runner
      ensures Now() == DetachConnection(old(Now()), i)
    {
      var c := connections[i];
      if c.attachedPort.None? {
        return;
      }
      runner.Detach(c.attachedPort.value);
      connections := connections[i := c.(attachedPort := None, channel := None)];
    }

    method RemoveAt(i: nat)
      requires i < |connections|
      modifies this, runner
      ensures Now() == RemoveConnection(old(Now()), i)
    {
      DetachAt(i);
      connections := connections[..i] + connections[i + 1..];
    }

    method AttachAt(i: nat, requested: Option<nat>, created: Option<nat>, sent: bool) returns (close: bool)
      requires i < |connections|
      modifies this, runner
      ensures (Now(), close) == Attach(old(Now()), i, requested, created, sent)
    {
      hide DetachConnection;
      if connections[i].attachedPort.Some? || requested.None? {
        return false;
      }
      var channel := nextChannel;
      nextChannel := nextChannel + 1;
      var port := runner.AttachTo(requested.value, created, channel, Now());
      if port.None? {
        return false;
      }
      connections := connections[i := connections[i].(attachedPort := port, channel := Some(channel))];
      if !sent {
        DetachAt(i);
        return true;
      }
      return false;
    }

    method DispatchFrame(i: nat, m: Message, created: Option<nat>, sent: bool) returns (close: bool)
      requires i < |connections|
      modifies this, runner
      ensures (Now(), close) == Dispatch(old(Now()), i, m, created, sent)
    {
      hide DetachConnection, Attach;
      var c := connections[i];
      if m.WrongVersion? {
        return true;
      }
      if !c.handshaken {
        if !m.Handshake? || !m.accepted || !sent {
          return true;
        }
        connections := connections[i := c.(handshaken := true)];
        return false;
      }
      match m
      case Ping => return !sent;
      case ShutdownRequest => return true;
      case ReserveSession =>
        if created.None? {
          return true;
        }
        runner.NewSession(created);
        return !sent;
      case AttachSession(port) =>
        close := AttachAt(i, port, created, sent);
      case DetachSession =>
        if c.attachedPort.None? {
          return false;
        }
        DetachAt(i);
        return !sent;
      case SessionInput(_) => return false;
      case SessionOutput => return false;
      case SessionDiagnostic => return false;
      case _ => return true;
    }

    /** One frame from one connection, which is removed when the dispatch asks for it. */
    method Serve(i: nat, m: Message, created: Option<nat>, sent: bool)
      requires Inv(Now()) && Possible(Now(), Incoming(i, m, created, sent))
      modifies this, runner
      ensures Now() == Step(old(Now()), Incoming(i, m, created, sent)) && Inv(Now())
    {
      hide Inv, Dispatch, RemoveConnection;
      StepKeeps(Now(), Incoming(i, m, created, sent));
      var close := DispatchFrame(i, m, created, sent);
      if close {
        RemoveAt(i);
      }
    }

    method Drop(i: nat)
      requires Inv(Now()) && i < |connections|
      modifies this, runner
      ensures Now() == Step(old(Now()), Dropped(i)) && Inv(Now())
    {
      hide Inv, RemoveConnection;
      StepKeeps(Now(), Dropped(i));
      RemoveAt(i);
    }
  }
}
