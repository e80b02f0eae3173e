/** Both streams of a session on one socket: unless a flush puts output into a half-sent diagnostic frame,
    the socket carries one sequence of complete frames, and one client can tell the streams apart. */
module SharedSocket {
  import opened Bytecode
  import opened Framing
  import opened Channel

  /** Everything the socket took, in order. */
  function AllSent(log: seq<Piece>): Bytes {
    if log == [] then [] else AllSent(log[..|log| - 1]) + log[|log| - 1].bytes
  }

  lemma AllSentPush(log: seq<Piece>, piece: Piece)
    ensures AllSent(log + [piece]) == AllSent(log) + piece.bytes
  {
    assert (log + [piece])[..|log|] == log;
  }

  /** The unsent rest of a frame whose first bytes are already on the socket. */
  function Tail(kind: U16, lane: Lane): Bytes {
    if HalfSent(kind, lane) then lane.wire else []
  }

  /** All frames begun on one stream, completed. */
  function Begun(kind: U16, lane: Lane, sent: Bytes): Bytes {
    sent + Tail(kind, lane)
  }

  // ---------------------------------------------------------------------------------------------
  // One stream
  // ---------------------------------------------------------------------------------------------

  /** The frames begun on a stream carry the first bytes written to it. */
  lemma BegunWhole(kind: U16, lane: Lane, sent: Bytes, written: Bytes) returns (chunks: seq<Bytes>)
    requires LaneOk(kind, lane, sent, written)
    ensures ChunksOk(chunks) && Begun(kind, lane, sent) == Frames(kind, chunks) && Data(chunks) <= written
  {
    hide FrameOf, Data, Frames;
    chunks :| Delivers(kind, lane, sent, written, chunks);
    assert Data(chunks) <= written;
    if !HalfSent(kind, lane) && lane.wire != [] {
      var n := |chunks| - 1;
      ChunksPush(kind, chunks[..n], chunks[n]);
      assert chunks == chunks[..n] + [chunks[n]];
      var before := Frames(kind, chunks[..n]);
      assert sent == (sent + lane.wire)[..|before|] == before;
      DataPrefix(chunks, n);
      chunks := chunks[..n];
    }
    assert sent + [] == sent;
  }

  /** Sending goes on with the frame in flight. */
  lemma TailFirst(kind: U16, lane: Lane, socket: Socket)
    requires lane.size <= |lane.queue|
    ensures var r := SendLane(kind, lane, socket); Tail(kind, lane) <= r.sent + Tail(kind, r.lane)
  {
    hide SendWire, SendQueue, FrameOf;
    if HalfSent(kind, lane) {
      var w := SendWire(lane.wire, socket);
      if w.done {
        assert w.sent + [] == w.sent;
      }
    }
  }

  /** Sending completes what was begun and begins further frames. */
  lemma BegunGrows(kind: U16, lane: Lane, socket: Socket, sent: Bytes, written: Bytes) returns (more: seq<Bytes>)
    requires LaneOk(kind, lane, sent, written) && lane.size <= |lane.queue|
    ensures var r := SendLane(kind, lane, socket);
            ChunksOk(more) && r.sent + Tail(kind, r.lane) == Tail(kind, lane) + Frames(kind, more)
  {
    hide SendLane, LaneOk, Frames, Tail, Wire, Data;
    var r := SendLane(kind, lane, socket);
    LaneSent(kind, lane, socket, sent, written);
    var a := BegunWhole(kind, lane, sent, written);
    var b := BegunWhole(kind, r.lane, sent + r.sent, written);
    TailFirst(kind, lane, socket);
    var t, t' := Tail(kind, lane), r.sent + Tail(kind, r.lane);
    var rest := t'[|t|..];
    assert t' == t + rest;
    assert Frames(kind, a) + rest == Frames(kind, b) by {
      assert sent + r.sent + Tail(kind, r.lane) == sent + t';
      assert sent + t + rest == sent + (t + rest);
    }
    more := ChunksAfter(kind, a, rest, b);
  }

  lemma ChunksAfter(kind: U16, a: seq<Bytes>, rest: Bytes, b: seq<Bytes>) returns (more: seq<Bytes>)
    requires ChunksOk(a) && ChunksOk(b) && Frames(kind, a) + rest == Frames(kind, b)
    ensures ChunksOk(more) && rest == Frames(kind, more)
  {
    hide Frames, Wire, EncodeData;
    FramesAreWire(kind, a);
    FramesAreWire(kind, b);
    ChunksSendable(kind, a);
    ChunksSendable(kind, b);
    FramesDelimit(FrameList(kind, a), rest, FrameList(kind, b));
    more := b[|a|..];
    FramesAreWire(kind, more);
    assert FrameList(kind, b)[|a|..] == FrameList(kind, more);
  }

  // ---------------------------------------------------------------------------------------------
  // Both streams
  // ---------------------------------------------------------------------------------------------

  /** The frames of one kind, in order. */
  function OfKind(frames: seq<Frame>, kind: U16): seq<Frame> {
    if frames == [] then []
    else
      var last := frames[|frames| - 1];
      OfKind(frames[..|frames| - 1], kind) + if last.kind == kind then [last] else []
  }

  lemma {:induction false} OfKindAppend(a: seq<Frame>, b: seq<Frame>, kind: U16)
    ensures OfKind(a + b, kind) == OfKind(a, kind) + OfKind(b, kind)
    decreases |b|
  {
    if b == [] {
      assert a + b == a;
    } else {
      var n := |b| - 1;
      assert (a + b)[..|a + b| - 1] == a + b[..n];
      OfKindAppend(a, b[..n], kind);
    }
  }

  lemma {:induction false} OfOneKind(frames: seq<Frame>, kind: U16, other: U16)
    requires forall i | 0 <= i < |frames| :: frames[i].kind == kind
    ensures OfKind(frames, other) == if other == kind then frames else []
    decreases |frames|
  {
    if frames != [] {
      OfOneKind(frames[..|frames| - 1], kind, other);
    }
  }

  /** The socket has taken the frames, the last one perhaps not yet completely; those of each stream are
      the frames begun on it. */
  ghost predicate Carries(s: Sys, frames: seq<Frame>) {
    && Sendable(frames)
    && !(HalfSent(SESSION_OUTPUT, s.output) && HalfSent(SESSION_DIAGNOSTIC, s.diagnostic))
    && AllSent(s.log) + Tail(SESSION_OUTPUT, s.output) + Tail(SESSION_DIAGNOSTIC, s.diagnostic) == Wire(frames)
    && Wire(OfKind(frames, SESSION_OUTPUT)) == Begun(SESSION_OUTPUT, s.output, SentOn(s.log, false))
    && Wire(OfKind(frames, SESSION_DIAGNOSTIC)) == Begun(SESSION_DIAGNOSTIC, s.diagnostic, SentOn(s.log, true))
  }

  /** Frames of one stream follow; `begun` and `grown` are what was begun on that stream before and after. */
  lemma MoreFrames(frames: seq<Frame>, kind: U16, other: U16, more: seq<Bytes>, begun: Bytes, grown: Bytes)
    requires kind != other && ChunksOk(more) && Sendable(frames)
    requires Wire(OfKind(frames, kind)) == begun && grown == begun + Frames(kind, more)
    ensures var all := frames + FrameList(kind, more);
            && Sendable(all) && Wire(all) == Wire(frames) + Frames(kind, more)
            && Wire(OfKind(all, kind)) == grown && OfKind(all, other) == OfKind(frames, other)
  {
    hide Wire, OfKind, Frames, EncodeData;
    var list := FrameList(kind, more);
    ChunksSendable(kind, more);
    FramesAreWire(kind, more);
    WireAppend(frames, list);
    OfKindAppend(frames, list, kind);
    OfKindAppend(frames, list, other);
    OfOneKind(list, kind, kind);
    OfOneKind(list, kind, other);
    WireAppend(OfKind(frames, kind), list);
    assert OfKind(frames, other) + [] == OfKind(frames, other);
  }

  /** The state with one piece of a lane sent. */
  function LaneOut(s: Sys, diagnostic: bool, f: Flushed): Sys {
    if diagnostic then s.(diagnostic := f.lane, log := s.log + [Piece(true, f.sent)])
    else s.(output := f.lane, log := s.log + [Piece(false, f.sent)])
  }

  /** Sending one lane while the other has no frame half sent. */
  lemma OutputCarries(s: Sys, socket: Socket, frames: seq<Frame>) returns (all: seq<Frame>)
    requires Inv(s) && Sized(s) && Carries(s, frames) && !HalfSent(SESSION_DIAGNOSTIC, s.diagnostic)
    ensures Carries(LaneOut(s, false, SendLane(SESSION_OUTPUT, s.output, socket)), all)
  {
    hide SendLane, SentOn, AllSent, Wire, OfKind, Frames, LaneOk, OutputWhole, HalfSent;
    var f := SendLane(SESSION_OUTPUT, s.output, socket);
    var more := BegunGrows(SESSION_OUTPUT, s.output, socket, SentOn(s.log, false), s.writtenOutput);
    var piece := Piece(false, f.sent);
    AllSentPush(s.log, piece);
    SentOnPush(s.log, piece, false);
    SentOnPush(s.log, piece, true);
    assert SentOn(s.log, true) + [] == SentOn(s.log, true);
    var t, t', a, o := Tail(SESSION_OUTPUT, s.output), Tail(SESSION_OUTPUT, f.lane), AllSent(s.log), SentOn(s.log, false);
    Regroup(o, f.sent, t', t, Frames(SESSION_OUTPUT, more));
    Regroup(a, f.sent, t', t, Frames(SESSION_OUTPUT, more));
    assert a + t + [] == a + t;
    assert a + f.sent + t' + [] == a + f.sent + t';
    MoreFrames(frames, SESSION_OUTPUT, SESSION_DIAGNOSTIC, more, o + t, o + f.sent + t');
    all := frames + FrameList(SESSION_OUTPUT, more);
  }

  lemma Regroup(x: Bytes, sent: Bytes, t': Bytes, t: Bytes, fs: Bytes)
    requires sent + t' == t + fs
    ensures x + sent + t' == x + t + fs
  {
    assert x + sent + t' == x + (sent + t');
    assert x + t + fs == x + (t + fs);
  }

  lemma DiagnosticCarries(s: Sys, socket: Socket, frames: seq<Frame>) returns (all: seq<Frame>)
    requires Inv(s) && Sized(s) && Carries(s, frames) && !HalfSent(SESSION_OUTPUT, s.output)
    ensures Carries(LaneOut(s, true, SendLane(SESSION_DIAGNOSTIC, s.diagnostic, socket)), all)
  {
    hide SendLane, SentOn, AllSent, Wire, OfKind, Frames, LaneOk, OutputWhole, HalfSent;
    var f := SendLane(SESSION_DIAGNOSTIC, s.diagnostic, socket);
    var more := BegunGrows(SESSION_DIAGNOSTIC, s.diagnostic, socket, SentOn(s.log, true), s.writtenDiagnostic);
    var piece := Piece(true, f.sent);
    AllSentPush(s.log, piece);
    SentOnPush(s.log, piece, false);
    SentOnPush(s.log, piece, true);
    assert SentOn(s.log, false) + [] == SentOn(s.log, false);
    var t, t', a, o := Tail(SESSION_DIAGNOSTIC, s.diagnostic), Tail(SESSION_DIAGNOSTIC, f.lane), AllSent(s.log), SentOn(s.log, true);
    Regroup(o, f.sent, t', t, Frames(SESSION_DIAGNOSTIC, more));
    Regroup(a, f.sent, t', t, Frames(SESSION_DIAGNOSTIC, more));
    assert a + [] + t == a + t;
    assert a + f.sent + [] + t' == a + f.sent + t';
    MoreFrames(frames, SESSION_DIAGNOSTIC, SESSION_OUTPUT, more, o + t, o + f.sent + t');
    all := frames + FrameList(SESSION_DIAGNOSTIC, more);
  }

  /** An output lane that sends nothing changes nothing on the socket. */
  lemma NothingCarries(s: Sys, socket: Socket, frames: seq<Frame>)
    requires Inv(s) && Sized(s) && Carries(s, frames) && HalfSent(SESSION_DIAGNOSTIC, s.diagnostic)
    requires SendLane(SESSION_OUTPUT, s.output, socket).sent == []
    ensures Carries(LaneOut(s, false, SendLane(SESSION_OUTPUT, s.output, socket)), frames)
  {
    hide SendLane, SentOn, AllSent, Wire, OfKind, LaneOk, OutputWhole, HalfSent, Whole;
    var f := SendLane(SESSION_OUTPUT, s.output, socket);
    var sent := SentOn(s.log, false);
    LaneSent(SESSION_OUTPUT, s.output, socket, sent, s.writtenOutput);
    assert sent + [] == sent;
    WholeOrHalf(SESSION_OUTPUT, s.output, sent, s.writtenOutput);
    WholeOrHalf(SESSION_OUTPUT, f.lane, sent, s.writtenOutput);
    var piece := Piece(false, f.sent);
    AllSentPush(s.log, piece);
    SentOnPush(s.log, piece, false);
    SentOnPush(s.log, piece, true);
    assert SentOn(s.log, true) + [] == SentOn(s.log, true);
    assert AllSent(s.log) + [] == AllSent(s.log);
  }

  lemma WriteCarries(s: Sys, w: SessionWrite, frames: seq<Frame>)
    requires Sized(s) && Carries(s, frames)
    ensures Sized(Write(s, w)) && Carries(Write(s, w), frames)
  {
    hide FrameOf, Wire, OfKind, AllSent, SentOn;
    if w.diagnostic {
      SameHead(s.diagnostic, w.bytes);
    } else {
      SameHead(s.output, w.bytes);
    }
  }

  lemma SameHead(lane: Lane, more: Bytes)
    requires lane.size <= |lane.queue|
    ensures (lane.queue + more)[..lane.size] == lane.queue[..lane.size]
  {
  }

  lemma {:induction false} WritesCarry(s: Sys, ws: seq<SessionWrite>, frames: seq<Frame>)
    requires Sized(s) && Carries(s, frames)
    ensures Carries(WriteAll(s, ws), frames)
    decreases |ws|
  {
    hide Carries, Write;
    if ws != [] {
      WriteCarries(s, ws[0], frames);
      WritesCarry(Write(s, ws[0]), ws[1..], frames);
    }
  }

  lemma FlushOutputCarries(s: Sys, socket: Socket, batch: seq<SessionWrite>, frames: seq<Frame>) returns (all: seq<Frame>)
    requires Inv(s) && Sized(s) && Carries(s, frames)
    requires HalfSent(SESSION_DIAGNOSTIC, s.diagnostic) ==> SendLane(SESSION_OUTPUT, s.output, socket).sent == []
    ensures Carries(FlushOutput(s, socket, batch).1, all)
  {
    hide SendLane, Inv, Carries, WriteAll, HalfSent;
    var f := SendLane(SESSION_OUTPUT, s.output, socket);
    if HalfSent(SESSION_DIAGNOSTIC, s.diagnostic) {
      NothingCarries(s, socket, frames);
      all := frames;
    } else {
      all := OutputCarries(s, socket, frames);
    }
    var s1 := s.(output := IDLE, log := s.log + [Piece(false, f.sent)]);
    WritesCommute(s1, f.lane, batch);
    assert f.lane.queue + [] == f.lane.queue;
    assert s1.(output := PutBack(f.lane, s1.output)) == LaneOut(s, false, f);
    SendLaneSized(SESSION_OUTPUT, s.output, socket);
    WritesCarry(LaneOut(s, false, f), batch, all);
  }

  lemma {:induction false} FlushCarries(s: Sys, socket: Socket, batches: Batches, frames: seq<Frame>) returns (all: seq<Frame>)
    requires Inv(s) && Sized(s) && Carries(s, frames) && !WillSplit(s, socket, batches)
    ensures Carries(Flush(s, socket, batches), all)
    decreases |batches|, if Quiet(s) then 0 else 1
  {
    hide Inv, Carries, FlushOutput, FlushDiagnostic, WriteAll, SendLane, HalfSent, Takes;
    var s0 := WriteAll(s, First(batches));
    WritesKeepInv(s, First(batches));
    WritesCarry(s, First(batches), frames);
    WritesKeepHalf(s, First(batches));
    InvSized(s0);
    LaneSends(SESSION_OUTPUT, s0.output, socket);
    all := frames;
    if !Quiet(s0) {
      var b1 := Later(batches);
      var (sentOutput, s1, socket1) := FlushOutput(s0, socket, First(b1));
      OutputKeepsInv(s0, socket, First(b1));
      all := FlushOutputCarries(s0, socket, First(b1), frames);
      if sentOutput {
        var (sentDiagnostic, s2, socket2) := FlushDiagnostic(s1, socket1);
        DiagnosticKeepsInv(s1, socket1);
        NoWireNotHalf(s1.output);
        all := DiagnosticCarries(s1, socket1, all);
        DiagnosticIs(s1, socket1);
        if sentDiagnostic {
          IdleNotHalf();
          all := FlushCarries(s2, socket2, Later(b1), all);
        } else {
          WritesCarry(s2, First(Later(b1)), all);
        }
      }
    }
  }

  lemma NoWireNotHalf(lane: Lane)
    requires lane.wire == []
    ensures !HalfSent(SESSION_OUTPUT, lane)
  {
  }

  lemma DiagnosticIs(s: Sys, socket: Socket)
    requires Sized(s)
    ensures FlushDiagnostic(s, socket).1 == LaneOut(s, true, SendLane(SESSION_DIAGNOSTIC, s.diagnostic, socket))
    ensures FlushDiagnostic(s, socket).0 ==> FlushDiagnostic(s, socket).1.diagnostic == IDLE
  {
    hide SendLane;
  }

  /** No flush of the run starts in a state in which it will split a diagnostic frame. */
  ghost predicate NeverSplits(s: Sys, ops: seq<Op>)
    requires Sized(s)
    decreases |ops|
  {
    if ops == [] then true
    else
      match ops[0]
      case WriteOp(w) => NeverSplits(Write(s, w), ops[1..])
      case FlushOp(socket, batches) => !WillSplit(s, socket, batches) && NeverSplits(Flush(s, socket, batches), ops[1..])
  }

  /** One socket, whole frames: over every run without a split, the bytes the socket took and the rest of
      the frame in flight are complete frames, and the frames of each stream are those begun on it. */
  lemma {:induction false} OneWire(s: Sys, ops: seq<Op>, frames: seq<Frame>) returns (all: seq<Frame>)
    requires Inv(s) && Sized(s) && Carries(s, frames) && NeverSplits(s, ops)
    ensures Inv(RunOps(s, ops)) && Carries(RunOps(s, ops), all)
    decreases |ops|
  {
    hide Inv, Carries, Flush, Write, WillSplit;
    all := frames;
    if ops != [] {
      if ops[0].WriteOp? {
        var s1 := Write(s, ops[0].write);
        WriteKeepsInv(s, ops[0].write);
        WriteCarries(s, ops[0].write, frames);
        all := OneWire(s1, ops[1..], frames);
      } else {
        var s1 := Flush(s, ops[0].socket, ops[0].batches);
        FlushKeepsInv(s, ops[0].socket, ops[0].batches);
        all := FlushCarries(s, ops[0].socket, ops[0].batches, frames);
        all := OneWire(s1, ops[1..], all);
      }
    }
  }

  lemma FreshCarries()
    ensures Inv(FRESH) && Sized(FRESH) && Carries(FRESH, [])
  {
    FreshInv();
  }

  // ---------------------------------------------------------------------------------------------
  // One client for both streams
  // ---------------------------------------------------------------------------------------------

  /** Frames of one stream whose data are the first bytes written to it. */
  ghost predicate StreamRead(frames: seq<Frame>, kind: U16, written: Bytes) {
    exists chunks :: FrameList(kind, chunks) == OfKind(frames, kind) && ChunksOk(chunks) && Data(chunks) <= written
  }

  lemma ReadStream(all: seq<Frame>, k: nat, kind: U16, lane: Lane, sent: Bytes, written: Bytes)
    requires k <= |all| && Sendable(all) && LaneOk(kind, lane, sent, written)
    requires Wire(OfKind(all, kind)) == Begun(kind, lane, sent)
    ensures StreamRead(all[..k], kind, written)
  {
    hide Wire, Begun, LaneOk, Frames, EncodeData, Data, OfKind;
    var chunks := BegunWhole(kind, lane, sent, written);
    FramesAreWire(kind, chunks);
    ChunksSendable(kind, chunks);
    var mine, list := OfKind(all, kind), FrameList(kind, chunks);
    OfKindSendable(all, kind);
    assert Wire(mine) + [] == Wire(list);
    FramesDelimit(mine, [], list);
    assert Wire(list) + [] == Wire(mine);
    FramesDelimit(list, [], mine);
    assert mine == list;
    OfKindAppend(all[..k], all[k..], kind);
    assert all[..k] + all[k..] == all;
    var j := |OfKind(all[..k], kind)|;
    assert OfKind(all[..k], kind) == mine[..j] == list[..j];
    assert list[..j] == FrameList(kind, chunks[..j]);
    DataPrefix(chunks, j);
  }

  lemma {:induction false} OfKindSendable(frames: seq<Frame>, kind: U16)
    requires Sendable(frames)
    ensures Sendable(OfKind(frames, kind))
    decreases |frames|
  {
    if frames != [] {
      OfKindSendable(frames[..|frames| - 1], kind);
    }
  }

  /** A client that reads the shared socket in any pieces gets whole frames without error, and sorting them
      by kind gives on each stream a prefix of what the session wrote there. */
  lemma ClientReadsBoth(s: Sys, frames: seq<Frame>, arrivals: seq<Bytes>)
    requires Inv(s) && Carries(s, frames) && Joined(arrivals) == AllSent(s.log)
    ensures var r := Receive([], arrivals);
            && !r.failed && r.frames <= frames
            && StreamRead(r.frames, SESSION_OUTPUT, s.writtenOutput)
            && StreamRead(r.frames, SESSION_DIAGNOSTIC, s.writtenDiagnostic)
  {
    hide Receive, Wire, LaneOk, OutputWhole, OfKind, SentOn, AllSent, StreamRead, HalfSent, Joined;
    var tail := Tail(SESSION_OUTPUT, s.output) + Tail(SESSION_DIAGNOSTIC, s.diagnostic);
    assert [] + Joined(arrivals) + tail == Wire(frames) by {
      assert AllSent(s.log) + Tail(SESSION_OUTPUT, s.output) + Tail(SESSION_DIAGNOSTIC, s.diagnostic) == AllSent(s.log) + tail;
    }
    ChunkingDoesNotMatter([], arrivals, tail, frames);
    var k := |Receive([], arrivals).frames|;
    ReadStream(frames, k, SESSION_OUTPUT, s.output, SentOn(s.log, false), s.writtenOutput);
    ReadStream(frames, k, SESSION_DIAGNOSTIC, s.diagnostic, SentOn(s.log, true), s.writtenDiagnostic);
  }

  /** Over every run of a new channel in which no flush finds a half-sent diagnostic frame and output to
      send, one client on the shared socket reads both streams, however the bytes arrive. */
  lemma BothStreamsArrive(ops: seq<Op>, arrivals: seq<Bytes>)
    requires Sized(FRESH) && NeverSplits(FRESH, ops) && Joined(arrivals) == AllSent(RunOps(FRESH, ops).log)
    ensures var r, end := Receive([], arrivals), RunOps(FRESH, ops);
            && !r.failed
            && StreamRead(r.frames, SESSION_OUTPUT, end.writtenOutput)
            && StreamRead(r.frames, SESSION_DIAGNOSTIC, end.writtenDiagnostic)
  {
    hide Inv, Carries, RunOps, Receive, StreamRead, Joined, AllSent, NeverSplits;
    FreshCarries();
    var frames := OneWire(FRESH, ops, []);
    ClientReadsBoth(RunOps(FRESH, ops), frames, arrivals);
  }
}
