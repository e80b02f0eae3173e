/** The output side of a session channel: what sessions write is cut into frames and pushed through a
    non-blocking socket that may take any number of bytes at a time. */
module Channel {
  import opened Bytecode
  import opened Framing

  /** One outgoing stream: unsent bytes, the unsent rest of the frame being sent, and how many bytes at
      the front of the queue that frame carries. */
  datatype Lane = Lane(queue: Bytes, wire: Bytes, size: nat)

  const IDLE := Lane([], [], 0)

  /** What the socket does with the next writes: take up to that many bytes, or refuse. */
  type Socket = seq<Option<nat>>

  function Min(a: nat, b: nat): nat {
    if a <= b then a else b
  }

  // ---------------------------------------------------------------------------------------------
  // Sending one lane
  // ---------------------------------------------------------------------------------------------

  lemma Rejoined(wire: Bytes, n: nat, sent: Bytes, rest: Bytes)
    requires n <= |wire| && sent + rest == wire[n..]
    ensures wire[..n] + sent + rest == wire
  {
    assert wire == wire[..n] + wire[n..];
  }

  datatype Sent = Sent(done: bool, wire: Bytes, sent: Bytes, socket: Socket)

  /** Writes until the wire is empty or the socket refuses. */
  function SendWire(wire: Bytes, socket: Socket): (r: Sent)
    ensures r.sent + r.wire == wire
    ensures r.done <==> r.wire == []
    ensures |r.socket| <= |socket|
    decreases |socket|
  {
    if wire == [] then Sent(true, [], [], socket)
    else if socket == [] then Sent(false, wire, [], [])
    else if socket[0].None? then Sent(false, wire, [], socket[1..])
    else
      var n := Min(socket[0].value, |wire|);
      var rest := SendWire(wire[n..], socket[1..]);
      Rejoined(wire, n, rest.sent, rest.wire);
      Sent(rest.done, rest.wire, wire[..n] + rest.sent, rest.socket)
  }

  function FrameOf(kind: U16, chunk: Bytes): Bytes {
    Encode(Frame(PROTOCOL_VERSION, kind, EncodeData(chunk)))
  }

  datatype Flushed = Flushed(done: bool, lane: Lane, sent: Bytes, socket: Socket)

  function Prefixed(sent: Bytes, r: Flushed): Flushed {
    Flushed(r.done, r.lane, sent + r.sent, r.socket)
  }

  /** Frames the queue in chunks of at most 65532 bytes until it is empty or the socket refuses. */
  function SendQueue(kind: U16, queue: Bytes, socket: Socket): (r: Flushed)
    ensures r.done ==> r.lane == IDLE
    decreases |queue|
  {
    if queue == [] then Flushed(true, IDLE, [], socket)
    else
      var size := Min(|queue|, MAX_SESSION_DATA);
      var w := SendWire(FrameOf(kind, queue[..size]), socket);
      if !w.done then Flushed(false, Lane(queue, w.wire, size), w.sent, w.socket)
      else Prefixed(w.sent, SendQueue(kind, queue[size..], w.socket))
  }

  /** Finishes the frame in flight first. */
  function SendLane(kind: U16, lane: Lane, socket: Socket): (r: Flushed)
    requires lane.size <= |lane.queue|
    ensures r.done ==> r.lane == IDLE
  {
    var w := SendWire(lane.wire, socket);
    if !w.done then Flushed(false, lane.(wire := w.wire), w.sent, w.socket)
    else Prefixed(w.sent, SendQueue(kind, lane.queue[lane.size..], w.socket))
  }

  // ---------------------------------------------------------------------------------------------
  // Exactly-once delivery of one lane
  // ---------------------------------------------------------------------------------------------

  function Frames(kind: U16, chunks: seq<Bytes>): Bytes {
    if chunks == [] then [] else Frames(kind, chunks[..|chunks| - 1]) + FrameOf(kind, chunks[|chunks| - 1])
  }

  function Data(chunks: seq<Bytes>): Bytes {
    if chunks == [] then [] else Data(chunks[..|chunks| - 1]) + chunks[|chunks| - 1]
  }

  predicate ChunksOk(chunks: seq<Bytes>) {
    forall i | 0 <= i < |chunks| :: 1 <= |chunks[i]| <= MAX_SESSION_DATA
  }

  /** The bytes `sent` and the pending wire are exactly the frames of `chunks`, which hold 1 to 65532
      bytes each; their data followed by the queue after the chunk in flight is what was `written`. */
  ghost predicate Delivers(kind: U16, lane: Lane, sent: Bytes, written: Bytes, chunks: seq<Bytes>) {
    && ChunksOk(chunks)
    && lane.size <= |lane.queue|
    && sent + lane.wire == Frames(kind, chunks)
    && Data(chunks) + lane.queue[lane.size..] == written
    && (if lane.wire == [] then lane.size == 0
        else
          && chunks != [] && chunks[|chunks| - 1] == lane.queue[..lane.size]
          && |lane.wire| <= |FrameOf(kind, lane.queue[..lane.size])|)
  }

  lemma ChunksPush(kind: U16, chunks: seq<Bytes>, chunk: Bytes)
    ensures Frames(kind, chunks + [chunk]) == Frames(kind, chunks) + FrameOf(kind, chunk)
    ensures Data(chunks + [chunk]) == Data(chunks) + chunk
  {
    assert (chunks + [chunk])[..|chunks|] == chunks;
  }

  /** Sending from a queue with nothing in flight. */
  lemma {:induction false} QueueDelivers(kind: U16, queue: Bytes, socket: Socket, sent: Bytes, written: Bytes, chunks: seq<Bytes>)
    returns (chunks': seq<Bytes>)
    requires ChunksOk(chunks) && sent == Frames(kind, chunks) && Data(chunks) + queue == written
    ensures var r := SendQueue(kind, queue, socket); Delivers(kind, r.lane, sent + r.sent, written, chunks')
    decreases |queue|
  {
    hide SendWire, FrameOf, Frames, Data;
    if queue == [] {
      chunks' := chunks;
      assert Data(chunks) + [] == Data(chunks);
      assert sent + [] == sent;
    } else {
      var size := Min(|queue|, MAX_SESSION_DATA);
      var chunk := queue[..size];
      var w := SendWire(FrameOf(kind, chunk), socket);
      ChunkSent(kind, queue, size, sent, written, chunks, w);
      if w.done {
        chunks' := QueueDelivers(kind, queue[size..], w.socket, sent + w.sent, written, chunks + [chunk]);
        var rest := SendQueue(kind, queue[size..], w.socket);
        assert sent + w.sent + rest.sent == sent + (w.sent + rest.sent);
      } else {
        chunks' := chunks + [chunk];
      }
    }
  }

  /** One chunk leaves the queue, completely or in part. */
  lemma ChunkSent(kind: U16, queue: Bytes, size: nat, sent: Bytes, written: Bytes, chunks: seq<Bytes>, w: Sent)
    requires ChunksOk(chunks) && sent == Frames(kind, chunks) && Data(chunks) + queue == written
    requires 0 < size <= |queue| && size <= MAX_SESSION_DATA
    requires w.sent + w.wire == FrameOf(kind, queue[..size]) && (w.done <==> w.wire == [])
    ensures ChunksOk(chunks + [queue[..size]]) && Data(chunks + [queue[..size]]) + queue[size..] == written
    ensures w.done ==> sent + w.sent == Frames(kind, chunks + [queue[..size]])
    ensures !w.done ==> Delivers(kind, Lane(queue, w.wire, size), sent + w.sent, written, chunks + [queue[..size]])
  {
    hide FrameOf, Frames, Data;
    var chunk := queue[..size];
    ChunksPush(kind, chunks, chunk);
    assert Data(chunks) + chunk + queue[size..] == Data(chunks) + queue by { assert chunk + queue[size..] == queue; }
    assert sent + w.sent + w.wire == sent + (w.sent + w.wire);
    if w.done {
      assert w.sent + [] == w.sent;
    }
  }

  /** Whatever the socket takes, delivery is preserved. */
  lemma LaneDelivers(kind: U16, lane: Lane, socket: Socket, sent: Bytes, written: Bytes, chunks: seq<Bytes>)
    returns (chunks': seq<Bytes>)
    requires Delivers(kind, lane, sent, written, chunks)
    ensures var r := SendLane(kind, lane, socket); Delivers(kind, r.lane, sent + r.sent, written, chunks')
  {
    hide SendWire, FrameOf, SendQueue;
    var w := SendWire(lane.wire, socket);
    if w.done {
      assert sent + w.sent == sent + lane.wire by { assert w.sent + [] == w.sent; }
      chunks' := QueueDelivers(kind, lane.queue[lane.size..], w.socket, sent + w.sent, written, chunks);
      var rest := SendQueue(kind, lane.queue[lane.size..], w.socket);
      assert sent + w.sent + rest.sent == sent + (w.sent + rest.sent);
    } else {
      chunks' := chunks;
      assert sent + w.sent + w.wire == sent + (w.sent + w.wire);
    }
  }

  /** New bytes go to the end of the queue, also while a chunk in front of it is being sent. */
  lemma WriteDelivers(kind: U16, lane: Lane, sent: Bytes, written: Bytes, chunks: seq<Bytes>, more: Bytes)
    requires Delivers(kind, lane, sent, written, chunks)
    ensures Delivers(kind, lane.(queue := lane.queue + more), sent, written + more, chunks)
  {
    hide FrameOf, Frames, Data;
    var q := lane.queue + more;
    assert q[lane.size..] == lane.queue[lane.size..] + more;
    assert q[..lane.size] == lane.queue[..lane.size];
    assert Data(chunks) + (lane.queue[lane.size..] + more) == Data(chunks) + lane.queue[lane.size..] + more;
  }

  // ---------------------------------------------------------------------------------------------
  // The whole channel with its history
  // ---------------------------------------------------------------------------------------------

  /** Bytes put on the socket for one stream. */
  datatype Piece = Piece(diagnostic: bool, bytes: Bytes)

  /** The two lanes, everything sessions wrote, and everything the socket took. */
  datatype Sys = Sys(output: Lane, diagnostic: Lane, writtenOutput: Bytes, writtenDiagnostic: Bytes, log: seq<Piece>)

  const FRESH := Sys(IDLE, IDLE, [], [], [])

  datatype SessionWrite = SessionWrite(diagnostic: bool, bytes: Bytes)

  function Write(s: Sys, w: SessionWrite): Sys {
    if w.diagnostic then
      s.(diagnostic := s.diagnostic.(queue := s.diagnostic.queue + w.bytes), writtenDiagnostic := s.writtenDiagnostic + w.bytes)
    else
      s.(output := s.output.(queue := s.output.queue + w.bytes), writtenOutput := s.writtenOutput + w.bytes)
  }

  function WriteAll(s: Sys, ws: seq<SessionWrite>): (r: Sys)
    ensures r.log == s.log
    ensures r.output.wire == s.output.wire && r.output.size == s.output.size && |r.output.queue| >= |s.output.queue|
    ensures r.diagnostic.wire == s.diagnostic.wire && r.diagnostic.size == s.diagnostic.size && |r.diagnostic.queue| >= |s.diagnostic.queue|
    ensures ws == [] ==> r == s
    decreases |ws|
  {
    if ws == [] then s else WriteAll(Write(s, ws[0]), ws[1..])
  }

  /** Session writes that happen before each time the flush takes the channel's lock. */
  type Batches = seq<seq<SessionWrite>>

  function First(b: Batches): seq<SessionWrite> {
    if b == [] then [] else b[0]
  }

  function Later(b: Batches): (r: Batches)
    ensures b != [] ==> |r| < |b|
    ensures b == [] ==> r == []
  {
    if b == [] then [] else b[1..]
  }

  predicate Quiet(s: Sys) {
    s.output.queue == [] && s.output.wire == [] && s.diagnostic.queue == [] && s.diagnostic.wire == []
  }

  predicate Sized(s: Sys) {
    s.output.size <= |s.output.queue| && s.diagnostic.size <= |s.diagnostic.queue|
  }

  /** A lane taken out for sending returns in front of what was written meanwhile. */
  function PutBack(sending: Lane, meanwhile: Lane): Lane {
    sending.(queue := sending.queue + meanwhile.queue)
  }

  /** The output lane is sent while sessions keep writing. */
  function FlushOutput(s: Sys, socket: Socket, batch: seq<SessionWrite>): (r: (bool, Sys, Socket))
    requires Sized(s)
    ensures Sized(r.1)
    ensures r.0 && batch == [] ==> r.1.output == IDLE && r.1.diagnostic == s.diagnostic
  {
    var f := SendLane(SESSION_OUTPUT, s.output, socket);
    var s1 := WriteAll(s.(output := IDLE, log := s.log + [Piece(false, f.sent)]), batch);
    SendLaneSized(SESSION_OUTPUT, s.output, socket);
    (f.done, s1.(output := PutBack(f.lane, s1.output)), f.socket)
  }

  function FlushDiagnostic(s: Sys, socket: Socket): (r: (bool, Sys, Socket))
    requires Sized(s)
    ensures Sized(r.1)
    ensures r.0 ==> r.1.diagnostic == IDLE && r.1.output == s.output
  {
    var f := SendLane(SESSION_DIAGNOSTIC, s.diagnostic, socket);
    SendLaneSized(SESSION_DIAGNOSTIC, s.diagnostic, socket);
    (f.done, s.(diagnostic := f.lane, log := s.log + [Piece(true, f.sent)]), f.socket)
  }

  lemma {:induction false} SendQueueSized(kind: U16, queue: Bytes, socket: Socket)
    ensures var l := SendQueue(kind, queue, socket).lane; l.size <= |l.queue|
    decreases |queue|
  {
    hide SendWire, FrameOf;
    if queue != [] {
      var size := Min(|queue|, MAX_SESSION_DATA);
      var w := SendWire(FrameOf(kind, queue[..size]), socket);
      if w.done {
        SendQueueSized(kind, queue[size..], w.socket);
      }
    }
  }

  lemma SendLaneSized(kind: U16, lane: Lane, socket: Socket)
    requires lane.size <= |lane.queue|
    ensures var l := SendLane(kind, lane, socket).lane; l.size <= |l.queue|
  {
    hide SendWire, SendQueue;
    SendQueueSized(kind, lane.queue[lane.size..], SendWire(lane.wire, socket).socket);
  }

  /** Repeats output, then diagnostics, until nothing is left or the socket refuses. The bytes a session
      writes while the lane is out are behind the lane when it returns. */
  function Flush(s: Sys, socket: Socket, batches: Batches): (r: Sys)
    requires Sized(s)
    ensures Sized(r)
    decreases |batches|, if Quiet(s) then 0 else 1
  {
    var s0 := WriteAll(s, First(batches));
    if Quiet(s0) then s0
    else
      var b1 := Later(batches);
      var (sentOutput, s1, socket1) := FlushOutput(s0, socket, First(b1));
      if !sentOutput then s1
      else
        var (sentDiagnostic, s2, socket2) := FlushDiagnostic(s1, socket1);
        if !sentDiagnostic then WriteAll(s2, First(Later(b1)))
        else Flush(s2, socket2, Later(b1))
  }

  // ---------------------------------------------------------------------------------------------
  // Exactly-once delivery over every run
  // ---------------------------------------------------------------------------------------------

  /** Bytes the socket took for one stream. */
  function SentOn(log: seq<Piece>, diagnostic: bool): Bytes {
    if log == [] then []
    else
      var last := log[|log| - 1];
      SentOn(log[..|log| - 1], diagnostic) + if last.diagnostic == diagnostic then last.bytes else []
  }

  lemma SentOnPush(log: seq<Piece>, piece: Piece, diagnostic: bool)
    ensures SentOn(log + [piece], diagnostic) == SentOn(log, diagnostic) + if piece.diagnostic == diagnostic then piece.bytes else []
  {
    assert (log + [piece])[..|log|] == log;
  }

  ghost predicate LaneOk(kind: U16, lane: Lane, sent: Bytes, written: Bytes) {
    exists chunks :: Delivers(kind, lane, sent, written, chunks)
  }

  /** The bytes are complete frames. */
  ghost predicate Whole(kind: U16, bytes: Bytes) {
    exists chunks :: ChunksOk(chunks) && bytes == Frames(kind, chunks)
  }

  /** No diagnostic byte was sent while an output frame was half sent. */
  ghost predicate OutputWhole(log: seq<Piece>) {
    forall i | 0 <= i < |log| && log[i].diagnostic && log[i].bytes != [] :: Whole(SESSION_OUTPUT, SentOn(log[..i], false))
  }

  ghost predicate Inv(s: Sys) {
    && LaneOk(SESSION_OUTPUT, s.output, SentOn(s.log, false), s.writtenOutput)
    && LaneOk(SESSION_DIAGNOSTIC, s.diagnostic, SentOn(s.log, true), s.writtenDiagnostic)
    && OutputWhole(s.log)
  }

  lemma InvSized(s: Sys)
    requires Inv(s)
    ensures Sized(s)
  {
    hide Frames, Data, FrameOf, SentOn;
  }

  lemma LaneWritten(kind: U16, lane: Lane, sent: Bytes, written: Bytes, more: Bytes)
    requires LaneOk(kind, lane, sent, written)
    ensures LaneOk(kind, lane.(queue := lane.queue + more), sent, written + more)
  {
    hide Delivers;
    var chunks :| Delivers(kind, lane, sent, written, chunks);
    WriteDelivers(kind, lane, sent, written, chunks, more);
  }

  lemma LaneSent(kind: U16, lane: Lane, socket: Socket, sent: Bytes, written: Bytes)
    requires LaneOk(kind, lane, sent, written)
    ensures lane.size <= |lane.queue|
    ensures var r := SendLane(kind, lane, socket); LaneOk(kind, r.lane, sent + r.sent, written)
  {
    hide SendLane, Frames, Data, FrameOf;
    var chunks :| Delivers(kind, lane, sent, written, chunks);
    var chunks' := LaneDelivers(kind, lane, socket, sent, written, chunks);
  }

  /** A lane with nothing in flight has sent complete frames. */
  lemma IdleIsWhole(kind: U16, lane: Lane, sent: Bytes, written: Bytes)
    requires LaneOk(kind, lane, sent, written) && lane.wire == []
    ensures Whole(kind, sent)
  {
    hide Frames, Data, FrameOf;
    var chunks :| Delivers(kind, lane, sent, written, chunks);
    assert sent + [] == sent;
  }

  lemma WriteKeepsInv(s: Sys, w: SessionWrite)
    requires Inv(s)
    ensures Inv(Write(s, w))
  {
    hide LaneOk, OutputWhole, SentOn;
    if w.diagnostic {
      LaneWritten(SESSION_DIAGNOSTIC, s.diagnostic, SentOn(s.log, true), s.writtenDiagnostic, w.bytes);
    } else {
      LaneWritten(SESSION_OUTPUT, s.output, SentOn(s.log, false), s.writtenOutput, w.bytes);
    }
  }

  lemma {:induction false} WritesKeepInv(s: Sys, ws: seq<SessionWrite>)
    requires Inv(s)
    ensures Inv(WriteAll(s, ws))
    decreases |ws|
  {
    hide Inv, Write;
    if ws != [] {
      WriteKeepsInv(s, ws[0]);
      WritesKeepInv(Write(s, ws[0]), ws[1..]);
    }
  }

  /** Taking a lane out, writing, and putting it back is writing with the lane in place. */
  lemma {:induction false} WritesCommute(s: Sys, out: Lane, ws: seq<SessionWrite>)
    ensures var w := WriteAll(s, ws);
            WriteAll(s.(output := PutBack(out, s.output)), ws) == w.(output := PutBack(out, w.output))
    decreases |ws|
  {
    if ws != [] {
      var s1 := Write(s, ws[0]);
      WritesCommute(s1, out, ws[1..]);
      assert out.queue + (s.output.queue + ws[0].bytes) == out.queue + s.output.queue + ws[0].bytes;
      assert Write(s.(output := PutBack(out, s.output)), ws[0]) == s1.(output := PutBack(out, s1.output));
    }
  }

  lemma OutputWholePush(log: seq<Piece>, piece: Piece)
    requires OutputWhole(log) && (piece.diagnostic && piece.bytes != [] ==> Whole(SESSION_OUTPUT, SentOn(log, false)))
    ensures OutputWhole(log + [piece])
  {
    hide SentOn, Whole;
    var longer := log + [piece];
    forall i | 0 <= i < |longer| && longer[i].diagnostic && longer[i].bytes != []
      ensures Whole(SESSION_OUTPUT, SentOn(longer[..i], false))
    {
      if i < |log| {
        assert longer[..i] == log[..i];
      } else {
        assert longer[..i] == log;
      }
    }
  }

  lemma OutputKeepsInv(s: Sys, socket: Socket, batch: seq<SessionWrite>)
    requires Inv(s) && Sized(s)
    ensures Inv(FlushOutput(s, socket, batch).1)
    ensures FlushOutput(s, socket, batch).0 ==> FlushOutput(s, socket, batch).1.output.wire == []
  {
    hide LaneOk, SendLane, SentOn, OutputWhole, WriteAll;
    var f := SendLane(SESSION_OUTPUT, s.output, socket);
    LaneSent(SESSION_OUTPUT, s.output, socket, SentOn(s.log, false), s.writtenOutput);
    var piece := Piece(false, f.sent);
    SentOnPush(s.log, piece, false);
    SentOnPush(s.log, piece, true);
    assert SentOn(s.log, true) + [] == SentOn(s.log, true);
    OutputWholePush(s.log, piece);
    var s1 := s.(output := IDLE, log := s.log + [piece]);
    WritesCommute(s1, f.lane, batch);
    assert f.lane.queue + [] == f.lane.queue;
    WritesKeepInv(s.(output := f.lane, log := s.log + [piece]), batch);
    assert PutBack(f.lane, s1.output) == f.lane;
  }

  lemma DiagnosticKeepsInv(s: Sys, socket: Socket)
    requires Inv(s) && Sized(s) && s.output.wire == []
    ensures Inv(FlushDiagnostic(s, socket).1)
  {
    hide LaneOk, SendLane, SentOn, OutputWhole, Whole;
    var f := SendLane(SESSION_DIAGNOSTIC, s.diagnostic, socket);
    LaneSent(SESSION_DIAGNOSTIC, s.diagnostic, socket, SentOn(s.log, true), s.writtenDiagnostic);
    IdleIsWhole(SESSION_OUTPUT, s.output, SentOn(s.log, false), s.writtenOutput);
    var piece := Piece(true, f.sent);
    SentOnPush(s.log, piece, false);
    SentOnPush(s.log, piece, true);
    assert SentOn(s.log, false) + [] == SentOn(s.log, false);
    OutputWholePush(s.log, piece);
  }

  lemma {:induction false} FlushKeepsInv(s: Sys, socket: Socket, batches: Batches)
    requires Inv(s) && Sized(s)
    ensures Inv(Flush(s, socket, batches))
    decreases |batches|, if Quiet(s) then 0 else 1
  {
    hide Inv, FlushOutput, FlushDiagnostic, WriteAll;
    var s0 := WriteAll(s, First(batches));
    WritesKeepInv(s, First(batches));
    if !Quiet(s0) {
      var b1 := Later(batches);
      var (sentOutput, s1, socket1) := FlushOutput(s0, socket, First(b1));
      OutputKeepsInv(s0, socket, First(b1));
      if sentOutput {
        var (sentDiagnostic, s2, socket2) := FlushDiagnostic(s1, socket1);
        DiagnosticKeepsInv(s1, socket1);
        if sentDiagnostic {
          FlushKeepsInv(s2, socket2, Later(b1));
        } else {
          WritesKeepInv(s2, First(Later(b1)));
        }
      }
    }
  }

  datatype Op = WriteOp(write: SessionWrite) | FlushOp(socket: Socket, batches: Batches)

  function RunOps(s: Sys, ops: seq<Op>): Sys
    requires Sized(s)
    decreases |ops|
  {
    if ops == [] then s
    else
      match ops[0]
      case WriteOp(w) => RunOps(Write(s, w), ops[1..])
      case FlushOp(socket, batches) =>
        RunOps(Flush(s, socket, batches), ops[1..])
  }

  /** Exactly-once output: after any sequence of session writes and flushes, with any behaviour of the
      socket and any writes during the flushes, both streams deliver, and no diagnostic byte was sent
      while an output frame was half sent. */
  lemma {:induction false} ExactlyOnce(s: Sys, ops: seq<Op>)
    requires Inv(s) && Sized(s)
    ensures Inv(RunOps(s, ops))
    decreases |ops|
  {
    hide Inv, Flush, Write;
    if ops != [] {
      if ops[0].WriteOp? {
        WriteKeepsInv(s, ops[0].write);
        InvSized(Write(s, ops[0].write));
        ExactlyOnce(Write(s, ops[0].write), ops[1..]);
      } else {
        var s1 := Flush(s, ops[0].socket, ops[0].batches);
        FlushKeepsInv(s, ops[0].socket, ops[0].batches);
        InvSized(s1);
        ExactlyOnce(s1, ops[1..]);
      }
    }
  }

  lemma FreshInv()
    ensures Inv(FRESH) && Sized(FRESH)
  {
    var none: seq<Bytes> := [];
    assert Delivers(SESSION_OUTPUT, IDLE, [], [], none);
    assert Delivers(SESSION_DIAGNOSTIC, IDLE, [], [], none);
  }

  // ---------------------------------------------------------------------------------------------
  // The receiving side
  // ---------------------------------------------------------------------------------------------

  function FrameList(kind: U16, chunks: seq<Bytes>): (r: seq<Frame>)
    ensures |r| == |chunks|
  {
    seq(|chunks|, i requires 0 <= i < |chunks| => Frame(PROTOCOL_VERSION, kind, EncodeData(chunks[i])))
  }

  lemma {:induction false} WireAppend(a: seq<Frame>, b: seq<Frame>)
    ensures Wire(a + b) == Wire(a) + Wire(b)
    decreases |a|
  {
    hide Encode;
    if a == [] {
      assert a + b == b;
    } else {
      assert (a + b)[1..] == a[1..] + b;
      WireAppend(a[1..], b);
    }
  }

  lemma {:induction false} FramesAreWire(kind: U16, chunks: seq<Bytes>)
    ensures Frames(kind, chunks) == Wire(FrameList(kind, chunks))
    decreases |chunks|
  {
    hide Encode, EncodeData;
    if chunks != [] {
      var n := |chunks| - 1;
      FramesAreWire(kind, chunks[..n]);
      var last := Frame(PROTOCOL_VERSION, kind, EncodeData(chunks[n]));
      WireAppend(FrameList(kind, chunks[..n]), [last]);
      assert FrameList(kind, chunks) == FrameList(kind, chunks[..n]) + [last];
      assert [last][1..] == [];
      assert Encode(last) + [] == Encode(last);
      assert Wire([last]) == Encode(last);
    }
  }

  lemma ChunksSendable(kind: U16, chunks: seq<Bytes>)
    requires ChunksOk(chunks)
    ensures Sendable(FrameList(kind, chunks))
  {
    hide WriteU32;
    forall i | 0 <= i < |chunks|
      ensures |FrameList(kind, chunks)[i].payload| <= MAX_PAYLOAD
    {
      FourBytes(|chunks[i]|);
    }
  }

  /** End to end: a client that reads one delivering stream in any pieces gets, without error, frames of
      that stream only, whose data are the chunks in order: a prefix of what the session wrote. */
  lemma ClientReceives(kind: U16, lane: Lane, sent: Bytes, written: Bytes, chunks: seq<Bytes>, arrivals: seq<Bytes>)
    requires Delivers(kind, lane, sent, written, chunks) && Joined(arrivals) == sent
    ensures var r := Receive([], arrivals);
            && !r.failed && |r.frames| <= |chunks|
            && (forall i | 0 <= i < |r.frames| :: r.frames[i].kind == kind && DecodeData(r.frames[i].payload) == Some(chunks[i]))
            && Data(chunks[..|r.frames|]) <= written
  {
    hide Receive, Frames, Data, FrameOf, EncodeData, DecodeData;
    var frames := FrameList(kind, chunks);
    FramesAreWire(kind, chunks);
    ChunksSendable(kind, chunks);
    assert [] + Joined(arrivals) + lane.wire == Wire(frames);
    ChunkingDoesNotMatter([], arrivals, lane.wire, frames);
    var r := Receive([], arrivals);
    forall i | 0 <= i < |r.frames|
      ensures r.frames[i].kind == kind && DecodeData(r.frames[i].payload) == Some(chunks[i])
    {
      assert r.frames[i] == frames[i];
      DataRoundTrip(EncodeData(chunks[i]), chunks[i]);
    }
    DataPrefix(chunks, |r.frames|);
  }

  lemma {:induction false} DataPrefix(chunks: seq<Bytes>, k: nat)
    requires k <= |chunks|
    ensures Data(chunks[..k]) <= Data(chunks)
    decreases |chunks|
  {
    if k < |chunks| {
      var n := |chunks| - 1;
      DataPrefix(chunks[..n], k);
      assert chunks[..n][..k] == chunks[..k];
    } else {
      assert chunks[..k] == chunks;
    }
  }

  // ---------------------------------------------------------------------------------------------
  // When output splits a diagnostic frame
  // ---------------------------------------------------------------------------------------------

  /** A complete frame at the front of a wire is its first frame. */
  lemma HeadDelimits(f: Frame, rest: Bytes, b: seq<Frame>)
    requires Encode(f) + rest == Wire(b) && |f.payload| <= MAX_PAYLOAD && Sendable(b)
    ensures b != [] && b[0] == f && rest == Wire(b[1..])
  {
    hide Take, Encode, Wire;
    var e := Encode(f);
    EncodeNotEmpty(f);
    TakeFromWire(e, rest, b);
    OneFrameWire(f);
    assert e + [] == e;
    TakeFromWire(e, [], [f]);
    assert Take(e).0 == FrameReady(f) && Take(e).1 == [] by {
      OneFrameLeft(f, Take(e).1);
    }
    assert [] + rest == rest;
  }

  lemma OneFrameWire(f: Frame)
    ensures Wire([f]) == Encode(f) && Wire([]) == []
  {
    hide Encode;
    assert [f][1..] == [];
    assert Encode(f) + [] == Encode(f);
  }

  lemma OneFrameLeft(f: Frame, left: Bytes)
    requires left + [] == Wire([f][1..])
    ensures left == []
  {
    assert [f][1..] == [];
    assert left + [] == left;
  }

  /** Frames are self-delimiting: complete frames at the front of a wire are its first frames. */
  lemma {:induction false} FramesDelimit(a: seq<Frame>, tail: Bytes, b: seq<Frame>)
    requires Wire(a) + tail == Wire(b) && Sendable(a) && Sendable(b)
    ensures |a| <= |b| && a == b[..|a|] && tail == Wire(b[|a|..])
    decreases |a|
  {
    hide Encode;
    if a == [] {
      assert [] + tail == tail;
      assert b[0..] == b;
    } else {
      var rest := Wire(a[1..]) + tail;
      assert Encode(a[0]) + rest == Wire(a) + tail;
      HeadDelimits(a[0], rest, b);
      FramesDelimit(a[1..], tail, b[1..]);
      ConsPrefix(a, b);
    }
  }

  lemma ConsPrefix(a: seq<Frame>, b: seq<Frame>)
    requires a != [] && b != [] && a[0] == b[0] && |a| <= |b| && a[1..] == b[1..][..|a| - 1]
    ensures a == b[..|a|] && b[1..][|a| - 1..] == b[|a|..]
  {
    assert a == [a[0]] + a[1..];
    assert b[..|a|] == [b[0]] + b[1..][..|a| - 1];
  }

  lemma EncodeNotEmpty(f: Frame)
    ensures |Encode(f)| >= HEADER
  {
  }

  /** Part of a frame has been sent and part has not. */
  predicate HalfSent(kind: U16, lane: Lane) {
    lane.wire != [] && lane.size <= |lane.queue| && |lane.wire| < |FrameOf(kind, lane.queue[..lane.size])|
  }

  /** Complete frames have been sent exactly when no frame is half sent. */
  lemma WholeOrHalf(kind: U16, lane: Lane, sent: Bytes, written: Bytes)
    requires LaneOk(kind, lane, sent, written)
    ensures Whole(kind, sent) <==> !HalfSent(kind, lane)
  {
    hide FrameOf, Data, Frames;
    var chunks :| Delivers(kind, lane, sent, written, chunks);
    if lane.wire == [] {
      assert sent + [] == sent;
    } else {
      var n := |chunks| - 1;
      var last := chunks[n];
      ChunksPush(kind, chunks[..n], last);
      assert chunks == chunks[..n] + [last];
      var before := Frames(kind, chunks[..n]);
      if |lane.wire| == |FrameOf(kind, last)| {
        assert sent == (sent + lane.wire)[..|before|] == before;
        assert ChunksOk(chunks[..n]);
      } else if Whole(kind, sent) {
        var c :| ChunksOk(c) && sent == Frames(kind, c);
        NotDelimited(kind, c, lane.wire, chunks);
        assert false;
      }
    }
  }

  lemma NotDelimited(kind: U16, c: seq<Bytes>, wire: Bytes, chunks: seq<Bytes>)
    requires ChunksOk(c) && ChunksOk(chunks) && Frames(kind, c) + wire == Frames(kind, chunks) && wire != [] && chunks != []
    ensures |wire| >= |FrameOf(kind, chunks[|chunks| - 1])|
  {
    hide Encode, EncodeData, Frames;
    FramesAreWire(kind, c);
    FramesAreWire(kind, chunks);
    ChunksSendable(kind, c);
    ChunksSendable(kind, chunks);
    var a, b := FrameList(kind, c), FrameList(kind, chunks);
    FramesDelimit(a, wire, b);
    var n := |b| - 1;
    assert |a| <= n;
    WireAppend(b[|a|..n], [b[n]]);
    assert b[|a|..] == b[|a|..n] + [b[n]];
    assert [b[n]][1..] == [];
    assert Wire([b[n]]) == Encode(b[n]) by { assert Encode(b[n]) + [] == Encode(b[n]); }
  }

  /** Some output byte sent at or after log position `from` met a half-sent diagnostic frame. */
  ghost predicate Splits(log: seq<Piece>, from: nat) {
    exists i :: from <= i < |log| && !log[i].diagnostic && log[i].bytes != [] && !Whole(SESSION_DIAGNOSTIC, SentOn(log[..i], true))
  }

  lemma {:induction false} FlushLog(s: Sys, socket: Socket, batches: Batches)
    requires Sized(s)
    ensures s.log <= Flush(s, socket, batches).log
    decreases |batches|, if Quiet(s) then 0 else 1
  {
    hide SendLane;
    var s0 := WriteAll(s, First(batches));
    if !Quiet(s0) {
      var b1 := Later(batches);
      var (sentOutput, s1, socket1) := FlushOutput(s0, socket, First(b1));
      if sentOutput {
        var (sentDiagnostic, s2, socket2) := FlushDiagnostic(s1, socket1);
        if sentDiagnostic {
          FlushLog(s2, socket2, Later(b1));
        }
      }
    }
  }

  /** The socket takes at least one byte before it refuses. */
  predicate Takes(socket: Socket) {
    socket != [] && socket[0].Some? && (socket[0].value > 0 || Takes(socket[1..]))
  }

  /** Something waits to be sent on the lane. */
  predicate Waiting(lane: Lane) {
    lane.wire != [] || lane.size < |lane.queue|
  }

  lemma {:induction false} WireSends(wire: Bytes, socket: Socket)
    ensures SendWire(wire, socket).sent != [] <==> wire != [] && Takes(socket)
    decreases |socket|
  {
    if wire != [] && socket != [] && socket[0].Some? {
      var n := Min(socket[0].value, |wire|);
      if n == 0 {
        assert wire[n..] == wire;
        WireSends(wire, socket[1..]);
      }
    }
  }

  /** What decides, before the call, whether a lane sends anything. */
  lemma LaneSends(kind: U16, lane: Lane, socket: Socket)
    requires lane.size <= |lane.queue|
    ensures SendLane(kind, lane, socket).sent != [] <==> Waiting(lane) && Takes(socket)
  {
    hide SendWire, FrameOf, Takes;
    WireSends(lane.wire, socket);
    var w := SendWire(lane.wire, socket);
    if lane.wire == [] {
      NothingSent(socket);
      var queue := lane.queue[lane.size..];
      if queue != [] {
        var chunk := queue[..Min(|queue|, MAX_SESSION_DATA)];
        FrameSome(kind, chunk);
        WireSends(FrameOf(kind, chunk), socket);
      }
    }
  }

  lemma NothingSent(socket: Socket)
    ensures SendWire([], socket) == Sent(true, [], [], socket)
  {
  }

  lemma FrameSome(kind: U16, chunk: Bytes)
    ensures FrameOf(kind, chunk) != []
  {
    hide Encode;
    EncodeNotEmpty(Frame(PROTOCOL_VERSION, kind, EncodeData(chunk)));
  }

  /** A flush is about to put output into a half-sent diagnostic frame: one is half sent, output is
      waiting (counting what sessions write before the flush takes the lock), and the socket takes some. */
  predicate WillSplit(s: Sys, socket: Socket, batches: Batches) {
    HalfSent(SESSION_DIAGNOSTIC, s.diagnostic) && Waiting(WriteAll(s, First(batches)).output) && Takes(socket)
  }

  lemma {:induction false} WritesKeepHalf(s: Sys, ws: seq<SessionWrite>)
    requires Sized(s)
    ensures HalfSent(SESSION_DIAGNOSTIC, WriteAll(s, ws).diagnostic) <==> HalfSent(SESSION_DIAGNOSTIC, s.diagnostic)
    decreases |ws|
  {
    hide FrameOf;
    if ws != [] {
      WritesKeepHalf(Write(s, ws[0]), ws[1..]);
      assert (s.diagnostic.queue + ws[0].bytes)[..s.diagnostic.size] == s.diagnostic.queue[..s.diagnostic.size];
    }
  }

  lemma OutputLog(s: Sys, socket: Socket, batch: seq<SessionWrite>)
    requires Sized(s)
    ensures FlushOutput(s, socket, batch).1.log == s.log + [Piece(false, SendLane(SESSION_OUTPUT, s.output, socket).sent)]
  {
    hide SendLane;
  }

  lemma DiagnosticLog(s: Sys, socket: Socket)
    requires Sized(s)
    ensures var r := FlushDiagnostic(s, socket);
            |r.1.log| == |s.log| + 1 && r.1.log[..|s.log|] == s.log && r.1.log[|s.log|].diagnostic &&
            (r.0 ==> r.1.diagnostic == IDLE)
  {
    hide SendLane;
  }

  lemma IdleNotHalf()
    ensures !HalfSent(SESSION_DIAGNOSTIC, IDLE)
  {
  }

  /** A log that grew by one output piece, possibly one diagnostic piece, and then without a split. */
  lemma SplitsAt(s: Sys, log: seq<Piece>, sent: Bytes, k: nat)
    requires Inv(s) && Sized(s) && 1 <= k <= 2 && |s.log| + k <= |log|
    requires log[..|s.log| + 1] == s.log + [Piece(false, sent)]
    requires k == 2 ==> log[|s.log| + 1].diagnostic
    requires !Splits(log, |s.log| + k)
    ensures Splits(log, |s.log|) <==> HalfSent(SESSION_DIAGNOSTIC, s.diagnostic) && sent != []
  {
    hide FrameOf, HalfSent, Whole, SentOn, LaneOk, OutputWhole;
    var n := |s.log|;
    WholeOrHalf(SESSION_DIAGNOSTIC, s.diagnostic, SentOn(s.log, true), s.writtenDiagnostic);
    assert log[..n] == log[..n + 1][..n] == s.log;
    assert log[n] == log[..n + 1][n] == Piece(false, sent);
    if Splits(log, n) {
      var i :| n <= i < |log| && !log[i].diagnostic && log[i].bytes != [] && !Whole(SESSION_DIAGNOSTIC, SentOn(log[..i], true));
      assert !(i >= n + k);
      assert i == n;
    }
  }

  /** A flush puts output bytes inside a diagnostic frame exactly when, before it, a diagnostic frame was
      left half sent, output was waiting and the socket was ready to take some. */
  lemma {:induction false} FlushSplits(s: Sys, socket: Socket, batches: Batches)
    requires Inv(s) && Sized(s)
    ensures Splits(Flush(s, socket, batches).log, |s.log|) <==> WillSplit(s, socket, batches)
    decreases |batches|, if Quiet(s) then 0 else 1
  {
    hide Inv, FlushOutput, FlushDiagnostic, WriteAll, SendLane, FrameOf, HalfSent, Whole, SentOn, Takes;
    var s0 := WriteAll(s, First(batches));
    WritesKeepInv(s, First(batches));
    InvSized(s0);
    LaneSends(SESSION_OUTPUT, s0.output, socket);
    var sent := SendLane(SESSION_OUTPUT, s0.output, socket).sent;
    var r := Flush(s, socket, batches);
    FlushLog(s, socket, batches);
    WritesKeepHalf(s, First(batches));
    if !Quiet(s0) {
      var b1 := Later(batches);
      var (sentOutput, s1, socket1) := FlushOutput(s0, socket, First(b1));
      OutputKeepsInv(s0, socket, First(b1));
      OutputLog(s0, socket, First(b1));
      if sentOutput {
        var (sentDiagnostic, s2, socket2) := FlushDiagnostic(s1, socket1);
        DiagnosticKeepsInv(s1, socket1);
        DiagnosticLog(s1, socket1);
        if sentDiagnostic {
          FlushLog(s2, socket2, Later(b1));
          FlushSplits(s2, socket2, Later(b1));
          IdleNotHalf();
          assert !Splits(r.log, |s2.log|);
        }
        SplitsAt(s0, r.log, sent, 2);
      } else {
        SplitsAt(s0, r.log, sent, 1);
      }
    }
  }

  /** A socket that takes five bytes of a diagnostic frame and then refuses. */
  lemma HalfDiagnostic(byte: Byte)
    ensures var s := Flush(Write(FRESH, SessionWrite(true, [byte])), [Some(5)], []);
            && Inv(s) && HalfSent(SESSION_DIAGNOSTIC, s.diagnostic) && s.output == IDLE
  {
    hide FrameOf, Inv, HalfSent;
    FreshInv();
    var s0 := Write(FRESH, SessionWrite(true, [byte]));
    WriteKeepsInv(FRESH, SessionWrite(true, [byte]));
    FlushKeepsInv(s0, [Some(5)], []);
    assert IDLE.queue + [byte] == [byte];
    assert s0.diagnostic == Lane([byte], [], 0);
    assert SendLane(SESSION_OUTPUT, IDLE, [Some(5)]) == Flushed(true, IDLE, [], [Some(5)]);
    var s1 := FlushOutput(s0, [Some(5)], []).1;
    assert s1.diagnostic == s0.diagnostic && s1.output == IDLE;
    HalfLane(byte);
  }

  lemma HalfLane(byte: Byte)
    ensures var f := SendLane(SESSION_DIAGNOSTIC, Lane([byte], [], 0), [Some(5)]);
            !f.done && HalfSent(SESSION_DIAGNOSTIC, f.lane)
  {
    var frame := FrameOf(SESSION_DIAGNOSTIC, [byte]);
    EncodeNotEmpty(Frame(PROTOCOL_VERSION, SESSION_DIAGNOSTIC, EncodeData([byte])));
    assert |frame| >= HEADER;
    hide FrameOf;
    var w := SendWire(frame, [Some(5)]);
    assert SendWire(frame[5..], []) == Sent(false, frame[5..], [], []);
    assert w.wire == frame[5..];
    assert [byte][0..] == [byte];
    assert [byte][..1] == [byte];
    assert SendQueue(SESSION_DIAGNOSTIC, [byte], [Some(5)]).lane == Lane([byte], w.wire, 1);
  }

  /** Output written after that goes into the middle of the diagnostic frame. */
  lemma OutputSplitsDiagnostic(a: Byte, b: Byte, n: nat)
    requires n > 0
    ensures var s := Flush(Write(FRESH, SessionWrite(true, [a])), [Some(5)], []);
            Splits(Flush(Write(s, SessionWrite(false, [b])), [Some(n)], []).log, |s.log|)
  {
    hide Inv, Flush, HalfSent, Splits;
    HalfDiagnostic(a);
    var s := Flush(Write(FRESH, SessionWrite(true, [a])), [Some(5)], []);
    var s1 := Write(s, SessionWrite(false, [b]));
    WriteKeepsInv(s, SessionWrite(false, [b]));
    assert IDLE.queue + [b] == [b];
    FlushSplits(s1, [Some(n)], []);
  }

  // ---------------------------------------------------------------------------------------------
  // The channel as it works
  // ---------------------------------------------------------------------------------------------

  method FlushWireBuffer(wire0: Bytes, socket0: Socket) returns (done: bool, wire: Bytes, sent: Bytes, socket: Socket)
    ensures Sent(done, wire, sent, socket) == SendWire(wire0, socket0)
  {
    wire, sent, socket := wire0, [], socket0;
    while wire != []
      invariant sent + SendWire(wire, socket).sent == SendWire(wire0, socket0).sent
      invariant SendWire(wire, socket).(sent := []) == SendWire(wire0, socket0).(sent := [])
      decreases |socket|
    {
      if socket == [] {
        assert sent + [] == sent;
        return false, wire, sent, socket;
      }
      var answer := socket[0];
      socket := socket[1..];
      if answer.None? {
        assert sent + [] == sent;
        return false, wire, sent, socket;
      }
      var written := Min(answer.value, |wire|);
      ghost var rest := SendWire(wire[written..], socket);
      assert sent + (wire[..written] + rest.sent) == sent + wire[..written] + rest.sent;
      sent := sent + wire[..written];
      wire := wire[written..];
    }
    assert sent + [] == sent;
    done := true;
  }

  method FlushQueue(kind: U16, lane: Lane, socket0: Socket)
    returns (done: bool, queue: Bytes, wire: Bytes, size: nat, sent: Bytes, socket: Socket)
    requires lane.size <= |lane.queue|
    ensures Flushed(done, Lane(queue, wire, size), sent, socket) == SendLane(kind, lane, socket0)
  {
    hide SendWire, FrameOf;
    queue, size := lane.queue, lane.size;
    done, wire, sent, socket := FlushWireBuffer(lane.wire, socket0);
    if !done { return; }
    if size > 0 {
      queue, size := queue[size..], 0;
    }
    assert lane.queue[0..] == lane.queue;
    while queue != []
      invariant wire == [] && size == 0
      invariant Prefixed(sent, SendQueue(kind, queue, socket)) == SendLane(kind, lane, socket0)
      decreases |queue|
    {
      size := Min(|queue|, MAX_SESSION_DATA);
      wire := FrameOf(kind, queue[..size]);
      var more;
      done, wire, more, socket := FlushWireBuffer(wire, socket);
      ghost var rest := SendQueue(kind, queue[size..], socket);
      assert sent + (more + rest.sent) == sent + more + rest.sent;
      sent := sent + more;
      if !done { return; }
      queue, size := queue[size..], 0;
    }
    assert sent + [] == sent;
    done := true;
  }

  class SessionChannel {
    var outputQueue: Bytes
    var diagnosticQueue: Bytes
    var pendingOutputWire: Bytes
    var pendingDiagnosticWire: Bytes
    var pendingOutputChunkSize: nat
    var pendingDiagnosticChunkSize: nat
    ghost var writtenOutput: Bytes
    ghost var writtenDiagnostic: Bytes
    ghost var log: seq<Piece>

    ghost function Abs(): Sys
      reads this
    {
      Sys(Lane(outputQueue, pendingOutputWire, pendingOutputChunkSize),
          Lane(diagnosticQueue, pendingDiagnosticWire, pendingDiagnosticChunkSize),
          writtenOutput, writtenDiagnostic, log)
    }

    constructor ()
      ensures Abs() == FRESH && Inv(Abs())
    {
      outputQueue, diagnosticQueue, pendingOutputWire, pendingDiagnosticWire := [], [], [], [];
      pendingOutputChunkSize, pendingDiagnosticChunkSize := 0, 0;
      writtenOutput, writtenDiagnostic, log := [], [], [];
      new;
      FreshInv();
    }

    method WriteOutputBytes(w: SessionWrite)
      modifies this
      ensures Abs() == Write(old(Abs()), w)
    {
      if w.diagnostic {
        diagnosticQueue := diagnosticQueue + w.bytes;
        writtenDiagnostic := writtenDiagnostic + w.bytes;
      } else {
        outputQueue := outputQueue + w.bytes;
        writtenOutput := writtenOutput + w.bytes;
      }
    }

    /** Writes of session threads while the flush does not hold the lock. */
    method SessionsWrite(ws: seq<SessionWrite>)
      modifies this
      ensures Abs() == WriteAll(old(Abs()), ws)
    {
      assert ws[0..] == ws;
      for i := 0 to |ws|
        invariant WriteAll(Abs(), ws[i..]) == WriteAll(old(Abs()), ws)
      {
        assert ws[i..][1..] == ws[i + 1..];
        WriteOutputBytes(ws[i]);
      }
    }

    method FlushOutputLane(socket0: Socket, batch: seq<SessionWrite>) returns (done: bool, socket: Socket)
      requires Sized(Abs())
      modifies this
      ensures (done, Abs(), socket) == FlushOutput(old(Abs()), socket0, batch)
    {
      hide SendLane, WriteAll;
      var chunk := outputQueue;
      var wire := pendingOutputWire;
      var size := pendingOutputChunkSize;
      outputQueue, pendingOutputWire, pendingOutputChunkSize := [], [], 0;
      var sent;
      done, chunk, wire, size, sent, socket := FlushQueue(SESSION_OUTPUT, Lane(chunk, wire, size), socket0);
      log := log + [Piece(false, sent)];
      SessionsWrite(batch);
      if !done {
        outputQueue := chunk + outputQueue;
        pendingOutputWire := wire;
        pendingOutputChunkSize := size;
      } else {
        assert [] + outputQueue == outputQueue;
      }
    }

    method FlushDiagnosticLane(socket0: Socket, batch: seq<SessionWrite>) returns (done: bool, socket: Socket)
      requires Sized(Abs())
      modifies this
      ensures var r := FlushDiagnostic(old(Abs()), socket0);
              done == r.0 && socket == r.2 && Abs() == if done then r.1 else WriteAll(r.1, batch)
    {
      hide SendLane, WriteAll;
      var chunk := diagnosticQueue;
      var wire := pendingDiagnosticWire;
      var size := pendingDiagnosticChunkSize;
      diagnosticQueue, pendingDiagnosticWire, pendingDiagnosticChunkSize := [], [], 0;
      var sent;
      done, chunk, wire, size, sent, socket := FlushQueue(SESSION_DIAGNOSTIC, Lane(chunk, wire, size), socket0);
      log := log + [Piece(true, sent)];
      if !done {
        ghost var before := Abs();
        assert chunk + [] == chunk;
        SessionsWrite(batch);
        DiagnosticsCommute(before, Lane(chunk, wire, size), batch);
        diagnosticQueue := chunk + diagnosticQueue;
        pendingDiagnosticWire := wire;
        pendingDiagnosticChunkSize := size;
      }
    }

    /** Sends what is pending, as far as the socket takes it, while sessions go on writing. */
    method FlushPendingOutput(socket0: Socket, batches0: Batches)
      requires Inv(Abs()) && Sized(Abs())
      modifies this
      ensures Abs() == Flush(old(Abs()), socket0, batches0)
      ensures Inv(Abs())
    {
      hide FlushOutput, FlushDiagnostic, WriteAll, Inv;
      FlushKeepsInv(Abs(), socket0, batches0);
      var socket, batches := socket0, batches0;
      while true
        invariant Sized(Abs())
        invariant Flush(Abs(), socket, batches) == Flush(old(Abs()), socket0, batches0)
        decreases |batches|, if Quiet(Abs()) then 0 else 1
      {
        SessionsWrite(First(batches));
        if outputQueue == [] && pendingOutputWire == [] && diagnosticQueue == [] && pendingDiagnosticWire == [] {
          return;
        }
        batches := Later(batches);
        var done;
        done, socket := FlushOutputLane(socket, First(batches));
        if !done { return; }
        batches := Later(batches);
        done, socket := FlushDiagnosticLane(socket, First(batches));
        if !done { return; }
      }
    }
  }

  lemma {:induction false} DiagnosticsCommute(s: Sys, out: Lane, ws: seq<SessionWrite>)
    ensures var w := WriteAll(s, ws);
            WriteAll(s.(diagnostic := PutBack(out, s.diagnostic)), ws) == w.(diagnostic := PutBack(out, w.diagnostic))
    decreases |ws|
  {
    if ws != [] {
      var s1 := Write(s, ws[0]);
      DiagnosticsCommute(s1, out, ws[1..]);
      assert out.queue + (s.diagnostic.queue + ws[0].bytes) == out.queue + s.diagnostic.queue + ws[0].bytes;
      assert Write(s.(diagnostic := PutBack(out, s.diagnostic)), ws[0]) == s1.(diagnostic := PutBack(out, s1.diagnostic));
    }
  }
}
