/** Length-prefixed frames of the daemon protocol, and reading them from a byte stream that arrives in
    arbitrary pieces. */
module Framing {
  import opened Bytecode

  type Byte = n: int | 0 <= n < 256
  type Bytes = seq<Byte>
  type U16 = n: int | 0 <= n < 0x1_0000
  type U32 = n: int | 0 <= n < 0x1_0000_0000

  const HEADER: nat := 12
  const MAX_PAYLOAD: nat := 65536
  const MAX_SESSION_DATA: nat := MAX_PAYLOAD - 4
  const PROTOCOL_VERSION: U16 := 1
  const SESSION_OUTPUT: U16 := 15
  const SESSION_DIAGNOSTIC: U16 := 16

  /** "GEMI" */
  const MAGIC: Bytes := [71, 69, 77, 73]

  /** The type is an unchecked 16-bit number on the wire. */
  datatype Frame = Frame(version: U16, kind: U16, payload: Bytes)

  // ---------------------------------------------------------------------------------------------
  // Encoding and decoding
  // ---------------------------------------------------------------------------------------------

  function WriteU16(v: U16): Bytes {
    [v / 256, v % 256]
  }

  function WriteU32(v: U32): Bytes {
    [v / 0x100_0000, v / 0x1_0000 % 256, v / 256 % 256, v % 256]
  }

  function ReadU16(b: Bytes, at: nat): U16
    requires at + 2 <= |b|
  {
    (b[at] as int) * 256 + b[at + 1] as int
  }

  function ReadU32(b: Bytes, at: nat): U32
    requires at + 4 <= |b|
  {
    (b[at] as int) * 0x100_0000 + (b[at + 1] as int) * 0x1_0000 + (b[at + 2] as int) * 256 + b[at + 3] as int
  }

  lemma U32RoundTrip(v: U32)
    ensures ReadU32(WriteU32(v), 0) == v
  {
    var n := v as int;
    var q1, q2, q3 := n / 256, n / 0x1_0000, n / 0x100_0000;
    assert q2 == q1 / 256;
    assert q3 == q2 / 256;
    assert n == 256 * q1 + n % 256;
    assert q1 == 256 * q2 + q1 % 256;
    assert q2 == 256 * q3 + q2 % 256;
  }

  lemma U16RoundTrip(v: U16)
    ensures ReadU16(WriteU16(v), 0) == v
  {
  }

  /** Four bytes are determined by the number they spell. */
  lemma U32Unique(b: Bytes, at: nat)
    requires at + 4 <= |b|
    ensures WriteU32(ReadU32(b, at)) == b[at..at + 4]
  {
    var v := ReadU32(b, at) as int;
    var b0, b1, b2 := b[at] as int, b[at + 1] as int, b[at + 2] as int;
    assert v / 256 == b0 * 0x1_0000 + b1 * 256 + b2;
    assert v / 0x1_0000 == b0 * 256 + b1;
    assert v / 0x100_0000 == b0;
  }

  function Header(version: U16, kind: U16, length: U32): (h: Bytes)
    ensures |h| == HEADER
  {
    MAGIC + WriteU16(version) + WriteU16(kind) + WriteU32(length)
  }

  /** The length field is the payload size truncated to 32 bits. */
  function Encode(f: Frame): Bytes {
    Header(f.version, f.kind, |f.payload| % 0x1_0000_0000) + f.payload
  }

  function Decode(b: Bytes): Option<Frame> {
    if |b| < HEADER || b[..4] != MAGIC then None
    else
      var n := ReadU32(b, 8);
      if n > MAX_PAYLOAD || |b| < HEADER + n then None
      else Some(Frame(ReadU16(b, 4), ReadU16(b, 6), b[HEADER..HEADER + n]))
  }

  /** Length of the first complete frame: unknown yet, 0 for a malformed header, or its size. */
  function FrameLength(b: Bytes): Option<nat> {
    if |b| < HEADER then None
    else if b[..4] != MAGIC then Some(0)
    else
      var n := ReadU32(b, 8);
      if n > MAX_PAYLOAD then Some(0)
      else if |b| < HEADER + n then None
      else Some(HEADER + n)
  }

  lemma HeaderFields(version: U16, kind: U16, length: U32, rest: Bytes)
    ensures var b := Header(version, kind, length) + rest;
            && |b| == HEADER + |rest| && b[..4] == MAGIC && b[HEADER..] == rest
            && ReadU16(b, 4) == version && ReadU16(b, 6) == kind && ReadU32(b, 8) == length
  {
    var b := Header(version, kind, length) + rest;
    assert b[4] == WriteU16(version)[0] && b[5] == WriteU16(version)[1];
    assert b[6] == WriteU16(kind)[0] && b[7] == WriteU16(kind)[1];
    var w := WriteU32(length);
    assert b[8] == w[0] && b[9] == w[1] && b[10] == w[2] && b[11] == w[3];
    U16RoundTrip(version);
    U16RoundTrip(kind);
    U32RoundTrip(length);
  }

  /** A frame survives encoding exactly when its payload is within the limit. */
  lemma DecodeEncode(f: Frame)
    ensures Decode(Encode(f)) == Some(f) <==> |f.payload| <= MAX_PAYLOAD
  {
    hide Header;
    HeaderFields(f.version, f.kind, |f.payload| % 0x1_0000_0000, f.payload);
    if |f.payload| <= MAX_PAYLOAD {
      assert Encode(f)[HEADER..HEADER + |f.payload|] == f.payload;
    } else if Decode(Encode(f)).Some? {
      assert |Decode(Encode(f)).value.payload| <= MAX_PAYLOAD;
    }
  }

  /** Whatever decodes is the encoding of its frame, possibly followed by more bytes. */
  lemma EncodeDecode(b: Bytes)
    ensures Decode(b).Some? ==> var e := Encode(Decode(b).value); |e| <= |b| && b[..|e|] == e
  {
    if Decode(b).Some? {
      var f := Decode(b).value;
      var n := ReadU32(b, 8);
      U32Unique(b, 8);
      assert WriteU16(f.version) == b[4..6] by { U16Unique(b, 4); }
      assert WriteU16(f.kind) == b[6..8] by { U16Unique(b, 6); }
      assert b[..HEADER] == b[..4] + b[4..6] + b[6..8] + b[8..12];
      assert b[..HEADER + n] == b[..HEADER] + b[HEADER..HEADER + n];
    }
  }

  lemma U16Unique(b: Bytes, at: nat)
    requires at + 2 <= |b|
    ensures WriteU16(ReadU16(b, at)) == b[at..at + 2]
  {
  }

  // ---------------------------------------------------------------------------------------------
  // Session data payloads
  // ---------------------------------------------------------------------------------------------

  function EncodeData(data: Bytes): Bytes {
    WriteU32(|data| % 0x1_0000_0000) + data
  }

  function DecodeData(p: Bytes): Option<Bytes> {
    if |p| < 4 then None
    else
      var n := ReadU32(p, 0);
      if n > MAX_SESSION_DATA || |p| != 4 + n then None else Some(p[4..])
  }

  lemma DataHeader(n: U32, data: Bytes)
    ensures ReadU32(WriteU32(n) + data, 0) == n && (WriteU32(n) + data)[4..] == data
  {
    hide WriteU32;
    var w := WriteU32(n);
    FourBytes(n);
    var p := w + data;
    assert p[0] == w[0] && p[1] == w[1] && p[2] == w[2] && p[3] == w[3];
    U32RoundTrip(n);
  }

  lemma FourBytes(n: U32)
    ensures |WriteU32(n)| == 4
  {
  }

  /** Session data payloads are exactly the encodings of at most 65532 bytes. */
  lemma DataRoundTrip(p: Bytes, data: Bytes)
    ensures DecodeData(p) == Some(data) <==> p == EncodeData(data) && |data| <= MAX_SESSION_DATA
  {
    hide WriteU32, ReadU32;
    if DecodeData(p) == Some(data) {
      U32Unique(p, 0);
      assert p == p[0..4] + p[4..];
    }
    if p == EncodeData(data) && |data| <= MAX_SESSION_DATA {
      FourBytes(|data|);
      DataHeader(|data|, data);
    }
  }

  // ---------------------------------------------------------------------------------------------
  // Reading frames from a stream
  // ---------------------------------------------------------------------------------------------

  /** More bytes never change an answer about the first frame. */
  lemma MoreBytes(b: Bytes, more: Bytes)
    requires FrameLength(b).Some?
    ensures FrameLength(b + more) == FrameLength(b)
    ensures var n := FrameLength(b).value; n <= |b| && (b + more)[..n] == b[..n] && Decode((b + more)[..n]) == Decode(b[..n])
  {
    var c := b + more;
    assert c[..4] == b[..4];
    assert c[8] == b[8] && c[9] == b[9] && c[10] == b[10] && c[11] == b[11];
  }

  /** A complete frame always decodes. */
  lemma CompleteDecodes(b: Bytes)
    requires FrameLength(b).Some? && FrameLength(b).value > 0
    ensures FrameLength(b).value <= |b| && Decode(b[..FrameLength(b).value]).Some?
  {
    var n := FrameLength(b).value;
    assert b[..n][..4] == b[..4];
    assert ReadU32(b[..n], 8) == ReadU32(b, 8);
  }

  datatype Status = Incomplete | FrameReady(frame: Frame) | ConnectionClosed | ProtocolError

  /** One read from the socket: some bytes, nothing for now, end of file, or another error. */
  datatype ReadResult = Chunk(bytes: Bytes) | WouldBlock | EndOfFile | ReadFailed

  /** Bytes that arrive before the first read that is not a chunk, and that read. */
  function Arrived(attempts: seq<ReadResult>): (r: (Bytes, ReadResult))
    ensures !r.1.Chunk?
  {
    if attempts == [] then ([], WouldBlock)
    else if attempts[0].Chunk? then var r := Arrived(attempts[1..]); (attempts[0].bytes + r.0, r.1)
    else ([], attempts[0])
  }

  /** Taking the first frame out of the buffered bytes: the answer and what stays buffered. */
  function Take(b: Bytes): (r: (Status, Bytes)) {
    match FrameLength(b)
    case None => (Incomplete, b)
    case Some(n) =>
      if n == 0 || n > |b| then (ProtocolError, b)
      else
        match Decode(b[..n])
        case None => (ProtocolError, b[n..])
        case Some(f) => (FrameReady(f), b[n..])
  }

  class FrameReader {
    var buffer: Bytes

    constructor ()
      ensures buffer == []
    {
      buffer := [];
    }

    /** Reads all that is available, then takes one frame. At end of file buffered bytes are not decoded. */
    method TryRead(attempts: seq<ReadResult>) returns (status: Status)
      modifies this
      ensures var arrived := old(buffer) + Arrived(attempts).0;
              match Arrived(attempts).1
              case EndOfFile => status == (if arrived == [] then ConnectionClosed else ProtocolError) && buffer == arrived
              case ReadFailed => status == ConnectionClosed && buffer == arrived
              case _ => status == Take(arrived).0 && buffer == Take(arrived).1
    {
      hide Decode, FrameLength;
      var i := 0;
      assert attempts[0..] == attempts;
      while i < |attempts|
        invariant 0 <= i <= |attempts|
        invariant Arrived(attempts).1 == Arrived(attempts[i..]).1
        invariant buffer + Arrived(attempts[i..]).0 == old(buffer) + Arrived(attempts).0
      {
        assert attempts[i..][1..] == attempts[i + 1..];
        if attempts[i].EndOfFile? {
          return if buffer == [] then ConnectionClosed else ProtocolError;
        }
        if attempts[i].ReadFailed? {
          return ConnectionClosed;
        }
        if attempts[i].WouldBlock? {
          break;
        }
        buffer := buffer + attempts[i].bytes;
        i := i + 1;
      }
      assert buffer + [] == buffer;
      assert buffer == old(buffer) + Arrived(attempts).0;
      var length := FrameLength(buffer);
      if length.None? {
        return Incomplete;
      }
      if length.value == 0 {
        return ProtocolError;
      }
      CompleteDecodes(buffer);
      var frame := Decode(buffer[..length.value]);
      buffer := buffer[length.value..];
      status := if frame.Some? then FrameReady(frame.value) else ProtocolError;
    }
  }

  // ---------------------------------------------------------------------------------------------
  // Independence of chunking
  // ---------------------------------------------------------------------------------------------

  function Wire(frames: seq<Frame>): Bytes {
    if frames == [] then [] else Encode(frames[0]) + Wire(frames[1..])
  }

  predicate Sendable(frames: seq<Frame>) {
    forall i | 0 <= i < |frames| :: |frames[i].payload| <= MAX_PAYLOAD
  }

  /** Repeated try-reads: `arrivals[i]` reaches the buffer before call `i`. The frames returned, in
      order, what stays buffered, and whether any call reported an error. */
  datatype Received = Received(frames: seq<Frame>, left: Bytes, failed: bool)

  function Receive(buffer: Bytes, arrivals: seq<Bytes>): Received
    decreases |arrivals|
  {
    if arrivals == [] then Received([], buffer, false)
    else
      var (status, left) := Take(buffer + arrivals[0]);
      var rest := Receive(left, arrivals[1..]);
      match status
      case FrameReady(f) => Received([f] + rest.frames, rest.left, rest.failed)
      case Incomplete => rest
      case _ => Received(rest.frames, rest.left, true)
  }

  function Joined(parts: seq<Bytes>): Bytes {
    if parts == [] then [] else parts[0] + Joined(parts[1..])
  }

  /** What a buffer holding a piece of the wire yields. */
  lemma TakeFromWire(b: Bytes, later: Bytes, frames: seq<Frame>)
    requires b + later == Wire(frames) && Sendable(frames)
    ensures var r := Take(b);
            || (r == (Incomplete, b) && (frames != [] ==> |b| < |Encode(frames[0])|) && (frames == [] ==> b == []))
            || (frames != [] && r.0 == FrameReady(frames[0]) && r.1 + later == Wire(frames[1..]))
  {
    hide Header, Decode, ReadU32, Encode;
    if frames == [] {
      assert |b| == 0;
    } else {
      var f, rest := frames[0], Wire(frames[1..]);
      var e := Encode(f);
      var whole := b + later;
      assert whole == e + rest;
      FirstFrame(f, rest);
      if |b| >= HEADER {
        SameHeader(b, later);
        if |b| >= |e| {
          assert b[..|e|] == whole[..|e|] == e;
          DecodeEncode(f);
          assert b[|e|..] + later == whole[|e|..] == rest;
        }
      }
    }
  }

  lemma SameHeader(b: Bytes, later: Bytes)
    requires |b| >= HEADER
    ensures (b + later)[..4] == b[..4] && ReadU32(b + later, 8) == ReadU32(b, 8)
  {
    var whole := b + later;
    assert b[8] == whole[8] && b[9] == whole[9] && b[10] == whole[10] && b[11] == whole[11];
  }

  /** What the header of the first frame on a wire says. */
  lemma FirstFrame(f: Frame, rest: Bytes)
    requires |f.payload| <= MAX_PAYLOAD
    ensures var w := Encode(f) + rest;
            |Encode(f)| == HEADER + |f.payload| && |w| >= HEADER && w[..4] == MAGIC && ReadU32(w, 8) == |f.payload|
  {
    hide Header, ReadU32;
    HeaderFields(f.version, f.kind, |f.payload|, f.payload + rest);
    assert Encode(f) + rest == Header(f.version, f.kind, |f.payload|) + (f.payload + rest);
  }

  /** Whatever pieces the wire arrives in: the frames returned are the frames sent, in order and
      without error, and the bytes still buffered followed by those yet to arrive are the wire of the
      frames not returned yet. */
  lemma {:induction false} ChunkingDoesNotMatter(buffer: Bytes, arrivals: seq<Bytes>, later: Bytes, frames: seq<Frame>)
    requires buffer + Joined(arrivals) + later == Wire(frames) && Sendable(frames)
    ensures var r := Receive(buffer, arrivals);
            && |r.frames| <= |frames| && r.frames == frames[..|r.frames|] && !r.failed
            && r.left + later == Wire(frames[|r.frames|..])
    decreases |arrivals|
  {
    hide Take, Encode;
    if arrivals == [] {
      assert frames[0..] == frames;
      assert buffer + [] == buffer;
    } else {
      var b := buffer + arrivals[0];
      var after := Joined(arrivals[1..]) + later;
      assert b + after == buffer + Joined(arrivals) + later;
      TakeFromWire(b, after, frames);
      var (status, left) := Take(b);
      assert left + Joined(arrivals[1..]) + later == left + after;
      if status.FrameReady? {
        ChunkingDoesNotMatter(left, arrivals[1..], later, frames[1..]);
        var r := Receive(left, arrivals[1..]);
        var k := |r.frames|;
        assert [frames[0]] + frames[1..][..k] == frames[..k + 1];
        assert frames[1..][k..] == frames[k + 1..];
      } else {
        ChunkingDoesNotMatter(left, arrivals[1..], later, frames);
      }
    }
  }

  /** Once everything has arrived, as many further calls as there are frames return them all. */
  lemma {:induction false} AllFramesReturned(buffer: Bytes, frames: seq<Frame>, polls: seq<Bytes>)
    requires buffer == Wire(frames) && Sendable(frames) && |polls| >= |frames| && forall i | 0 <= i < |polls| :: polls[i] == []
    ensures Receive(buffer, polls) == Received(frames, [], false)
    decreases |polls|
  {
    hide Take, Encode;
    if polls != [] {
      assert buffer + polls[0] == buffer;
      assert buffer + [] == Wire(frames);
      TakeFromWire(buffer, [], frames);
      if frames != [] {
        assert |buffer| >= |Encode(frames[0])|;
        var left := Take(buffer).1;
        assert left + [] == left;
        AllFramesReturned(left, frames[1..], polls[1..]);
      } else {
        assert Take(buffer).1 + [] == Take(buffer).1;
        AllFramesReturned(Take(buffer).1, frames, polls[1..]);
      }
    }
  }

  /** Any split of the wire into reads, followed by enough polls, returns exactly the frames sent. */
  lemma ExactlyTheFrames(arrivals: seq<Bytes>, polls: seq<Bytes>, frames: seq<Frame>)
    requires Joined(arrivals) == Wire(frames) && Sendable(frames)
    requires |polls| >= |frames| && forall i | 0 <= i < |polls| :: polls[i] == []
    ensures Receive([], arrivals + polls) == Received(frames, [], false)
  {
    hide Receive, Wire, Joined;
    assert [] + Joined(arrivals) + [] == Wire(frames);
    ChunkingDoesNotMatter([], arrivals, [], frames);
    var r := Receive([], arrivals);
    var rest := frames[|r.frames|..];
    assert r.left + [] == r.left;
    AllFramesReturned(r.left, rest, polls);
    ReceiveAppend([], arrivals, polls);
    assert frames[..|r.frames|] + rest == frames;
  }

  lemma {:induction false} ReceiveAppend(buffer: Bytes, a: seq<Bytes>, b: seq<Bytes>)
    ensures var first := Receive(buffer, a);
            var second := Receive(first.left, b);
            Receive(buffer, a + b) == Received(first.frames + second.frames, second.left, first.failed || second.failed)
    decreases |a|
  {
    hide Take;
    if a == [] {
      assert a + b == b;
    } else {
      assert (a + b)[1..] == a[1..] + b;
      ReceiveAppend(Take(buffer + a[0]).1, a[1..], b);
    }
  }
}
