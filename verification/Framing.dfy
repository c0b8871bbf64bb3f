/**
 Length-prefixed frames over a byte stream: the gateway's recvFrame and sendFrame,
 and the Python client's reading loop.  Shifts and masks of a uint32_t are written
 as division and remainder.
 */
module Framing {
  import opened Common

  type byte = x: int | 0 <= x < 256
  type Bytes = seq<byte>

  const MAX_PAYLOAD := 65536

  // ---- The stream ----

  /** How one call of recv or send turns out.  Once the script of a socket is used
      up, every call moves as much as it was asked to. */
  datatype Event = Moved(atMost: nat) | Interrupted | Failed

  datatype Got = Data(bytes: Bytes) | Eof | Eintr | Error

  function Min(a: nat, b: nat): nat {
    if a < b then a else b
  }

  /** One end of a connection: what the peer sends until it closes, what was sent,
      and how the calls to come turn out. */
  class Socket {
    var incoming: Bytes
    var outgoing: Bytes
    var script: seq<Event>

    constructor (incoming: Bytes, script: seq<Event>)
      ensures this.incoming == incoming && this.outgoing == [] && this.script == script
    {
      this.incoming, this.outgoing, this.script := incoming, [], script;
    }

    /** A recv never returns more than asked for, and nothing only at the end. */
    method Recv(want: nat) returns (r: Got)
      requires want > 0
      modifies this`incoming, this`script
      ensures |script| <= |old(script)| && (forall e :: e in script ==> e in old(script))
      ensures r.Data? ==> 0 < |r.bytes| <= want && old(incoming) == r.bytes + incoming
      ensures !r.Data? ==> incoming == old(incoming)
      ensures r.Eof? ==> incoming == []
      ensures r.Eintr? ==> |script| < |old(script)|
      ensures old(script) == [] && old(incoming) != [] ==> r.Data? && |r.bytes| == Min(want, |old(incoming)|)
      ensures r.Error? ==> Failed in old(script)
    {
      var k := Min(want, |incoming|);
      if script != [] {
        var e := script[0];
        script := script[1..];
        if e.Failed? {
          return Error;
        }
        if e.Interrupted? {
          return Eintr;
        }
        k := Min(k, if e.atMost == 0 then 1 else e.atMost);
      }
      if incoming == [] {
        return Eof;
      }
      r := Data(incoming[..k]);
      incoming := incoming[k..];
    }

    /** A send takes some prefix of what it is given. */
    method Send(bytes: Bytes) returns (r: Got, n: nat)
      requires bytes != []
      modifies this`outgoing, this`script
      ensures |script| <= |old(script)| && (forall e :: e in script ==> e in old(script))
      ensures r.Data? || r.Eintr? || r.Error?
      ensures n <= |bytes| && outgoing == old(outgoing) + bytes[..n]
      ensures !r.Data? ==> n == 0
      ensures n == 0 && !r.Error? ==> |script| < |old(script)|
      ensures old(script) == [] ==> r.Data? && n == |bytes|
      ensures r.Error? ==> Failed in old(script)
    {
      n := |bytes|;
      r := Data([]);
      if script != [] {
        var e := script[0];
        script := script[1..];
        if e.Moved? {
          n := Min(n, e.atMost);
        } else {
          n := 0;
          r := if e.Failed? then Error else Eintr;
        }
      }
      outgoing := outgoing + bytes[..n];
    }
  }

  // ---- Frames ----

  function LE32(n: nat): (r: Bytes)
    requires n < UINT32_RANGE
    ensures |r| == 4
  {
    [n % 256, n / 256 % 256, n / 65536 % 256, n / 16777216 % 256]
  }

  function FromLE32(b: Bytes): (n: nat)
    requires |b| == 4
    ensures n < UINT32_RANGE
  {
    var b0: int, b1: int, b2: int, b3: int := b[0], b[1], b[2], b[3];
    b0 + b1 * 256 + b2 * 65536 + b3 * 16777216
  }

  /** Encoding and decoding the length are inverse on all 32-bit values, both ways. */
  lemma LengthRoundTrip(n: nat, b: Bytes)
    requires n < UINT32_RANGE && |b| == 4
    ensures FromLE32(LE32(n)) == n
    ensures LE32(FromLE32(b)) == b
  {
    hide LE32, FromLE32;
    DecodeEncoded(n);
    EncodeDecoded(b);
  }

  lemma DecodeEncoded(n: nat)
    requires n < UINT32_RANGE
    ensures FromLE32(LE32(n)) == n
  {
    var q1 := n / 256;
    assert n / 65536 == q1 / 256 && n / 16777216 == q1 / 256 / 256;
  }

  lemma EncodeDecoded(b: Bytes)
    requires |b| == 4
    ensures LE32(FromLE32(b)) == b
  {
    var b0: int, b1: int, b2: int, b3: int := b[0], b[1], b[2], b[3];
    var r2 := b2 + 256 * b3;
    var r1 := b1 + 256 * r2;
    var m := FromLE32(b);
    assert m == b0 + 256 * r1;
    assert m / 256 == r1 && r1 / 256 == r2 && m / 65536 == r2 && m / 16777216 == b3;
  }

  /** What sendFrame puts on the wire: the size is truncated to 32 bits, and so is
      the body. */
  function FrameBytes(payload: Bytes): Bytes {
    var len := |payload| % UINT32_RANGE;
    LE32(len) + payload[..len]
  }

  datatype Received = Frame(payload: Bytes) | Closed | BadLength | IoError

  /** What recvFrame returns and leaves unread, when no call fails. */
  function NextFrame(bytes: Bytes): (Received, Bytes) {
    if |bytes| < 4 then (Closed, [])
    else
      var len := FromLE32(bytes[..4]);
      var rest := bytes[4..];
      if len == 0 || len > MAX_PAYLOAD then (BadLength, rest)
      else if |rest| < len then (Closed, [])
      else (Frame(rest[..len]), rest[len..])
  }

  /** The inner loop of recvFrame: fill a buffer from the socket. */
  method Fill(sock: Socket, buffer: array<byte>) returns (end: Received)
    modifies sock`incoming, sock`script, buffer
    ensures end.Frame? || end.Closed? || end.IoError?
    ensures forall e :: e in sock.script ==> e in old(sock.script)
    ensures end.Frame? ==>
              |old(sock.incoming)| >= buffer.Length
              && buffer[..] == old(sock.incoming)[..buffer.Length]
              && sock.incoming == old(sock.incoming)[buffer.Length..]
    ensures end.Closed? ==> |old(sock.incoming)| < buffer.Length && sock.incoming == []
    ensures end.IoError? ==> Failed in old(sock.script)
  {
    var got: nat := 0;
    while got < buffer.Length
      invariant got <= buffer.Length && got <= |old(sock.incoming)|
      invariant forall e :: e in sock.script ==> e in old(sock.script)
      invariant buffer[..got] == old(sock.incoming)[..got]
      invariant sock.incoming == old(sock.incoming)[got..]
      decreases |sock.script| + (buffer.Length - got)
    {
      var r := sock.Recv(buffer.Length - got);
      match r {
        case Eof => return Closed;
        case Error => return IoError;
        case Eintr =>
        case Data(bytes) =>
          forall i | 0 <= i < |bytes| {
            buffer[got + i] := bytes[i];
          }
          assert buffer[..got + |bytes|] == old(sock.incoming)[..got] + bytes;
          assert old(sock.incoming) == old(sock.incoming)[..got] + (bytes + sock.incoming);
          got := got + |bytes|;
      }
    }
    return Frame([]);
  }

  method RecvFrame(sock: Socket) returns (r: Received)
    modifies sock`incoming, sock`script
    ensures forall e :: e in sock.script ==> e in old(sock.script)
    ensures r.IoError? ==> Failed in old(sock.script)
    ensures !r.IoError? ==> (r, sock.incoming) == NextFrame(old(sock.incoming))
  {
    var lenBuf := new byte[4];
    r := Fill(sock, lenBuf);
    if !r.Frame? {
      return;
    }
    assert lenBuf[..] == old(sock.incoming)[..4];
    var payloadLen := FromLE32(lenBuf[..]);
    if payloadLen == 0 || payloadLen > MAX_PAYLOAD {
      return BadLength;
    }
    var out := new byte[payloadLen];
    r := Fill(sock, out);
    if r.Frame? {
      r := Frame(out[..]);
    }
  }

  /** The inner loop of sendFrame: push a whole buffer out. */
  method Push(sock: Socket, bytes: Bytes) returns (ok: bool, sent: nat)
    modifies sock`outgoing, sock`script
    ensures forall e :: e in sock.script ==> e in old(sock.script)
    ensures sent <= |bytes| && sock.outgoing == old(sock.outgoing) + bytes[..sent]
    ensures ok ==> sent == |bytes|
    ensures !ok ==> Failed in old(sock.script)
  {
    sent := 0;
    while sent < |bytes|
      invariant sent <= |bytes|
      invariant forall e :: e in sock.script ==> e in old(sock.script)
      invariant sock.outgoing == old(sock.outgoing) + bytes[..sent]
      decreases |sock.script| + (|bytes| - sent)
    {
      var r, n := sock.Send(bytes[sent..]);
      if r.Error? {
        return false, sent;
      }
      assert bytes[..sent] + bytes[sent..][..n] == bytes[..sent + n];
      sent := sent + n;
    }
    return true, sent;
  }

  /** All of the frame goes out, or the error is reported and a prefix did. */
  method SendFrame(sock: Socket, payload: Bytes) returns (ok: bool)
    modifies sock`outgoing, sock`script
    ensures forall e :: e in sock.script ==> e in old(sock.script)
    ensures ok ==> sock.outgoing == old(sock.outgoing) + FrameBytes(payload)
    ensures !ok ==> Failed in old(sock.script)
    ensures !ok ==> exists k :: 0 <= k <= |FrameBytes(payload)| && sock.outgoing == old(sock.outgoing) + FrameBytes(payload)[..k]
  {
    var len := |payload| % UINT32_RANGE;
    var prefix, body := LE32(len), payload[..len];
    var sent;
    ok, sent := Push(sock, prefix);
    if !ok {
      assert FrameBytes(payload)[..sent] == prefix[..sent];
      return;
    }
    assert prefix[..4] == prefix;
    ok, sent := Push(sock, body);
    assert FrameBytes(payload)[..4 + sent] == prefix + body[..sent];
    assert old(sock.outgoing) + prefix + body[..sent] == old(sock.outgoing) + (prefix + body[..sent]);
    if ok {
      assert body[..sent] == body;
    }
  }

  // ---- A whole connection ----

  /** The frames recvFrame delivers one after the other, and how it ends. */
  function AllFrames(bytes: Bytes): (seq<Bytes>, Received)
    decreases |bytes|
  {
    var next := NextFrame(bytes);
    if next.0.Frame? then
      var later := AllFrames(next.1);
      ([next.0.payload] + later.0, later.1)
    else ([], next.0)
  }

  /** The receiving half of the client handler: frames until one is not OK. */
  method ReceiveAll(sock: Socket) returns (frames: seq<Bytes>, end: Received)
    modifies sock`incoming, sock`script
    ensures end.IoError? ==> Failed in old(sock.script)
    ensures !end.IoError? ==> (frames, end) == AllFrames(old(sock.incoming))
  {
    frames := [];
    while true
      invariant forall e :: e in sock.script ==> e in old(sock.script)
      invariant AllFrames(old(sock.incoming)).0 == frames + AllFrames(sock.incoming).0
      invariant AllFrames(old(sock.incoming)).1 == AllFrames(sock.incoming).1
      decreases |sock.incoming|
    {
      ghost var before := sock.incoming;
      end := RecvFrame(sock);
      if !end.Frame? {
        if !end.IoError? {
          assert AllFrames(before) == ([], end);
          assert frames + [] == frames;
        }
        return;
      }
      assert frames + AllFrames(before).0 == frames + [end.payload] + AllFrames(sock.incoming).0;
      frames := frames + [end.payload];
    }
  }

  function Wire(payloads: seq<Bytes>): Bytes {
    if payloads == [] then [] else FrameBytes(payloads[0]) + Wire(payloads[1..])
  }

  predicate Deliverable(p: Bytes) {
    0 < |p| <= MAX_PAYLOAD
  }

  lemma NextOfFrame(p: Bytes, rest: Bytes)
    requires |p| < UINT32_RANGE
    ensures NextFrame(FrameBytes(p) + rest) == if Deliverable(p) then (Frame(p), rest) else (BadLength, p + rest)
  {
    hide FrameBytes;
    FrameSplit(p, rest);
    assert (p + rest)[..|p|] == p && (p + rest)[|p|..] == rest;
  }

  lemma FrameSplit(p: Bytes, rest: Bytes)
    requires |p| < UINT32_RANGE
    ensures var bytes := FrameBytes(p) + rest;
            && |bytes| == 4 + |p| + |rest|
            && FromLE32(bytes[..4]) == |p| && bytes[4..] == p + rest
  {
    hide LE32, FromLE32;
    LengthRoundTrip(|p|, LE32(0));
    assert p[..|p|] == p;
    assert (FrameBytes(p) + rest)[..4] == LE32(|p|);
  }

  lemma FirstDelivered(p: Bytes, rest: Bytes)
    requires Deliverable(p)
    ensures AllFrames(FrameBytes(p) + rest) == ([p] + AllFrames(rest).0, AllFrames(rest).1)
  {
    hide NextFrame, FrameBytes;
    NextOfFrame(p, rest);
  }

  /** Frames of 1 to 65536 bytes arrive as they were sent, whatever follows them. */
  lemma {:induction false} FramesDelivered(payloads: seq<Bytes>, rest: Bytes)
    requires forall p :: p in payloads ==> 1 <= |p| <= 65536
    ensures AllFrames(Wire(payloads) + rest).0 == payloads + AllFrames(rest).0
    ensures AllFrames(Wire(payloads) + rest).1 == AllFrames(rest).1
  {
    hide AllFrames, FrameBytes;
    if payloads == [] {
      assert Wire(payloads) + rest == rest;
      assert payloads + AllFrames(rest).0 == AllFrames(rest).0;
    } else {
      var p, later := payloads[0], Wire(payloads[1..]) + rest;
      assert Wire(payloads) + rest == FrameBytes(p) + later;
      FirstDelivered(p, later);
      FramesDelivered(payloads[1..], rest);
      assert payloads + AllFrames(rest).0 == [p] + (payloads[1..] + AllFrames(rest).0);
    }
  }

  /** The whole stream: the payloads, up to the first whose size is out of range. */
  lemma StreamReceived(payloads: seq<Bytes>, bad: Bytes, rest: Bytes)
    requires forall p :: p in payloads ==> Deliverable(p)
    ensures AllFrames(Wire(payloads)) == (payloads, Closed)
    ensures (bad == [] || |bad| > 65536) && |bad| < UINT32_RANGE ==>
              AllFrames(Wire(payloads) + (FrameBytes(bad) + rest)) == (payloads, BadLength)
  {
    FramesDelivered(payloads, []);
    assert Wire(payloads) + [] == Wire(payloads) && payloads + [] == payloads;
    assert AllFrames([]) == ([], Closed);
    if !Deliverable(bad) && |bad| < UINT32_RANGE {
      FramesDelivered(payloads, FrameBytes(bad) + rest);
      NextOfFrame(bad, rest);
    }
  }

  /** A connection that breaks in the middle of a frame looks like one that was closed
      between frames: exactly the complete frames before the break are delivered. */
  lemma BrokenStream(payloads: seq<Bytes>, last: Bytes, k: nat)
    requires (forall p :: p in payloads ==> Deliverable(p)) && Deliverable(last) && k < |FrameBytes(last)|
    ensures AllFrames(Wire(payloads) + FrameBytes(last)[..k]) == (payloads, Closed)
  {
    hide FrameBytes, NextFrame, Wire;
    var cut := FrameBytes(last)[..k];
    FramesDelivered(payloads, cut);
    NextOfCut(last, k);
    assert payloads + [] == payloads;
  }

  lemma NextOfCut(p: Bytes, k: nat)
    requires Deliverable(p) && k < |FrameBytes(p)|
    ensures NextFrame(FrameBytes(p)[..k]) == (Closed, [])
  {
    if k >= 4 {
      LengthRoundTrip(|p|, LE32(0));
      assert FrameBytes(p)[..k][..4] == LE32(|p|);
    }
  }

  // ---- The Python client's reply loop ----

  datatype Reply = Body(bytes: Bytes) | ShortLength | ShortBody | SocketError

  function ClientReads(bytes: Bytes): Reply {
    if |bytes| < 4 then ShortLength
    else
      var len := FromLE32(bytes[..4]);
      if |bytes| < 4 + len then ShortBody else Body(bytes[4..4 + len])
  }

  /** recv until a buffer holds `want` bytes; None at the end of the stream.  The
      runtime repeats interrupted calls itself. */
  method Accumulate(sock: Socket, want: nat) returns (end: Received, buf: Bytes)
    modifies sock`incoming, sock`script
    ensures end.Frame? || end.Closed? || end.IoError?
    ensures forall e :: e in sock.script ==> e in old(sock.script)
    ensures end.Frame? ==> |buf| == want && old(sock.incoming) == buf + sock.incoming
    ensures end.Closed? ==> |old(sock.incoming)| < want
    ensures end.IoError? ==> Failed in old(sock.script)
  {
    buf := [];
    while |buf| < want
      invariant |buf| <= want && old(sock.incoming) == buf + sock.incoming
      invariant forall e :: e in sock.script ==> e in old(sock.script)
      decreases |sock.script| + (want - |buf|)
    {
      var part := sock.Recv(want - |buf|);
      match part {
        case Eof => return Closed, buf;
        case Error => return IoError, buf;
        case Eintr =>
        case Data(bytes) => buf := buf + bytes;
      }
    }
    return Frame([]), buf;
  }

  method ReceiveReply(sock: Socket) returns (r: Reply)
    modifies sock`incoming, sock`script
    ensures r.SocketError? ==> Failed in old(sock.script)
    ensures !r.SocketError? ==> r == ClientReads(old(sock.incoming))
  {
    var end, lenBuf := Accumulate(sock, 4);
    if !end.Frame? {
      return if end.Closed? then ShortLength else SocketError;
    }
    assert old(sock.incoming)[..4] == lenBuf && old(sock.incoming)[4..] == sock.incoming;
    var respLen := FromLE32(lenBuf);
    var body;
    end, body := Accumulate(sock, respLen);
    if !end.Frame? {
      return if end.Closed? then ShortBody else SocketError;
    }
    assert old(sock.incoming)[4..4 + respLen] == body;
    return Body(body);
  }

  /** Of a reply that was cut it gets nothing, and can tell where it was cut. */
  lemma CutReply(payload: Bytes, k: nat)
    requires |payload| < UINT32_RANGE && k < |FrameBytes(payload)|
    ensures ClientReads(FrameBytes(payload)[..k]) == if k < 4 then ShortLength else ShortBody
  {
    hide LE32, FromLE32;
    if k >= 4 {
      LengthRoundTrip(|payload|, LE32(0));
      assert payload[..|payload|] == payload;
      assert FrameBytes(payload)[..k][..4] == LE32(|payload|);
    }
  }

  /** The client gets every reply the gateway sends, of any 32-bit size. */
  lemma ReplyReceived(payload: Bytes, rest: Bytes)
    requires |payload| < UINT32_RANGE
    ensures ClientReads(FrameBytes(payload) + rest) == Body(payload)
  {
    hide FrameBytes;
    FrameSplit(payload, rest);
    var bytes := FrameBytes(payload) + rest;
    assert bytes[4..4 + |payload|] == bytes[4..][..|payload|];
  }
}
