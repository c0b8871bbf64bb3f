/**
 Frames of the officer protocol: length, type, payload.  Unlike the gateway, a frame is
 read with one call for the header and one for the payload, and a short read is an
 error.
 */
module OfficerFrames {
  import opened Common
  import opened Framing

  const FRAME_HEADER_SIZE := 8
  const MAX_FRAME_SIZE := 65536

  datatype Message = Message(msgType: nat, payload: Bytes)

  datatype ReadResult = Unreadable | Next(message: Message, rest: Bytes)

  function HeaderBytes(m: Message): (r: Bytes)
    requires m.msgType < UINT32_RANGE
    ensures |r| == 8
  {
    LE32(|m.payload| % UINT32_RANGE) + LE32(m.msgType)
  }

  function MessageBytes(m: Message): Bytes
    requires m.msgType < UINT32_RANGE
  {
    HeaderBytes(m) + m.payload
  }

  /** What readFrame makes of the bytes that are there when no read is short. */
  function NextMessage(bytes: Bytes): ReadResult {
    if |bytes| < FRAME_HEADER_SIZE then Unreadable
    else
      var len, msgType := FromLE32(bytes[..4]), FromLE32(bytes[4..8]);
      if len > MAX_FRAME_SIZE - FRAME_HEADER_SIZE || |bytes| < 8 + len then Unreadable
      else Next(Message(msgType, bytes[8..8 + len]), bytes[8 + len..])
  }

  /** Whatever is read is what the stream says; without short reads nothing is lost. */
  method ReadFrame(sock: Socket) returns (ok: bool, m: Message)
    modifies sock`incoming, sock`script
    ensures ok ==> NextMessage(old(sock.incoming)) == Next(m, sock.incoming)
    ensures old(sock.script) == [] ==> (ok <==> NextMessage(old(sock.incoming)).Next?)
  {
    hide FromLE32;
    m := Message(0, []);
    ghost var all := sock.incoming;
    var header := sock.Recv(FRAME_HEADER_SIZE);
    if !header.Data? || |header.bytes| != FRAME_HEADER_SIZE {
      return false, m;
    }
    assert all == header.bytes + sock.incoming;
    var len, msgType := FromLE32(header.bytes[..4]), FromLE32(header.bytes[4..8]);
    assert all[..4] == header.bytes[..4] && all[4..8] == header.bytes[4..8] && all[8..] == sock.incoming;
    if len > MAX_FRAME_SIZE - FRAME_HEADER_SIZE {
      return false, m;
    }
    if len > 0 {
      var body := sock.Recv(len);
      if !body.Data? || |body.bytes| != len {
        return false, m;
      }
      assert all == header.bytes + body.bytes + sock.incoming;
      return true, Message(msgType, body.bytes);
    }
    return true, Message(msgType, []);
  }

  /** A message is sent whole or the call fails. */
  method SendFrame(sock: Socket, m: Message) returns (ok: bool)
    requires m.msgType < UINT32_RANGE
    modifies sock`outgoing, sock`script
    ensures ok ==> sock.outgoing == old(sock.outgoing) + MessageBytes(m)
    ensures old(sock.script) == [] ==> ok
  {
    hide LE32;
    var header := HeaderBytes(m);
    var r, n := sock.Send(header);
    if !r.Data? || n != FRAME_HEADER_SIZE {
      return false;
    }
    if m.payload != [] {
      r, n := sock.Send(m.payload);
      if !r.Data? || n != |m.payload| {
        return false;
      }
    }
    return true;
  }

  lemma MessageRefused(m: Message, rest: Bytes)
    requires m.msgType < UINT32_RANGE && MAX_FRAME_SIZE - FRAME_HEADER_SIZE < |m.payload| < UINT32_RANGE
    ensures NextMessage(MessageBytes(m) + rest) == Unreadable
  {
    hide LE32, FromLE32;
    var b, n := MessageBytes(m) + rest, |m.payload|;
    LengthRoundTrip(n, LE32(0));
    assert b[..4] == LE32(n);
  }

  lemma MessageBack(m: Message, rest: Bytes)
    requires m.msgType < UINT32_RANGE && |m.payload| <= MAX_FRAME_SIZE - FRAME_HEADER_SIZE
    ensures NextMessage(MessageBytes(m) + rest) == Next(m, rest)
  {
    hide LE32, FromLE32;
    var b, n := MessageBytes(m) + rest, |m.payload|;
    LengthRoundTrip(n, LE32(0));
    LengthRoundTrip(m.msgType, LE32(0));
    assert b[..4] == LE32(n) && b[4..8] == LE32(m.msgType);
    assert b[8..8 + n] == m.payload && b[8 + n..] == rest;
  }
}
