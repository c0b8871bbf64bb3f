/**
 The gateway's request loop: frames in, one response frame out for each, until the
 stream ends or an exception leaves a handler.
 */
module Gateway {
  import opened Codes
  import opened Common
  import Decimal
  import F = Framing
  import G = JsonGrammar
  import opened Handlers
  import opened JsonReader
  import opened JsonWriter
  import opened RequestRoundTrip
  import opened SocketRequest
  import RowsJson

  /** The characters of a std::string are its bytes. */
  function TextOf(b: F.Bytes): (s: string)
    ensures |s| == |b| && forall i :: 0 <= i < |s| ==> s[i] == b[i] as char
  {
    seq(|b|, i requires 0 <= i < |b| => b[i] as char)
  }

  function BytesOf(s: string): (b: F.Bytes)
    ensures |b| == |s| && forall i :: 0 <= i < |s| ==> b[i] == s[i] as int % 256
  {
    seq(|s|, i requires 0 <= i < |s| => s[i] as int % 256)
  }

  predicate OneByteEach(s: string) {
    forall i :: 0 <= i < |s| ==> s[i] as int < 256
  }

  lemma TextBytes(s: string)
    requires OneByteEach(s)
    ensures TextOf(BytesOf(s)) == s
  {
  }

  /** What the handlers find may be another world at every frame. */
  function Respond(frame: F.Bytes, w: World): Outcome {
    var parsed := FromJson(TextOf(frame), FRESH);
    if parsed.0 != OK then Returned(ErrorResponse(parsed.1.requestId, INVALID_INPUT, "Malformed JSON request"))
    else Handle(parsed.1, w)
  }

  /** A well-formed request whose handler throws; nothing catches it, and the process ends. */
  predicate Fatal(frame: F.Bytes) {
    var parsed := FromJson(TextOf(frame), FRESH);
    parsed.0 == OK && Overflows(parsed.1)
  }

  lemma FatalExact(frame: F.Bytes, w: World)
    ensures Respond(frame, w).Threw? <==> Fatal(frame)
  {
    hide FromJson, Handle, Overflows;
    ThrowsExact(FromJson(TextOf(frame), FRESH).1, w);
  }

  function Reply(frame: F.Bytes, w: World): F.Bytes
    requires !Fatal(frame)
  {
    FatalExact(frame, w);
    BytesOf(ToJson(Respond(frame, w).response))
  }

  /** How many frames are served: those before the first fatal one. */
  function Served(frames: seq<F.Bytes>): nat {
    if frames == [] || Fatal(frames[0]) then 0 else 1 + Served(frames[1..])
  }

  lemma {:induction false} ServedExact(frames: seq<F.Bytes>)
    ensures var n := Served(frames);
            n <= |frames| && Harmless(frames[..n]) && (n < |frames| ==> Fatal(frames[n]))
  {
    hide Fatal;
    if frames != [] && !Fatal(frames[0]) {
      ServedExact(frames[1..]);
      var n := Served(frames);
      assert forall i :: 0 < i < n ==> frames[i] == frames[1..][..n - 1][i - 1];
    }
  }

  predicate Harmless(frames: seq<F.Bytes>) {
    forall i :: 0 <= i < |frames| ==> !Fatal(frames[i])
  }

  /** The replies to frames 0, 1, ..., each in its own world. */
  function Replies(frames: seq<F.Bytes>, world: nat -> World): (r: seq<F.Bytes>)
    requires Harmless(frames)
    ensures |r| == |frames| && forall i :: 0 <= i < |r| ==> r[i] == Reply(frames[i], world(i))
  {
    seq(|frames|, i requires 0 <= i < |frames| => Reply(frames[i], world(i)))
  }

  /** All a connection ever sends back. */
  function AllReplies(bytes: F.Bytes, world: nat -> World): seq<F.Bytes> {
    var frames := F.AllFrames(bytes).0;
    ServedExact(frames);
    Replies(frames[..Served(frames)], world)
  }

  method HandleOne(frame: F.Bytes, w: World) returns (threw: bool, reply: F.Bytes)
    ensures threw <==> Fatal(frame)
    ensures !threw ==> reply == Reply(frame, w)
  {
    hide FromJson, ToJson, Handle, Overflows;
    FatalExact(frame, w);
    threw, reply := false, [];
    var rc, req := RunFromJson(TextOf(frame), FRESH);
    var resp;
    if rc != OK {
      resp := ErrorResponse(req.requestId, INVALID_INPUT, "Malformed JSON request");
    } else {
      var outcome := Dispatch(req, w);
      if outcome.Threw? {
        return true, [];
      }
      resp := outcome.response;
    }
    var text := RunToJson(resp);
    reply := BytesOf(text);
  }

  /** How a connection may have ended: `out` went out, and `failed` says whether a call on
      the socket may have failed. */
  predicate Ended(bytes: F.Bytes, world: nat -> World, out0: F.Bytes, out: F.Bytes, end: F.Received, threw: bool,
                  failed: bool)
  {
    var frames := F.AllFrames(bytes).0;
    var all := out0 + F.Wire(AllReplies(bytes, world));
    && out0 <= out <= all
    && (threw ==> Served(frames) < |frames| && out == all)
    && (!failed ==> out == all && (threw <==> Served(frames) < |frames|) && (!threw ==> end == F.AllFrames(bytes).1))
  }

  /** clientHandler: every complete frame gets exactly one response, in order, malformed
      requests included, up to the first fatal request; then the exception ends the process
      and nothing more goes out.  When a call on the socket fails, what went out is a prefix
      of that. */
  method ClientHandler(sock: F.Socket, world: nat -> World) returns (ghost end: F.Received, threw: bool)
    modifies sock
    ensures Ended(old(sock.incoming), world, old(sock.outgoing), sock.outgoing, end, threw, F.Failed in old(sock.script))
  {
    hide Reply, Fatal, Ended, Progress, F.NextFrame, F.FrameBytes, F.LE32;
    ghost var bytes, out0, failed := sock.incoming, sock.outgoing, F.Failed in sock.script;
    ghost var done: seq<F.Bytes> := [];
    end, threw := F.Closed, false;
    var k: nat := 0;
    ProgressStart(bytes, world, out0);
    while true
      invariant forall e :: e in sock.script ==> e in old(sock.script)
      invariant k == |done| && Progress(bytes, world, out0, sock.outgoing, done, sock.incoming)
      decreases |sock.incoming|
    {
      ghost var left, out := sock.incoming, sock.outgoing;
      var r := F.RecvFrame(sock);
      end := r;
      if !r.Frame? {
        ProgressEnd(bytes, world, out0, out, done, left, r, sock.incoming, failed);
        return end, false;
      }
      var reply;
      threw, reply := HandleOne(r.payload, world(k));
      if threw {
        ProgressThrow(bytes, world, out0, out, done, left, r.payload, sock.incoming, failed);
        return;
      }
      ProgressNext(bytes, world, out0, out, done, left, r.payload, sock.incoming);
      var ok := F.SendFrame(sock, reply);
      if !ok {
        ghost var n :| 0 <= n <= |F.FrameBytes(reply)| && sock.outgoing == out + F.FrameBytes(reply)[..n];
        ProgressCut(bytes, world, out0, out, done, left, r.payload, sock.incoming, n, end);
        return;
      }
      done, k := done + [r.payload], k + 1;
    }
  }

  /** In the loop: the frames done are answered, the others are in what is unread. */
  predicate Progress(bytes: F.Bytes, world: nat -> World, out0: F.Bytes, out: F.Bytes, done: seq<F.Bytes>,
                     left: F.Bytes)
  {
    && Harmless(done)
    && out == out0 + F.Wire(Replies(done, world))
    && F.AllFrames(bytes).0 == done + F.AllFrames(left).0
    && F.AllFrames(bytes).1 == F.AllFrames(left).1
  }

  lemma ProgressStart(bytes: F.Bytes, world: nat -> World, out0: F.Bytes)
    ensures Progress(bytes, world, out0, out0, [], bytes)
  {
    hide Fatal, Reply, F.AllFrames;
  }

  lemma ProgressEnd(bytes: F.Bytes, world: nat -> World, out0: F.Bytes, out: F.Bytes, done: seq<F.Bytes>, left: F.Bytes,
                    r: F.Received, rest: F.Bytes, failed: bool)
    requires Progress(bytes, world, out0, out, done, left) && !r.Frame?
    requires if r.IoError? then failed else (r, rest) == F.NextFrame(left)
    ensures Ended(bytes, world, out0, out, r, false, failed)
  {
    hide Fatal, Reply, Served, F.AllFrames, F.NextFrame, F.Wire;
    var frames := F.AllFrames(bytes).0;
    NoMoreFrames(left, done, r, rest);
    ServedAtLeast(frames, done);
    SentIsPrefix(world, out0, done, frames[..Served(frames)]);
    AllServed(frames, done);
  }

  lemma ProgressThrow(bytes: F.Bytes, world: nat -> World, out0: F.Bytes, out: F.Bytes, done: seq<F.Bytes>, left: F.Bytes,
                      frame: F.Bytes, rest: F.Bytes, failed: bool)
    requires Progress(bytes, world, out0, out, done, left) && (F.Frame(frame), rest) == F.NextFrame(left) && Fatal(frame)
    ensures Ended(bytes, world, out0, out, F.Frame(frame), true, failed)
  {
    hide Fatal, Reply, Served, F.AllFrames, F.NextFrame, F.Wire;
    OneMoreFrame(left, done, frame, rest);
    StoppedAt(F.AllFrames(bytes).0, done, frame, F.AllFrames(rest).0);
  }

  lemma ProgressNext(bytes: F.Bytes, world: nat -> World, out0: F.Bytes, out: F.Bytes, done: seq<F.Bytes>, left: F.Bytes,
                     frame: F.Bytes, rest: F.Bytes)
    requires Progress(bytes, world, out0, out, done, left) && (F.Frame(frame), rest) == F.NextFrame(left) && !Fatal(frame)
    ensures |rest| < |left|
    ensures Progress(bytes, world, out0, out + F.FrameBytes(Reply(frame, world(|done|))), done + [frame], rest)
  {
    hide Fatal, Reply, F.AllFrames, F.NextFrame, F.Wire, F.FrameBytes;
    OneMoreFrame(left, done, frame, rest);
    RepliesAppend(world, out0, done, frame);
  }

  /** While a reply goes out. */
  lemma ProgressCut(bytes: F.Bytes, world: nat -> World, out0: F.Bytes, out: F.Bytes, done: seq<F.Bytes>, left: F.Bytes,
                    frame: F.Bytes, rest: F.Bytes, n: nat, end: F.Received)
    requires Progress(bytes, world, out0, out, done, left) && (F.Frame(frame), rest) == F.NextFrame(left) && !Fatal(frame)
    requires n <= |F.FrameBytes(Reply(frame, world(|done|)))|
    ensures Ended(bytes, world, out0, out + F.FrameBytes(Reply(frame, world(|done|)))[..n], end, false, true)
  {
    hide Fatal, Reply, Served, F.AllFrames, F.NextFrame, F.Wire, F.FrameBytes;
    var frames, next := F.AllFrames(bytes).0, done + [frame];
    OneMoreFrame(left, done, frame, rest);
    RepliesAppend(world, out0, done, frame);
    ServedAtLeast(frames, next);
    SentIsPrefix(world, out0, next, frames[..Served(frames)]);
  }

  lemma ServedAtLeast(frames: seq<F.Bytes>, done: seq<F.Bytes>)
    requires done <= frames && Harmless(done)
    ensures |done| <= Served(frames) <= |frames| && Harmless(frames[..Served(frames)])
  {
    hide Fatal, Served;
    ServedExact(frames);
    assert forall i :: 0 <= i < |done| ==> done[i] == frames[i];
  }

  lemma AllServed(frames: seq<F.Bytes>, done: seq<F.Bytes>)
    requires Harmless(done)
    ensures Served(frames) <= |frames|
    ensures frames == done ==> Served(frames) == |frames| && frames[..Served(frames)] == done
  {
    hide Fatal, Served;
    ServedExact(frames);
    if frames == done {
      ServedAtLeast(frames, done);
    }
  }

  lemma StoppedAt(frames: seq<F.Bytes>, done: seq<F.Bytes>, bad: F.Bytes, left: seq<F.Bytes>)
    requires Harmless(done) && Fatal(bad) && frames == (done + [bad]) + left
    ensures Served(frames) == |done| < |frames| && frames[..Served(frames)] == done
  {
    hide Fatal, Served;
    assert frames[|done|] == bad && frames[..|done|] == done;
    ServedAtLeast(frames, done);
    ServedExact(frames);
    var n := Served(frames);
    assert forall i :: 0 <= i < n ==> frames[..n][i] == frames[i];
  }

  lemma NoMoreFrames(bytes: F.Bytes, done: seq<F.Bytes>, end: F.Received, rest: F.Bytes)
    ensures !end.IoError? && !end.Frame? && (end, rest) == F.NextFrame(bytes) ==>
              F.AllFrames(bytes) == ([], end) && done + F.AllFrames(bytes).0 == done
  {
    hide F.NextFrame;
  }

  lemma {:induction false} OneMoreFrame(bytes: F.Bytes, done: seq<F.Bytes>, payload: F.Bytes, rest: F.Bytes)
    requires (F.Frame(payload), rest) == F.NextFrame(bytes)
    ensures |rest| < |bytes|
    ensures done + F.AllFrames(bytes).0 == (done + [payload]) + F.AllFrames(rest).0
    ensures F.AllFrames(bytes).1 == F.AllFrames(rest).1
  {
    ShorterRest(bytes);
    hide F.NextFrame;
    assert F.AllFrames(bytes).0 == [payload] + F.AllFrames(rest).0;
  }

  lemma ShorterRest(bytes: F.Bytes)
    requires F.NextFrame(bytes).0.Frame?
    ensures |F.NextFrame(bytes).1| < |bytes|
  {
    hide F.FromLE32;
  }

  /** Once one more reply is out, and while it goes out. */
  lemma RepliesAppend(world: nat -> World, out: F.Bytes, done: seq<F.Bytes>, frame: F.Bytes)
    requires Harmless(done) && !Fatal(frame)
    ensures Harmless(done + [frame])
    ensures var bytes := F.FrameBytes(Reply(frame, world(|done|)));
            var sent, next := out + F.Wire(Replies(done, world)), out + F.Wire(Replies(done + [frame], world));
            && next == sent + bytes
            && forall k :: 0 <= k <= |bytes| ==> out <= sent + bytes[..k] <= next
  {
    hide Reply, Fatal, F.FrameBytes, F.Wire;
    var reply := Reply(frame, world(|done|));
    assert Replies(done + [frame], world) == Replies(done, world) + [reply];
    WireAppend(Replies(done, world), reply);
  }

  lemma SentIsPrefix(world: nat -> World, out: F.Bytes, done: seq<F.Bytes>, frames: seq<F.Bytes>)
    requires done <= frames && Harmless(done) && Harmless(frames)
    ensures out <= out + F.Wire(Replies(done, world)) <= out + F.Wire(Replies(frames, world))
  {
    hide Reply, Fatal, F.Wire, Harmless;
    var all := Replies(frames, world);
    assert all[..|done|] == Replies(done, world);
    assert all == all[..|done|] + all[|done|..];
    WireJoin(all[..|done|], all[|done|..]);
  }

  lemma {:induction false} WireJoin(a: seq<F.Bytes>, b: seq<F.Bytes>)
    ensures F.Wire(a + b) == F.Wire(a) + F.Wire(b)
  {
    hide F.FrameBytes;
    if a == [] {
      assert a + b == b;
    } else {
      assert (a + b)[1..] == a[1..] + b;
      WireJoin(a[1..], b);
    }
  }

  lemma WireAppend(payloads: seq<F.Bytes>, last: F.Bytes)
    ensures F.Wire(payloads + [last]) == F.Wire(payloads) + F.FrameBytes(last)
  {
    hide F.FrameBytes;
    WireJoin(payloads, [last]);
    assert [last][1..] == [];
  }

  // ---- What json.dumps writes is one byte per character ----

  lemma OneByteJoin(a: string, b: string)
    ensures OneByteEach(a + b) <==> OneByteEach(a) && OneByteEach(b)
  {
    if OneByteEach(a + b) {
      assert forall i :: 0 <= i < |a| ==> (a + b)[i] == a[i];
      assert forall i :: 0 <= i < |b| ==> (a + b)[|a| + i] == b[i];
    }
  }

  /** The characters writers put between texts. */
  lemma OneByteMarks()
    ensures OneByteEach([]) && OneByteEach(['"']) && OneByteEach([',']) && OneByteEach([':']) && OneByteEach(['{'])
    ensures OneByteEach(['}', '}']) && OneByteEach([':', ' ']) && OneByteEach(" ")
  {
  }

  lemma DumpsCharOneByte(c: char)
    ensures OneByteEach(EscapeChar(Dumps, c))
  {
  }

  lemma {:induction false} EscapeOneByte(m: string)
    ensures OneByteEach(Escape(Dumps, m))
  {
    hide OneByteEach, EscapeChar;
    OneByteMarks();
    if m != [] {
      EscapeOneByte(m[1..]);
      DumpsCharOneByte(m[0]);
      OneByteJoin(EscapeChar(Dumps, m[0]), Escape(Dumps, m[1..]));
    }
  }

  lemma DumpsOneByte(m: string)
    ensures OneByteEach(Quote(Dumps, m))
  {
    hide OneByteEach, Escape;
    OneByteMarks();
    EscapeOneByte(m);
    OneByteJoin(['"'], Escape(Dumps, m));
    OneByteJoin(['"'] + Escape(Dumps, m), ['"']);
  }

  lemma FieldOneByte(f: Field, gap: string)
    requires OneByteEach(gap) && (f.Bare? ==> OneByteEach(f.raw))
    ensures OneByteEach(FieldText(f, Style(gap, Dumps)))
  {
    hide Quote, OneByteEach;
    OneByteMarks();
    var value := ValueText(f, Dumps);
    DumpsOneByte(f.key);
    if f.Text? {
      DumpsOneByte(f.value);
    }
    OneByteJoin(gap, value);
    OneByteJoin([':'], gap + value);
    OneByteJoin(Quote(Dumps, f.key), [':'] + (gap + value));
  }

  lemma {:induction false} FieldsOneByte(fs: seq<Field>, gap: string)
    requires OneByteEach(gap) && forall i :: 0 <= i < |fs| ==> fs[i].Bare? ==> OneByteEach(fs[i].raw)
    ensures OneByteEach(FieldsText(fs, Style(gap, Dumps)))
  {
    hide FieldText, OneByteEach;
    OneByteMarks();
    if fs != [] {
      FieldOneByte(fs[0], gap);
      if |fs| > 1 {
        var rest := FieldsText(fs[1..], Style(gap, Dumps));
        FieldsOneByte(fs[1..], gap);
        OneByteJoin(gap, rest);
        OneByteJoin([','], gap + rest);
        OneByteJoin(FieldText(fs[0], Style(gap, Dumps)), [','] + (gap + rest));
      }
    }
  }

  lemma DigitsOneByte(n: nat)
    ensures OneByteEach(Decimal.Print(n))
  {
    var s := Decimal.Print(n);
    assert forall i :: 0 <= i < |s| ==> Decimal.IsDigit(s[i]);
  }

  lemma RequestOneByte(id: nat, cmd: CommandType, gap: string, inner: string)
    requires OneByteEach(gap) && OneByteEach(inner)
    ensures OneByteEach(RequestFrom(id, cmd, Style(gap, Dumps), inner))
  {
    hide Decimal.Print, CommandName, FieldsText, Quote, OneByteEach;
    var st := Style(gap, Dumps);
    var head, key := FieldsText(Head(id, cmd), st), ParamsKey(st);
    OneByteMarks();
    DigitsOneByte(id);
    FieldsOneByte(Head(id, cmd), gap);
    DumpsOneByte("params");
    OneByteJoin([':'], gap);
    OneByteJoin(Quote(Dumps, "params"), [':'] + gap);
    OneByteJoin(['{'], inner);
    OneByteJoin(key, ['{'] + inner);
    OneByteJoin([','], gap);
    OneByteJoin([','] + gap, key + (['{'] + inner));
    OneByteJoin(head, ([','] + gap) + (key + (['{'] + inner)));
    OneByteJoin(['{'], head + (([','] + gap) + (key + (['{'] + inner))));
  }

  // ---- What a client gets ----

  lemma {:induction false} TextFieldsText(pairs: Pairs)
    ensures forall i :: 0 <= i < |TextFields(pairs)| ==> TextFields(pairs)[i].Text?
  {
    if pairs != [] {
      TextFieldsText(pairs[1..]);
    }
  }

  /** What json.dumps writes in compact form for such a request is one byte a character,
      and the gateway reads it as it was meant. */
  lemma CompactRequestRead(id: nat, cmd: CommandType, pairs: Pairs)
    requires id < UINT32_RANGE && PlainPairs(pairs, Dumps)
    requires pairs == [] || NoStop(FirstPairText(pairs, Style("", Dumps)))
    requires forall i :: 0 < i < |pairs| ==> pairs[i].0 != "request_id" && pairs[i].0 != "command"
    ensures var text := RequestText(id, cmd, pairs, Style("", Dumps));
            FromJson(TextOf(BytesOf(text)), FRESH) == (OK, Request(id, cmd, DictOf(pairs, map[])))
  {
    hide *;
    RoundTripPlain(id, cmd, pairs, Dumps, FRESH);
    CompactOneByte(id, cmd, pairs);
    TextBytes(RequestText(id, cmd, pairs, Style("", Dumps)));
  }

  lemma CompactOneByte(id: nat, cmd: CommandType, pairs: Pairs)
    ensures OneByteEach(RequestText(id, cmd, pairs, Style("", Dumps)))
  {
    hide RequestFrom, FieldsText, OneByteEach;
    OneByteMarks();
    TextFieldsText(pairs);
    var st := Style("", Dumps);
    FieldsOneByte(TextFields(pairs), "");
    OneByteJoin(FieldsText(TextFields(pairs), st), ['}', '}']);
    RequestOneByte(id, cmd, "", InnerText(pairs, st));
  }

  /** A compact request written by json.dumps reaches the handlers as it was meant, if its
      texts are kept.  It is fatal exactly when a number in it overflows; otherwise the
      client reads back exactly the text of the handlers' response, whatever they found. */
  lemma CompactRequestAnswered(id: nat, cmd: CommandType, pairs: Pairs, w: World, rest: F.Bytes)
    requires id < UINT32_RANGE && PlainPairs(pairs, Dumps)
    requires pairs == [] || NoStop(FirstPairText(pairs, Style("", Dumps)))
    requires forall i :: 0 < i < |pairs| ==> pairs[i].0 != "request_id" && pairs[i].0 != "command"
    ensures var req := Request(id, cmd, DictOf(pairs, map[]));
            var frame := BytesOf(RequestText(id, cmd, pairs, Style("", Dumps)));
            && (Fatal(frame) <==> Overflows(req)) && (Respond(frame, w).Threw? <==> Overflows(req))
            && (!Overflows(req) ==>
                  var o := Handle(req, w);
                  o.Returned? && (OneByteEach(ToJson(o.response)) && |ToJson(o.response)| < UINT32_RANGE ==>
                    && F.ClientReads(F.FrameBytes(Reply(frame, w)) + rest) == F.Body(Reply(frame, w))
                    && TextOf(Reply(frame, w)) == ToJson(o.response)))
  {
    CompactRequestRead(id, cmd, pairs);
    hide FromJson, ToJson, FirstPairText, F.FrameBytes, F.ClientReads, RequestText, OneByteEach, Handle, Overflows,
         PlainPairs, DictOf;
    var req, frame := Request(id, cmd, DictOf(pairs, map[])), BytesOf(RequestText(id, cmd, pairs, Style("", Dumps)));
    FatalExact(frame, w);
    if !Overflows(req) {
      var text := ToJson(Handle(req, w).response);
      if OneByteEach(text) && |text| < UINT32_RANGE {
        TextBytes(text);
        F.ReplyReceived(BytesOf(text), rest);
      }
    }
  }

  /** An ordinary request that is fatal: the case list with a limit beyond std::stoi. */
  lemma BigLimitIsFatal(id: nat, n: nat)
    requires id < UINT32_RANGE && n > INT_MAX
    ensures var frame := BytesOf(RequestText(id, GET_CASE_LIST, [("limit", Decimal.Print(n))], Style("", Dumps)));
            && FromJson(TextOf(frame), FRESH) == (OK, Request(id, GET_CASE_LIST, map["limit" := Decimal.Print(n)]))
            && Fatal(frame)
  {
    var digits := Decimal.Print(n);
    var pairs := [("limit", digits)];
    LimitPairPlain(digits);
    LimitDict(digits);
    hide FromJson, RequestText, PlainPairs, FirstPairText, Decimal.Print, Overflows, NoStop, DictOf;
    CompactRequestRead(id, GET_CASE_LIST, pairs);
    LimitOverflows(id, n);
  }

  /** The least such text. */
  lemma LeastBigLimit()
    ensures Decimal.Print(2147483648) == "2147483648" && TooBig("2147483648") && !TooBig("2147483647")
  {
    PrintSteps();
    Decimal.ValuePrint(2147483648);
    Decimal.ValuePrint(2147483647);
  }

  lemma PrintSteps()
    ensures Decimal.Print(2147483648) == "2147483648" && Decimal.Print(2147483647) == "2147483647"
  {
    PrintEarlySteps();
    hide Decimal.Print;
    PrintStep(214748, 3);
    PrintStep(2147483, 6);
    PrintStep(21474836, 4);
    PrintStep(214748364, 8);
    PrintStep(214748364, 7);
  }

  lemma PrintEarlySteps()
    ensures Decimal.Print(214748) == "214748"
  {
    assert Decimal.Print(2) == "2";
    hide Decimal.Print;
    PrintStep(2, 1);
    PrintStep(21, 4);
    PrintStep(214, 7);
    PrintStep(2147, 4);
    PrintStep(21474, 8);
  }

  /** Another digit behind a number. */
  lemma PrintStep(n: nat, digit: nat)
    requires n > 0 && digit < 10
    ensures Decimal.Print(10 * n + digit) == Decimal.Print(n) + [(48 + digit) as char]
  {
    assert (10 * n + digit) / 10 == n && (10 * n + digit) % 10 == digit;
  }

  lemma LimitDict(digits: string)
    ensures DictOf([("limit", digits)], map[]) == map["limit" := digits]
  {
    assert [("limit", digits)][1..] == [];
  }

  lemma LimitOverflows(id: nat, n: nat)
    requires n > INT_MAX
    ensures Overflows(Request(id, GET_CASE_LIST, map["limit" := Decimal.Print(n)]))
  {
    hide Decimal.Print;
    Decimal.ValuePrint(n);
  }

  lemma LimitPairPlain(digits: string)
    requires Decimal.AllDigits(digits)
    ensures var pairs := [("limit", digits)];
            PlainPairs(pairs, Dumps) && NoStop(FirstPairText(pairs, Style("", Dumps)))
  {
    DigitsSimple(digits);
    DigitsNoQuote(digits);
    var limit := "limit";
    assert SimpleText(limit) && NoStop(limit);
    hide Quote, SimpleText, Decimal.AllDigits, ReadBack, Plain, NoStop;
    SimpleQuoted(limit);
    SimpleQuoted(digits);
    var t := FirstPairText([("limit", digits)], Style("", Dumps));
    assert t == Quote(Dumps, limit) + ([':'] + ([] + Quote(Dumps, digits)));
    NoStopMember(Quote(Dumps, limit), Quote(Dumps, digits));
  }

  lemma SimpleQuoted(t: string)
    requires SimpleText(t) && NoStop(t)
    ensures Plain(Dumps, t) && NoStop(Quote(Dumps, t))
  {
    SimpleKept(Dumps, t);
    ReadBackExact(Dumps, t);
    hide SimpleText, ReadBack, Escape, Plain;
    var q := ['"'] + t + ['"'];
    assert forall i :: 0 < i < |q| - 1 ==> q[i] == t[i - 1];
  }

  lemma NoStopMember(a: string, b: string)
    requires NoStop(a) && NoStop(b)
    ensures NoStop(a + ([':'] + ([] + b)))
  {
    assert [] + b == b;
    NoStopJoin([':'], b);
    NoStopJoin(a, [':'] + b);
  }

  lemma NoStopJoin(a: string, b: string)
    requires NoStop(a) && NoStop(b)
    ensures NoStop(a + b)
  {
  }

  lemma DigitsSimple(digits: string)
    requires Decimal.AllDigits(digits)
    ensures SimpleText(digits)
  {
    forall c | c in digits ensures 0x20 <= c as int <= 0x7e && c != '"' && c != '\\' {
      var i :| 0 <= i < |digits| && digits[i] == c;
      assert Decimal.IsDigit(digits[i]);
    }
  }

  /** A connection that starts with a fatal request gets no reply at all, whatever follows
      it. */
  lemma FatalFirst(frame: F.Bytes, rest: F.Bytes, world: nat -> World)
    requires Fatal(frame) && F.Deliverable(frame)
    ensures AllReplies(F.FrameBytes(frame) + rest, world) == []
  {
    hide Fatal, F.Deliverable, F.FrameBytes, F.AllFrames;
    F.FirstDelivered(frame, rest);
    assert F.AllFrames(F.FrameBytes(frame) + rest).0[0] == frame;
  }

  /** With json.dumps' default spacing no request with a parameter reaches them, whatever
      the value and whatever follows: the reply is an error with request id 0. */
  lemma SpacedRequestRefused(id: nat, cmd: CommandType, key: string, c: char, rest: string, w: World)
    requires NoStop(Quote(Dumps, key)) && !IsSpace(c) && c != ',' && c != '}' && OneByteEach([c] + rest)
    ensures var frame := BytesOf(RequestFrom(id, cmd, Style(" ", Dumps), Quote(Dumps, key) + ([':', ' ', c] + rest)));
            !Fatal(frame) && Respond(frame, w) == Returned(ErrorResponse(0, INVALID_INPUT, "Malformed JSON request"))
  {
    hide FromJson, RequestFrom, Quote, OneByteEach;
    OneByteMarks();
    DefaultSpacingRejected(id, cmd, Dumps, key, c, rest, FRESH);
    DumpsOneByte(key);
    assert [':', ' ', c] + rest == [':', ' '] + ([c] + rest);
    OneByteJoin([':', ' '], [c] + rest);
    OneByteJoin(Quote(Dumps, key), [':', ' ', c] + rest);
    RequestOneByte(id, cmd, " ", Quote(Dumps, key) + ([':', ' ', c] + rest));
    TextBytes(RequestFrom(id, cmd, Style(" ", Dumps), Quote(Dumps, key) + ([':', ' ', c] + rest)));
  }

  /** A frame that is no request is answered under the id that was read before the error,
      with status 12. */
  lemma MalformedReply(frame: F.Bytes, w: World)
    requires FromJson(TextOf(frame), FRESH).0 != OK
    ensures !Fatal(frame)
    ensures TextOf(Reply(frame, w)) ==
            "{\"request_id\":" + Decimal.Print(FromJson(TextOf(frame), FRESH).1.requestId)
            + ",\"status\":12,\"message\":" + "\"Malformed JSON request\"" + ",\"data\":null}"
  {
    var id := FromJson(TextOf(frame), FRESH).1.requestId;
    hide FromJson, TextOf, Handle, Overflows, ToJson, OneByteEach, Decimal.Print;
    MalformedText(id);
    TextBytes(ToJson(ErrorResponse(id, INVALID_INPUT, "Malformed JSON request")));
  }

  const STATUS_TWELVE := ",\"status\":12,\"message\":"
  const MALFORMED := "\"Malformed JSON request\""
  const NO_DATA := ",\"data\":null}"

  lemma MalformedText(id: nat)
    ensures var text := ToJson(ErrorResponse(id, INVALID_INPUT, "Malformed JSON request"));
            OneByteEach(text) && text == "{\"request_id\":" + Decimal.Print(id) + STATUS_TWELVE + MALFORMED + NO_DATA
  {
    PrintTwelve();
    ToJsonLiteral(ErrorResponse(id, INVALID_INPUT, "Malformed JSON request"));
    MalformedQuoted();
    hide ToJson, Quote, OneByteEach, Decimal.Print, LooksLikeJson;
    var head := "{\"request_id\":" + Decimal.Print(id);
    assert ToJson(ErrorResponse(id, INVALID_INPUT, "Malformed JSON request")) ==
           head + ",\"status\":" + "12" + ",\"message\":" + MALFORMED + ",\"data\":" + "null" + "}";
    MalformedJoin(head, MALFORMED);
    PiecesOneByte();
    DigitsOneByte(id);
    OneByteJoin("{\"request_id\":", Decimal.Print(id));
    OneByteJoin(head, STATUS_TWELVE);
    OneByteJoin(head + STATUS_TWELVE, MALFORMED);
    OneByteJoin(head + STATUS_TWELVE + MALFORMED, NO_DATA);
  }

  lemma PrintTwelve()
    ensures Decimal.Print(12) == "12"
  {
    PrintStep(1, 2);
    assert Decimal.Print(1) == "1";
  }

  lemma PiecesOneByte()
    ensures OneByteEach("{\"request_id\":") && OneByteEach(STATUS_TWELVE) && OneByteEach(MALFORMED) && OneByteEach(NO_DATA)
  {
  }

  lemma MalformedQuoted()
    ensures Quote(Gateway, "Malformed JSON request") == MALFORMED
  {
    hide Escape, ReadBack, SimpleText;
    MalformedSimple();
    SimpleKept(Gateway, "Malformed JSON request");
    assert ['"'] + "Malformed JSON request" + ['"'] == MALFORMED;
  }

  lemma MalformedSimple()
    ensures SimpleText("Malformed JSON request")
  {
  }

  lemma MalformedJoin(head: string, message: string)
    ensures head + ",\"status\":" + "12" + ",\"message\":" + message + ",\"data\":" + "null" + "}" ==
            head + STATUS_TWELVE + message + NO_DATA
  {
    assert ",\"status\":" + "12" + ",\"message\":" == STATUS_TWELVE;
    assert ",\"data\":" + "null" + "}" == NO_DATA;
    assert head + ",\"status\":" + "12" + ",\"message\":" == head + STATUS_TWELVE;
    var t := head + STATUS_TWELVE + message;
    assert t + ",\"data\":" + "null" + "}" == t + NO_DATA;
  }

  /** For instance parameters that do not start with a quote: the error names the request. */
  lemma BadParamsNamed(id: nat, cmd: CommandType, token: string, rest: string, w: World)
    requires id < UINT32_RANGE && NoStop(token) && token != "" && token[0] != '"' && OneByteEach(token) && OneByteEach(rest)
    ensures var frame := BytesOf(RequestFrom(id, cmd, Style("", Dumps), token + (['}'] + rest)));
            && !Fatal(frame)
            && TextOf(Reply(frame, w)) ==
               "{\"request_id\":" + Decimal.Print(id)
               + ",\"status\":12,\"message\":" + "\"Malformed JSON request\"" + ",\"data\":null}"
  {
    hide FromJson, RequestFrom, OneByteEach, Fatal, Reply, Decimal.Print, NoStop;
    OneByteMarks();
    var inner := token + (['}'] + rest);
    assert OneByteEach(['}']) by { OneBrace(); }
    OneByteJoin(['}'], rest);
    OneByteJoin(token, ['}'] + rest);
    RequestOneByte(id, cmd, "", inner);
    TextBytes(RequestFrom(id, cmd, Style("", Dumps), inner));
    RejectedParams(id, cmd, Style("", Dumps), token, rest, FRESH);
    MalformedReply(BytesOf(RequestFrom(id, cmd, Style("", Dumps), inner)), w);
  }

  lemma OneBrace()
    ensures OneByteEach(['}'])
  {
  }

  lemma RespondPayload(frame: F.Bytes, w: World)
    ensures PayloadJson(Respond(frame, w))
  {
    hide G.IsJson, FromJson, Handle, TextOf;
    HandlerPayloads(FromJson(TextOf(frame), FRESH).1, w);
  }

  /** Whatever a client sends and whatever the handlers find, what it gets is JSON. */
  lemma EveryReplyIsJson(frame: F.Bytes, w: World)
    requires !Fatal(frame)
    ensures var o := Respond(frame, w); o.Returned? && G.IsJson(ToJson(o.response))
  {
    hide ToJson, LooksLikeJson, G.IsJson, Respond, Fatal;
    FatalExact(frame, w);
    RespondPayload(frame, w);
    RowsJson.ResponseIsJson(Respond(frame, w).response);
  }
}
