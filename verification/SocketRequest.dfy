/**
 Requests and responses of the dashboard gateway: fromJson, toJson, and the text a
 client writes.
 */
module SocketRequest {
  import opened Codes
  import opened Common
  import opened Decimal
  import opened JsonReader
  import opened JsonWriter

  datatype CommandType =
    | PING
    | GET_AGENT_STATUS
    | GET_AGENT_STATUS_BY_INDEX
    | GET_ACTIVE_SESSIONS
    | GET_CASE_LIST
    | GET_CASE_BY_ID
    | GET_HOTSPOT_DATA
    | GET_PRIORITY_CASES
    | GET_OFFICER_WORKLOAD
    | UNKNOWN

  datatype Request = Request(requestId: nat, command: CommandType, params: Dict)

  const FRESH := Request(0, UNKNOWN, map[])

  function CommandName(c: CommandType): string {
    match c
    case PING => "PING"
    case GET_AGENT_STATUS => "GET_AGENT_STATUS"
    case GET_AGENT_STATUS_BY_INDEX => "GET_AGENT_STATUS_BY_INDEX"
    case GET_ACTIVE_SESSIONS => "GET_ACTIVE_SESSIONS"
    case GET_CASE_LIST => "GET_CASE_LIST"
    case GET_CASE_BY_ID => "GET_CASE_BY_ID"
    case GET_HOTSPOT_DATA => "GET_HOTSPOT_DATA"
    case GET_PRIORITY_CASES => "GET_PRIORITY_CASES"
    case GET_OFFICER_WORKLOAD => "GET_OFFICER_WORKLOAD"
    case UNKNOWN => "UNKNOWN"
  }

  function ToCommandType(cmd: string): CommandType {
    if cmd == "PING" then PING
    else if cmd == "GET_AGENT_STATUS" then GET_AGENT_STATUS
    else if cmd == "GET_AGENT_STATUS_BY_INDEX" then GET_AGENT_STATUS_BY_INDEX
    else if cmd == "GET_ACTIVE_SESSIONS" then GET_ACTIVE_SESSIONS
    else if cmd == "GET_CASE_LIST" then GET_CASE_LIST
    else if cmd == "GET_CASE_BY_ID" then GET_CASE_BY_ID
    else if cmd == "GET_HOTSPOT_DATA" then GET_HOTSPOT_DATA
    else if cmd == "GET_PRIORITY_CASES" then GET_PRIORITY_CASES
    else if cmd == "GET_OFFICER_WORKLOAD" then GET_OFFICER_WORKLOAD
    else UNKNOWN
  }

  /** The catalogue; whatever else is sent is UNKNOWN. */
  lemma CommandExact(cmd: string)
    ensures ToCommandType(cmd) == PING <==> cmd == "PING"
    ensures ToCommandType(cmd) == GET_AGENT_STATUS <==> cmd == "GET_AGENT_STATUS"
    ensures ToCommandType(cmd) == GET_AGENT_STATUS_BY_INDEX <==> cmd == "GET_AGENT_STATUS_BY_INDEX"
    ensures ToCommandType(cmd) == GET_ACTIVE_SESSIONS <==> cmd == "GET_ACTIVE_SESSIONS"
    ensures ToCommandType(cmd) == GET_CASE_LIST <==> cmd == "GET_CASE_LIST"
    ensures ToCommandType(cmd) == GET_CASE_BY_ID <==> cmd == "GET_CASE_BY_ID"
    ensures ToCommandType(cmd) == GET_HOTSPOT_DATA <==> cmd == "GET_HOTSPOT_DATA"
    ensures ToCommandType(cmd) == GET_PRIORITY_CASES <==> cmd == "GET_PRIORITY_CASES"
    ensures ToCommandType(cmd) == GET_OFFICER_WORKLOAD <==> cmd == "GET_OFFICER_WORKLOAD"
  {
  }

  lemma CommandNamed(c: CommandType)
    ensures ToCommandType(CommandName(c)) == c
  {
  }

  // ---- fromJson ----

  /** std::string::find from a position; -1 is npos. */
  function Find(s: string, needle: string, from: nat): (r: int)
    requires from <= |s|
    ensures r == -1 || (from <= r && r + |needle| <= |s| && Has(s, r, needle))
    decreases |s| - from
  {
    if Has(s, from, needle) then
      HasEnd(s, from, needle);
      from
    else if from == |s| then -1
    else Find(s, needle, from + 1)
  }

  const PARAMS_KEY := ['"', 'p', 'a', 'r', 'a', 'm', 's', '"']

  /** Where the nested params object opens; -1 when there is none. */
  function ParamsStart(json: string): (r: int)
    ensures r == -1 || 0 <= r < |json|
  {
    var key := Find(json, PARAMS_KEY, 0);
    if key == -1 then -1
    else
      var colon := Find(json, [':'], key + |PARAMS_KEY|);
      if colon == -1 then -1
      else
        var open := SkipWs(json, colon + 1);
        if open < |json| && json[open] == '{' then open else -1
  }

  /** The result code, and the request as the caller finds it: on an error the
      fields assigned before the throw keep their new values. */
  function FromJson(json: string, out: Request): (ResultCode, Request) {
    match ParseObject(json, 0)
    case Malformed => (INVALID_INPUT, out)
    case Ok(top, _) =>
      if "request_id" in top && Stoul(top["request_id"]).None? then (INVALID_INPUT, out)
      else
        var out1 := Request(
          if "request_id" in top then Stoul(top["request_id"]).value % UINT32_RANGE else out.requestId,
          if "command" in top then ToCommandType(top["command"]) else UNKNOWN,
          out.params);
        var start := ParamsStart(json);
        if start == -1 then (OK, out1)
        else
          match ParseObject(json, start)
          case Malformed => (INVALID_INPUT, out1)
          case Ok(params, _) => (OK, out1.(params := params))
  }

  method RunFind(s: string, needle: string, from: nat) returns (r: int)
    requires from <= |s|
    ensures r == Find(s, needle, from)
  {
    var i := from;
    while i < |s| && !Has(s, i, needle)
      invariant from <= i <= |s| && Find(s, needle, i) == Find(s, needle, from)
    {
      i := i + 1;
    }
    return if Has(s, i, needle) then i else -1;
  }

  method RunFromJson(json: string, out0: Request) returns (rc: ResultCode, out: Request)
    ensures (rc, out) == FromJson(json, out0)
  {
    hide ParseObject, Stoul, SkipWs, Find, ToCommandType;
    out := out0;
    var top := RunParseObject(json, 0);
    if top.Malformed? {
      return INVALID_INPUT, out;
    }
    if "request_id" in top.value {
      var id := Stoul(top.value["request_id"]);
      if id.None? {
        return INVALID_INPUT, out;
      }
      out := out.(requestId := id.value % UINT32_RANGE);
    }
    if "command" in top.value {
      out := out.(command := ToCommandType(top.value["command"]));
    } else {
      out := out.(command := UNKNOWN);
    }
    var ppos := RunFind(json, PARAMS_KEY, 0);
    if ppos != -1 {
      var colon := RunFind(json, [':'], ppos + |PARAMS_KEY|);
      if colon != -1 {
        var objStart := RunSkipWs(json, colon + 1);
        if objStart < |json| && json[objStart] == '{' {
          var params := RunParseObject(json, objStart);
          if params.Malformed? {
            return INVALID_INPUT, out;
          }
          out := out.(params := params.value);
        }
      }
    }
    return OK, out;
  }

  // ---- toJson ----

  datatype Response = Response(requestId: nat, status: ResultCode, message: string, payload: string)

  function ErrorResponse(id: nat, code: ResultCode, msg: string): Response {
    Response(id, code, msg, "")
  }

  function LooksLikeJson(s: string): bool {
    var p := SkipWs(s, 0);
    p < |s| && (s[p] == '{' || s[p] == '[')
  }

  /** It is the first character but blanks that decides. */
  lemma LooksExact(blanks: string, c: char, rest: string)
    requires (forall i :: 0 <= i < |blanks| ==> IsSpace(blanks[i])) && !IsSpace(c)
    ensures LooksLikeJson(blanks + ([c] + rest)) <==> c == '{' || c == '['
    ensures !LooksLikeJson(blanks)
  {
    var s := blanks + ([c] + rest);
    assert s[|blanks|] == c && forall i :: 0 <= i < |blanks| ==> s[i] == blanks[i];
    StartsAt(s, |blanks|);
  }

  method RunLooksLikeJson(s: string) returns (r: bool)
    ensures r == LooksLikeJson(s)
  {
    for i := 0 to |s|
      invariant SkipWs(s, 0) == SkipWs(s, i)
    {
      if IsSpace(s[i]) {
        continue;
      }
      return s[i] == '{' || s[i] == '[';
    }
    return false;
  }

  function DataText(payload: string): string {
    if payload == "" then "null" else if LooksLikeJson(payload) then payload else Quote(Gateway, payload)
  }

  function ResponseFields(r: Response): seq<Field> {
    [Bare("request_id", Print(r.requestId)),
     Bare("status", Print(Number(r.status))),
     Text("message", r.message),
     Bare("data", DataText(r.payload))]
  }

  function Member(key: string, value: string): string {
    ['"'] + key + ['"', ':'] + value
  }

  function ToJson(r: Response): string {
    ['{'] + (Member("request_id", Print(r.requestId)) + [','] + Member("status", Print(Number(r.status))) + [',']
             + Member("message", Quote(Gateway, r.message)) + [','] + Member("data", DataText(r.payload))) + ['}']
  }

  predicate SimpleText(w: string) {
    forall c :: c in w ==> 0x20 <= c as int <= 0x7e && c != '"' && c != '\\'
  }

  lemma SimpleChar(e: Escaper, w: string, c: char)
    requires SimpleText(w) && c in w
    ensures EscapeChar(e, c) == [c] && ReadBackChar(e, c) == [c]
  {
  }

  /** Printable ASCII without quotes and backslashes passes unchanged. */
  lemma {:induction false} SimpleKept(e: Escaper, w: string)
    requires SimpleText(w)
    ensures Escape(e, w) == w && ReadBack(e, w) == w
  {
    if w != [] {
      hide EscapeChar, ReadBackChar;
      SimpleChar(e, w, w[0]);
      assert forall c :: c in w[1..] ==> c in w;
      SimpleKept(e, w[1..]);
      assert w == [w[0]] + w[1..];
    }
  }

  lemma FieldSpelled(f: Field)
    requires SimpleText(f.key)
    ensures FieldText(f, COMPACT) == Member(f.key, ValueText(f, Gateway))
  {
    hide ValueText;
    SimpleKept(Gateway, f.key);
    var v := ValueText(f, Gateway);
    assert [] + v == v;
    assert ['"'] + f.key + ['"'] + ([':'] + v) == ['"'] + f.key + ['"', ':'] + v;
  }

  lemma FourFields(a: Field, b: Field, c: Field, d: Field)
    ensures FieldsText([a, b, c, d], COMPACT) ==
            FieldText(a, COMPACT) + [','] + FieldText(b, COMPACT) + [','] + FieldText(c, COMPACT) + [','] + FieldText(d, COMPACT)
  {
    hide FieldText;
    var ta, tb, tc, td := FieldText(a, COMPACT), FieldText(b, COMPACT), FieldText(c, COMPACT), FieldText(d, COMPACT);
    assert [a, b, c, d][1..] == [b, c, d] && [b, c, d][1..] == [c, d] && [c, d][1..] == [d];
    assert FieldsText([c, d], COMPACT) == tc + ([','] + ([] + td));
    assert FieldsText([b, c, d], COMPACT) == tb + ([','] + ([] + FieldsText([c, d], COMPACT)));
    assert FieldsText([a, b, c, d], COMPACT) == ta + ([','] + ([] + FieldsText([b, c, d], COMPACT)));
  }

  lemma ResponseKeysSimple()
    ensures SimpleText("request_id") && SimpleText("status") && SimpleText("message") && SimpleText("data")
  {
  }

  lemma ToJsonIsObject(r: Response)
    ensures ToJson(r) == ObjectText(ResponseFields(r), COMPACT)
  {
    ResponseKeysSimple();
    hide FieldText, FieldsText, Member, Print, Number, DataText, Quote, SimpleText;
    var f := ResponseFields(r);
    FieldSpelled(f[0]);
    FieldSpelled(f[1]);
    FieldSpelled(f[2]);
    FieldSpelled(f[3]);
    FourFields(f[0], f[1], f[2], f[3]);
  }

  lemma MemberLiteral(before: string, key: string, value: string)
    ensures before + Member(key, value) == before + ("\"" + key + "\":") + value
  {
    assert before + (['"'] + key + ['"', ':'] + value) == before + ("\"" + key + "\":") + value;
  }

  lemma NextMember(before: string, key: string, literal: string, value: string)
    requires literal == ",\"" + key + "\":"
    ensures before + [','] + Member(key, value) == before + literal + value
  {
    MemberLiteral(before + [','], key, value);
    hide Member;
    assert before + [','] + ("\"" + key + "\":") == before + literal;
  }

  /** The whole text of a response. */
  lemma ToJsonLiteral(r: Response)
    ensures ToJson(r) ==
            "{\"request_id\":" + Print(r.requestId) + ",\"status\":" + Print(Number(r.status)) + ",\"message\":"
            + Quote(Gateway, r.message) + ",\"data\":"
            + (if r.payload == "" then "null" else if LooksLikeJson(r.payload) then r.payload
               else Quote(Gateway, r.payload)) + "}"
  {
    hide Print, Number, Quote, LooksLikeJson, Member;
    var id, status := Print(r.requestId), Print(Number(r.status));
    var message, data := Quote(Gateway, r.message), DataText(r.payload);
    MemberLiteral(['{'], "request_id", id);
    assert ['{'] + ("\"" + "request_id" + "\":") == "{\"request_id\":";
    var t1 := "{\"request_id\":" + id;
    NextMember(t1, "status", ",\"status\":", status);
    var t2 := t1 + ",\"status\":" + status;
    NextMember(t2, "message", ",\"message\":", message);
    var t3 := t2 + ",\"message\":" + message;
    NextMember(t3, "data", ",\"data\":", data);
    ResponseParts(Member("request_id", id), Member("status", status), Member("message", message), Member("data", data));
  }

  lemma ResponseParts(a: string, b: string, c: string, d: string)
    ensures ['{'] + (a + [','] + b + [','] + c + [','] + d) + ['}'] ==
            ['{'] + a + [','] + b + [','] + c + [','] + d + ['}']
  {
    assert ['{'] + (a + [','] + b + [','] + c + [','] + d) == ['{'] + (a + [','] + b + [','] + c) + [','] + d;
    assert ['{'] + (a + [','] + b + [','] + c) == ['{'] + (a + [','] + b) + [','] + c;
    assert ['{'] + (a + [','] + b) == ['{'] + a + [','] + b;
  }

  method RunToJson(r: Response) returns (out: string)
    ensures out == ToJson(r)
  {
    hide LooksLikeJson, Escape, Print, Number, Member;
    out := Member("request_id", Print(r.requestId)) + [','] + Member("status", Print(Number(r.status))) + [','];
    var message := JsonEscape(r.message);
    var data := RunDataText(r.payload);
    out := out + Member("message", ['"'] + message + ['"']) + [','] + Member("data", data);
    out := ['{'] + out + ['}'];
  }

  method RunDataText(payload: string) returns (data: string)
    ensures data == DataText(payload)
  {
    hide LooksLikeJson;
    if payload == "" {
      return "null";
    }
    var json := RunLooksLikeJson(payload);
    if json {
      return payload;
    }
    var text := JsonEscape(payload);
    return "\"" + text + "\"";
  }
}
