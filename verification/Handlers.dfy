/**
 The gateway's command handlers: dispatch, the parameters each one reads, and what it
 answers.  What a handler finds (uptime, the shared table, the database) is a value, so it
 may be another one at every request.
 */
module Handlers {
  import opened Codes
  import opened Common
  import opened Decimal
  import G = JsonGrammar
  import opened JsonReader
  import opened JsonWriter
  import opened RowsJson
  import opened SocketRequest
  import Token

  // ---- What a handler finds ----

  const INT_MAX := 2147483647
  const MAX_AGENTS := 3

  datatype Agent = Agent(name: string, status: int, detail: string, updated: int)

  type Agents = s: seq<Agent> | |s| == MAX_AGENTS witness [Agent("", 0, "", 0), Agent("", 0, "", 0), Agent("", 0, "", 0)]

  datatype Table = Table(agents: Agents, sessions: int)

  /** The queries, with the texts that the handlers put into them. */
  datatype Query =
    | CaseList(limit: string, offset: string)
    | CaseById(id: string)
    | Hotspots(limit: string)
    | PriorityCases(least: string, limit: string)
    | Workload(limit: string)

  datatype Answer = Answer(rc: ResultCode, rows: seq<seq<string>>)

  datatype World = World(uptime: int, table: Option<Table>, db: Query -> Answer)

  /** A handler returns, or an exception leaves it; nothing catches that. */
  datatype Outcome = Returned(response: Response) | Threw

  // ---- Integer parameters ----

  /** What operator<< prints for a signed number. */
  function PrintInt(n: int): string {
    if n < 0 then ['-'] + Print(-n) else Print(n)
  }

  predicate IsAllDigits(s: string) {
    s != [] && AllDigits(s)
  }

  method RunIsAllDigits(s: string) returns (r: bool)
    ensures r <==> IsAllDigits(s)
  {
    if s == [] {
      return false;
    }
    for i := 0 to |s|
      invariant AllDigits(s[..i])
    {
      if s[i] < '0' || s[i] > '9' {
        return false;
      }
    }
    assert s[..|s|] == s;
    return true;
  }

  /** std::stoi of a run of digits; None where it throws std::out_of_range. */
  function Stoi(s: string): Option<nat>
    requires IsAllDigits(s)
  {
    if Value(s) > INT_MAX then None else Some(Value(s))
  }

  function Clamp(v: nat, min: nat, max: nat): nat {
    var low := if v < max then v else max;
    if low < min then min else low
  }

  /** safeIntStr; None where it throws. */
  function SafeInt(raw: string, default: nat, min: nat, max: nat): Option<string> {
    if !IsAllDigits(raw) then Some(Print(default))
    else match Stoi(raw)
      case None => None
      case Some(v) => Some(Print(Clamp(v, min, max)))
  }

  method RunSafeInt(raw: string, default: nat, min: nat, max: nat) returns (r: Option<string>)
    ensures r == SafeInt(raw, default, min, max)
  {
    var digits := RunIsAllDigits(raw);
    if !digits {
      return Some(Print(default));
    }
    var v := Stoi(raw);
    if v.None? {
      return None;
    }
    return Some(Print(Clamp(v.value, min, max)));
  }

  /** A text that std::stoi throws on, though it passed the check for digits. */
  predicate TooBig(s: string) {
    IsAllDigits(s) && Value(s) > INT_MAX
  }

  /** The text of a number in the range. */
  ghost predicate InRange(s: string, min: nat, max: nat) {
    exists n: nat :: min <= n <= max && s == Print(n)
  }

  /** safeIntStr throws exactly on such a text.  Otherwise it gives a number in the range:
      the one that was sent if that is in the range, the nearer end if it is beyond, the
      default if it is none. */
  lemma SafeIntExact(raw: string, default: nat, min: nat, max: nat)
    requires min <= default <= max
    ensures var r := SafeInt(raw, default, min, max);
            && (r.None? <==> TooBig(raw))
            && (r.Some? ==> InRange(r.value, min, max))
            && (r.Some? && !IsAllDigits(raw) ==> r.value == Print(default))
            && (r.Some? && IsAllDigits(raw) ==>
                  r.value == Print(if Value(raw) < min then min else if Value(raw) > max then max else Value(raw)))
  {
    hide Print, Value;
    var r := SafeInt(raw, default, min, max);
    if r.Some? {
      var n := if IsAllDigits(raw) then Clamp(Value(raw), min, max) else default;
      assert r.value == Print(n);
    }
  }

  // ---- The answers ----

  function Param(req: Request, key: string, default: string): string {
    if key in req.params then req.params[key] else default
  }

  function Success(req: Request, payload: string): Outcome {
    Returned(Response(req.requestId, OK, "OK", payload))
  }

  function Failure(req: Request, rc: ResultCode, msg: string): Outcome {
    Returned(ErrorResponse(req.requestId, rc, msg))
  }

  function PingFields(uptime: int): seq<Field> {
    [Bare("pong", "true"), Bare("uptime_seconds", PrintInt(uptime))]
  }

  function AgentFields(i: nat, a: Agent): seq<Field> {
    [Bare("index", Print(i)), Text("name", a.name), Bare("status_code", PrintInt(a.status)),
     Text("error_detail", a.detail), Bare("last_updated", PrintInt(a.updated))]
  }

  function AgentText(i: nat, a: Agent): string {
    ObjectText(AgentFields(i, a), COMPACT)
  }

  function Joined(texts: seq<string>): string {
    if texts == [] then [] else if |texts| == 1 then texts[0] else texts[0] + ([','] + Joined(texts[1..]))
  }

  function AgentTexts(agents: Agents): (r: seq<string>)
    ensures |r| == MAX_AGENTS && forall i :: 0 <= i < |r| ==> r[i] == AgentText(i, agents[i])
  {
    [AgentText(0, agents[0]), AgentText(1, agents[1]), AgentText(2, agents[2])]
  }

  function ArrayOf(texts: seq<string>): string {
    ['['] + Joined(texts) + [']']
  }

  /** An object with one member that is not quoted. */
  function Wrapped(key: string, raw: string): string {
    ObjectText([Bare(key, raw)], COMPACT)
  }

  const CASE_COLUMNS := ["case_id", "case_type", "status", "registered_at"]
  const ONE_CASE_COLUMNS := ["case_id", "case_type", "status", "registered_at", "station_id", "lead_officer_id"]
  const HOTSPOT_COLUMNS := ["zone_id", "zone_name", "risk_level", "incident_count", "updated_at"]
  const PRIORITY_COLUMNS := ["case_id", "case_type", "status", "priority_level", "assignment_status", "assigned_at"]
  const WORKLOAD_COLUMNS := ["officer_id", "name", "rank", "status", "active_cases", "duty_status"]

  const VALID_PRIORITIES := ["LOW", "MEDIUM", "HIGH", "CRITICAL"]

  function HandlePing(req: Request, w: World): Outcome {
    Success(req, ObjectText(PingFields(w.uptime), COMPACT))
  }

  function HandleAgentStatus(req: Request, w: World): Outcome {
    match w.table
    case None => Failure(req, INVALID_STATE, "Shared memory not attached")
    case Some(table) => Success(req, Wrapped("agents", ArrayOf(AgentTexts(table.agents))))
  }

  function HandleAgentStatusByIndex(req: Request, w: World): Outcome {
    var idx := Param(req, "index", "");
    if !IsAllDigits(idx) then Failure(req, INVALID_INPUT, "Param 'index' must be 0, 1, or 2")
    else match Stoi(idx)
      case None => Threw
      case Some(i) =>
        if i >= MAX_AGENTS then Failure(req, INVALID_INPUT, "Param 'index' out of range [0, 2]")
        else match w.table
          case None => Failure(req, INVALID_STATE, "Shared memory not attached")
          case Some(table) => Success(req, AgentText(i, table.agents[i]))
  }

  function HandleActiveSessions(req: Request, w: World): Outcome {
    match w.table
    case None => Failure(req, INVALID_STATE, "Shared memory not attached")
    case Some(table) => Success(req, Wrapped("active_sessions", PrintInt(table.sessions)))
  }

  /** A query whose rows are the answer. */
  function HandleRows(req: Request, w: World, q: Query, failed: string, key: string, columns: seq<string>): Outcome {
    var answer := w.db(q);
    if answer.rc != OK then Failure(req, answer.rc, failed)
    else Success(req, Wrapped(key, RowsText(columns, answer.rows)))
  }

  function HandleCaseList(req: Request, w: World): Outcome {
    match SafeInt(Param(req, "limit", "100"), 100, 1, 500)
    case None => Threw
    case Some(limit) =>
      match SafeInt(Param(req, "offset", "0"), 0, 0, 100000)
      case None => Threw
      case Some(offset) =>
        HandleRows(req, w, CaseList(limit, offset), "Database query failed", "cases", CASE_COLUMNS)
  }

  function HandleCaseById(req: Request, w: World): Outcome {
    var id := Param(req, "case_id", "");
    if !Token.IsUuid(id) then Failure(req, INVALID_INPUT, "Invalid or missing 'case_id' (expected UUID)")
    else
      var answer := w.db(CaseById(id));
      if answer.rc != OK then Failure(req, answer.rc, "Database query failed")
      else if answer.rows == [] then Failure(req, NOT_FOUND, "Case not found")
      else Success(req, RowText(ONE_CASE_COLUMNS, answer.rows[0]))
  }

  function HandleHotspotData(req: Request, w: World): Outcome {
    match SafeInt(Param(req, "limit", "50"), 50, 1, 200)
    case None => Threw
    case Some(limit) => HandleRows(req, w, Hotspots(limit), "Hotspot query failed", "hotspots", HOTSPOT_COLUMNS)
  }

  function HandlePriorityCases(req: Request, w: World): Outcome {
    var least := Param(req, "min_priority", "HIGH");
    if least !in VALID_PRIORITIES then
      Failure(req, INVALID_INPUT, "Invalid 'min_priority': must be LOW|MEDIUM|HIGH|CRITICAL")
    else match SafeInt(Param(req, "limit", "50"), 50, 1, 200)
      case None => Threw
      case Some(limit) =>
        HandleRows(req, w, PriorityCases(least, limit), "Priority cases query failed", "cases", PRIORITY_COLUMNS)
  }

  function HandleOfficerWorkload(req: Request, w: World): Outcome {
    match SafeInt(Param(req, "limit", "50"), 50, 1, 200)
    case None => Threw
    case Some(limit) => HandleRows(req, w, Workload(limit), "Officer workload query failed", "officers", WORKLOAD_COLUMNS)
  }

  function Handle(req: Request, w: World): Outcome {
    match req.command
    case PING => HandlePing(req, w)
    case GET_AGENT_STATUS => HandleAgentStatus(req, w)
    case GET_AGENT_STATUS_BY_INDEX => HandleAgentStatusByIndex(req, w)
    case GET_ACTIVE_SESSIONS => HandleActiveSessions(req, w)
    case GET_CASE_LIST => HandleCaseList(req, w)
    case GET_CASE_BY_ID => HandleCaseById(req, w)
    case GET_HOTSPOT_DATA => HandleHotspotData(req, w)
    case GET_PRIORITY_CASES => HandlePriorityCases(req, w)
    case GET_OFFICER_WORKLOAD => HandleOfficerWorkload(req, w)
    case UNKNOWN => Failure(req, INVALID_INPUT, "Unknown command")
  }

  // ---- The handlers' code ----

  /** One agent's object, as the two status handlers write it. */
  method WriteAgent(i: nat, a: Agent) returns (out: string)
    ensures out == AgentText(i, a)
  {
    AgentKeysSimple();
    hide Escape, Print, PrintInt, SimpleText, Member;
    var name := JsonEscape(a.name);
    var detail := JsonEscape(a.detail);
    out := ['{'] + Member("index", Print(i)) + [','] + Member("name", ['"'] + name + ['"']) + [',']
           + Member("status_code", PrintInt(a.status)) + [','] + Member("error_detail", ['"'] + detail + ['"']) + [',']
           + Member("last_updated", PrintInt(a.updated)) + ['}'];
    AgentSpelled(i, a);
  }

  lemma AgentKeysSimple()
    ensures SimpleText("index") && SimpleText("name") && SimpleText("status_code") && SimpleText("error_detail")
    ensures SimpleText("last_updated")
  {
    StatusKeysSimple();
    assert SimpleText("index") && SimpleText("name") && SimpleText("last_updated");
  }

  lemma StatusKeysSimple()
    ensures SimpleText("status_code") && SimpleText("error_detail")
  {
  }

  lemma PingKeysSimple()
    ensures SimpleText("pong") && SimpleText("uptime_seconds")
  {
  }

  lemma TableKeysSimple()
    ensures SimpleText("agents") && SimpleText("active_sessions")
  {
  }

  lemma RowsKeysSimple()
    ensures SimpleText("cases") && SimpleText("hotspots") && SimpleText("officers")
  {
  }

  lemma AgentSpelled(i: nat, a: Agent)
    ensures AgentText(i, a) ==
            ['{'] + Member("index", Print(i)) + [','] + Member("name", Quote(Gateway, a.name)) + [',']
            + Member("status_code", PrintInt(a.status)) + [','] + Member("error_detail", Quote(Gateway, a.detail)) + [',']
            + Member("last_updated", PrintInt(a.updated)) + ['}']
  {
    AgentKeysSimple();
    hide Quote, Print, PrintInt, SimpleText, Member, FieldText, FieldsText;
    var fs := AgentFields(i, a);
    FieldSpelled(fs[0]);
    FieldSpelled(fs[1]);
    FieldSpelled(fs[2]);
    FieldSpelled(fs[3]);
    FieldSpelled(fs[4]);
    FieldsTextStep(fs);
    FourFields(fs[1], fs[2], fs[3], fs[4]);
    assert fs[1..] == [fs[1], fs[2], fs[3], fs[4]];
    FiveParts(FieldText(fs[0], COMPACT), FieldText(fs[1], COMPACT), FieldText(fs[2], COMPACT), FieldText(fs[3], COMPACT),
              FieldText(fs[4], COMPACT));
  }

  lemma FiveParts(a: string, b: string, c: string, d: string, e: string)
    ensures ['{'] + (a + ([','] + (b + [','] + c + [','] + d + [','] + e))) + ['}'] ==
            ['{'] + a + [','] + b + [','] + c + [','] + d + [','] + e + ['}']
  {
    var head := ['{'] + a + [','];
    var rest := b + [','] + c + [','] + d + [','] + e;
    assert ['{'] + (a + ([','] + rest)) == head + rest;
    assert head + rest == head + (b + [','] + c + [','] + d) + [','] + e;
    assert head + (b + [','] + c + [','] + d) == head + (b + [','] + c) + [','] + d;
    assert head + (b + [','] + c) == head + b + [','] + c;
  }

  lemma WrappedSpelled(key: string, raw: string)
    requires SimpleText(key)
    ensures Wrapped(key, raw) == ['{'] + Member(key, raw) + ['}']
  {
    hide SimpleText, Member, FieldText;
    FieldSpelled(Bare(key, raw));
  }

  /** Texts still to be joined, with the comma before them unless they are the first. */
  function RestJoined(texts: seq<string>, k: nat): string
    requires k <= |texts|
  {
    if k == |texts| then [] else (if k == 0 then [] else [',']) + Joined(texts[k..])
  }

  lemma RestJoinedStep(texts: seq<string>, k: nat)
    requires k < |texts|
    ensures RestJoined(texts, k) == (if k == 0 then [] else [',']) + texts[k] + RestJoined(texts, k + 1)
  {
    JoinedStep(texts[k..]);
    hide Joined;
    assert texts[k..][1..] == texts[k + 1..];
    Join(if k == 0 then [] else [','], texts[k], RestJoined(texts, k + 1));
  }

  lemma JoinedStep(texts: seq<string>)
    requires texts != []
    ensures Joined(texts) == texts[0] + (if |texts| == 1 then [] else [','] + Joined(texts[1..]))
  {
  }

  method WriteAgents(agents: Agents) returns (out: string)
    ensures out == ArrayOf(AgentTexts(agents))
  {
    hide AgentText, Joined, RestJoined;
    out := ['['];
    ghost var texts := AgentTexts(agents);
    AllJoinedLeft(texts);
    for i := 0 to MAX_AGENTS
      invariant out + RestJoined(texts, i) == ['['] + Joined(texts)
    {
      RestJoinedStep(texts, i);
      ghost var before, rest := out, RestJoined(texts, i + 1);
      if i > 0 {
        out := out + [','];
      }
      var agent := WriteAgent(i, agents[i]);
      out := out + agent;
      assert out + rest == before + ((if i == 0 then [] else [',']) + agent + rest);
    }
    out := out + [']'];
  }

  lemma AllJoinedLeft(texts: seq<string>)
    ensures RestJoined(texts, 0) == Joined(texts) && RestJoined(texts, |texts|) == []
  {
    assert texts[0..] == texts;
  }

  method RunPing(req: Request, w: World) returns (o: Outcome)
    ensures o == HandlePing(req, w)
  {
    hide ObjectText, PrintInt, Member;
    var out := ['{'] + Member("pong", "true") + [','] + Member("uptime_seconds", PrintInt(w.uptime)) + ['}'];
    PingMembers(w.uptime);
    return Success(req, out);
  }

  lemma TwoParts(a: string, b: string)
    ensures ['{'] + (a + ([','] + (b + []))) + ['}'] == ['{'] + a + [','] + b + ['}']
  {
    assert b + [] == b;
  }

  method RunAgentStatus(req: Request, w: World) returns (o: Outcome)
    ensures o == HandleAgentStatus(req, w)
  {
    TableKeysSimple();
    hide SimpleText, Member, Wrapped, ArrayOf;
    if w.table.None? {
      return Failure(req, INVALID_STATE, "Shared memory not attached");
    }
    var agents := WriteAgents(w.table.value.agents);
    WrappedSpelled("agents", agents);
    return Success(req, ['{'] + Member("agents", agents) + ['}']);
  }

  method RunAgentStatusByIndex(req: Request, w: World) returns (o: Outcome)
    ensures o == HandleAgentStatusByIndex(req, w)
  {
    hide AgentText, Value, AllDigits;
    var idx := Param(req, "index", "");
    var digits := RunIsAllDigits(idx);
    if !digits {
      return Failure(req, INVALID_INPUT, "Param 'index' must be 0, 1, or 2");
    }
    var i := Stoi(idx);
    if i.None? {
      return Threw;
    }
    if i.value >= MAX_AGENTS {
      return Failure(req, INVALID_INPUT, "Param 'index' out of range [0, 2]");
    }
    if w.table.None? {
      return Failure(req, INVALID_STATE, "Shared memory not attached");
    }
    var agent := WriteAgent(i.value, w.table.value.agents[i.value]);
    return Success(req, agent);
  }

  method RunActiveSessions(req: Request, w: World) returns (o: Outcome)
    ensures o == HandleActiveSessions(req, w)
  {
    TableKeysSimple();
    hide SimpleText, Member, Wrapped, PrintInt;
    if w.table.None? {
      return Failure(req, INVALID_STATE, "Shared memory not attached");
    }
    WrappedSpelled("active_sessions", PrintInt(w.table.value.sessions));
    return Success(req, ['{'] + Member("active_sessions", PrintInt(w.table.value.sessions)) + ['}']);
  }

  method RunRows(req: Request, w: World, q: Query, failed: string, key: string, columns: seq<string>) returns (o: Outcome)
    requires SimpleText(key)
    ensures o == HandleRows(req, w, q, failed, key, columns)
  {
    hide SimpleText, Member, Wrapped, RowsText;
    var answer := w.db(q);
    if answer.rc != OK {
      return Failure(req, answer.rc, failed);
    }
    var rows := RowsToJsonArray(columns, answer.rows);
    WrappedSpelled(key, rows);
    return Success(req, ['{'] + Member(key, rows) + ['}']);
  }

  method RunCaseList(req: Request, w: World) returns (o: Outcome)
    ensures o == HandleCaseList(req, w)
  {
    RowsKeysSimple();
    hide SimpleText, Param, SafeInt, HandleRows;
    var limit := RunSafeInt(Param(req, "limit", "100"), 100, 1, 500);
    if limit.None? {
      return Threw;
    }
    var offset := RunSafeInt(Param(req, "offset", "0"), 0, 0, 100000);
    if offset.None? {
      return Threw;
    }
    o := RunRows(req, w, CaseList(limit.value, offset.value), "Database query failed", "cases", CASE_COLUMNS);
  }

  method RunCaseById(req: Request, w: World) returns (o: Outcome)
    ensures o == HandleCaseById(req, w)
  {
    hide Param, RowText, Token.IsUuid;
    var id := Param(req, "case_id", "");
    var valid := Token.IsValidUuid(id);
    if !valid {
      return Failure(req, INVALID_INPUT, "Invalid or missing 'case_id' (expected UUID)");
    }
    var answer := w.db(CaseById(id));
    if answer.rc != OK {
      return Failure(req, answer.rc, "Database query failed");
    }
    if answer.rows == [] {
      return Failure(req, NOT_FOUND, "Case not found");
    }
    var out := WriteRow(ONE_CASE_COLUMNS, answer.rows[0]);
    return Success(req, out);
  }

  method RunHotspotData(req: Request, w: World) returns (o: Outcome)
    ensures o == HandleHotspotData(req, w)
  {
    RowsKeysSimple();
    hide SimpleText, Param, SafeInt, HandleRows;
    var limit := RunSafeInt(Param(req, "limit", "50"), 50, 1, 200);
    if limit.None? {
      return Threw;
    }
    o := RunRows(req, w, Hotspots(limit.value), "Hotspot query failed", "hotspots", HOTSPOT_COLUMNS);
  }

  method RunPriorityCases(req: Request, w: World) returns (o: Outcome)
    ensures o == HandlePriorityCases(req, w)
  {
    RowsKeysSimple();
    hide SimpleText, Param, SafeInt, HandleRows;
    var least := Param(req, "min_priority", "HIGH");
    var valid := RunIsPriority(least);
    if !valid {
      return Failure(req, INVALID_INPUT, "Invalid 'min_priority': must be LOW|MEDIUM|HIGH|CRITICAL");
    }
    var limit := RunSafeInt(Param(req, "limit", "50"), 50, 1, 200);
    if limit.None? {
      return Threw;
    }
    o := RunRows(req, w, PriorityCases(least, limit.value), "Priority cases query failed", "cases", PRIORITY_COLUMNS);
  }

  method RunIsPriority(s: string) returns (valid: bool)
    ensures valid <==> s in VALID_PRIORITIES
  {
    valid := false;
    for i := 0 to |VALID_PRIORITIES|
      invariant !valid && s !in VALID_PRIORITIES[..i]
    {
      if VALID_PRIORITIES[i] == s {
        return true;
      }
    }
    assert VALID_PRIORITIES[..|VALID_PRIORITIES|] == VALID_PRIORITIES;
  }

  method RunOfficerWorkload(req: Request, w: World) returns (o: Outcome)
    ensures o == HandleOfficerWorkload(req, w)
  {
    RowsKeysSimple();
    hide SimpleText, Param, SafeInt, HandleRows;
    var limit := RunSafeInt(Param(req, "limit", "50"), 50, 1, 200);
    if limit.None? {
      return Threw;
    }
    o := RunRows(req, w, Workload(limit.value), "Officer workload query failed", "officers", WORKLOAD_COLUMNS);
  }

  method Dispatch(req: Request, w: World) returns (o: Outcome)
    ensures o == Handle(req, w)
  {
    hide HandlePing, HandleAgentStatus, HandleAgentStatusByIndex, HandleActiveSessions, HandleCaseList, HandleCaseById,
         HandleHotspotData, HandlePriorityCases, HandleOfficerWorkload;
    match req.command {
      case PING => o := RunPing(req, w);
      case GET_AGENT_STATUS => o := RunAgentStatus(req, w);
      case GET_AGENT_STATUS_BY_INDEX => o := RunAgentStatusByIndex(req, w);
      case GET_ACTIVE_SESSIONS => o := RunActiveSessions(req, w);
      case GET_CASE_LIST => o := RunCaseList(req, w);
      case GET_CASE_BY_ID => o := RunCaseById(req, w);
      case GET_HOTSPOT_DATA => o := RunHotspotData(req, w);
      case GET_PRIORITY_CASES => o := RunPriorityCases(req, w);
      case GET_OFFICER_WORKLOAD => o := RunOfficerWorkload(req, w);
      case UNKNOWN => o := Failure(req, INVALID_INPUT, "Unknown command");
    }
  }

  // ---- When a handler throws ----

  predicate BigParam(req: Request, key: string) {
    key in req.params && TooBig(req.params[key])
  }

  predicate GoodPriority(req: Request) {
    "min_priority" in req.params ==> req.params["min_priority"] in VALID_PRIORITIES
  }

  /** The parameters that reach std::stoi hold a number it cannot take. */
  predicate Overflows(req: Request) {
    match req.command
    case GET_AGENT_STATUS_BY_INDEX => BigParam(req, "index")
    case GET_CASE_LIST => BigParam(req, "limit") || BigParam(req, "offset")
    case GET_HOTSPOT_DATA => BigParam(req, "limit")
    case GET_OFFICER_WORKLOAD => BigParam(req, "limit")
    case GET_PRIORITY_CASES => GoodPriority(req) && BigParam(req, "limit")
    case _ => false
  }

  lemma SmallDefaults()
    ensures !TooBig("") && !TooBig("0") && !TooBig("50") && !TooBig("100")
  {
    SmallValue("0");
    SmallValue("50");
    SmallValue("100");
  }

  /** Up to three digits are below a thousand. */
  lemma SmallValue(s: string)
    requires AllDigits(s) && |s| <= 3
    ensures Value(s) < 1000
  {
    if s != [] {
      var t := s[..|s| - 1];
      assert IsDigit(s[|s| - 1]);
      if t != [] {
        var u := t[..|t| - 1];
        assert IsDigit(t[|t| - 1]);
        if u != [] {
          assert IsDigit(u[0]) && u[..|u| - 1] == [];
        }
      }
    }
  }

  /** A default that fits leaves the matter to what was sent. */
  lemma SentDecides(req: Request, key: string, default: string)
    requires !TooBig(default)
    ensures TooBig(Param(req, key, default)) <==> BigParam(req, key)
  {
  }

  lemma RowsReturned(req: Request, w: World, q: Query, failed: string, key: string, columns: seq<string>)
    ensures HandleRows(req, w, q, failed, key, columns).Returned?
  {
  }

  lemma IndexThrows(req: Request, w: World)
    ensures HandleAgentStatusByIndex(req, w).Threw? <==> BigParam(req, "index")
  {
    hide TooBig, BigParam, Param, AgentText, Value;
    SmallDefaults();
    SentDecides(req, "index", "");
    BigDigits(Param(req, "index", ""));
  }

  lemma BigDigits(s: string)
    ensures TooBig(s) <==> IsAllDigits(s) && Stoi(s).None?
  {
  }

  lemma CaseListThrows(req: Request, w: World)
    ensures HandleCaseList(req, w).Threw? <==> BigParam(req, "limit") || BigParam(req, "offset")
  {
    hide TooBig, BigParam, Param, SafeInt, HandleRows, InRange, Print, Value;
    SmallDefaults();
    SentDecides(req, "limit", "100");
    SentDecides(req, "offset", "0");
    var limit, offset := Param(req, "limit", "100"), Param(req, "offset", "0");
    SafeIntExact(limit, 100, 1, 500);
    SafeIntExact(offset, 0, 0, 100000);
    var l, o := SafeInt(limit, 100, 1, 500), SafeInt(offset, 0, 0, 100000);
    if l.Some? && o.Some? {
      RowsReturned(req, w, CaseList(l.value, o.value), "Database query failed", "cases", CASE_COLUMNS);
    }
  }

  lemma LimitThrows(req: Request)
    ensures SafeInt(Param(req, "limit", "50"), 50, 1, 200).None? <==> BigParam(req, "limit")
  {
    hide TooBig, BigParam, Param, SafeInt, InRange, Print, Value;
    SmallDefaults();
    SentDecides(req, "limit", "50");
    SafeIntExact(Param(req, "limit", "50"), 50, 1, 200);
  }

  lemma HotspotsThrow(req: Request, w: World)
    ensures HandleHotspotData(req, w).Threw? <==> BigParam(req, "limit")
  {
    hide BigParam, Param, SafeInt, HandleRows;
    LimitThrows(req);
    var l := SafeInt(Param(req, "limit", "50"), 50, 1, 200);
    if l.Some? {
      RowsReturned(req, w, Hotspots(l.value), "Hotspot query failed", "hotspots", HOTSPOT_COLUMNS);
    }
  }

  lemma WorkloadThrows(req: Request, w: World)
    ensures HandleOfficerWorkload(req, w).Threw? <==> BigParam(req, "limit")
  {
    hide BigParam, Param, SafeInt, HandleRows;
    LimitThrows(req);
    var l := SafeInt(Param(req, "limit", "50"), 50, 1, 200);
    if l.Some? {
      RowsReturned(req, w, Workload(l.value), "Officer workload query failed", "officers", WORKLOAD_COLUMNS);
    }
  }

  lemma PriorityDecides(req: Request)
    ensures Param(req, "min_priority", "HIGH") in VALID_PRIORITIES <==> GoodPriority(req)
  {
    assert VALID_PRIORITIES[2] == "HIGH";
  }

  lemma PriorityThrows(req: Request, w: World)
    ensures HandlePriorityCases(req, w).Threw? <==> GoodPriority(req) && BigParam(req, "limit")
  {
    hide BigParam, Param, SafeInt, HandleRows, GoodPriority;
    LimitThrows(req);
    PriorityDecides(req);
    var l := SafeInt(Param(req, "limit", "50"), 50, 1, 200);
    if l.Some? {
      RowsReturned(req, w, PriorityCases(Param(req, "min_priority", "HIGH"), l.value), "Priority cases query failed",
                   "cases", PRIORITY_COLUMNS);
    }
  }

  /** The others never throw. */
  lemma NoThrow(req: Request, w: World)
    ensures HandlePing(req, w).Returned? && HandleAgentStatus(req, w).Returned? && HandleActiveSessions(req, w).Returned?
    ensures HandleCaseById(req, w).Returned?
  {
  }

  /** Whatever it finds, a handler throws exactly then. */
  lemma ThrowsExact(req: Request, w: World)
    ensures Handle(req, w).Threw? <==> Overflows(req)
  {
    hide HandlePing, HandleAgentStatus, HandleAgentStatusByIndex, HandleActiveSessions, HandleCaseList, HandleCaseById,
         HandleHotspotData, HandlePriorityCases, HandleOfficerWorkload, BigParam, GoodPriority;
    NoThrow(req, w);
    IndexThrows(req, w);
    CaseListThrows(req, w);
    HotspotsThrow(req, w);
    WorkloadThrows(req, w);
    PriorityThrows(req, w);
  }

  // ---- What the answers are ----

  /** A response carries the id of its request; it says OK exactly when it has a payload. */
  predicate Answers(o: Outcome, req: Request) {
    o.Returned? ==>
      && o.response.requestId == req.requestId
      && (o.response.status == OK <==> o.response.payload != "")
      && (o.response.status == OK ==> o.response.message == "OK")
  }

  lemma ObjectNonEmpty(fs: seq<Field>)
    ensures ObjectText(fs, COMPACT) != ""
  {
    hide FieldsText;
    assert ObjectText(fs, COMPACT)[0] == '{';
  }

  lemma AnswersObject(req: Request, fs: seq<Field>)
    ensures Answers(Success(req, ObjectText(fs, COMPACT)), req)
  {
    hide ObjectText;
    ObjectNonEmpty(fs);
  }

  lemma AnswersRows(req: Request, w: World, q: Query, failed: string, key: string, columns: seq<string>)
    ensures Answers(HandleRows(req, w, q, failed, key, columns), req)
  {
    hide ObjectText, RowsText;
    ObjectNonEmpty([Bare(key, RowsText(columns, w.db(q).rows))]);
  }

  lemma AnswersAgents(req: Request, w: World)
    ensures Answers(HandlePing(req, w), req) && Answers(HandleAgentStatus(req, w), req)
    ensures Answers(HandleActiveSessions(req, w), req) && Answers(HandleAgentStatusByIndex(req, w), req)
  {
    hide ObjectText, ArrayOf, AgentFields, PingFields, PrintInt, Value, AllDigits;
    forall fs ensures ObjectText(fs, COMPACT) != "" {
      ObjectNonEmpty(fs);
    }
  }

  /** Threw, refused a parameter, or answered with rows. */
  ghost predicate Settled(o: Outcome, req: Request, w: World) {
    || o.Threw?
    || o == Failure(req, INVALID_INPUT, o.response.message)
    || exists q, failed, key, columns :: o == HandleRows(req, w, q, failed, key, columns)
  }

  lemma SettledAnswers(o: Outcome, req: Request, w: World)
    requires Settled(o, req, w)
    ensures Answers(o, req)
  {
    hide HandleRows;
    if q, failed, key, columns :| o == HandleRows(req, w, q, failed, key, columns) {
      AnswersRows(req, w, q, failed, key, columns);
    }
  }

  lemma RowsSettled(req: Request, w: World, q: Query, failed: string, key: string, columns: seq<string>)
    ensures Settled(HandleRows(req, w, q, failed, key, columns), req, w)
  {
    hide HandleRows;
  }

  lemma CaseListSettled(req: Request, w: World)
    ensures Settled(HandleCaseList(req, w), req, w)
  {
    hide HandleRows, SafeInt, Param, Settled;
    var l, o := SafeInt(Param(req, "limit", "100"), 100, 1, 500), SafeInt(Param(req, "offset", "0"), 0, 0, 100000);
    ThrewSettled(req, w);
    if l.Some? && o.Some? {
      RowsSettled(req, w, CaseList(l.value, o.value), "Database query failed", "cases", CASE_COLUMNS);
    }
  }

  lemma ThrewSettled(req: Request, w: World)
    ensures Settled(Threw, req, w)
  {
  }

  lemma RefusedSettled(req: Request, w: World, msg: string)
    ensures Settled(Failure(req, INVALID_INPUT, msg), req, w)
  {
  }

  lemma LimitedSettled(req: Request, w: World)
    ensures Settled(HandleHotspotData(req, w), req, w) && Settled(HandleOfficerWorkload(req, w), req, w)
  {
    hide HandleRows, SafeInt, Param, Settled;
    var l := SafeInt(Param(req, "limit", "50"), 50, 1, 200);
    ThrewSettled(req, w);
    if l.Some? {
      RowsSettled(req, w, Hotspots(l.value), "Hotspot query failed", "hotspots", HOTSPOT_COLUMNS);
      RowsSettled(req, w, Workload(l.value), "Officer workload query failed", "officers", WORKLOAD_COLUMNS);
    }
  }

  lemma PrioritySettled(req: Request, w: World)
    ensures Settled(HandlePriorityCases(req, w), req, w)
  {
    hide HandleRows, SafeInt, Param, Settled, Failure;
    var l := SafeInt(Param(req, "limit", "50"), 50, 1, 200);
    ThrewSettled(req, w);
    RefusedSettled(req, w, "Invalid 'min_priority': must be LOW|MEDIUM|HIGH|CRITICAL");
    if l.Some? {
      RowsSettled(req, w, PriorityCases(Param(req, "min_priority", "HIGH"), l.value), "Priority cases query failed",
                  "cases", PRIORITY_COLUMNS);
    }
  }

  lemma AnswersQueries(req: Request, w: World)
    ensures Answers(HandleCaseList(req, w), req) && Answers(HandleHotspotData(req, w), req)
    ensures Answers(HandlePriorityCases(req, w), req) && Answers(HandleOfficerWorkload(req, w), req)
  {
    hide HandleCaseList, HandleHotspotData, HandlePriorityCases, HandleOfficerWorkload, Settled, Answers;
    CaseListSettled(req, w);
    LimitedSettled(req, w);
    PrioritySettled(req, w);
    SettledAnswers(HandleCaseList(req, w), req, w);
    SettledAnswers(HandleHotspotData(req, w), req, w);
    SettledAnswers(HandlePriorityCases(req, w), req, w);
    SettledAnswers(HandleOfficerWorkload(req, w), req, w);
  }

  lemma AnswersCase(req: Request, w: World)
    ensures Answers(HandleCaseById(req, w), req)
  {
    hide ObjectText, RowFields, Token.IsUuid;
    forall fs ensures ObjectText(fs, COMPACT) != "" {
      ObjectNonEmpty(fs);
    }
  }

  /** Whatever handler it is and whatever it finds. */
  lemma HandlerAnswers(req: Request, w: World)
    ensures Answers(Handle(req, w), req)
  {
    hide HandlePing, HandleAgentStatus, HandleAgentStatusByIndex, HandleActiveSessions, HandleCaseList, HandleCaseById,
         HandleHotspotData, HandlePriorityCases, HandleOfficerWorkload;
    AnswersAgents(req, w);
    AnswersQueries(req, w);
    AnswersCase(req, w);
  }

  // ---- Payloads in the grammar ----

  lemma {:induction false} TreesOf(fs: seq<Field>) returns (ps: seq<G.Padded>)
    requires forall i :: 0 <= i < |fs| ==> fs[i].Bare? ==> G.IsJson(fs[i].raw)
    ensures |ps| == |fs| && forall i :: 0 <= i < |fs| ==> Derives(ps[i], fs[i])
  {
    hide G.GoodPadded, G.PaddedText, Quote, StringTree;
    ps := [];
    if fs != [] {
      var p;
      match fs[0] {
        case Text(_, value) =>
          StringTreeGood(value);
          p := StringTree(value);
        case Bare(_, raw) => p :| G.GoodPadded(p) && G.PaddedText(p) == raw;
      }
      var rest := TreesOf(fs[1..]);
      ps := [p] + rest;
      assert Derives(p, fs[0]);
      assert forall i :: 0 < i < |fs| ==> ps[i] == rest[i - 1] && fs[i] == fs[1..][i - 1];
    }
  }

  /** An object is JSON when what stands in it unquoted is. */
  lemma ObjectIsJson(fs: seq<Field>)
    requires forall i :: 0 <= i < |fs| ==> fs[i].Bare? ==> G.IsJson(fs[i].raw)
    ensures G.IsJson(ObjectText(fs, COMPACT))
  {
    hide ObjectText, G.IsJson, Derives, G.GoodPadded, G.PaddedText;
    var ps := TreesOf(fs);
    var p := ObjectGood(fs, ps);
    Witness(p, ObjectText(fs, COMPACT));
  }

  lemma {:induction false} ItemsOf(texts: seq<string>) returns (items: G.Items)
    requires forall i :: 0 <= i < |texts| ==> G.IsJson(texts[i])
    ensures G.GoodItems(items) && G.ItemsText(items) == Joined(texts)
    ensures items.NoItems? <==> texts == []
  {
    hide G.GoodPadded, G.PaddedText;
    items := G.NoItems;
    if texts != [] {
      assert G.IsJson(texts[0]);
      var p :| G.GoodPadded(p) && G.PaddedText(p) == texts[0];
      assert forall i :: 0 <= i < |texts[1..]| ==> texts[1..][i] == texts[i + 1];
      var rest := ItemsOf(texts[1..]);
      items := G.MoreItems(p, rest);
    }
  }

  /** And an array of JSON texts. */
  lemma ArrayIsJson(texts: seq<string>)
    requires forall i :: 0 <= i < |texts| ==> G.IsJson(texts[i])
    ensures G.IsJson(ArrayOf(texts))
  {
    hide Joined, G.GoodItems, G.ItemsText, G.IsJson;
    var items := ItemsOf(texts);
    var p := G.Padded([], G.JArray([], items), []);
    var t := Joined(texts);
    assert texts == [] ==> t == [] by { NoTexts(texts); }
    assert G.Text(p.value) == ['['] + t + [']'];
    assert [] + (['['] + t + [']']) + [] == ['['] + t + [']'];
    Witness(p, ArrayOf(texts));
  }

  lemma NoTexts(texts: seq<string>)
    ensures texts == [] ==> Joined(texts) == []
  {
  }

  lemma IntIsJson(n: int)
    ensures G.IsJson(PrintInt(n))
  {
    var m := if n < 0 then -n else n;
    PrintNoLeadingZero(m);
    var s := Print(m);
    assert forall i :: 0 <= i < |s| ==> IsDigit(s[i]);
    hide Print;
    var p := G.Padded([], G.JNumber(n < 0, s, [], []), []);
    var t := PrintInt(n);
    assert (if n < 0 then ['-'] else []) + s + [] + [] == t && [] + t + [] == t;
    Witness(p, t);
  }

  lemma NatIsJson(n: nat)
    ensures G.IsJson(Print(n))
  {
    hide G.IsJson, Print;
    IntIsJson(n);
  }

  lemma TrueIsJson()
    ensures G.IsJson("true")
  {
    var p := G.Padded([], G.JLiteral("true"), []);
    assert [] + "true" + [] == "true";
    Witness(p, "true");
  }

  /** The payload is a JSON text, or there is none. */
  ghost predicate PayloadJson(o: Outcome) {
    o.Returned? ==> o.response.payload == "" || G.IsJson(o.response.payload)
  }

  lemma PingJson(uptime: int)
    ensures G.IsJson(ObjectText(PingFields(uptime), COMPACT))
  {
    hide G.IsJson, ObjectText, PrintInt;
    TrueIsJson();
    IntIsJson(uptime);
    ObjectIsJson(PingFields(uptime));
  }

  lemma AgentJson(i: nat, a: Agent)
    ensures G.IsJson(AgentText(i, a))
  {
    hide G.IsJson, ObjectText, PrintInt, Print;
    NatIsJson(i);
    IntIsJson(a.status);
    IntIsJson(a.updated);
    ObjectIsJson(AgentFields(i, a));
  }

  lemma WrappedJson(key: string, raw: string)
    requires G.IsJson(raw)
    ensures G.IsJson(Wrapped(key, raw))
  {
    hide G.IsJson, ObjectText;
    ObjectIsJson([Bare(key, raw)]);
  }

  lemma AgentsJson(agents: Agents)
    ensures G.IsJson(Wrapped("agents", ArrayOf(AgentTexts(agents))))
  {
    hide G.IsJson, ArrayOf, AgentText, Wrapped;
    var texts := AgentTexts(agents);
    forall i | 0 <= i < |texts| ensures G.IsJson(texts[i]) {
      AgentJson(i, agents[i]);
    }
    ArrayIsJson(texts);
    WrappedJson("agents", ArrayOf(texts));
  }

  lemma RowJson(columns: seq<string>, row: seq<string>)
    ensures G.IsJson(RowText(columns, row))
  {
    hide G.IsJson, ObjectText;
    ObjectIsJson(RowFields(columns, row));
  }

  lemma RowsPayload(req: Request, w: World, q: Query, failed: string, key: string, columns: seq<string>)
    ensures PayloadJson(HandleRows(req, w, q, failed, key, columns))
  {
    hide G.IsJson, Wrapped, RowsText;
    RowsAreJson(columns, w.db(q).rows);
    WrappedJson(key, RowsText(columns, w.db(q).rows));
  }

  lemma SettledPayload(o: Outcome, req: Request, w: World)
    requires Settled(o, req, w)
    ensures PayloadJson(o)
  {
    hide HandleRows, G.IsJson;
    if q, failed, key, columns :| o == HandleRows(req, w, q, failed, key, columns) {
      RowsPayload(req, w, q, failed, key, columns);
    }
  }

  lemma QueryPayloads(req: Request, w: World)
    ensures PayloadJson(HandleCaseList(req, w)) && PayloadJson(HandleHotspotData(req, w))
    ensures PayloadJson(HandlePriorityCases(req, w)) && PayloadJson(HandleOfficerWorkload(req, w))
  {
    hide HandleCaseList, HandleHotspotData, HandlePriorityCases, HandleOfficerWorkload, Settled, PayloadJson;
    CaseListSettled(req, w);
    LimitedSettled(req, w);
    PrioritySettled(req, w);
    SettledPayload(HandleCaseList(req, w), req, w);
    SettledPayload(HandleHotspotData(req, w), req, w);
    SettledPayload(HandlePriorityCases(req, w), req, w);
    SettledPayload(HandleOfficerWorkload(req, w), req, w);
  }

  lemma TablePayloads(req: Request, w: World)
    ensures PayloadJson(HandlePing(req, w)) && PayloadJson(HandleAgentStatus(req, w))
    ensures PayloadJson(HandleActiveSessions(req, w)) && PayloadJson(HandleAgentStatusByIndex(req, w))
  {
    hide G.IsJson, ObjectText, Wrapped, ArrayOf, AgentText, PingFields, PrintInt, Value, AllDigits;
    PingJson(w.uptime);
    if w.table.Some? {
      var table := w.table.value;
      AgentsJson(table.agents);
      IntIsJson(table.sessions);
      WrappedJson("active_sessions", PrintInt(table.sessions));
      forall i: nat | i < MAX_AGENTS ensures G.IsJson(AgentText(i, table.agents[i])) {
        AgentJson(i, table.agents[i]);
      }
    }
  }

  lemma CasePayload(req: Request, w: World)
    ensures PayloadJson(HandleCaseById(req, w))
  {
    hide G.IsJson, RowText, Token.IsUuid;
    var answer := w.db(CaseById(Param(req, "case_id", "")));
    if answer.rows != [] {
      RowJson(ONE_CASE_COLUMNS, answer.rows[0]);
    }
  }

  /** Every handler's payload is JSON, whatever the database and the table hold. */
  lemma HandlerPayloads(req: Request, w: World)
    ensures PayloadJson(Handle(req, w))
  {
    hide HandlePing, HandleAgentStatus, HandleAgentStatusByIndex, HandleActiveSessions, HandleCaseList, HandleCaseById,
         HandleHotspotData, HandlePriorityCases, HandleOfficerWorkload, G.IsJson;
    TablePayloads(req, w);
    QueryPayloads(req, w);
    CasePayload(req, w);
  }

  // ---- What reaches the database ----

  /** A query holds nothing of a client but numbers in range, a UUID or a listed word. */
  ghost predicate Safe(q: Query) {
    match q
    case CaseList(limit, offset) => InRange(limit, 1, 500) && InRange(offset, 0, 100000)
    case CaseById(id) => Token.IsUuid(id)
    case Hotspots(limit) => InRange(limit, 1, 200)
    case PriorityCases(least, limit) => least in VALID_PRIORITIES && InRange(limit, 1, 200)
    case Workload(limit) => InRange(limit, 1, 200)
  }

  /** The two differ at most in what they answer to other queries. */
  ghost predicate SameWhenSafe(w1: World, w2: World) {
    w1.uptime == w2.uptime && w1.table == w2.table && forall q :: Safe(q) ==> w1.db(q) == w2.db(q)
  }

  lemma RowsSame(req: Request, w1: World, w2: World, q: Query, failed: string, key: string, columns: seq<string>)
    requires SameWhenSafe(w1, w2) && Safe(q)
    ensures HandleRows(req, w1, q, failed, key, columns) == HandleRows(req, w2, q, failed, key, columns)
  {
    hide Safe;
    assert w1.db(q) == w2.db(q);
  }

  lemma CaseListSame(req: Request, w1: World, w2: World)
    requires SameWhenSafe(w1, w2)
    ensures HandleCaseList(req, w1) == HandleCaseList(req, w2)
  {
    hide Param, SafeInt, HandleRows, InRange, TooBig, SameWhenSafe, Value, Print, IsAllDigits;
    var limit, offset := Param(req, "limit", "100"), Param(req, "offset", "0");
    SafeIntExact(limit, 100, 1, 500);
    SafeIntExact(offset, 0, 0, 100000);
    var l, o := SafeInt(limit, 100, 1, 500), SafeInt(offset, 0, 0, 100000);
    if l.Some? && o.Some? {
      assert Safe(CaseList(l.value, o.value));
      RowsSame(req, w1, w2, CaseList(l.value, o.value), "Database query failed", "cases", CASE_COLUMNS);
    }
  }

  lemma LimitedSame(req: Request, w1: World, w2: World)
    requires SameWhenSafe(w1, w2)
    ensures HandleHotspotData(req, w1) == HandleHotspotData(req, w2)
    ensures HandleOfficerWorkload(req, w1) == HandleOfficerWorkload(req, w2)
    ensures HandlePriorityCases(req, w1) == HandlePriorityCases(req, w2)
  {
    hide Param, SafeInt, HandleRows, InRange, TooBig, SameWhenSafe, Value, Print, IsAllDigits;
    SafeIntExact(Param(req, "limit", "50"), 50, 1, 200);
    var l := SafeInt(Param(req, "limit", "50"), 50, 1, 200);
    var least := Param(req, "min_priority", "HIGH");
    if l.Some? {
      assert Safe(Hotspots(l.value)) && Safe(Workload(l.value));
      RowsSame(req, w1, w2, Hotspots(l.value), "Hotspot query failed", "hotspots", HOTSPOT_COLUMNS);
      RowsSame(req, w1, w2, Workload(l.value), "Officer workload query failed", "officers", WORKLOAD_COLUMNS);
      if least in VALID_PRIORITIES {
        assert Safe(PriorityCases(least, l.value));
        RowsSame(req, w1, w2, PriorityCases(least, l.value), "Priority cases query failed", "cases", PRIORITY_COLUMNS);
      }
    }
  }

  lemma OthersSame(req: Request, w1: World, w2: World)
    requires SameWhenSafe(w1, w2)
    ensures HandlePing(req, w1) == HandlePing(req, w2) && HandleAgentStatus(req, w1) == HandleAgentStatus(req, w2)
    ensures HandleActiveSessions(req, w1) == HandleActiveSessions(req, w2)
    ensures HandleAgentStatusByIndex(req, w1) == HandleAgentStatusByIndex(req, w2)
    ensures HandleCaseById(req, w1) == HandleCaseById(req, w2)
  {
    hide Param, ObjectText, AgentText, ArrayOf, Value, AllDigits, Token.IsUuid, RowText;
    var id := Param(req, "case_id", "");
    if Token.IsUuid(id) {
      assert Safe(CaseById(id));
    }
  }

  /** Whatever the request holds, its answer depends on the database only through safe
      queries: no other is sent. */
  lemma OnlySafeQueries(req: Request, w1: World, w2: World)
    requires SameWhenSafe(w1, w2)
    ensures Handle(req, w1) == Handle(req, w2)
  {
    hide HandlePing, HandleAgentStatus, HandleAgentStatusByIndex, HandleActiveSessions, HandleCaseList, HandleCaseById,
         HandleHotspotData, HandlePriorityCases, HandleOfficerWorkload, SameWhenSafe;
    CaseListSame(req, w1, w2);
    LimitedSame(req, w1, w2);
    OthersSame(req, w1, w2);
  }

  // ---- What each command is answered ----

  /** The number a parameter stands for: the one sent, moved into the range, or the default
      when there is none. */
  function Asked(req: Request, key: string, default: nat, min: nat, max: nat): nat {
    if key in req.params && IsAllDigits(req.params[key]) then
      if Value(req.params[key]) < min then min else if Value(req.params[key]) > max then max else Value(req.params[key])
    else default
  }

  lemma ValueOne(c: char)
    requires IsDigit(c)
    ensures AllDigits([c]) && Value([c]) == c as int - 48
  {
    assert [c][..0] == [];
  }

  lemma ValueMore(s: string, c: char)
    requires AllDigits(s) && IsDigit(c)
    ensures AllDigits(s + [c]) && Value(s + [c]) == 10 * Value(s) + (c as int - 48)
  {
    assert (s + [c])[..|s|] == s;
  }

  lemma DefaultValues()
    ensures IsAllDigits("0") && IsAllDigits("50") && IsAllDigits("100")
    ensures Value("0") == 0 && Value("50") == 50 && Value("100") == 100
  {
    hide Value;
    ValueOne('0');
    ValueOne('5');
    ValueMore("5", '0');
    ValueOne('1');
    ValueMore("1", '0');
    ValueMore("10", '0');
    assert "5" + ['0'] == "50" && "1" + ['0'] == "10" && "10" + ['0'] == "100";
  }

  /** So the text that goes into a query is that number. */
  lemma SentNumber(req: Request, key: string, text: string, default: nat, min: nat, max: nat)
    requires min <= default <= max <= INT_MAX && IsAllDigits(text) && Value(text) == default && !BigParam(req, key)
    ensures SafeInt(Param(req, key, text), default, min, max) == Some(Print(Asked(req, key, default, min, max)))
  {
    hide Value, Print, AllDigits;
  }

  lemma WrappedLiteral(key: string, raw: string)
    requires SimpleText(key)
    ensures Wrapped(key, raw) == "{\"" + key + "\":" + raw + "}"
  {
    hide SimpleText, Wrapped;
    WrappedSpelled(key, raw);
    assert ['{'] + (['"'] + key + ['"', ':'] + raw) + ['}'] == "{\"" + key + "\":" + raw + "}";
  }

  lemma CaseListAnswer(req: Request, w: World)
    requires req.command == GET_CASE_LIST && !Overflows(req)
    ensures var limit, offset := Asked(req, "limit", 100, 1, 500), Asked(req, "offset", 0, 0, 100000);
            var a := w.db(CaseList(Print(limit), Print(offset)));
            Handle(req, w) == Returned(
              if a.rc != OK then Response(req.requestId, a.rc, "Database query failed", "")
              else Response(req.requestId, OK, "OK",
                            "{\"cases\":" + RowsText(["case_id", "case_type", "status", "registered_at"], a.rows) + "}"))
  {
    DefaultValues();
    hide Param, SafeInt, Asked, Print, Value, BigParam, Wrapped, RowsText, AllDigits;
    SentNumber(req, "limit", "100", 100, 1, 500);
    SentNumber(req, "offset", "0", 0, 0, 100000);
    var limit, offset := Asked(req, "limit", 100, 1, 500), Asked(req, "offset", 0, 0, 100000);
    RowsLiteral("cases", CASE_COLUMNS, w.db(CaseList(Print(limit), Print(offset))).rows);
  }

  lemma RowsLiteral(key: string, columns: seq<string>, rows: seq<seq<string>>)
    requires key == "cases" || key == "hotspots" || key == "officers"
    ensures Wrapped(key, RowsText(columns, rows)) ==
            (if key == "cases" then "{\"cases\":" else if key == "hotspots" then "{\"hotspots\":" else "{\"officers\":")
            + RowsText(columns, rows) + "}"
  {
    RowsKeysSimple();
    hide SimpleText, Wrapped, RowsText;
    WrappedLiteral(key, RowsText(columns, rows));
    assert "{\"" + "cases" + "\":" == "{\"cases\":" && "{\"" + "hotspots" + "\":" == "{\"hotspots\":"
           && "{\"" + "officers" + "\":" == "{\"officers\":";
  }

  lemma HotspotAnswer(req: Request, w: World)
    requires req.command == GET_HOTSPOT_DATA && !Overflows(req)
    ensures var a := w.db(Hotspots(Print(Asked(req, "limit", 50, 1, 200))));
            Handle(req, w) == Returned(
              if a.rc != OK then Response(req.requestId, a.rc, "Hotspot query failed", "")
              else Response(req.requestId, OK, "OK",
                            "{\"hotspots\":"
                            + RowsText(["zone_id", "zone_name", "risk_level", "incident_count", "updated_at"], a.rows) + "}"))
  {
    DefaultValues();
    hide Param, SafeInt, Asked, Print, Value, BigParam, Wrapped, RowsText, AllDigits;
    SentNumber(req, "limit", "50", 50, 1, 200);
    RowsLiteral("hotspots", HOTSPOT_COLUMNS, w.db(Hotspots(Print(Asked(req, "limit", 50, 1, 200)))).rows);
  }

  lemma WorkloadAnswer(req: Request, w: World)
    requires req.command == GET_OFFICER_WORKLOAD && !Overflows(req)
    ensures var a := w.db(Workload(Print(Asked(req, "limit", 50, 1, 200))));
            Handle(req, w) == Returned(
              if a.rc != OK then Response(req.requestId, a.rc, "Officer workload query failed", "")
              else Response(req.requestId, OK, "OK",
                            "{\"officers\":"
                            + RowsText(["officer_id", "name", "rank", "status", "active_cases", "duty_status"], a.rows) + "}"))
  {
    DefaultValues();
    hide Param, SafeInt, Asked, Print, Value, BigParam, Wrapped, RowsText, AllDigits;
    SentNumber(req, "limit", "50", 50, 1, 200);
    RowsLiteral("officers", WORKLOAD_COLUMNS, w.db(Workload(Print(Asked(req, "limit", 50, 1, 200)))).rows);
  }

  /** The priority that is meant: HIGH when none is sent. */
  function Least(req: Request): string {
    if "min_priority" in req.params then req.params["min_priority"] else "HIGH"
  }

  lemma PriorityAnswer(req: Request, w: World)
    requires req.command == GET_PRIORITY_CASES && !Overflows(req)
    ensures Least(req) !in ["LOW", "MEDIUM", "HIGH", "CRITICAL"] ==>
              Handle(req, w) ==
              Returned(Response(req.requestId, INVALID_INPUT, "Invalid 'min_priority': must be LOW|MEDIUM|HIGH|CRITICAL", ""))
    ensures Least(req) in ["LOW", "MEDIUM", "HIGH", "CRITICAL"] ==>
              var a := w.db(PriorityCases(Least(req), Print(Asked(req, "limit", 50, 1, 200))));
              Handle(req, w) == Returned(
                if a.rc != OK then Response(req.requestId, a.rc, "Priority cases query failed", "")
                else Response(req.requestId, OK, "OK",
                              "{\"cases\":"
                              + RowsText(["case_id", "case_type", "status", "priority_level", "assignment_status",
                                          "assigned_at"], a.rows) + "}"))
  {
    DefaultValues();
    PriorityDecides(req);
    assert Param(req, "min_priority", "HIGH") == Least(req);
    hide Param, SafeInt, Asked, Print, Value, BigParam, Wrapped, RowsText, AllDigits, GoodPriority, Least;
    if Least(req) in VALID_PRIORITIES {
      SentNumber(req, "limit", "50", 50, 1, 200);
      RowsLiteral("cases", PRIORITY_COLUMNS, w.db(PriorityCases(Least(req), Print(Asked(req, "limit", 50, 1, 200)))).rows);
    }
  }

  lemma CaseByIdAnswer(req: Request, w: World)
    requires req.command == GET_CASE_BY_ID
    ensures "case_id" !in req.params || !Token.IsUuid(req.params["case_id"]) ==>
              Handle(req, w) ==
              Returned(Response(req.requestId, INVALID_INPUT, "Invalid or missing 'case_id' (expected UUID)", ""))
    ensures "case_id" in req.params && Token.IsUuid(req.params["case_id"]) ==>
              var a := w.db(CaseById(req.params["case_id"]));
              Handle(req, w) == Returned(
                if a.rc != OK then Response(req.requestId, a.rc, "Database query failed", "")
                else if a.rows == [] then Response(req.requestId, NOT_FOUND, "Case not found", "")
                else Response(req.requestId, OK, "OK",
                              RowText(["case_id", "case_type", "status", "registered_at", "station_id", "lead_officer_id"],
                                      a.rows[0])))
  {
    assert !Token.IsUuid("");
    hide Token.IsUuid, RowText;
  }

  /** An agent's object, as text. */
  function AgentLiteral(i: nat, a: Agent): string {
    "{\"index\":" + Print(i) + ",\"name\":" + Quote(Gateway, a.name) + ",\"status_code\":" + PrintInt(a.status)
    + ",\"error_detail\":" + Quote(Gateway, a.detail) + ",\"last_updated\":" + PrintInt(a.updated) + "}"
  }

  lemma AgentSpelledOut(i: nat, a: Agent)
    ensures AgentText(i, a) == AgentLiteral(i, a)
  {
    hide Quote, Print, PrintInt, Member, AgentText;
    AgentSpelled(i, a);
    FirstMember(Print(i));
    var u1 := "{\"index\":" + Print(i);
    NextMember(u1, "name", ",\"name\":", Quote(Gateway, a.name));
    var u2 := u1 + ",\"name\":" + Quote(Gateway, a.name);
    LastMembers(u2, PrintInt(a.status), Quote(Gateway, a.detail), PrintInt(a.updated));
  }

  lemma FirstMember(value: string)
    ensures ['{'] + Member("index", value) == "{\"index\":" + value
  {
    hide Member;
    MemberLiteral(['{'], "index", value);
    assert ['{'] + ("\"" + "index" + "\":") == "{\"index\":";
  }

  lemma LastMembers(before: string, status: string, detail: string, updated: string)
    ensures before + [','] + Member("status_code", status) + [','] + Member("error_detail", detail) + [',']
            + Member("last_updated", updated) ==
            before + ",\"status_code\":" + status + ",\"error_detail\":" + detail + ",\"last_updated\":" + updated
  {
    hide Member;
    NextMember(before, "status_code", ",\"status_code\":", status);
    var u3 := before + ",\"status_code\":" + status;
    NextMember(u3, "error_detail", ",\"error_detail\":", detail);
    NextMember(u3 + ",\"error_detail\":" + detail, "last_updated", ",\"last_updated\":", updated);
  }

  /** All three agents, each in its place with its own fields. */
  lemma AgentStatusAnswer(req: Request, w: World)
    requires req.command == GET_AGENT_STATUS
    ensures w.table.None? ==>
              Handle(req, w) == Returned(Response(req.requestId, INVALID_STATE, "Shared memory not attached", ""))
    ensures w.table.Some? ==>
              var a := w.table.value.agents;
              Handle(req, w) ==
              Returned(Response(req.requestId, OK, "OK",
                                "{\"agents\":[" + AgentLiteral(0, a[0]) + "," + AgentLiteral(1, a[1]) + ","
                                + AgentLiteral(2, a[2]) + "]}"))
  {
    TableKeysSimple();
    hide SimpleText, Wrapped, AgentText, AgentLiteral;
    if w.table.Some? {
      var a := w.table.value.agents;
      AgentSpelledOut(0, a[0]);
      AgentSpelledOut(1, a[1]);
      AgentSpelledOut(2, a[2]);
      var x, y, z := AgentLiteral(0, a[0]), AgentLiteral(1, a[1]), AgentLiteral(2, a[2]);
      ThreeJoined(x, y, z);
      assert AgentTexts(a) == [x, y, z];
      WrappedLiteral("agents", ArrayOf([x, y, z]));
      ArrayLiteral(x, y, z);
    }
  }

  lemma ThreeJoined(x: string, y: string, z: string)
    ensures ArrayOf([x, y, z]) == "[" + x + "," + y + "," + z + "]"
  {
    assert [x, y, z][1..] == [y, z] && [y, z][1..] == [z];
    assert Joined([y, z]) == y + ([','] + z);
    assert Joined([x, y, z]) == x + ([','] + (y + ([','] + z)));
    assert x + ([','] + (y + ([','] + z))) == x + "," + y + "," + z;
  }

  lemma ArrayLiteral(x: string, y: string, z: string)
    ensures "{\"" + "agents" + "\":" + ("[" + x + "," + y + "," + z + "]") + "}" ==
            "{\"agents\":[" + x + "," + y + "," + z + "]}"
  {
    assert "{\"" + "agents" + "\":" + "[" == "{\"agents\":[";
    var head := "{\"agents\":[";
    var list := x + "," + y + "," + z;
    assert "{\"" + "agents" + "\":" + ("[" + x + "," + y + "," + z + "]") == head + list + "]";
    assert head + list == head + x + "," + y + "," + z;
  }

  /** One agent: the one whose number was sent. */
  lemma AgentByIndexAnswer(req: Request, w: World)
    requires req.command == GET_AGENT_STATUS_BY_INDEX && !Overflows(req)
    ensures "index" !in req.params || !IsAllDigits(req.params["index"]) ==>
              Handle(req, w) == Returned(Response(req.requestId, INVALID_INPUT, "Param 'index' must be 0, 1, or 2", ""))
    ensures "index" in req.params && IsAllDigits(req.params["index"]) ==>
              var i := Value(req.params["index"]);
              Handle(req, w) == Returned(
                if i >= 3 then Response(req.requestId, INVALID_INPUT, "Param 'index' out of range [0, 2]", "")
                else if w.table.None? then Response(req.requestId, INVALID_STATE, "Shared memory not attached", "")
                else Response(req.requestId, OK, "OK", AgentLiteral(i, w.table.value.agents[i])))
  {
    hide AgentText, Value, AgentLiteral, AllDigits;
    if "index" in req.params && IsAllDigits(req.params["index"]) && w.table.Some? {
      var i := Value(req.params["index"]);
      if i < 3 {
        AgentSpelledOut(i, w.table.value.agents[i]);
      }
    }
  }

  lemma ActiveSessionsAnswer(req: Request, w: World)
    requires req.command == GET_ACTIVE_SESSIONS
    ensures Handle(req, w) == Returned(
              if w.table.None? then Response(req.requestId, INVALID_STATE, "Shared memory not attached", "")
              else Response(req.requestId, OK, "OK", "{\"active_sessions\":" + PrintInt(w.table.value.sessions) + "}"))
  {
    TableKeysSimple();
    hide SimpleText, Wrapped, PrintInt;
    if w.table.Some? {
      WrappedLiteral("active_sessions", PrintInt(w.table.value.sessions));
      assert "{\"" + "active_sessions" + "\":" == "{\"active_sessions\":";
    }
  }

  lemma PingAnswer(req: Request, w: World)
    requires req.command == PING
    ensures Handle(req, w) == Returned(
              Response(req.requestId, OK, "OK", "{\"pong\":true,\"uptime_seconds\":" + PrintInt(w.uptime) + "}"))
  {
    PingSpelled(w.uptime);
    hide ObjectText, PingFields, PrintInt;
  }

  lemma PingMembers(uptime: int)
    ensures ObjectText(PingFields(uptime), COMPACT) ==
            ['{'] + Member("pong", "true") + [','] + Member("uptime_seconds", PrintInt(uptime)) + ['}']
  {
    PingKeysSimple();
    hide PrintInt, SimpleText, Member, FieldText;
    var fs := PingFields(uptime);
    FieldSpelled(fs[0]);
    FieldSpelled(fs[1]);
    FieldsTextStep(fs);
    FieldsTextStep(fs[1..]);
    TwoParts(FieldText(fs[0], COMPACT), FieldText(fs[1], COMPACT));
  }

  lemma PingSpelled(uptime: int)
    ensures ObjectText(PingFields(uptime), COMPACT) == "{\"pong\":true,\"uptime_seconds\":" + PrintInt(uptime) + "}"
  {
    hide ObjectText, PingFields, PrintInt, Member;
    PingMembers(uptime);
    PongMember();
    UptimeMember(PrintInt(uptime));
  }

  lemma PongMember()
    ensures ['{'] + Member("pong", "true") == "{\"pong\":true"
  {
    hide Member;
    MemberLiteral(['{'], "pong", "true");
    assert ['{'] + ("\"" + "pong" + "\":") == "{\"pong\":";
    assert "{\"pong\":" + "true" == "{\"pong\":true";
  }

  lemma UptimeMember(value: string)
    ensures "{\"pong\":true" + [','] + Member("uptime_seconds", value) == "{\"pong\":true,\"uptime_seconds\":" + value
  {
    hide Member;
    NextMember("{\"pong\":true", "uptime_seconds", ",\"uptime_seconds\":", value);
    assert "{\"pong\":true" + ",\"uptime_seconds\":" == "{\"pong\":true,\"uptime_seconds\":";
  }

  /** Whatever is no command of the catalogue. */
  lemma UnknownAnswer(req: Request, w: World)
    requires req.command == UNKNOWN
    ensures Handle(req, w) == Returned(Response(req.requestId, INVALID_INPUT, "Unknown command", ""))
  {
  }

  /** Signed numbers are printed so that they can be read back. */
  lemma PrintIntExact(n: int)
    ensures n >= 0 ==> IsAllDigits(PrintInt(n)) && Value(PrintInt(n)) == n
    ensures n < 0 ==>
              var s := PrintInt(n); s != [] && s[0] == '-' && IsAllDigits(s[1..]) && Value(s[1..]) == -n
  {
    ValuePrint(if n < 0 then -n else n);
    hide Print, Value;
    if n < 0 {
      assert (['-'] + Print(-n))[1..] == Print(-n);
    }
  }
}
