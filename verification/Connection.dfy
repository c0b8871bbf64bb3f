/**
 One officer's connection: frames drive a state machine that logs in, validates the
 session before every query, and logs out, over a session store and a registry that
 other threads change too.
 */
module Connection {
  import opened Codes
  import opened Common
  import opened Framing
  import OfficerFrames
  import R = ResultEncoding

  const SESSION_SECONDS := 8 * 3600

  const MSG_TYPE_AUTH_REQUEST := 1
  const MSG_TYPE_QUERY_REQUEST := 2
  const MSG_TYPE_LOGOUT := 6

  datatype Rank = CONSTABLE | INSPECTOR | SI | DSP

  datatype Session = Session(
    officerId: int, cnic: Bytes, rank: Rank, stationId: int, beltNumber: string,
    createdAt: int, expiresAt: int, isValid: bool, token: string)

  const NO_SESSION := Session(0, [], CONSTABLE, 0, "", 0, 0, false, "")

  // ---- The clock and the two shared maps ----

  class Clock {
    var now: int

    method Read() returns (t: int)
      modifies this
      ensures t == now >= old(now)
    {
      var later: int := *;
      if later > now {
        now := later;
      }
      t := now;
    }
  }

  class SessionStore {
    var sessionMap: map<string, Session>

    method Insert(session: Session)
      modifies this
      ensures sessionMap == old(sessionMap)[session.token := session]
    {
      sessionMap := sessionMap[session.token := session];
    }

    method Validate(token: string, clock: Clock) returns (rc: ResultCode, found: Session)
      modifies clock
      ensures clock.now >= old(clock.now)
      ensures rc == if token !in sessionMap then NOT_FOUND
                    else if clock.now >= sessionMap[token].expiresAt then SESSION_EXPIRED else OK
      ensures rc == OK ==> found == sessionMap[token]
    {
      if token !in sessionMap {
        return NOT_FOUND, NO_SESSION;
      }
      var now := clock.Read();
      if now >= sessionMap[token].expiresAt {
        return SESSION_EXPIRED, NO_SESSION;
      }
      return OK, sessionMap[token];
    }

    /** A refresh changes no expiry; indeed it changes nothing in the store. */
    method Refresh(token: string, clock: Clock) returns (rc: ResultCode)
      modifies clock
      ensures clock.now >= old(clock.now)
      ensures rc == if token !in sessionMap then NOT_FOUND
                    else if clock.now >= sessionMap[token].expiresAt then SESSION_EXPIRED else OK
    {
      if token !in sessionMap {
        return NOT_FOUND;
      }
      var now := clock.Read();
      return if now >= sessionMap[token].expiresAt then SESSION_EXPIRED else OK;
    }

    method Remove(token: string) returns (rc: ResultCode)
      modifies this
      ensures rc == if token in old(sessionMap) then OK else NOT_FOUND
      ensures sessionMap == old(sessionMap) - {token}
    {
      rc := if token in sessionMap then OK else NOT_FOUND;
      sessionMap := sessionMap - {token};
    }

    /** Other threads: they never learn this token, so they can at most lose it. */
    method Others(token: string)
      modifies this
      ensures token in sessionMap ==> token in old(sessionMap) && sessionMap[token] == old(sessionMap)[token]
    {
      var next: map<string, Session> := *;
      if token in sessionMap && token in next {
        sessionMap := next[token := sessionMap[token]];
      } else {
        sessionMap := next - {token};
      }
    }
  }

  datatype Registered = Registered(officerId: int, fd: int, loginTime: int)

  class SessionManager {
    var registry: map<int, Registered>

    method RegisterSession(threadId: int, context: Registered)
      modifies this
      ensures registry == old(registry)[threadId := context]
    {
      registry := registry[threadId := context];
    }

    method UnregisterSession(threadId: int)
      modifies this
      ensures registry == old(registry) - {threadId}
    {
      registry := registry - {threadId};
    }

    /** Other threads register under their own ids. */
    method Others(threadId: int)
      modifies this
      ensures threadId in registry <==> threadId in old(registry)
      ensures threadId in registry ==> registry[threadId] == old(registry)[threadId]
    {
      var next: map<int, Registered> := *;
      if threadId in registry {
        registry := next[threadId := registry[threadId]];
      } else {
        registry := next - {threadId};
      }
    }
  }

  // ---- Logging in ----

  /** What std::stoi makes of a column; it throws on text that is no number. */
  datatype Parsed = Number(value: int) | Unparsable

  /** What the credential query says. */
  datatype LoginAnswer =
    | Unavailable(fallback: bool)   // no answer; does the fallback list have the pair?
    | NoMatch
    | Match(officerId: Parsed, rank: string, stationId: Parsed)

  datatype LoginOutcome = Returned(rc: ResultCode, session: Session) | Threw

  predicate Contains2(s: Bytes, a: byte, b: byte) {
    exists i :: 0 <= i < |s| - 1 && s[i] == a && s[i + 1] == b
  }

  /** Quotes, semicolon, backslash and NUL; `--` and the start of a comment; control
      characters in the password. */
  predicate IsRejected(cnic: Bytes, password: Bytes) {
    || (exists c :: c in cnic && c in [39, 34, 59, 92, 0])
    || Contains2(cnic, 45, 45) || Contains2(cnic, 47, 42)
    || (exists c :: c in password && (c < 32 || c == 127))
  }

  function RankOf(text: string): Option<Rank> {
    if text == "CONSTABLE" then Some(CONSTABLE)
    else if text == "INSPECTOR" then Some(INSPECTOR)
    else if text == "SI" then Some(SI)
    else if text == "DSP" then Some(DSP)
    else None
  }

  datatype Decision = Accept(officerId: int, rank: Rank, stationId: int) | Refuse(rc: ResultCode) | Fail

  /** What a login comes to; Fail stands for a throw of std::stoi. */
  function Decide(cnic: Bytes, password: Bytes, answer: LoginAnswer, token: string): (d: Decision)
    ensures d.Refuse? ==> d.rc != OK
    ensures d.Accept? ==> token != ""
  {
    if cnic == [] || password == [] || IsRejected(cnic, password) then Refuse(AUTH_FAILED)
    else match answer
      case Unavailable(fallback) => if fallback && token != "" then Accept(1, SI, 1) else Refuse(AUTH_FAILED)
      case NoMatch => Refuse(AUTH_FAILED)
      case Match(officerId, rank, stationId) =>
        if officerId.Unparsable? then Fail
        else if RankOf(rank).None? || token == "" then Refuse(INVALID_STATE)
        else if stationId.Unparsable? then Fail
        else Accept(officerId.value, RankOf(rank).value, stationId.value)
  }

  /** Texts that login passes on to the database. */
  predicate CleanTexts(cnic: Bytes, password: Bytes) {
    && cnic != [] && password != []
    && (forall i :: 0 <= i < |cnic| ==> cnic[i] !in [39, 34, 59, 92, 0])
    && (forall i :: 0 <= i < |cnic| - 1 ==> (cnic[i], cnic[i + 1]) != (45, 45) && (cnic[i], cnic[i + 1]) != (47, 42))
    && (forall i :: 0 <= i < |password| ==> 32 <= password[i] && password[i] != 127)
  }

  /** Who is let in: an officer the query names, with two numbers and one of four ranks, or
      without an answer somebody on the fallback list. */
  predicate Admitted(cnic: Bytes, password: Bytes, answer: LoginAnswer, token: string) {
    && CleanTexts(cnic, password) && token != ""
    && (answer == Unavailable(true)
        || (answer.Match? && answer.officerId.Number? && answer.stationId.Number?
            && answer.rank in ["CONSTABLE", "INSPECTOR", "SI", "DSP"]))
  }

  /** The officer, rank and station such an answer stands for. */
  predicate NamedBy(answer: LoginAnswer, officerId: int, rank: Rank, stationId: int) {
    if answer.Match? then
      && answer.officerId == Number(officerId) && answer.stationId == Number(stationId)
      && (rank == CONSTABLE <==> answer.rank == "CONSTABLE") && (rank == INSPECTOR <==> answer.rank == "INSPECTOR")
      && (rank == SI <==> answer.rank == "SI") && (rank == DSP <==> answer.rank == "DSP")
    else officerId == 1 && rank == SI && stationId == 1
  }

  lemma CleanExact(cnic: Bytes, password: Bytes)
    ensures CleanTexts(cnic, password) <==> cnic != [] && password != [] && !IsRejected(cnic, password)
  {
    if IsRejected(cnic, password) {
      if c :| c in cnic && c in [39, 34, 59, 92, 0] {
        var i :| 0 <= i < |cnic| && cnic[i] == c;
      } else if c :| c in password && (c < 32 || c == 127) {
        var i :| 0 <= i < |password| && password[i] == c;
      }
    }
    if cnic != [] && password != [] && !IsRejected(cnic, password) {
      assert forall i :: 0 <= i < |cnic| ==> cnic[i] in cnic;
      assert forall i :: 0 <= i < |password| ==> password[i] in password;
    }
  }

  lemma RankExact(text: string)
    ensures RankOf(text).Some? <==> text in ["CONSTABLE", "INSPECTOR", "SI", "DSP"]
    ensures RankOf(text) == Some(CONSTABLE) <==> text == "CONSTABLE"
    ensures RankOf(text) == Some(INSPECTOR) <==> text == "INSPECTOR"
    ensures RankOf(text) == Some(SI) <==> text == "SI"
    ensures RankOf(text) == Some(DSP) <==> text == "DSP"
  {
  }

  /** Exactly who is let in and as whom, who is refused with which code, and when the
      numbers of the answer make it throw. */
  lemma DecideExact(cnic: Bytes, password: Bytes, answer: LoginAnswer, token: string)
    ensures var d := Decide(cnic, password, answer, token);
            && (d.Accept? <==> Admitted(cnic, password, answer, token))
            && (d.Accept? ==> NamedBy(answer, d.officerId, d.rank, d.stationId))
            && (d.Fail? <==>
                  && CleanTexts(cnic, password) && answer.Match?
                  && (answer.officerId.Unparsable?
                      || (token != "" && answer.rank in ["CONSTABLE", "INSPECTOR", "SI", "DSP"]
                          && answer.stationId.Unparsable?)))
            && (d.Refuse? ==> d.rc == if CleanTexts(cnic, password) && answer.Match? then INVALID_STATE else AUTH_FAILED)
  {
    hide IsRejected, CleanTexts, RankOf;
    CleanExact(cnic, password);
    if answer.Match? {
      RankExact(answer.rank);
    }
  }

  class AuthManager {
    const store: SessionStore
    const clock: Clock

    constructor (store: SessionStore, clock: Clock)
      ensures this.store == store && this.clock == clock
    {
      this.store, this.clock := store, clock;
    }

    /** Only a successful login puts a session into the store, and then exactly the one
        it returns, good for eight hours from now. */
    method Login(cnic: Bytes, password: Bytes, answer: LoginAnswer, token: string) returns (r: LoginOutcome)
      modifies store, clock
      ensures clock.now >= old(clock.now)
      ensures match Decide(cnic, password, answer, token)
              case Fail => r.Threw?
              case Refuse(rc) => r == Returned(rc, NO_SESSION)
              case Accept(id, rank, station) =>
                r == Returned(OK, Session(id, cnic, rank, station, "", clock.now, clock.now + SESSION_SECONDS, true, token))
      ensures r.Returned? && r.rc == OK <==> Admitted(cnic, password, answer, token)
      ensures r.Returned? && r.rc == OK ==>
                var s := r.session;
                && NamedBy(answer, s.officerId, s.rank, s.stationId) && s.cnic == cnic && s.token == token && s.isValid
                && s.createdAt == clock.now && s.expiresAt == clock.now + 28800
      ensures r.Returned? && r.rc != OK ==>
                r.rc == if CleanTexts(cnic, password) && answer.Match? then INVALID_STATE else AUTH_FAILED
      ensures store.sessionMap == if r.Returned? && r.rc == OK then old(store.sessionMap)[token := r.session]
                                  else old(store.sessionMap)
      ensures r.Returned? && r.rc == OK ==> token != ""
    {
      hide IsRejected, RankOf, Admitted, NamedBy, CleanTexts;
      DecideExact(cnic, password, answer, token);
      if cnic == [] || password == [] || IsRejected(cnic, password) {
        return Returned(AUTH_FAILED, NO_SESSION);
      }
      if answer.Unavailable? {
        if answer.fallback && token != "" {
          var now := clock.Read();
          var session := Session(1, cnic, SI, 1, "", now, now + SESSION_SECONDS, true, token);
          store.Insert(session);
          return Returned(OK, session);
        }
        return Returned(AUTH_FAILED, NO_SESSION);
      }
      if answer.NoMatch? {
        return Returned(AUTH_FAILED, NO_SESSION);
      }
      if answer.officerId.Unparsable? {
        return Threw;
      }
      var rank := RankOf(answer.rank);
      if rank.None? || token == "" {
        return Returned(INVALID_STATE, NO_SESSION);
      }
      var now := clock.Read();
      if answer.stationId.Unparsable? {
        return Threw;
      }
      var session := Session(answer.officerId.value, cnic, rank.value, answer.stationId.value, "",
                             now, now + SESSION_SECONDS, true, token);
      store.Insert(session);
      return Returned(OK, session);
    }

    method ValidateToken(token: string) returns (rc: ResultCode, found: Session)
      modifies clock
      ensures clock.now >= old(clock.now)
      ensures rc == if token == "" then INVALID_INPUT
                    else if token !in store.sessionMap then NOT_FOUND
                    else if clock.now >= store.sessionMap[token].expiresAt then SESSION_EXPIRED else OK
      ensures rc == OK ==> found == store.sessionMap[token]
    {
      if token == "" {
        return INVALID_INPUT, NO_SESSION;
      }
      rc, found := store.Validate(token, clock);
    }
  }

  // ---- What a connection may do, as an automaton over its events ----

  datatype Event =
    | LoginOk(session: Session, time: int)
    | LoginRefused
    | DuplicateLogin
    | NotAuthenticated
    | Validated(rc: ResultCode, time: int)
    | EmptyQuery
    | Executed(query: Bytes, officer: int)
    | Refreshed(rc: ResultCode)
    | LoggedOut(rc: ResultCode)
    | UnknownType
    | Crashed

  datatype Phase =
    | Waiting
    | In(session: Session)
    | Checked(session: Session)
    | Ran(session: Session)
    | Over
    | Broken

  predicate GoodLogin(s: Session, time: int) {
    s.createdAt == time && s.expiresAt == time + SESSION_SECONDS && s.token != "" && s.beltNumber == ""
  }

  function Next(p: Phase, e: Event): Phase {
    match p
    case Waiting => (
      match e
      case LoginOk(s, t) => if !GoodLogin(s, t) then Broken else if s.officerId > 0 then In(s) else Waiting
      case LoginRefused => Waiting
      case NotAuthenticated => Waiting
      case Crashed => Over
      case _ => Broken
    )
    case In(s) => (
      match e
      case DuplicateLogin => p
      case Validated(rc, t) => if rc != OK then Over else if s.createdAt <= t < s.expiresAt then Checked(s) else Broken
      case LoggedOut(_) => Over
      case UnknownType => p
      case _ => Broken
    )
    case Checked(s) => (
      match e
      case EmptyQuery => In(s)
      case Executed(q, officer) => if q != [] && officer == s.officerId then Ran(s) else Broken
      case _ => Broken
    )
    case Ran(s) => if e.Refreshed? then In(s) else Broken
    case Over => Broken
    case Broken => Broken
  }

  function After(events: seq<Event>): Phase {
    if events == [] then Waiting else Next(After(events[..|events| - 1]), events[|events| - 1])
  }

  lemma {:induction false} LegalPrefix(events: seq<Event>, i: nat)
    requires After(events) != Broken && i <= |events|
    ensures After(events[..i]) != Broken
  {
    if i == |events| {
      assert events[..i] == events;
    } else {
      var front := events[..|events| - 1];
      LegalPrefix(front, i);
      assert front[..i] == events[..i];
    }
  }

  lemma AfterNext(events: seq<Event>, i: nat)
    requires i < |events|
    ensures After(events[..i + 1]) == Next(After(events[..i]), events[i])
  {
    var up := events[..i + 1];
    assert up[..|up| - 1] == events[..i];
  }

  lemma AfterAppend(events: seq<Event>, e: Event)
    ensures After(events + [e]) == Next(After(events), e)
  {
    assert (events + [e])[..|events|] == events;
  }

  predicate Began(events: seq<Event>, j: nat, s: Session) {
    j < |events| && events[j].LoginOk? && events[j].session == s && GoodLogin(s, events[j].time) && s.officerId > 0
    && forall k :: j < k < |events| ==> !events[k].LoginOk? && !events[k].LoggedOut?
  }

  /** While a session is open, its login is the last one in the events. */
  lemma {:induction false} OpenSession(events: seq<Event>) returns (j: nat)
    requires After(events).In? || After(events).Checked? || After(events).Ran?
    ensures Began(events, j, After(events).session)
  {
    var front, e := events[..|events| - 1], events[|events| - 1];
    if After(front).Waiting? {
      j := |front|;
    } else {
      j := OpenSession(front);
    }
  }

  /** Every query is preceded immediately by a successful validation, and before that by
      a successful login of the same officer less than 28800 seconds earlier with no
      other login and no logout since. */
  lemma QueryGuarded(events: seq<Event>, i: nat) returns (j: nat)
    requires After(events) != Broken && i < |events| && events[i].Executed?
    ensures i > 0 && events[i - 1].Validated? && events[i - 1].rc == OK
    ensures j < i - 1 && events[j].LoginOk? && events[j].session.officerId == events[i].officer > 0
    ensures events[j].time <= events[i - 1].time < events[j].time + 28800
    ensures forall k :: j < k < i ==> !events[k].LoginOk? && !events[k].LoggedOut?
  {
    hide Next, After;
    LegalPrefix(events, i + 1);
    AfterNext(events, i);
    LegalPrefix(events, i);
    OnlyCheckedRuns(After(events[..i]), events[i]);
    CheckedByValidation(events[..i]);
    var before := events[..i - 1];
    assert events[..i][..i - 1] == before && events[..i][i - 1] == events[i - 1];
    j := OpenSession(before);
    assert before[j] == events[j];
    forall k | j < k < i ensures !events[k].LoginOk? && !events[k].LoggedOut? {
      assert k < i - 1 ==> events[k] == before[k];
    }
  }

  lemma OnlyCheckedRuns(p: Phase, e: Event)
    requires Next(p, e) != Broken && e.Executed?
    ensures p.Checked? && e.officer == p.session.officerId
  {
  }

  lemma CheckedByValidation(events: seq<Event>)
    requires After(events).Checked?
    ensures events != []
    ensures var front, e := events[..|events| - 1], events[|events| - 1];
            After(front) == In(After(events).session) && e.Validated? && e.rc == OK
            && After(events).session.createdAt <= e.time < After(events).session.expiresAt
  {
  }

  /** Nothing is processed after a logout, a failed validation or a crash. */
  lemma {:induction false} NothingAfterTheEnd(events: seq<Event>, i: nat)
    requires After(events) != Broken && i < |events|
    requires events[i].LoggedOut? || events[i].Crashed? || (events[i].Validated? && events[i].rc != OK)
    ensures i == |events| - 1
  {
    LegalPrefix(events, i + 1);
    AfterNext(events, i);
    if i + 1 < |events| {
      LegalPrefix(events, i + 2);
      AfterNext(events, i + 1);
    }
  }

  // ---- The loop ----

  /** A frame as read, with what the world answers if it is a login. */
  datatype Request = Request(msgType: nat, payload: Bytes, answer: LoginAnswer, token: string)

  datatype Verdict = Continue | Stop | Throw

  /** The events one frame leads to. */
  ghost predicate Fits(r: Request, g: seq<Event>) {
    if r.msgType == MSG_TYPE_AUTH_REQUEST then g == [DuplicateLogin] || (|g| == 1 && FitsLogin(r, g[0]))
    else if g == [NotAuthenticated] then true
    else if r.msgType == MSG_TYPE_QUERY_REQUEST then FitsQuery(Trimmed(r.payload), g)
    else if r.msgType == MSG_TYPE_LOGOUT then |g| == 1 && g[0].LoggedOut?
    else g == [UnknownType]
  }

  predicate FitsLogin(r: Request, e: Event) {
    match R.SplitLogin(r.payload)
    case None => e == LoginRefused
    case Some(c) => (
      match Decide(c.cnic, c.password, r.answer, r.token)
      case Fail => e == Crashed
      case Refuse(_) => e == LoginRefused
      case Accept(id, rank, station) =>
        e.LoginOk? && e.session == Session(id, c.cnic, rank, station, "", e.time, e.time + SESSION_SECONDS, true, r.token)
    )
  }

  /** A validation; if it succeeds, the query and the refresh, unless it is empty. */
  predicate FitsQuery(query: Bytes, g: seq<Event>) {
    && g != [] && g[0].Validated?
    && (if g[0].rc != OK then |g| == 1
        else if query == [] then g == [g[0], EmptyQuery]
        else |g| == 3 && g[1].Executed? && g[1].query == query && g[2].Refreshed?)
  }

  /** The groups make up the events, one group for each handled frame. */
  ghost predicate Explain(frames: seq<Request>, groups: seq<seq<Event>>, events: seq<Event>) {
    && |groups| <= |frames| && Flat(groups) == events
    && forall i :: 0 <= i < |groups| ==> Fits(frames[i], groups[i])
  }

  function Flat(groups: seq<seq<Event>>): seq<Event> {
    if groups == [] then [] else Flat(groups[..|groups| - 1]) + groups[|groups| - 1]
  }

  lemma ExplainMore(frames: seq<Request>, groups: seq<seq<Event>>, events: seq<Event>, g: seq<Event>)
    requires Explain(frames, groups, events) && |groups| < |frames| && Fits(frames[|groups|], g)
    ensures Explain(frames, groups + [g], events + g)
  {
    hide Fits;
    var more := groups + [g];
    assert more[..|more| - 1] == groups && more[|groups|] == g;
    assert forall i :: 0 <= i < |groups| ==> more[i] == groups[i];
  }

  // ---- What each frame does ----

  /** The query a payload holds: all of it but one trailing NUL. */
  predicate HoldsQuery(payload: Bytes, query: Bytes) {
    if payload != [] && payload[|payload| - 1] == 0 then payload == query + [0] else payload == query
  }

  lemma TrimmedExact(payload: Bytes, query: Bytes)
    ensures Trimmed(payload) == query <==> HoldsQuery(payload, query)
  {
    if payload != [] && payload[|payload| - 1] == 0 {
      assert payload == payload[..|payload| - 1] + [0];
      assert payload == query + [0] ==> payload[..|payload| - 1] == query;
    }
  }

  /** What a frame may lead to while nobody is logged in, and within a session. */
  ghost predicate Means(r: Request, before: Phase, g: seq<Event>) {
    if r.msgType == 1 then
      if before.In? then g == [DuplicateLogin] else |g| == 1 && (g[0].LoginOk? || g[0].LoginRefused? || g[0].Crashed?)
    else if before.Waiting? then g == [NotAuthenticated]
    else if r.msgType == 2 then
      && g != [] && g[0].Validated?
      && (g[0].rc != OK ==> |g| == 1)
      && (g[0].rc == OK ==>
            if HoldsQuery(r.payload, []) then g == [g[0], EmptyQuery]
            else |g| == 3 && g[1].Executed? && HoldsQuery(r.payload, g[1].query) && g[2].Refreshed?
                 && before.In? && g[1].officer == before.session.officerId)
    else if r.msgType == 6 then |g| == 1 && g[0].LoggedOut?
    else g == [UnknownType]
  }

  lemma AfterOne(events: seq<Event>, a: Event)
    ensures After(events + [a]) == Next(After(events), a)
  {
    hide Next, After;
    AfterAppend(events, a);
  }

  lemma AfterTwo(events: seq<Event>, a: Event, b: Event)
    ensures After(events + [a, b]) == Next(Next(After(events), a), b)
  {
    hide Next, After;
    AfterOne(events, a);
    AfterOne(events + [a], b);
    assert events + [a] + [b] == events + [a, b];
  }

  lemma AfterThree(events: seq<Event>, a: Event, b: Event, c: Event)
    ensures After(events + [a, b, c]) == Next(Next(Next(After(events), a), b), c)
  {
    hide Next, After;
    AfterTwo(events, a, b);
    AfterOne(events + [a, b], c);
    assert events + [a, b] + [c] == events + [a, b, c];
  }

  /** One group, between two turns of the loop. */
  lemma GroupMeans(events: seq<Event>, r: Request, g: seq<Event>)
    requires Fits(r, g) && After(events + g) != Broken
    requires After(events).Waiting? || After(events).In? || After(events).Over?
    ensures !After(events).Over? && Means(r, After(events), g)
    ensures var p := After(events + g); p.Waiting? || p.In? || p.Over?
  {
    hide After, FitsLogin, HoldsQuery;
    TrimmedExact(r.payload, []);
    FitsSize(r, g);
    if |g| == 1 {
      AfterOne(events, g[0]);
      assert g == [g[0]];
      LoginEvents(r, g[0]);
    } else if |g| == 2 {
      AfterTwo(events, g[0], g[1]);
      assert g == [g[0], g[1]];
    } else {
      AfterThree(events, g[0], g[1], g[2]);
      assert g == [g[0], g[1], g[2]];
      TrimmedExact(r.payload, g[1].query);
    }
  }

  lemma FitsSize(r: Request, g: seq<Event>)
    requires Fits(r, g)
    ensures 1 <= |g| <= 3 && (|g| == 3 ==> g[1].Executed? && r.msgType == 2) && (|g| == 2 ==> r.msgType == 2)
  {
    hide FitsLogin, Trimmed;
  }

  lemma LoginEvents(r: Request, e: Event)
    ensures FitsLogin(r, e) ==> e.LoginOk? || e.LoginRefused? || e.Crashed?
  {
    hide Decide, R.SplitLogin;
  }

  lemma FlatStep(groups: seq<seq<Event>>, i: nat)
    requires i < |groups|
    ensures Flat(groups[..i + 1]) == Flat(groups[..i]) + groups[i]
  {
    assert groups[..i + 1][..i] == groups[..i];
  }

  lemma {:induction false} FlatPrefix(groups: seq<seq<Event>>, i: nat)
    requires i <= |groups|
    ensures Flat(groups[..i]) <= Flat(groups)
  {
    if i == |groups| {
      assert groups[..i] == groups;
    } else {
      var front := groups[..|groups| - 1];
      FlatPrefix(front, i);
      assert front[..i] == groups[..i];
    }
  }

  lemma GroupLegal(groups: seq<seq<Event>>, i: nat)
    requires i <= |groups| && After(Flat(groups)) != Broken
    ensures After(Flat(groups[..i])) != Broken
  {
    hide After, Next;
    FlatPrefix(groups, i);
    var n := |Flat(groups[..i])|;
    LegalPrefix(Flat(groups), n);
    assert Flat(groups)[..n] == Flat(groups[..i]);
  }

  lemma {:induction false} BetweenTurns(frames: seq<Request>, groups: seq<seq<Event>>, events: seq<Event>, i: nat)
    requires Explain(frames, groups, events) && After(events) != Broken && i <= |groups|
    ensures var p := After(Flat(groups[..i])); p.Waiting? || p.In? || p.Over?
  {
    if i == 0 {
      assert groups[..0] == [];
    } else {
      hide After, Fits;
      BetweenTurns(frames, groups, events, i - 1);
      FlatStep(groups, i - 1);
      GroupLegal(groups, i);
      GroupMeans(Flat(groups[..i - 1]), frames[i - 1], groups[i - 1]);
    }
  }

  /** Every handled frame does exactly what its type says, given whether a session is open
      when it comes: that is decided by the frames before it. */
  lemma FrameMeans(frames: seq<Request>, groups: seq<seq<Event>>, events: seq<Event>, i: nat)
    requires Explain(frames, groups, events) && After(events) != Broken && i < |groups|
    ensures var before := After(Flat(groups[..i]));
            (before.Waiting? || before.In?) && Means(frames[i], before, groups[i])
  {
    hide After, Fits, Means;
    BetweenTurns(frames, groups, events, i);
    FlatStep(groups, i);
    GroupLegal(groups, i + 1);
    GroupMeans(Flat(groups[..i]), frames[i], groups[i]);
  }

  /** And every login that succeeds comes from a frame that carries the two texts, for an
      answer that admits them, and is that of the officer the answer names. */
  lemma LoginMeans(frames: seq<Request>, groups: seq<seq<Event>>, events: seq<Event>, i: nat) returns (c: R.Credentials)
    requires Explain(frames, groups, events) && i < |groups| && |groups[i]| == 1 && groups[i][0].LoginOk?
    ensures frames[i].msgType == 1 && R.LoginBytes(c) <= frames[i].payload && R.NulFree(c.cnic) && R.NulFree(c.password)
    ensures var r, s := frames[i], groups[i][0].session;
            && Admitted(c.cnic, c.password, r.answer, r.token)
            && NamedBy(r.answer, s.officerId, s.rank, s.stationId)
            && s.cnic == c.cnic && s.token == r.token
            && s.createdAt == groups[i][0].time && s.expiresAt == s.createdAt + 28800
  {
    hide Decide, R.SplitLogin, Admitted, NamedBy, Trimmed;
    var r := frames[i];
    assert Fits(r, groups[i]) && FitsLogin(r, groups[i][0]);
    c := R.SplitLogin(r.payload).value;
    R.SplitExact(r.payload, c);
    DecideExact(c.cnic, c.password, r.answer, r.token);
  }

  class Worker {
    const fd: int
    const threadId: int
    const auth: AuthManager
    const manager: SessionManager
    var session: Session
    var authenticated: bool
    var events: seq<Event>   // what happened on this connection

    constructor (fd: int, threadId: int, auth: AuthManager, manager: SessionManager)
      requires threadId !in manager.registry
      ensures Valid() && !authenticated && events == []
      ensures this.threadId == threadId && this.auth == auth && this.manager == manager
    {
      this.fd, this.threadId, this.auth, this.manager := fd, threadId, auth, manager;
      session, authenticated, events := NO_SESSION, false, [];
    }

    /** The registry holds this thread's entry exactly while it is authenticated, and
        the store, if it still has the session, has it unchanged. */
    ghost predicate Valid()
      reads this, auth.store, auth.clock, manager
    {
      && After(events) == (if authenticated then In(session) else Waiting)
      && (authenticated <==> threadId in manager.registry)
      && (authenticated ==>
            && manager.registry[threadId] == Registered(session.officerId, fd, session.createdAt)
            && GoodLogin(session, session.createdAt) && session.createdAt <= auth.clock.now
            && (session.token in auth.store.sessionMap ==> auth.store.sessionMap[session.token] == session))
    }

    /** The officer's number.  The belt number is never set, so none is
        ever parsed. */
    function OfficerId(): int
      reads this
      requires session.beltNumber == ""
    {
      session.officerId
    }

    /** Another event in the history. */
    method Record(e: Event)
      modifies this`events
      ensures events == old(events) + [e]
      ensures After(events) == Next(old(After(events)), e)
    {
      AfterAppend(events, e);
      events := events + [e];
    }

    method HandleLogin(r: Request) returns (v: Verdict)
      requires Valid() && !authenticated
      modifies this`session, this`authenticated, this`events, auth.store, auth.clock, manager
      ensures v.Continue? ==> Valid() && old(events) < events
      ensures v.Throw? ==> After(events).Over? && old(events) < events
      ensures !v.Stop?
      ensures |events| == |old(events)| + 1 && FitsLogin(r, events[|old(events)|])
    {
      hide After, R.SplitLogin, Decide, Admitted, NamedBy, CleanTexts;
      var c := R.SplitLogin(r.payload);
      if c.None? {
        session := NO_SESSION;
        Record(LoginRefused);
        return Continue;
      }
      var outcome := auth.Login(c.value.cnic, c.value.password, r.answer, r.token);
      if outcome.Threw? {
        Record(Crashed);
        return Throw;
      }
      if outcome.rc != OK {
        session := NO_SESSION;
        Record(LoginRefused);
        return Continue;
      }
      session := outcome.session;
      Record(LoginOk(session, auth.clock.now));
      if OfficerId() > 0 {
        authenticated := true;
        manager.RegisterSession(threadId, Registered(OfficerId(), fd, session.createdAt));
      }
      return Continue;
    }

    /** Is the session still good?  The store's copy replaces the local one. */
    method CheckSession() returns (rc: ResultCode)
      requires Valid() && authenticated
      modifies this`session, this`events, auth.store, auth.clock
      ensures |events| == |old(events)| + 1 && events[..|old(events)|] == old(events)
      ensures events[|old(events)|].Validated? && events[|old(events)|].rc == rc
      ensures rc == SESSION_EXPIRED ==> events[|old(events)|].time >= old(session.createdAt) + SESSION_SECONDS
      ensures session == old(session) && auth.clock.now >= old(auth.clock.now)
      ensures session.token in auth.store.sessionMap ==> auth.store.sessionMap[session.token] == session
      ensures After(events) == if rc == OK then Checked(session) else Over
    {
      hide After, Decide;
      auth.store.Others(session.token);
      var found;
      rc, found := auth.ValidateToken(session.token);
      Record(Validated(rc, auth.clock.now));
      if rc == OK {
        session := found;
      }
    }

    method HandleQuery(payload: Bytes) returns (v: Verdict)
      requires Valid() && authenticated
      modifies this`session, this`events, auth.store, auth.clock
      ensures v.Continue? ==> Valid() && authenticated && session == old(session)
      ensures v.Stop? ==> After(events).Over?
      ensures !v.Throw? && old(events) < events && events[|old(events)|].Validated?
      ensures var first := events[|old(events)|];
              && (v.Continue? <==> first.rc == OK)
              && (first.rc == SESSION_EXPIRED ==> first.time >= old(session.createdAt) + SESSION_SECONDS)
              && (if first.rc != OK then events == old(events) + [first]
                  else if Trimmed(payload) == [] then events == old(events) + [first, EmptyQuery]
                  else |events| == |old(events)| + 3 && events[|old(events)| + 2].Refreshed?
                       && events[|old(events)| + 1] == Executed(Trimmed(payload), session.officerId))
    {
      hide After, Decide;
      var rc := CheckSession();
      if rc != OK {
        return Stop;
      }
      var query := payload;
      if query != [] && query[|query| - 1] == 0 {
        query := query[..|query| - 1];
      }
      if query == [] {
        Record(EmptyQuery);
        return Continue;
      }
      RunQuery(query);
      return Continue;
    }

    /** The query itself, opaque here, and the refresh after it. */
    method RunQuery(query: Bytes)
      requires authenticated && query != [] && After(events) == Checked(session) && session.beltNumber == ""
      requires session.token in auth.store.sessionMap ==> auth.store.sessionMap[session.token] == session
      modifies this`events, auth.store, auth.clock
      ensures After(events) == In(session) && auth.clock.now >= old(auth.clock.now)
      ensures session.token in auth.store.sessionMap ==> auth.store.sessionMap[session.token] == session
      ensures |events| == |old(events)| + 2 && events[|old(events)| + 1].Refreshed?
      ensures events[..|old(events)| + 1] == old(events) + [Executed(query, session.officerId)]
    {
      hide After;
      Record(Executed(query, OfficerId()));
      auth.store.Others(session.token);
      var rc := auth.store.Refresh(session.token, auth.clock);
      Record(Refreshed(rc));
    }

    method HandleLogout() returns (v: Verdict)
      requires Valid() && authenticated
      modifies this`events, auth.store
      ensures v.Stop? && After(events).Over?
      ensures session.token !in auth.store.sessionMap
      ensures |events| == |old(events)| + 1 && old(events) < events && events[|old(events)|].LoggedOut?
    {
      hide After;
      auth.store.Others(session.token);
      var rc := auth.store.Remove(session.token);
      Record(LoggedOut(rc));
      return Stop;
    }

    /** One turn of the loop. */
    method HandleFrame(r: Request) returns (v: Verdict)
      requires Valid()
      modifies this`session, this`authenticated, this`events, auth.store, auth.clock, manager
      ensures old(events) < events && Fits(r, events[|old(events)|..])
      ensures v.Continue? ==> Valid()
      ensures v.Stop? ==> After(events).Over? && authenticated
      ensures v.Throw? ==> After(events).Over?
    {
      hide After, FitsLogin;
      manager.Others(threadId);
      if r.msgType == MSG_TYPE_AUTH_REQUEST {
        if authenticated {
          Record(DuplicateLogin);
          return Continue;
        }
        v := HandleLogin(r);
        return v;
      }
      if !authenticated {
        Record(NotAuthenticated);
        return Continue;
      }
      if r.msgType == MSG_TYPE_QUERY_REQUEST {
        v := HandleQuery(r.payload);
        return v;
      }
      if r.msgType == MSG_TYPE_LOGOUT {
        v := HandleLogout();
        return v;
      }
      Record(UnknownType);
      return Continue;
    }

    /** The loop: until a frame cannot be read, a handler stops it, or one throws. */
    method ProcessClientRequests(frames: seq<Request>) returns (threw: bool, ghost groups: seq<seq<Event>>)
      requires Valid() && events == []
      modifies this`session, this`authenticated, this`events, auth.store, auth.clock, manager
      ensures After(events) != Broken && Explain(frames, groups, events)
      ensures |groups| < |frames| ==> After(events).Over? || |frames[|groups|].payload| > 65528
      ensures forall i :: 0 <= i < |groups| ==> |frames[i].payload| <= 65528
      ensures !threw ==> threadId !in manager.registry
    {
      hide After, Fits;
      groups := [];
      for i := 0 to |frames|
        invariant Valid() && |groups| == i && Explain(frames, groups, events)
        invariant forall j :: 0 <= j < i ==> |frames[j].payload| <= 65528
      {
        ghost var before := events;
        if TooLong(frames[i]) {
          break;
        }
        var v := HandleFrame(frames[i]);
        ghost var g := events[|before|..];
        assert before + g == events;
        ExplainMore(frames, groups, before, g);
        groups := groups + [g];
        if v.Throw? {
          return true, groups;
        }
        if v.Stop? {
          break;
        }
      }
      if authenticated {
        manager.UnregisterSession(threadId);
      }
      return false, groups;
    }

    /** The whole task: on every path the thread's entry is gone at the end. */
    method ProcessTask(frames: seq<Request>) returns (ghost groups: seq<seq<Event>>)
      requires Valid() && !authenticated && events == []
      modifies this`session, this`authenticated, this`events, auth.store, auth.clock, manager
      ensures After(events) != Broken && Explain(frames, groups, events)
      ensures |groups| < |frames| ==> After(events).Over? || |frames[|groups|].payload| > 65528
      ensures forall i :: 0 <= i < |groups| ==> |frames[i].payload| <= 65528
      ensures threadId !in manager.registry
    {
      hide After, Explain;
      var threw;
      threw, groups := ProcessClientRequests(frames);
      if threw {
        manager.UnregisterSession(threadId);
      }
    }
  }

  /** readFrame refuses it. */
  predicate TooLong(r: Request) {
    |r.payload| > OfficerFrames.MAX_FRAME_SIZE - OfficerFrames.FRAME_HEADER_SIZE
  }

  /** A query's text: one trailing NUL is dropped. */
  function Trimmed(payload: Bytes): Bytes {
    if payload != [] && payload[|payload| - 1] == 0 then payload[..|payload| - 1] else payload
  }
}
