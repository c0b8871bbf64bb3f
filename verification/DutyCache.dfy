/**
 The duty-status cache: a value may be served for 300 seconds from a map guarded by a
 read-write lock.  The first half is one thread's view, a class; the second half runs
 any number of threads against a clock and a database that change under them.
 */
module DutyCache {
  import opened Codes

  const TTL_SECONDS := 300

  /** What the status query answers at one instant. */
  datatype Answer = Row(text: string) | NoRow | Failure

  datatype Verdict = Verdict(rc: ResultCode, active: bool)

  predicate Truthy(text: string) {
    text == "true" || text == "t" || text == "1"
  }

  /** The status an answer stands for; without a row `active` means nothing. */
  function VerdictOf(a: Answer): Verdict {
    match a
    case Row(text) => Verdict(OK, Truthy(text))
    case NoRow => Verdict(NOT_FOUND, false)
    case Failure => Verdict(DB_ERROR, false)
  }

  /** What the database says of an officer: on duty or not, unknown, or nothing at all. */
  predicate Says(a: Answer, v: Verdict) {
    match v.rc
    case OK => a.Row? && (v.active <==> a.text in ["true", "t", "1"])
    case NOT_FOUND => a.NoRow? && !v.active
    case DB_ERROR => a.Failure? && !v.active
    case _ => false
  }

  lemma VerdictExact(a: Answer, v: Verdict)
    ensures VerdictOf(a) == v <==> Says(a, v)
  {
    if a.Row? {
      TruthyTexts(a.text);
    }
  }

  lemma TruthyTexts(text: string)
    ensures Truthy(text) <==> text in ["true", "t", "1"]
  {
  }

  /** officer_status_enum, the type of the column the query reads. */
  const OFFICER_STATUSES := ["ACTIVE", "SUSPENDED", "ON_LEAVE", "RETIRED", "TERMINATED"]

  /** None of its values is one of the three texts that count as on duty. */
  lemma NoStatusIsOnDuty(text: string)
    requires text in OFFICER_STATUSES
    ensures VerdictOf(Row(text)) == Verdict(OK, false)
  {
    assert text[0] in "ASORT";
  }

  datatype Entry = Entry(isActive: bool, cachedAt: int)

  predicate Fresh(cache: map<int, Entry>, officer: int, now: int) {
    officer in cache && now - cache[officer].cachedAt < TTL_SECONDS
  }

  function Refreshed(cache: map<int, Entry>, officer: int, now: int, v: Verdict): map<int, Entry> {
    if v.rc == OK then cache[officer := Entry(v.active, now)] else cache
  }

  class DutyCache {
    var cache: map<int, Entry>

    constructor ()
      ensures cache == map[]
    {
      cache := map[];
    }

    /** One whole call when no other thread interferes; `answer` is what the database
        says when, and if, it is asked. */
    method Check(officer: int, now: int, answer: Answer) returns (v: Verdict, asked: bool)
      modifies this
      ensures asked <==> !Fresh(old(cache), officer, now)
      ensures v == if asked then VerdictOf(answer) else Verdict(OK, old(cache)[officer].isActive)
      ensures asked ==> Says(answer, v)
      ensures cache == if asked && answer.Row? then old(cache)[officer := Entry(v.active, now)] else old(cache)
      ensures cache == if asked then Refreshed(old(cache), officer, now, v) else old(cache)
    {
      VerdictExact(answer, VerdictOf(answer));
      hide Says;
      if officer in cache {
        if now - cache[officer].cachedAt < TTL_SECONDS {
          return Verdict(OK, cache[officer].isActive), false;
        }
      }
      match answer {
        case Row(text) =>
          v := Verdict(OK, text == "true" || text == "t" || text == "1");
          cache := cache[officer := Entry(v.active, now)];
        case NoRow => v := Verdict(NOT_FOUND, false);
        case Failure => v := Verdict(DB_ERROR, false);
      }
      asked := true;
    }

    method Invalidate(officer: int)
      modifies this
      ensures cache == old(cache) - {officer}
    {
      cache := cache - {officer};
    }
  }

  // ---- Many threads ----

  /** Where a thread is.  Between Look and Lock a check holds no lock. */
  datatype Pc =
    | Idle
    | Started | Reading | Missed | Writing | Queried | Returned
    | WantErase | Erasing

  datatype Thread = Thread(
    pc: Pc,
    officer: int,
    start: int,       // the clock when the check began
    began: nat,       // how many steps had happened then
    floor: int,       // the last step by then that erased this officer's entry
    verdict: Verdict
  )

  datatype Moment = Moment(now: int, db: map<int, Answer>)

  datatype State = State(
    now: int,
    db: map<int, Answer>,
    cache: map<int, Entry>,
    threads: seq<Thread>,
    // history
    past: seq<Moment>,           // one moment for every step taken
    erasedAt: map<int, nat>      // the step that last erased an officer's entry
  )

  datatype Label =
    | Clock(seconds: nat)
    | Change(db: map<int, Answer>)
    | Begin(t: nat, officer: int)
    | ReadLock(t: nat)
    | Look(t: nat)
    | WriteLock(t: nat)
    | Query(t: nat)
    | Store(t: nat)
    | BeginErase(t: nat, officer: int)
    | EraseLock(t: nat)
    | Erase(t: nat)

  function Ask(db: map<int, Answer>, officer: int): Answer {
    if officer in db then db[officer] else NoRow
  }

  function LastErase(s: State, officer: int): int {
    if officer in s.erasedAt then s.erasedAt[officer] else -1
  }

  predicate Exclusive(pc: Pc) {
    pc == Writing || pc == Queried || pc == Erasing
  }

  predicate NoWriter(s: State) {
    forall i :: 0 <= i < |s.threads| ==> !Exclusive(s.threads[i].pc)
  }

  predicate NoReader(s: State) {
    forall i :: 0 <= i < |s.threads| ==> s.threads[i].pc != Reading
  }

  predicate At(s: State, t: nat, pc: Pc) {
    t < |s.threads| && s.threads[t].pc == pc
  }

  predicate Enabled(s: State, l: Label) {
    match l
    case Clock(_) => true
    case Change(_) => true
    case Begin(t, _) => At(s, t, Idle) || At(s, t, Returned)
    case ReadLock(t) => At(s, t, Started) && NoWriter(s)
    case Look(t) => At(s, t, Reading)
    case WriteLock(t) => At(s, t, Missed) && NoWriter(s) && NoReader(s)
    case Query(t) => At(s, t, Writing)
    case Store(t) => At(s, t, Queried)
    case BeginErase(t, _) => At(s, t, Idle) || At(s, t, Returned)
    case EraseLock(t) => At(s, t, WantErase) && NoWriter(s) && NoReader(s)
    case Erase(t) => At(s, t, Erasing)
  }

  function Set(s: State, t: nat, th: Thread): State
    requires t < |s.threads|
  {
    s.(threads := s.threads[t := th])
  }

  function Effect(s: State, l: Label): State
    requires Enabled(s, l)
  {
    match l
    case Clock(seconds) => s.(now := s.now + seconds)
    case Change(db) => s.(db := db)
    case Begin(t, o) =>
      Set(s, t, Thread(Started, o, s.now, |s.past|, LastErase(s, o), Verdict(OK, false)))
    case ReadLock(t) => Set(s, t, s.threads[t].(pc := Reading))
    case Look(t) =>
      var th := s.threads[t];
      if Fresh(s.cache, th.officer, th.start)
      then Set(s, t, th.(pc := Returned, verdict := Verdict(OK, s.cache[th.officer].isActive)))
      else Set(s, t, th.(pc := Missed))
    case WriteLock(t) => Set(s, t, s.threads[t].(pc := Writing))
    case Query(t) =>
      var th := s.threads[t];
      Set(s, t, th.(pc := Queried, verdict := VerdictOf(Ask(s.db, th.officer))))
    case Store(t) =>
      var th := s.threads[t];
      Set(s, t, th.(pc := Returned)).(cache := Refreshed(s.cache, th.officer, th.start, th.verdict))
    case BeginErase(t, o) => Set(s, t, Thread(WantErase, o, s.now, |s.past|, LastErase(s, o), Verdict(OK, false)))
    case EraseLock(t) => Set(s, t, s.threads[t].(pc := Erasing))
    case Erase(t) =>
      var o := s.threads[t].officer;
      Set(s, t, s.threads[t].(pc := Idle)).(cache := s.cache - {o}, erasedAt := s.erasedAt[o := |s.past|])
  }

  function Apply(s: State, l: Label): State
    requires Enabled(s, l)
  {
    Effect(s, l).(past := s.past + [Moment(s.now, s.db)])
  }

  predicate IsRun(s: State, ls: seq<Label>)
    decreases |ls|
  {
    ls == [] || (Enabled(s, ls[0]) && IsRun(Apply(s, ls[0]), ls[1..]))
  }

  function Run(s: State, ls: seq<Label>): State
    requires IsRun(s, ls)
    decreases |ls|
  {
    if ls == [] then s else Run(Apply(s, ls[0]), ls[1..])
  }

  predicate Initial(s: State) {
    && s.cache == map[] && s.past == [] && s.erasedAt == map[]
    && forall i :: 0 <= i < |s.threads| ==> s.threads[i].pc == Idle
  }

  // ---- What every reachable state satisfies ----

  /** The database gave this verdict at a step after `floor`, with the clock at `since`
      or later. */
  ghost predicate Seen(past: seq<Moment>, officer: int, floor: int, since: int, v: Verdict) {
    exists k :: 0 <= k < |past| && floor < k && past[k].now >= since && VerdictOf(Ask(past[k].db, officer)) == v
  }

  /** Every entry was read after the last erasure and is no older than it claims. */
  ghost predicate EntryInv(s: State) {
    forall o :: o in s.cache ==>
      Seen(s.past, o, LastErase(s, o), s.cache[o].cachedAt, Verdict(OK, s.cache[o].isActive))
  }

  predicate LockInv(s: State) {
    forall i, j :: 0 <= i < |s.threads| && 0 <= j < |s.threads| && i != j ==>
      !(Exclusive(s.threads[i].pc) && (Exclusive(s.threads[j].pc) || s.threads[j].pc == Reading))
  }

  ghost predicate ThreadInv(s: State, th: Thread) {
    && th.start <= s.now && th.floor <= LastErase(s, th.officer) && th.floor < th.began <= |s.past|
    && (th.pc == Queried ==>
          Seen(s.past, th.officer, LastErase(s, th.officer), th.start, th.verdict)
          && Seen(s.past, th.officer, th.began - 1, th.start, th.verdict))
    && (th.pc == Returned ==> Bounded(s.past, th))
  }

  /** The bound on staleness. */
  ghost predicate Bounded(past: seq<Moment>, th: Thread) {
    if th.verdict.rc == OK
    then Seen(past, th.officer, th.floor, th.start - TTL_SECONDS + 1, th.verdict)
    else Seen(past, th.officer, th.began - 1, th.start, th.verdict)
  }

  ghost predicate Inv(s: State) {
    && LockInv(s) && EntryInv(s)
    && (forall o :: o in s.erasedAt ==> s.erasedAt[o] < |s.past|)
    && forall i :: 0 <= i < |s.threads| ==> s.threads[i].pc != Idle ==> ThreadInv(s, s.threads[i])
  }

  lemma SeenWeaker(past: seq<Moment>, more: seq<Moment>, o: int, floor: int, lower: int, since: int, earlier: int,
                   v: Verdict)
    requires Seen(past, o, floor, since, v) && lower <= floor && earlier <= since
    ensures Seen(past + more, o, lower, earlier, v)
  {
    var k :| 0 <= k < |past| && floor < k && past[k].now >= since && VerdictOf(Ask(past[k].db, o)) == v;
    assert (past + more)[k] == past[k];
  }

  lemma EntryStep(s: State, l: Label)
    requires Inv(s) && Enabled(s, l)
    ensures EntryInv(Apply(s, l))
  {
    var s' := Apply(s, l);
    var m := [Moment(s.now, s.db)];
    forall o | o in s'.cache
      ensures Seen(s'.past, o, LastErase(s', o), s'.cache[o].cachedAt, Verdict(OK, s'.cache[o].isActive))
    {
      if l.Store? && o == s.threads[l.t].officer && s.threads[l.t].verdict.rc == OK {
        var th := s.threads[l.t];
        SeenWeaker(s.past, m, o, LastErase(s, o), LastErase(s', o), th.start, th.start, th.verdict);
      } else {
        var e := s.cache[o];
        SeenWeaker(s.past, m, o, LastErase(s, o), LastErase(s', o), e.cachedAt, e.cachedAt, Verdict(OK, e.isActive));
      }
    }
  }

  /** A thread that does not move keeps its invariant: nobody else erases while it is
      between its query and its store. */
  lemma OthersStep(s: State, l: Label, i: nat)
    requires Inv(s) && Enabled(s, l) && i < |s.threads| && s.threads[i].pc != Idle
    requires Apply(s, l).threads[i] == s.threads[i]
    requires l.Erase? ==> l.t != i
    ensures ThreadInv(Apply(s, l), s.threads[i])
  {
    hide Seen, Fresh;
    var s', th := Apply(s, l), s.threads[i];
    var o, m := th.officer, [Moment(s.now, s.db)];
    if th.pc == Queried {
      assert LastErase(s', o) == LastErase(s, o);
      SeenWeaker(s.past, m, o, LastErase(s, o), LastErase(s, o), th.start, th.start, th.verdict);
      SeenWeaker(s.past, m, o, th.began - 1, th.began - 1, th.start, th.start, th.verdict);
    }
    if th.pc == Returned {
      BoundedGrows(s.past, m, th);
    }
  }

  lemma BoundedGrows(past: seq<Moment>, more: seq<Moment>, th: Thread)
    requires Bounded(past, th)
    ensures Bounded(past + more, th)
  {
    var early := th.start - TTL_SECONDS + 1;
    if th.verdict.rc == OK {
      SeenWeaker(past, more, th.officer, th.floor, th.floor, early, early, th.verdict);
    } else {
      SeenWeaker(past, more, th.officer, th.began - 1, th.began - 1, th.start, th.start, th.verdict);
    }
  }

  /** Look returns only entries that are fresh for this check. */
  lemma LookStep(s: State, t: nat)
    requires Inv(s) && At(s, t, Reading)
    ensures ThreadInv(Apply(s, Look(t)), Apply(s, Look(t)).threads[t])
  {
    var th := s.threads[t];
    if Fresh(s.cache, th.officer, th.start) {
      var e := s.cache[th.officer];
      SeenWeaker(s.past, [Moment(s.now, s.db)], th.officer, LastErase(s, th.officer), th.floor,
                 e.cachedAt, th.start - TTL_SECONDS + 1, Verdict(OK, e.isActive));
    }
  }

  lemma QueryStep(s: State, t: nat)
    requires Inv(s) && At(s, t, Writing)
    ensures ThreadInv(Apply(s, Query(t)), Apply(s, Query(t)).threads[t])
  {
    var s', k := Apply(s, Query(t)), |s.past|;
    assert s'.past[k] == Moment(s.now, s.db);
    assert LastErase(s, s.threads[t].officer) < k;
  }

  lemma StoreStep(s: State, t: nat)
    requires Inv(s) && At(s, t, Queried)
    ensures ThreadInv(Apply(s, Store(t)), Apply(s, Store(t)).threads[t])
  {
    hide Seen;
    var th, m := s.threads[t], [Moment(s.now, s.db)];
    var o := th.officer;
    SeenWeaker(s.past, m, o, LastErase(s, o), th.floor, th.start, th.start - TTL_SECONDS + 1, th.verdict);
    SeenWeaker(s.past, m, o, th.began - 1, th.began - 1, th.start, th.start, th.verdict);
  }

  lemma ThreadStep(s: State, l: Label, i: nat)
    requires Inv(s) && Enabled(s, l) && i < |s.threads| && Apply(s, l).threads[i].pc != Idle
    ensures ThreadInv(Apply(s, l), Apply(s, l).threads[i])
  {
    hide Seen;
    if l.Clock? || l.Change? || l.t != i {
      OthersStep(s, l, i);
    } else if l.Look? {
      LookStep(s, i);
    } else if l.Query? {
      QueryStep(s, i);
    } else if l.Store? {
      StoreStep(s, i);
    }
  }

  lemma StepInv(s: State, l: Label)
    requires Inv(s) && Enabled(s, l)
    ensures Inv(Apply(s, l))
  {
    hide Seen, ThreadInv, EntryInv;
    var s' := Apply(s, l);
    EntryStep(s, l);
    forall i | 0 <= i < |s'.threads| && s'.threads[i].pc != Idle ensures ThreadInv(s', s'.threads[i]) {
      ThreadStep(s, l, i);
    }
  }

  lemma {:induction false} RunInv(s: State, ls: seq<Label>)
    requires Inv(s) && IsRun(s, ls)
    ensures Inv(Run(s, ls))
    decreases |ls|
  {
    hide Inv;
    if ls != [] {
      StepInv(s, ls[0]);
      RunInv(Apply(s, ls[0]), ls[1..]);
    }
  }

  // ---- Runs ----

  lemma {:induction false} RunSplit(s: State, a: seq<Label>, b: seq<Label>)
    requires IsRun(s, a + b)
    ensures IsRun(s, a) && IsRun(Run(s, a), b) && Run(s, a + b) == Run(Run(s, a), b)
    decreases |a|
  {
    hide Enabled, Apply;
    if a == [] {
      assert a + b == b;
    } else {
      assert (a + b)[0] == a[0] && (a + b)[1..] == a[1..] + b;
      RunSplit(Apply(s, a[0]), a[1..], b);
    }
  }

  /** The recorded moments are the states the run went through. */
  lemma {:induction false} PastIsHistory(s: State, ls: seq<Label>, k: nat)
    requires IsRun(s, ls) && k < |ls|
    ensures IsRun(s, ls[..k]) && |Run(s, ls).past| == |s.past| + |ls| && s.past <= Run(s, ls).past
    ensures Run(s, ls).past[|s.past| + k] == Moment(Run(s, ls[..k]).now, Run(s, ls[..k]).db)
    decreases |ls|
  {
    hide Enabled, Effect;
    var s1 := Apply(s, ls[0]);
    PastGrows(s1, ls[1..]);
    if k == 0 {
      assert ls[..0] == [];
      assert s1.past[|s.past|] == Moment(s.now, s.db);
    } else {
      PastIsHistory(s1, ls[1..], k - 1);
      assert ls[..k][0] == ls[0] && ls[..k][1..] == ls[1..][..k - 1];
    }
  }

  lemma {:induction false} PastGrows(s: State, ls: seq<Label>)
    requires IsRun(s, ls)
    ensures |Run(s, ls).past| == |s.past| + |ls| && s.past <= Run(s, ls).past
    decreases |ls|
  {
    hide Enabled, Effect;
    if ls != [] {
      PastGrows(Apply(s, ls[0]), ls[1..]);
    }
  }

  /** Step i of the run erases the officer's entry. */
  predicate ErasesAt(s: State, ls: seq<Label>, i: nat, officer: int)
    requires IsRun(s, ls)
  {
    i < |ls| && ls[i].Erase? &&
    (assert ls[..i] + ls[i..] == ls;
     RunSplit(s, ls[..i], ls[i..]);
     ls[i].t < |Run(s, ls[..i]).threads| && Run(s, ls[..i]).threads[ls[i].t].officer == officer)
  }

  lemma {:induction false} LastEraseGrows(s: State, ls: seq<Label>, officer: int)
    requires Inv(s) && IsRun(s, ls)
    ensures LastErase(s, officer) <= LastErase(Run(s, ls), officer)
    decreases |ls|
  {
    if ls != [] {
      StepInv(s, ls[0]);
      LastEraseGrows(Apply(s, ls[0]), ls[1..], officer);
    }
  }

  lemma ErasuresRecorded(s: State, ls: seq<Label>, i: nat, officer: int)
    requires Inv(s) && s.past == [] && IsRun(s, ls) && ErasesAt(s, ls, i, officer)
    ensures LastErase(Run(s, ls), officer) >= i
  {
    hide Inv;
    var a, l, b := ls[..i], ls[i], ls[i + 1..];
    assert ls == a + ([l] + b);
    RunSplit(s, a, [l] + b);
    var s1 := Run(s, a);
    assert ([l] + b)[0] == l && ([l] + b)[1..] == b;
    assert IsRun(Apply(s1, l), b) && Run(s, ls) == Run(Apply(s1, l), b);
    hide IsRun, Run;
    RunInv(s, a);
    StepInv(s1, l);
    PastGrows(s, a);
    LastEraseGrows(Apply(s1, l), b, officer);
  }

  lemma CallKeptByStep(s: State, l: Label, t: nat)
    requires Enabled(s, l) && t < |s.threads|
    requires l.Begin? || l.BeginErase? ==> l.t != t
    ensures |Apply(s, l).threads| == |s.threads|
    ensures var a, b := s.threads[t], Apply(s, l).threads[t];
            a.officer == b.officer && a.start == b.start && a.began == b.began && a.floor == b.floor
  {
    hide Fresh, Refreshed, NoReader, NoWriter, VerdictOf;
  }

  /** What a thread knows of its call stays until it begins another. */
  lemma {:induction false} CallKept(s: State, ls: seq<Label>, t: nat)
    requires IsRun(s, ls) && t < |s.threads|
    requires forall l :: l in ls && (l.Begin? || l.BeginErase?) ==> l.t != t
    ensures |Run(s, ls).threads| == |s.threads|
    ensures var a, b := s.threads[t], Run(s, ls).threads[t];
            a.officer == b.officer && a.start == b.start && a.began == b.began && a.floor == b.floor
    decreases |ls|
  {
    hide Enabled, Effect;
    if ls != [] {
      assert ls[0] in ls;
      CallKeptByStep(s, ls[0], t);
      CallKept(Apply(s, ls[0]), ls[1..], t);
    }
  }

  // ---- The promises ----

  /** Bounded staleness, in every run: the status a check returns was the database's
      answer in a state k of the run whose clock was less than 300 seconds behind the
      start of the check, and k comes after every erasure of that officer's entry that
      was complete when the check began.  A failure is no older than the check. */
  lemma BoundedStaleness(s: State, before: seq<Label>, t: nat, officer: int, after: seq<Label>)
    requires Initial(s) && IsRun(s, before + ([Begin(t, officer)] + after))
    requires forall l :: l in after && (l.Begin? || l.BeginErase?) ==> l.t != t
    requires At(Run(s, before + ([Begin(t, officer)] + after)), t, Returned)
    ensures IsRun(s, before)
    ensures var ls := before + ([Begin(t, officer)] + after);
            var start, v := Run(s, before).now, Run(s, ls).threads[t].verdict;
            exists k: nat :: k < |ls| && IsRun(s, ls[..k])
              && Says(Ask(Run(s, ls[..k]).db, officer), v)
              && (if v.rc == OK
                  then Run(s, ls[..k]).now > start - 300
                       && (forall i: nat :: ErasesAt(s, before, i, officer) ==> i < k)
                  else Run(s, ls[..k]).now >= start && k >= |before|)
  {
    hide Inv, Enabled;
    var ls := before + ([Begin(t, officer)] + after);
    RunSplit(s, before, [Begin(t, officer)] + after);
    var s0 := Run(s, before);
    assert ([Begin(t, officer)] + after)[0] == Begin(t, officer) && ([Begin(t, officer)] + after)[1..] == after;
    Beginning(s0, t, officer);
    var s1, s2 := Apply(s0, Begin(t, officer)), Run(s, ls);
    CallKept(s1, after, t);
    InitialInv(s);
    RunInv(s, ls);
    PastGrows(s, before);
    PastGrows(s, ls);
    var th := s2.threads[t];
    var k := Instant(s2, t);
    PastIsHistory(s, ls, k);
    VerdictExact(Ask(s2.past[k].db, officer), th.verdict);
    hide Says;
    forall i: nat | ErasesAt(s, before, i, officer) ensures i <= th.floor {
      ErasuresRecorded(s, before, i, officer);
    }
  }

  lemma InitialInv(s: State)
    requires Initial(s)
    ensures Inv(s)
  {
  }

  lemma Beginning(s: State, t: nat, officer: int)
    requires Enabled(s, Begin(t, officer))
    ensures t < |s.threads|
    ensures Apply(s, Begin(t, officer)).threads ==
            s.threads[t := Thread(Started, officer, s.now, |s.past|, LastErase(s, officer), Verdict(OK, false))]
  {
  }

  lemma Instant(s: State, t: nat) returns (k: nat)
    requires Inv(s) && At(s, t, Returned)
    ensures var th := s.threads[t];
            k < |s.past| && VerdictOf(Ask(s.past[k].db, th.officer)) == th.verdict
            && (if th.verdict.rc == OK then k > th.floor && s.past[k].now > th.start - TTL_SECONDS
                else k >= th.began && s.past[k].now >= th.start)
  {
    var th := s.threads[t];
    assert Bounded(s.past, th);
    if th.verdict.rc == OK {
      k :| k < |s.past| && th.floor < k && s.past[k].now >= th.start - TTL_SECONDS + 1
           && VerdictOf(Ask(s.past[k].db, th.officer)) == th.verdict;
    } else {
      k :| k < |s.past| && th.began - 1 < k && s.past[k].now >= th.start
           && VerdictOf(Ask(s.past[k].db, th.officer)) == th.verdict;
    }
  }

  function OneThread(officer: int): State {
    State(0, map[officer := Row("ACTIVE")], map[], [Thread(Idle, 0, 0, 0, 0, Verdict(OK, false))], [], map[])
  }

  /** The bound is tight: the status of an officer who is no longer in the database can
      still be served 299 seconds after it was read. */
  lemma ServedAfter299Seconds(officer: int) returns (ls: seq<Label>)
    ensures ls == [Begin(0, officer), ReadLock(0), Look(0), WriteLock(0), Query(0), Store(0),
                   Change(map[]), Clock(299), Begin(0, officer), ReadLock(0), Look(0)]
    ensures Initial(OneThread(officer)) && IsRun(OneThread(officer), ls)
    ensures At(Run(OneThread(officer), ls), 0, Returned)
    ensures Run(OneThread(officer), ls).threads[0].verdict == Verdict(OK, false)
    ensures VerdictOf(Ask(Run(OneThread(officer), ls).db, officer)).rc == NOT_FOUND
    ensures Run(OneThread(officer), ls).threads[0].start == 299
  {
    hide IsRun, Run;
    var s := OneThread(officer);
    ls := FirstCheck(officer);
    ls := Extend(s, ls, Change(map[]));
    ls := Extend(s, ls, Clock(299));
    ls := Extend(s, ls, Begin(0, officer));
    ls := Extend(s, ls, ReadLock(0));
    ls := Extend(s, ls, Look(0));
  }

  lemma FirstCheck(officer: int) returns (ls: seq<Label>)
    ensures ls == [Begin(0, officer), ReadLock(0), Look(0), WriteLock(0), Query(0), Store(0)]
    ensures IsRun(OneThread(officer), ls)
    ensures var s := Run(OneThread(officer), ls);
            s.now == 0 && s.cache == map[officer := Entry(false, 0)] && |s.threads| == 1 && s.threads[0].pc == Returned
  {
    var s := OneThread(officer);
    assert IsRun(s, []) && Run(s, []) == s;
    hide IsRun, Run;
    ls := Extend(s, [], Begin(0, officer));
    ls := Extend(s, ls, ReadLock(0));
    ls := Extend(s, ls, Look(0));
    ls := Extend(s, ls, WriteLock(0));
    ls := Extend(s, ls, Query(0));
    ls := Extend(s, ls, Store(0));
  }

  lemma {:induction false} Extend(s: State, ls: seq<Label>, l: Label) returns (more: seq<Label>)
    requires IsRun(s, ls) && Enabled(Run(s, ls), l)
    ensures more == ls + [l]
    ensures IsRun(s, more) && Run(s, more) == Apply(Run(s, ls), l)
    decreases |ls|
  {
    hide Enabled, Apply;
    more := ls + [l];
    if ls != [] {
      var rest := Extend(Apply(s, ls[0]), ls[1..], l);
      assert more[0] == ls[0] && more[1..] == rest;
    } else {
      assert more[1..] == [];
    }
  }

  predicate Unlocked(s: State) {
    NoWriter(s) && NoReader(s)
  }

  /** A state that differs from an unlocked one in a thread that holds no lock. */
  lemma StillUnlocked(s: State, s': State, t: nat, th: Thread)
    requires Unlocked(s) && t < |s.threads| && s'.threads == s.threads[t := th]
    requires !Exclusive(th.pc)
    ensures NoWriter(s') && (th.pc != Reading ==> Unlocked(s'))
  {
  }

  /** The read section of a check. */
  lemma LookUp(s: State, t: nat, officer: int) returns (ls: seq<Label>)
    requires At(s, t, Idle) && Unlocked(s)
    ensures IsRun(s, ls) && Unlocked(Run(s, ls))
    ensures var s' := Run(s, ls);
            && s'.cache == s.cache && s'.db == s.db
            && (if Fresh(s.cache, officer, s.now)
                then At(s', t, Returned) && s'.threads[t].verdict == Verdict(OK, s.cache[officer].isActive)
                else At(s', t, Missed) && s'.threads[t].officer == officer && s'.threads[t].start == s.now)
  {
    assert IsRun(s, []) && Run(s, []) == s;
    hide IsRun, Run, NoWriter, NoReader, Refreshed, VerdictOf, Fresh;
    var l1, l2, l3 := Begin(t, officer), ReadLock(t), Look(t);
    var s1 := Apply(s, l1);
    StillUnlocked(s, s1, t, s1.threads[t]);
    var s2 := Apply(s1, l2);
    var s3 := Apply(s2, l3);
    assert s3.threads == s.threads[t := s3.threads[t]];
    StillUnlocked(s, s3, t, s3.threads[t]);
    ls := Extend(s, [], l1);
    ls := Extend(s, ls, l2);
    ls := Extend(s, ls, l3);
  }

  /** The write section of a check. */
  lemma Refreshing(s: State, t: nat) returns (ls: seq<Label>)
    requires At(s, t, Missed) && Unlocked(s)
    ensures IsRun(s, ls) && Unlocked(Run(s, ls)) && At(Run(s, ls), t, Returned)
    ensures var th, v := s.threads[t], Run(s, ls).threads[t].verdict;
            v == VerdictOf(Ask(s.db, th.officer)) && Run(s, ls).cache == Refreshed(s.cache, th.officer, th.start, v)
  {
    assert IsRun(s, []) && Run(s, []) == s;
    hide IsRun, Run, NoWriter, NoReader, Refreshed, VerdictOf, Fresh, Ask;
    var s1 := Apply(s, WriteLock(t));
    var s2 := Apply(s1, Query(t));
    var s3 := Apply(s2, Store(t));
    assert s3.threads == s.threads[t := s3.threads[t]];
    StillUnlocked(s, s3, t, s3.threads[t]);
    ls := Extend(s, [], WriteLock(t));
    ls := Extend(s, ls, Query(t));
    ls := Extend(s, ls, Store(t));
  }

  /** Undisturbed, a thread's steps do exactly what the class's Check does in one call. */
  lemma StepsOfCheck(s: State, t: nat, officer: int) returns (ls: seq<Label>)
    requires At(s, t, Idle) && Unlocked(s)
    ensures IsRun(s, ls) && At(Run(s, ls), t, Returned) && Unlocked(Run(s, ls))
    ensures var hit, v := Fresh(s.cache, officer, s.now), Run(s, ls).threads[t].verdict;
            && v == (if hit then Verdict(OK, s.cache[officer].isActive) else VerdictOf(Ask(s.db, officer)))
            && Run(s, ls).cache == (if hit then s.cache else Refreshed(s.cache, officer, s.now, v))
  {
    hide IsRun, Run, Apply, Enabled, Refreshed, VerdictOf, Ask, Unlocked;
    ls := LookUp(s, t, officer);
    if !Fresh(s.cache, officer, s.now) {
      var more := Refreshing(Run(s, ls), t);
      RunJoin(s, ls, more);
      ls := ls + more;
    }
  }

  lemma {:induction false} RunJoin(s: State, a: seq<Label>, b: seq<Label>)
    requires IsRun(s, a) && IsRun(Run(s, a), b)
    ensures IsRun(s, a + b) && Run(s, a + b) == Run(Run(s, a), b)
    decreases |a|
  {
    hide Enabled, Apply;
    if a == [] {
      assert a + b == b;
    } else {
      assert (a + b)[0] == a[0] && (a + b)[1..] == a[1..] + b;
      RunJoin(Apply(s, a[0]), a[1..], b);
    }
  }

  /** No deadlock: while some call is unfinished, some thread can take its next step. */
  lemma SomeThreadMoves(s: State, t: nat) returns (l: Label)
    requires t < |s.threads| && s.threads[t].pc != Idle && s.threads[t].pc != Returned
    ensures Enabled(s, l) && !l.Clock? && !l.Change? && !l.Begin? && !l.BeginErase?
  {
    if !NoWriter(s) {
      var i :| 0 <= i < |s.threads| && Exclusive(s.threads[i].pc);
      var pc := s.threads[i].pc;
      l := if pc == Writing then Query(i) else if pc == Queried then Store(i) else Erase(i);
    } else if !NoReader(s) {
      var i :| 0 <= i < |s.threads| && s.threads[i].pc == Reading;
      l := Look(i);
    } else {
      var pc := s.threads[t].pc;
      l := if pc == Started then ReadLock(t) else if pc == Missed then WriteLock(t) else EraseLock(t);
    }
  }
}
