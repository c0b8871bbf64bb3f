/**
 The tick scheduler: a registry of at most 32 jobs, observers told about every
 execution, and the drain flag.  `trace` records what happened; the class keeps it
 equal to a schedule that mentions no loop and no next-fire field.
 */
module Scheduler {
  import opened Codes

  const MAX_JOBS := 32

  datatype SchedulerState = INITIALIZING | RUNNING | DRAINING | STOPPED

  datatype Event =
    | Fired(job: int, tick: int)
    | Notified(observer: int, job: int, rc: ResultCode, tick: int)

  // ---- The declarative schedule ----

  /** A registered job: its interval and the tick after which it was registered.
      Null is an empty pointer in the registry. */
  datatype Reg = Null | Reg(id: int, interval: int, since: int)

  datatype Obs = NullObs | Obs(id: int, since: int)

  /** First tick at which a job fires. */
  function First(r: Reg): int
    requires r.Reg?
  {
    if r.interval > r.since + 1 then r.interval else r.since + 1
  }

  /** An interval of one or less means every tick. */
  predicate Due(r: Reg, t: int) {
    r.Reg? && t >= First(r) && (r.interval <= 1 || (t - First(r)) % r.interval == 0)
  }

  function Outcome(fails: (int, int) -> bool, job: int, t: int): ResultCode {
    if fails(job, t) then INVALID_STATE else OK
  }

  /** Every observer registered before tick t is told, in registration order. */
  function Notices(obs: seq<Obs>, job: int, rc: ResultCode, t: int): seq<Event> {
    if obs == [] then []
    else
      Notices(obs[..|obs| - 1], job, rc, t)
      + (match obs[|obs| - 1]
         case NullObs => []
         case Obs(id, since) => if since < t then [Notified(id, job, rc, t)] else [])
  }

  function JobEvents(r: Reg, obs: seq<Obs>, fails: (int, int) -> bool, t: int): seq<Event> {
    if Due(r, t) then [Fired(r.id, t)] + Notices(obs, r.id, Outcome(fails, r.id, t), t) else []
  }

  /** The due jobs of tick t in registration order, each followed by its notices. */
  function TickEvents(regs: seq<Reg>, obs: seq<Obs>, fails: (int, int) -> bool, t: int): seq<Event> {
    if regs == [] then []
    else TickEvents(regs[..|regs| - 1], obs, fails, t) + JobEvents(regs[|regs| - 1], obs, fails, t)
  }

  function Schedule(regs: seq<Reg>, obs: seq<Obs>, fails: (int, int) -> bool, ticks: nat): seq<Event> {
    if ticks == 0 then []
    else Schedule(regs, obs, fails, ticks - 1) + TickEvents(regs, obs, fails, ticks)
  }

  /** What is registered after a tick does not change the schedule up to it. */
  lemma {:induction false} LateObserver(obs: seq<Obs>, o: Obs, regs: seq<Reg>, fails: (int, int) -> bool, ticks: nat)
    requires o.Obs? ==> o.since >= ticks
    ensures Schedule(regs, obs + [o], fails, ticks) == Schedule(regs, obs, fails, ticks)
  {
    if ticks > 0 {
      LateObserver(obs, o, regs, fails, ticks - 1);
      LateObserverTick(obs, o, regs, fails, ticks);
    }
  }

  lemma {:induction false} LateObserverTick(obs: seq<Obs>, o: Obs, regs: seq<Reg>, fails: (int, int) -> bool, t: int)
    requires o.Obs? ==> o.since >= t
    ensures TickEvents(regs, obs + [o], fails, t) == TickEvents(regs, obs, fails, t)
  {
    if regs != [] {
      LateObserverTick(obs, o, regs[..|regs| - 1], fails, t);
      assert (obs + [o])[..|obs|] == obs;
    }
  }

  lemma {:induction false} LateJob(regs: seq<Reg>, r: Reg, obs: seq<Obs>, fails: (int, int) -> bool, ticks: nat)
    requires r.Reg? ==> r.since >= ticks
    ensures Schedule(regs + [r], obs, fails, ticks) == Schedule(regs, obs, fails, ticks)
  {
    if ticks > 0 {
      hide TickEvents;
      LateJob(regs, r, obs, fails, ticks - 1);
      LateJobTick(regs, r, obs, fails, ticks);
    }
  }

  lemma LateJobTick(regs: seq<Reg>, r: Reg, obs: seq<Obs>, fails: (int, int) -> bool, t: int)
    requires r.Reg? ==> r.since >= t
    ensures TickEvents(regs + [r], obs, fails, t) == TickEvents(regs, obs, fails, t)
  {
    hide JobEvents;
    NotYetDue(r, obs, fails, t);
    assert (regs + [r])[..|regs|] == regs;
  }

  lemma NotYetDue(r: Reg, obs: seq<Obs>, fails: (int, int) -> bool, t: int)
    requires r.Reg? ==> r.since >= t
    ensures JobEvents(r, obs, fails, t) == []
  {
  }

  // ---- Counting ----

  /** How often job r was due up to tick t. */
  function DueCount(r: Reg, t: nat): nat {
    if t == 0 then 0 else DueCount(r, t - 1) + if Due(r, t) then 1 else 0
  }

  /** Between two firings: the n-th multiple of the interval past the first is next. */
  lemma DueNext(r: Reg, n: nat, now: int)
    requires r.Reg? && r.interval >= 1 && n >= 1
    requires First(r) + (n - 1) * r.interval <= now < First(r) + n * r.interval
    ensures Due(r, now + 1) <==> now + 1 == First(r) + n * r.interval
  {
    var k, x := r.interval, now + 1 - First(r);
    assert n * k == (n - 1) * k + k;
    if x == n * k {
      ModUnique(x, n, k, 0);
    } else {
      ModBetween(x, n - 1, k);
    }
  }

  lemma MulLess(a: int, b: int, k: int)
    requires k >= 1
    ensures a < b ==> a * k + k <= b * k
  {
    MulNonNegative(b - a - 1, k);
    assert (b - a - 1) * k == b * k - a * k - k;
  }

  lemma MulNonNegative(x: int, k: int)
    requires k >= 1
    ensures x >= 0 ==> x * k >= 0
  {
  }

  lemma ModUnique(x: int, q: int, k: int, r: int)
    requires k >= 1 && x == q * k + r && 0 <= r < k
    ensures x % k == r && x / k == q
  {
    MulLess(x / k, q, k);
    MulLess(q, x / k, k);
  }

  lemma ModBetween(x: int, n: nat, k: int)
    requires k >= 1 && n * k < x < n * k + k
    ensures x % k != 0
  {
    ModUnique(x, n, k, x - n * k);
  }

  /** By tick t a job has fired once per full interval since its first firing. */
  lemma {:induction false} DueCountExact(r: Reg, t: nat)
    requires r.Reg? && r.interval >= 1 && r.since >= 0
    ensures var n := DueCount(r, t);
            if t < First(r) then n == 0
            else n >= 1 && First(r) + (n - 1) * r.interval <= t < First(r) + n * r.interval
  {
    if t > 0 {
      DueCountExact(r, t - 1);
      var n := DueCount(r, t - 1);
      if t > First(r) {
        DueNext(r, n, t - 1);
        assert (n + 1) * r.interval == n * r.interval + r.interval;
      } else if t == First(r) {
        assert 0 % r.interval == 0;
        assert Due(r, t);
      }
    }
  }

  /** A job registered before the first tick is due exactly at the multiples of its
      interval, floor(t / interval) times by tick t. */
  lemma EarlyJob(r: Reg, t: nat)
    requires r.Reg? && r.interval >= 1 && r.since == 0
    ensures t >= 1 ==> (Due(r, t) <==> t % r.interval == 0)
    ensures DueCount(r, t) == t / r.interval
  {
    var k := r.interval;
    DueCountExact(r, t);
    var n := DueCount(r, t);
    assert First(r) == k;
    assert n * k <= t < n * k + k;
    ModUnique(t, n, k, t - n * k);
    if t >= k {
      assert (t - k) % k == t % k by { ShiftMod(t, k); }
    }
  }

  lemma ShiftMod(t: int, k: int)
    requires k >= 1
    ensures (t - k) % k == t % k
  {
    var q := t / k;
    assert t - k == (q - 1) * k + t % k;
    ModUnique(t - k, q - 1, k, t % k);
  }

  function FireCount(es: seq<Event>, id: int): nat {
    if es == [] then 0
    else FireCount(es[..|es| - 1], id) + (if es[|es| - 1].Fired? && es[|es| - 1].job == id then 1 else 0)
  }

  lemma {:induction false} FireCountAppend(a: seq<Event>, b: seq<Event>, id: int)
    ensures FireCount(a + b, id) == FireCount(a, id) + FireCount(b, id)
  {
    if b == [] {
      assert a + b == a;
    } else {
      assert (a + b)[..|a + b| - 1] == a + b[..|b| - 1];
      FireCountAppend(a, b[..|b| - 1], id);
    }
  }

  lemma {:induction false} NoticesFireNothing(obs: seq<Obs>, job: int, rc: ResultCode, t: int, id: int)
    ensures FireCount(Notices(obs, job, rc, t), id) == 0
  {
    if obs != [] {
      var init := Notices(obs[..|obs| - 1], job, rc, t);
      var last := Notices(obs, job, rc, t)[|init|..];
      NoticesFireNothing(obs[..|obs| - 1], job, rc, t, id);
      FireCountAppend(init, last, id);
      assert Notices(obs, job, rc, t) == init + last;
      if last != [] {
        assert last[..0] == [];
      }
    }
  }

  lemma JobEventsCount(r: Reg, obs: seq<Obs>, fails: (int, int) -> bool, t: int, id: int)
    ensures FireCount(JobEvents(r, obs, fails, t), id) == if Due(r, t) && r.id == id then 1 else 0
  {
    if Due(r, t) {
      var notices := Notices(obs, r.id, Outcome(fails, r.id, t), t);
      NoticesFireNothing(obs, r.id, Outcome(fails, r.id, t), t, id);
      FireCountAppend([Fired(r.id, t)], notices, id);
      assert [Fired(r.id, t)][..0] == [];
    }
  }

  ghost predicate DistinctIds(regs: seq<Reg>) {
    forall i, j :: 0 <= i < j < |regs| && regs[i].Reg? && regs[j].Reg? ==> regs[i].id != regs[j].id
  }

  lemma {:induction false} TickCount(regs: seq<Reg>, obs: seq<Obs>, fails: (int, int) -> bool, t: int, i: nat)
    requires DistinctIds(regs) && i < |regs| && regs[i].Reg?
    ensures FireCount(TickEvents(regs, obs, fails, t), regs[i].id) == if Due(regs[i], t) then 1 else 0
  {
    var n := |regs| - 1;
    var id := regs[i].id;
    FireCountAppend(TickEvents(regs[..n], obs, fails, t), JobEvents(regs[n], obs, fails, t), id);
    JobEventsCount(regs[n], obs, fails, t, id);
    if i < n {
      TickCount(regs[..n], obs, fails, t, i);
    } else {
      OthersCount(regs[..n], obs, fails, t, id);
    }
  }

  lemma {:induction false} OthersCount(regs: seq<Reg>, obs: seq<Obs>, fails: (int, int) -> bool, t: int, id: int)
    requires forall i :: 0 <= i < |regs| && regs[i].Reg? ==> regs[i].id != id
    ensures FireCount(TickEvents(regs, obs, fails, t), id) == 0
  {
    if regs != [] {
      var n := |regs| - 1;
      OthersCount(regs[..n], obs, fails, t, id);
      FireCountAppend(TickEvents(regs[..n], obs, fails, t), JobEvents(regs[n], obs, fails, t), id);
      JobEventsCount(regs[n], obs, fails, t, id);
    }
  }

  /** In the whole trace, a job appears as often as it was due; with EarlyJob that is
      floor(ticks / interval) for a job registered before the first tick. */
  lemma {:induction false} FiredAsOftenAsDue(regs: seq<Reg>, obs: seq<Obs>, fails: (int, int) -> bool, ticks: nat, i: nat)
    requires DistinctIds(regs) && i < |regs| && regs[i].Reg?
    ensures FireCount(Schedule(regs, obs, fails, ticks), regs[i].id) == DueCount(regs[i], ticks)
  {
    if ticks > 0 {
      FiredAsOftenAsDue(regs, obs, fails, ticks - 1, i);
      TickCount(regs, obs, fails, ticks, i);
      FireCountAppend(Schedule(regs, obs, fails, ticks - 1), TickEvents(regs, obs, fails, ticks), regs[i].id);
    }
  }

  // ---- What the schedule holds ----

  /** A job that asks for every tick gets every tick after its registration. */
  lemma DueEveryTick(r: Reg, t: int)
    requires r.Reg? && r.interval <= 1 && r.since >= 0
    ensures Due(r, t) <==> t > r.since
  {
  }

  /** An observer that is told of what fires at tick t. */
  predicate Told(o: Obs, t: int) {
    o.Obs? && o.since < t
  }

  /** How many of the first n observers are. */
  function ToldBefore(obs: seq<Obs>, n: nat, t: int): nat
    requires n <= |obs|
  {
    if n == 0 then 0 else ToldBefore(obs, n - 1, t) + if Told(obs[n - 1], t) then 1 else 0
  }

  lemma {:induction false} ToldGrows(obs: seq<Obs>, m: nat, n: nat, t: int)
    requires m <= n <= |obs|
    ensures ToldBefore(obs, m, t) <= ToldBefore(obs, n, t)
  {
    if m < n {
      ToldGrows(obs, m, n - 1, t);
    }
  }

  lemma {:induction false} ToldPrefix(obs: seq<Obs>, m: nat, n: nat, t: int)
    requires m <= n <= |obs|
    ensures ToldBefore(obs[..n], m, t) == ToldBefore(obs, m, t)
  {
    if m > 0 {
      ToldPrefix(obs, m - 1, n, t);
    }
  }

  /** The notices of one firing: one for each of them, in the order of registration. */
  lemma {:induction false} NoticesExact(obs: seq<Obs>, job: int, rc: ResultCode, t: int)
    ensures var ns := Notices(obs, job, rc, t);
            && |ns| == ToldBefore(obs, |obs|, t)
            && (forall a :: 0 <= a < |obs| && Told(obs[a], t) ==>
                  ToldBefore(obs, a, t) < |ns| && ns[ToldBefore(obs, a, t)] == Notified(obs[a].id, job, rc, t))
            && (forall i :: 0 <= i < |ns| ==> ns[i].Notified?)
  {
    if obs != [] {
      var n := |obs| - 1;
      NoticesExact(obs[..n], job, rc, t);
      NoticesStep(obs, job, rc, t);
      hide Notices, Told;
      forall a | 0 <= a <= n
        ensures ToldBefore(obs[..n], a, t) == ToldBefore(obs, a, t) <= ToldBefore(obs, n, t)
      {
        ToldPrefix(obs, a, n, t);
        ToldGrows(obs, a, n, t);
      }
      assert forall a :: 0 <= a < n ==> obs[a] == obs[..n][a];
    }
  }

  lemma NoticesStep(obs: seq<Obs>, job: int, rc: ResultCode, t: int)
    requires obs != []
    ensures var n := |obs| - 1;
            Notices(obs, job, rc, t) ==
            Notices(obs[..n], job, rc, t) + if Told(obs[n], t) then [Notified(obs[n].id, job, rc, t)] else []
  {
  }

  /** At position k a job fires; then come its notices, and then the next firing or the
      end. */
  ghost predicate FiringAt(es: seq<Event>, obs: seq<Obs>, fails: (int, int) -> bool, k: nat) {
    k < |es| && es[k].Fired? &&
    var job, t := es[k].job, es[k].tick;
    var rc := if fails(job, t) then INVALID_STATE else OK;
    var next := k + 1 + ToldBefore(obs, |obs|, t);
    && next <= |es| && (next < |es| ==> es[next].Fired?)
    && (forall i :: k < i < next ==> es[i].Notified? && es[i].job == job && es[i].tick == t && es[i].rc == rc)
    && (forall a :: 0 <= a < |obs| && Told(obs[a], t) ==>
          k + 1 + ToldBefore(obs, a, t) < next && es[k + 1 + ToldBefore(obs, a, t)] == Notified(obs[a].id, job, rc, t))
  }

  ghost predicate Blocks(es: seq<Event>, obs: seq<Obs>, fails: (int, int) -> bool) {
    && (es != [] ==> es[0].Fired?)
    && forall k: nat :: k < |es| && es[k].Fired? ==> FiringAt(es, obs, fails, k)
  }

  lemma BlockOfJob(r: Reg, obs: seq<Obs>, fails: (int, int) -> bool, t: int)
    ensures Blocks(JobEvents(r, obs, fails, t), obs, fails)
  {
    hide Notices, Told;
    var es := JobEvents(r, obs, fails, t);
    if Due(r, t) {
      var rc := Outcome(fails, r.id, t);
      NoticesExact(obs, r.id, rc, t);
      NoticesNamed(obs, r.id, rc, t);
      var ns := Notices(obs, r.id, rc, t);
      assert es == [Fired(r.id, t)] + ns;
      assert forall i :: 0 < i < |es| ==> es[i] == ns[i - 1];
      assert FiringAt(es, obs, fails, 0);
    }
  }

  lemma {:induction false} NoticesNamed(obs: seq<Obs>, job: int, rc: ResultCode, t: int)
    ensures forall e :: e in Notices(obs, job, rc, t) ==> e.Notified? && e.job == job && e.rc == rc && e.tick == t
  {
    if obs != [] {
      NoticesNamed(obs[..|obs| - 1], job, rc, t);
    }
  }

  lemma BlockInFront(a: seq<Event>, b: seq<Event>, obs: seq<Obs>, fails: (int, int) -> bool, k: nat)
    requires FiringAt(a, obs, fails, k) && (b != [] ==> b[0].Fired?)
    ensures FiringAt(a + b, obs, fails, k)
  {
    hide Told, ToldBefore;
    var es := a + b;
    assert es[..|a|] == a;
    assert forall i :: 0 <= i < |a| ==> es[i] == a[i];
    assert b != [] ==> es[|a|] == b[0];
  }

  lemma BlockBehind(a: seq<Event>, b: seq<Event>, obs: seq<Obs>, fails: (int, int) -> bool, k: nat)
    requires FiringAt(b, obs, fails, k)
    ensures FiringAt(a + b, obs, fails, |a| + k)
  {
    hide Told, ToldBefore;
    var es, n := a + b, |a|;
    assert es[n + k] == b[k];
    var job, t := b[k].job, b[k].tick;
    var next := k + 1 + ToldBefore(obs, |obs|, t);
    assert n + next < |es| ==> es[n + next] == b[next];
    forall i | n + k < i < n + next ensures es[i] == b[i - n] {
    }
    forall x | 0 <= x < |obs| && Told(obs[x], t)
      ensures n + k + 1 + ToldBefore(obs, x, t) < n + next
      ensures es[n + k + 1 + ToldBefore(obs, x, t)] == b[k + 1 + ToldBefore(obs, x, t)]
    {
    }
  }

  lemma BlocksJoin(a: seq<Event>, b: seq<Event>, obs: seq<Obs>, fails: (int, int) -> bool)
    requires Blocks(a, obs, fails) && Blocks(b, obs, fails)
    ensures Blocks(a + b, obs, fails)
  {
    hide FiringAt;
    var es := a + b;
    forall k: nat | k < |es| && es[k].Fired? ensures FiringAt(es, obs, fails, k) {
      if k < |a| {
        BlockInFront(a, b, obs, fails, k);
      } else {
        BlockBehind(a, b, obs, fails, k - |a|);
      }
    }
  }

  lemma {:induction false} TickBlocks(regs: seq<Reg>, obs: seq<Obs>, fails: (int, int) -> bool, t: int)
    ensures Blocks(TickEvents(regs, obs, fails, t), obs, fails)
  {
    hide JobEvents, FiringAt;
    if regs != [] {
      var n := |regs| - 1;
      TickBlocks(regs[..n], obs, fails, t);
      BlockOfJob(regs[n], obs, fails, t);
      BlocksJoin(TickEvents(regs[..n], obs, fails, t), JobEvents(regs[n], obs, fails, t), obs, fails);
    }
  }

  /** In the whole schedule every firing is followed, before the next one, by exactly one
      notice for each observer registered before that tick, in the order of registration,
      with OK unless the job threw; and there are no other notices. */
  lemma {:induction false} FiringsAnnounced(regs: seq<Reg>, obs: seq<Obs>, fails: (int, int) -> bool, ticks: nat)
    ensures Blocks(Schedule(regs, obs, fails, ticks), obs, fails)
  {
    hide TickEvents, FiringAt;
    if ticks > 0 {
      FiringsAnnounced(regs, obs, fails, ticks - 1);
      TickBlocks(regs, obs, fails, ticks);
      BlocksJoin(Schedule(regs, obs, fails, ticks - 1), TickEvents(regs, obs, fails, ticks), obs, fails);
    }
  }

  /** So an observer is told OK exactly of the jobs that did not throw. */
  lemma ToldTheTruth(regs: seq<Reg>, obs: seq<Obs>, fails: (int, int) -> bool, ticks: nat, e: Event)
    requires e in Schedule(regs, obs, fails, ticks) && e.Notified?
    ensures e.rc == (if fails(e.job, e.tick) then INVALID_STATE else OK)
    ensures exists a :: 0 <= a < |obs| && Told(obs[a], e.tick) && obs[a].id == e.observer
  {
    hide Told;
    NoticeOfSchedule(regs, obs, fails, ticks, e);
  }

  lemma {:induction false} NoticeOfTick(regs: seq<Reg>, obs: seq<Obs>, fails: (int, int) -> bool, t: int, e: Event)
    requires e in TickEvents(regs, obs, fails, t) && e.Notified?
    ensures e.rc == (if fails(e.job, e.tick) then INVALID_STATE else OK) && e.tick == t
    ensures exists a :: 0 <= a < |obs| && Told(obs[a], e.tick) && obs[a].id == e.observer
  {
    hide Notices, Told, Due;
    var n := |regs| - 1;
    if e in TickEvents(regs[..n], obs, fails, t) {
      NoticeOfTick(regs[..n], obs, fails, t, e);
    } else {
      var r := regs[n];
      NeverDueNull(r, t);
      NoticesNamed(obs, r.id, Outcome(fails, r.id, t), t);
      NoticeOfObserver(obs, r.id, Outcome(fails, r.id, t), t, e);
    }
  }

  lemma {:induction false} NoticeOfObserver(obs: seq<Obs>, job: int, rc: ResultCode, t: int, e: Event)
    requires e in Notices(obs, job, rc, t)
    ensures e.Notified? && exists a :: 0 <= a < |obs| && Told(obs[a], t) && obs[a].id == e.observer
  {
    var n := |obs| - 1;
    if e in Notices(obs[..n], job, rc, t) {
      NoticeOfObserver(obs[..n], job, rc, t, e);
      var a :| 0 <= a < n && Told(obs[..n][a], t) && obs[..n][a].id == e.observer;
      assert Told(obs[a], t);
    } else {
      assert Told(obs[n], t);
    }
  }

  lemma {:induction false} NoticeOfSchedule(regs: seq<Reg>, obs: seq<Obs>, fails: (int, int) -> bool, ticks: nat, e: Event)
    requires e in Schedule(regs, obs, fails, ticks) && e.Notified?
    ensures e.rc == (if fails(e.job, e.tick) then INVALID_STATE else OK)
    ensures exists a :: 0 <= a < |obs| && Told(obs[a], e.tick) && obs[a].id == e.observer
  {
    hide TickEvents, Told;
    if e in Schedule(regs, obs, fails, ticks - 1) {
      NoticeOfSchedule(regs, obs, fails, ticks - 1, e);
    } else {
      NoticeOfTick(regs, obs, fails, ticks, e);
    }
  }

  predicate Fires(r: Reg, job: int, t: int) {
    r.Reg? && r.id == job && Due(r, t)
  }

  lemma NeverDueNull(r: Reg, t: int)
    ensures Due(r, t) ==> r.Reg?
  {
  }

  lemma {:induction false} TickFires(regs: seq<Reg>, obs: seq<Obs>, fails: (int, int) -> bool, t: int, e: Event)
    requires e.Fired?
    ensures e in TickEvents(regs, obs, fails, t) <==>
            e.tick == t && exists i :: 0 <= i < |regs| && Fires(regs[i], e.job, t)
  {
    hide Due, Notices;
    if regs != [] {
      var n := |regs| - 1;
      TickFires(regs[..n], obs, fails, t, e);
      NeverDueNull(regs[n], t);
      if Due(regs[n], t) {
        NoticesNamed(obs, regs[n].id, Outcome(fails, regs[n].id, t), t);
      }
      if i :| 0 <= i < |regs| && Fires(regs[i], e.job, t) {
        if i < n {
          assert regs[..n][i] == regs[i];
        }
      }
    }
  }

  /** A job is fired at a tick, and under that tick's number, exactly when it is due then. */
  lemma {:induction false} FiredWhenDue(regs: seq<Reg>, obs: seq<Obs>, fails: (int, int) -> bool, ticks: nat, job: int, t: int)
    ensures Fired(job, t) in Schedule(regs, obs, fails, ticks) <==>
            1 <= t <= ticks && exists i :: 0 <= i < |regs| && Fires(regs[i], job, t)
  {
    hide Due, TickEvents;
    if ticks > 0 {
      FiredWhenDue(regs, obs, fails, ticks - 1, job, t);
      TickFires(regs, obs, fails, ticks, Fired(job, t));
    }
  }

  predicate IsJob(r: Reg, job: int) {
    r.Reg? && r.id == job
  }

  /** May firing a stand before firing b? */
  ghost predicate InOrder(regs: seq<Reg>, a: Event, b: Event) {
    a.Fired? && b.Fired? ==>
      a.tick < b.tick
      || (a.tick == b.tick && exists i, j :: 0 <= i < j < |regs| && IsJob(regs[i], a.job) && IsJob(regs[j], b.job))
  }

  lemma {:induction false} TickOrder(regs: seq<Reg>, obs: seq<Obs>, fails: (int, int) -> bool, t: int, k: nat, l: nat)
    requires k < l < |TickEvents(regs, obs, fails, t)|
    ensures InOrder(regs, TickEvents(regs, obs, fails, t)[k], TickEvents(regs, obs, fails, t)[l])
  {
    hide Due, Notices;
    var n := |regs| - 1;
    var front, last := TickEvents(regs[..n], obs, fails, t), JobEvents(regs[n], obs, fails, t);
    var es := TickEvents(regs, obs, fails, t);
    assert es == front + last;
    NeverDueNull(regs[n], t);
    if Due(regs[n], t) {
      NoticesNamed(obs, regs[n].id, Outcome(fails, regs[n].id, t), t);
    }
    if l < |front| {
      TickOrder(regs[..n], obs, fails, t, k, l);
      MoreRegs(regs, n, es[k], es[l]);
    } else {
      assert es[l] == last[l - |front|];
      if k < |front| && es[k].Fired? && es[l].Fired? {
        TickFires(regs[..n], obs, fails, t, es[k]);
        assert es[k] in front;
        var i :| 0 <= i < n && Fires(regs[..n][i], es[k].job, t);
        assert IsJob(regs[i], es[k].job) && IsJob(regs[n], es[l].job);
        assert l == |front|;
      }
    }
  }

  lemma MoreRegs(regs: seq<Reg>, n: nat, a: Event, b: Event)
    requires n <= |regs| && InOrder(regs[..n], a, b)
    ensures InOrder(regs, a, b)
  {
    if a.Fired? && b.Fired? && a.tick == b.tick {
      var i, j :| 0 <= i < j < n && IsJob(regs[..n][i], a.job) && IsJob(regs[..n][j], b.job);
      assert regs[i] == regs[..n][i] && regs[j] == regs[..n][j];
    }
  }

  /** Firings come in the order of ticks, and within one tick in that of registration. */
  lemma {:induction false} FiredInOrder(regs: seq<Reg>, obs: seq<Obs>, fails: (int, int) -> bool, ticks: nat, k: nat, l: nat)
    requires k < l < |Schedule(regs, obs, fails, ticks)|
    ensures InOrder(regs, Schedule(regs, obs, fails, ticks)[k], Schedule(regs, obs, fails, ticks)[l])
  {
    hide TickEvents, InOrder;
    var front, last := Schedule(regs, obs, fails, ticks - 1), TickEvents(regs, obs, fails, ticks);
    var es := Schedule(regs, obs, fails, ticks);
    assert es == front + last;
    if l < |front| {
      FiredInOrder(regs, obs, fails, ticks - 1, k, l);
    } else if k >= |front| {
      TickOrder(regs, obs, fails, ticks, k - |front|, l - |front|);
    } else {
      assert es[k] in front && es[l] in last;
      EarlierTick(regs, obs, fails, ticks, es[k], es[l]);
    }
  }

  lemma EarlierTick(regs: seq<Reg>, obs: seq<Obs>, fails: (int, int) -> bool, ticks: nat, a: Event, b: Event)
    requires ticks > 0 && a in Schedule(regs, obs, fails, ticks - 1) && b in TickEvents(regs, obs, fails, ticks)
    ensures InOrder(regs, a, b)
  {
    hide TickEvents, Schedule, Due;
    if a.Fired? && b.Fired? {
      FiredWhenDue(regs, obs, fails, ticks - 1, a.job, a.tick);
      TickFires(regs, obs, fails, ticks, b);
      assert a == Fired(a.job, a.tick);
    }
  }

  // ---- The scheduler object ----

  class Job {
    const id: int
    const intervalTicks: int
    var nextFireTick: int

    constructor (id: int, interval: int)
      ensures this.id == id && intervalTicks == interval && nextFireTick == interval
    {
      this.id, intervalTicks, nextFireTick := id, interval, interval;
    }
  }

  /** What the next-fire field of a job says after tick `now`. */
  ghost predicate OnTime(r: Reg, nextFire: int, now: int)
    requires r.Reg?
  {
    if now < First(r) then nextFire == r.interval
    else if r.interval < 1 then nextFire <= now + 1
    else exists n: nat :: IsNext(r, n, nextFire, now)
  }

  ghost predicate IsNext(r: Reg, n: nat, nextFire: int, now: int)
    requires r.Reg?
  {
    n >= 1 && First(r) + (n - 1) * r.interval <= now < First(r) + n * r.interval
    && nextFire == First(r) + n * r.interval
  }

  /** So the test in the loop is the declarative one, and the assignment keeps it. */
  lemma OnTimeStep(r: Reg, nextFire: int, now: int)
    requires r.Reg? && now >= r.since && OnTime(r, nextFire, now)
    ensures now + 1 >= nextFire <==> Due(r, now + 1)
    ensures OnTime(r, if Due(r, now + 1) then now + 1 + r.interval else nextFire, now + 1)
  {
    var t, k := now + 1, r.interval;
    if now < First(r) {
      if t == First(r) && k >= 1 {
        assert 0 % k == 0;
        assert IsNext(r, 1, t + k, t);
      }
    } else if k >= 1 {
      var n: nat :| IsNext(r, n, nextFire, now);
      DueNext(r, n, now);
      assert (n + 1) * k == n * k + k;
      if t == nextFire {
        assert IsNext(r, n + 1, t + k, t);
      } else {
        assert IsNext(r, n, nextFire, t);
      }
      if k == 1 {
        assert n * k == n && (n - 1) * k == n - 1;
      }
    }
  }

  lemma NullNeverDue(t: int)
    ensures !Due(Null, t)
  {
  }

  lemma OnTimeAtFirst(r: Reg, now: int)
    requires r.Reg? && r.since == now
    ensures OnTime(r, r.interval, now)
  {
  }

  lemma TickEventsStep(regs: seq<Reg>, obs: seq<Obs>, fails: (int, int) -> bool, t: int, i: nat)
    requires i < |regs|
    ensures TickEvents(regs[..i + 1], obs, fails, t) == TickEvents(regs[..i], obs, fails, t) + JobEvents(regs[i], obs, fails, t)
  {
    assert regs[..i + 1][..i] == regs[..i];
  }

  lemma NoTickEvents(obs: seq<Obs>, fails: (int, int) -> bool, t: int)
    ensures TickEvents([], obs, fails, t) == []
  {
  }

  lemma ScheduleStep(regs: seq<Reg>, obs: seq<Obs>, fails: (int, int) -> bool, t: nat)
    requires t > 0
    ensures Schedule(regs, obs, fails, t) == Schedule(regs, obs, fails, t - 1) + TickEvents(regs, obs, fails, t)
  {
  }

  /** What the drain calls in other components. */
  datatype Call = DISARM_TIMER | REAP_ALL | POOL_SHUTDOWN | DISCONNECT_DATABASE

  const TEARDOWN := [DISARM_TIMER, REAP_ALL, POOL_SHUTDOWN, DISCONNECT_DATABASE]

  ghost predicate Describes(r: Reg, job: Job?, now: int) {
    && (job == null <==> r.Null?)
    && (job != null ==> r.Reg? && r.id == job.id && r.interval == job.intervalTicks && r.since <= now)
  }

  class Scheduler {
    var state: SchedulerState
    var drainRequested: bool
    var currentTick: nat
    var jobRegistry: array<Job?>
    var jobCount: nat
    var observers: seq<Obs>
    const fails: (int, int) -> bool
    var trace: seq<Event>
    var teardown: seq<Call>   // the teardown calls made so far
    ghost var regs: seq<Reg>

    ghost var members: set<Job>

    ghost predicate Shape()
      reads this, jobRegistry
    {
      && jobRegistry.Length == MAX_JOBS && jobCount <= MAX_JOBS && |regs| == jobCount
      && (forall i :: 0 <= i < jobCount ==> Describes(regs[i], jobRegistry[i], currentTick))
      && (forall i :: 0 <= i < jobCount && jobRegistry[i] != null ==> jobRegistry[i] in members)
      && (forall i, j :: 0 <= i < j < jobCount && jobRegistry[i] != null ==> jobRegistry[i] != jobRegistry[j])
      && (forall o :: o in observers && o.Obs? ==> o.since <= currentTick)
    }

    ghost predicate Valid()
      reads this, jobRegistry, members
    {
      && Shape()
      && (forall i :: 0 <= i < jobCount && jobRegistry[i] != null ==>
            OnTime(regs[i], jobRegistry[i].nextFireTick, currentTick))
      && trace == Schedule(regs, observers, fails, currentTick)
    }

    constructor (fails: (int, int) -> bool)
      ensures Valid() && fresh(jobRegistry) && members == {}
      ensures state == INITIALIZING && !drainRequested && currentTick == 0 && jobCount == 0
      ensures observers == [] && trace == [] && teardown == [] && this.fails == fails
    {
      state, drainRequested, currentTick, jobCount := INITIALIZING, false, 0, 0;
      jobRegistry := new Job?[MAX_JOBS](_ => null);
      observers, trace, teardown, regs, members := [], [], [], [], {};
      this.fails := fails;
    }

    method SetState(newState: SchedulerState)
      requires Valid()
      modifies this`state
      ensures Valid() && state == newState
    {
      state := newState;
    }

    /** A full registry ignores the job; a null pointer takes a slot and never fires. */
    method RegisterJob(job: Job?)
      requires Valid()
      requires job != null ==> job !in members && job.nextFireTick == job.intervalTicks
      modifies this`jobCount, this`regs, this`members, jobRegistry
      ensures Valid()
      ensures regs == if old(jobCount) < 32
                      then old(regs) + [if job == null then Null else Reg(job.id, job.intervalTicks, currentTick)]
                      else old(regs)
      ensures members == if job != null && old(jobCount) < MAX_JOBS then old(members) + {job} else old(members)
    {
      hide OnTime, Schedule;
      if jobCount < MAX_JOBS {
        ghost var r := if job == null then Null else Reg(job.id, job.intervalTicks, currentTick);
        LateJob(regs, r, observers, fails, currentTick);
        if job != null {
          OnTimeAtFirst(r, currentTick);
        }
        jobRegistry[jobCount] := job;
        jobCount := jobCount + 1;
        regs := regs + [r];
        members := if job != null then members + {job} else members;
      }
    }

    method RegisterObserver(obs: Obs)
      requires Valid() && (obs.Obs? ==> obs.since == currentTick)
      modifies this`observers
      ensures Valid() && observers == old(observers) + [obs]
    {
      LateObserver(observers, obs, regs, fails, currentTick);
      observers := observers + [obs];
    }

    /** The inner loop of tick. */
    method Notify(job: int, rc: ResultCode)
      requires forall o :: o in observers && o.Obs? ==> o.since < currentTick
      modifies this`trace
      ensures trace == old(trace) + Notices(observers, job, rc, currentTick)
    {
      for k := 0 to |observers|
        invariant trace == old(trace) + Notices(observers[..k], job, rc, currentTick)
      {
        assert observers[..k + 1][..k] == observers[..k];
        ghost var before := Notices(observers[..k], job, rc, currentTick);
        assert Notices(observers[..k + 1], job, rc, currentTick) ==
               before + if observers[k].Obs? && observers[k].since < currentTick
                        then [Notified(observers[k].id, job, rc, currentTick)] else [];
        if observers[k].Obs? {
          trace := trace + [Notified(observers[k].id, job, rc, currentTick)];
        }
      }
      assert observers[..|observers|] == observers;
    }

    /** One turn of the loop of tick, for the job in slot i. */
    method Visit(i: nat)
      requires Shape() && i < jobCount && currentTick > 0
      requires forall o :: o in observers && o.Obs? ==> o.since < currentTick
      requires jobRegistry[i] != null ==>
                 regs[i].since < currentTick && OnTime(regs[i], jobRegistry[i].nextFireTick, currentTick - 1)
      modifies this`trace, jobRegistry[i]
      ensures trace == old(trace) + JobEvents(regs[i], observers, fails, currentTick)
      ensures jobRegistry[i] != null ==> OnTime(regs[i], jobRegistry[i].nextFireTick, currentTick)
    {
      hide OnTime, Due, Notices;
      var job := jobRegistry[i];
      if job == null {
        assert regs[i].Null?;
        NullNeverDue(currentTick);
        return;
      }
      OnTimeStep(regs[i], job.nextFireTick, currentTick - 1);
      if currentTick >= job.nextFireTick {
        var rc := OK;
        trace := trace + [Fired(job.id, currentTick)];
        if fails(job.id, currentTick) {
          rc := INVALID_STATE;
        }
        job.nextFireTick := currentTick + job.intervalTicks;
        Notify(job.id, rc);
      }
    }

    /** tick: nothing unless RUNNING; otherwise exactly the events of the next tick. */
    method Tick()
      requires Valid()
      modifies this`currentTick, this`trace, members
      ensures Valid()
      ensures state != RUNNING ==> currentTick == old(currentTick) && trace == old(trace)
      ensures state == RUNNING ==> currentTick == old(currentTick) + 1
      ensures state == RUNNING ==> trace == old(trace) + TickEvents(regs, observers, fails, currentTick)
    {
      hide OnTime, JobEvents, Schedule, TickEvents;
      if state != RUNNING {
        return;
      }
      currentTick := currentTick + 1;
      NoTickEvents(observers, fails, currentTick);
      for i := 0 to jobCount
        invariant Shape() && currentTick == old(currentTick) + 1
        invariant forall o :: o in observers && o.Obs? ==> o.since < currentTick
        invariant forall r :: r in regs && r.Reg? ==> r.since < currentTick
        invariant forall j :: 0 <= j < jobCount && jobRegistry[j] != null ==>
                    OnTime(regs[j], jobRegistry[j].nextFireTick, if j < i then currentTick else currentTick - 1)
        invariant trace == old(trace) + TickEvents(regs[..i], observers, fails, currentTick)
      {
        TickEventsStep(regs, observers, fails, currentTick, i);
        Visit(i);
      }
      assert regs[..jobCount] == regs;
      ScheduleStep(regs, observers, fails, currentTick);
    }

    /** Any number of ticks while running: the trace is the whole schedule. */
    method RunTicks(n: nat)
      requires Valid() && state == RUNNING
      modifies this`currentTick, this`trace, members
      ensures Valid() && currentTick == old(currentTick) + n
      ensures trace == Schedule(regs, observers, fails, currentTick)
      ensures Blocks(trace, observers, fails)
    {
      hide Blocks, Schedule, Shape, TickEvents;
      FiringsAnnounced(regs, observers, fails, currentTick + n);
      for k := 0 to n
        invariant Valid() && currentTick == old(currentTick) + k
      {
        Tick();
      }
    }

    method RequestDrain()
      requires Valid()
      modifies this`drainRequested
      ensures Valid() && drainRequested
    {
      drainRequested := true;
    }

    /** A requested drain is handled once for that request: the four teardown calls in
        their order, and STOPPED.  A later request repeats all of it. */
    method HandleDrainRequest()
      requires Valid()
      modifies this`drainRequested, this`state, this`teardown
      ensures Valid() && !drainRequested
      ensures state == if old(drainRequested) then STOPPED else old(state)
      ensures teardown == old(teardown) + if old(drainRequested)
                                          then [DISARM_TIMER, REAP_ALL, POOL_SHUTDOWN, DISCONNECT_DATABASE] else []
    {
      hide Schedule, OnTime, Describes;
      if !drainRequested {
        return;
      }
      drainRequested := false;
      state := DRAINING;
      teardown := teardown + [DISARM_TIMER];
      teardown := teardown + [REAP_ALL];
      teardown := teardown + [POOL_SHUTDOWN];
      teardown := teardown + [DISCONNECT_DATABASE];
      state := STOPPED;
    }
  }
}
