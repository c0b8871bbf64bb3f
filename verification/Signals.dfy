/**
 Signals that only set flags, and the poll of the main loop that acts on them, as
 interleaved steps: a signal may be delivered, and a child may come or go, between any two
 steps of the poll.
 */
module Signals {
  import opened Scheduler

  /** Where the poll is: Outside it, or about to do the named thing. */
  datatype Pc =
    | Outside
    | TestDrain | ClearDrain | SetDraining | Disarm | ReapChildren | JoinWorkers | Disconnect | SetStopped
    | TestAlarm | ClearAlarm | CallTick
    | TestChild | ClearChild | WaitChild | ReapOne
    | Return

  datatype State = State(
    alarm: bool,
    child: bool,
    drain: bool,
    sched: SchedulerState,
    pc: Pc,
    ticks: nat,          // ticks that ran
    teardown: seq<Call>, // teardown calls made
    running: nat,        // children
    zombies: nat,
    // history
    alarms: nat,         // SIGALRMs delivered
    requests: nat        // SIGTERMs and SIGINTs delivered
  )

  datatype Label =
    | Alarm | Child | Terminate           // deliveries
    | Spawn | Exit | Vanish | Collected   // children start, die, and are taken by others
    | SetState(to: SchedulerState)
    | Enter | Poll

  const START := State(false, false, false, INITIALIZING, Outside, 0, [], 0, 0, 0, 0)

  /** Only code outside the poll sets the scheduler state. */
  predicate Enabled(s: State, l: Label) {
    match l
    case Alarm => true
    case Child => true
    case Terminate => true
    case Spawn => true
    case Exit => s.running > 0
    case Vanish => s.running > 0
    case Collected => s.zombies > 0
    case SetState(_) => s.pc == Outside
    case Enter => s.pc == Outside
    case Poll => s.pc != Outside
  }

  /** The drain part of a poll. */
  predicate Draining(pc: Pc) {
    pc == SetDraining || pc == Disarm || pc == ReapChildren || pc == JoinWorkers || pc == Disconnect || pc == SetStopped
  }

  function DrainStep(s: State): State
    requires s.pc == TestDrain || s.pc == ClearDrain || Draining(s.pc)
  {
    match s.pc
    case TestDrain => s.(pc := if s.drain then ClearDrain else TestAlarm)
    case ClearDrain => s.(drain := false, pc := SetDraining)
    case SetDraining => s.(sched := DRAINING, pc := Disarm)
    case Disarm => s.(teardown := s.teardown + [DISARM_TIMER], pc := ReapChildren)
    case ReapChildren => s.(teardown := s.teardown + [REAP_ALL], pc := JoinWorkers)
    case JoinWorkers => s.(teardown := s.teardown + [POOL_SHUTDOWN], pc := Disconnect)
    case Disconnect => s.(teardown := s.teardown + [DISCONNECT_DATABASE], pc := SetStopped)
    case SetStopped => s.(sched := STOPPED, pc := TestAlarm)
  }

  /** The rest of it; waitpid(-1) is repeated while it finds a dead child. */
  function WorkStep(s: State): State
    requires s.pc != Outside && s.pc != TestDrain && s.pc != ClearDrain && !Draining(s.pc)
  {
    match s.pc
    case TestAlarm => s.(pc := if s.alarm then ClearAlarm else TestChild)
    case ClearAlarm => s.(alarm := false, pc := CallTick)
    case CallTick => s.(pc := TestChild, ticks := if s.sched == RUNNING then s.ticks + 1 else s.ticks)
    case TestChild => s.(pc := if s.child then ClearChild else Return)
    case ClearChild => s.(child := false, pc := WaitChild)
    case WaitChild => if s.zombies > 0 then s.(zombies := s.zombies - 1, pc := ReapOne) else s.(pc := Return)
    case ReapOne => s.(pc := WaitChild)
    case Return => s.(pc := Outside)
  }

  function PollStep(s: State): State
    requires s.pc != Outside
  {
    if s.pc == TestDrain || s.pc == ClearDrain || Draining(s.pc) then DrainStep(s) else WorkStep(s)
  }

  function Apply(s: State, l: Label): State
    requires Enabled(s, l)
  {
    match l
    case Alarm => s.(alarm := true, alarms := s.alarms + 1)
    case Child => s.(child := true)
    case Terminate => s.(drain := true, requests := s.requests + 1)
    case Spawn => s.(running := s.running + 1)
    case Exit => s.(running := s.running - 1, zombies := s.zombies + 1)
    case Vanish => s.(running := s.running - 1)
    case Collected => s.(zombies := s.zombies - 1)
    case SetState(to) => s.(sched := to)
    case Enter => s.(pc := TestDrain)
    case Poll => PollStep(s)
  }

  predicate IsRun(s: State, ls: seq<Label>)
    decreases |ls|
  {
    ls == [] || (Enabled(s, ls[0]) && IsRun(Apply(s, ls[0]), ls[1..]))
  }

  function Run(s: State, ls: seq<Label>): State
    requires IsRun(s, ls)
    decreases |ls|
  {
    if ls == [] then s else Run(Apply(s, ls[0]), ls[1..])
  }

  lemma {:induction false} RunSplit(s: State, a: seq<Label>, b: seq<Label>)
    requires IsRun(s, a + b)
    ensures IsRun(s, a) && IsRun(Run(s, a), b) && Run(s, a + b) == Run(Run(s, a), b)
    decreases |a|
  {
    hide Enabled, Apply;
    if a == [] {
      assert a + b == b;
    } else {
      assert (a + b)[0] == a[0] && (a + b)[1..] == a[1..] + b;
      RunSplit(Apply(s, a[0]), a[1..], b);
    }
  }

  /** A run that starts with a given step. */
  lemma RunFirst(s: State, l: Label, ls: seq<Label>)
    requires IsRun(s, [l] + ls)
    ensures Enabled(s, l) && IsRun(Apply(s, l), ls) && Run(s, [l] + ls) == Run(Apply(s, l), ls)
  {
    hide Enabled, Apply;
    assert ([l] + ls)[1..] == ls;
  }

  // ---- Counting ----

  /** Every tick is paid for by an alarm of its own, every teardown by a request. */
  predicate CountInv(s: State) {
    && s.ticks + (if s.alarm then 1 else 0) + (if s.pc == CallTick then 1 else 0) <= s.alarms
    && (s.pc == ClearAlarm ==> s.alarm)
    && (s.pc == ClearDrain ==> s.drain)
    && |s.teardown| + (if s.drain then 4 else 0) + CallsLeft(s.pc) <= 4 * s.requests
  }

  /** Teardown calls a drain in progress still makes. */
  function CallsLeft(pc: Pc): nat {
    match pc
    case SetDraining => 4
    case Disarm => 4
    case ReapChildren => 3
    case JoinWorkers => 2
    case Disconnect => 1
    case _ => 0
  }

  lemma CountStep(s: State, l: Label)
    requires CountInv(s) && Enabled(s, l)
    ensures CountInv(Apply(s, l))
  {
    hide PollStep;
    if l == Poll {
      CountPoll(s);
    }
  }

  lemma CountPoll(s: State)
    requires CountInv(s) && s.pc != Outside
    ensures CountInv(PollStep(s))
  {
    hide DrainStep, WorkStep;
    if s.pc == TestDrain || s.pc == ClearDrain || Draining(s.pc) {
      CountDrain(s);
    } else {
      CountWork(s);
    }
  }

  lemma CountDrain(s: State)
    requires CountInv(s) && (s.pc == TestDrain || s.pc == ClearDrain || Draining(s.pc))
    ensures CountInv(DrainStep(s))
  {
  }

  lemma CountWork(s: State)
    requires CountInv(s) && s.pc != Outside && s.pc != TestDrain && s.pc != ClearDrain && !Draining(s.pc)
    ensures CountInv(WorkStep(s))
  {
  }

  lemma {:induction false} CountRun(s: State, ls: seq<Label>)
    requires CountInv(s) && IsRun(s, ls)
    ensures CountInv(Run(s, ls))
    decreases |ls|
  {
    hide CountInv, Enabled, Apply;
    if ls != [] {
      CountStep(s, ls[0]);
      CountRun(Apply(s, ls[0]), ls[1..]);
    }
  }

  /** However signals fall between the steps of the polls, ticks never outnumber
      SIGALRMs. */
  lemma TicksAreAlarms(ls: seq<Label>)
    requires IsRun(START, ls)
    ensures Run(START, ls).ticks <= Run(START, ls).alarms
  {
    CountRun(START, ls);
  }

  /** Nor do teardowns outnumber the requests for one. */
  lemma TeardownsAreRequests(ls: seq<Label>)
    requires IsRun(START, ls)
    ensures |Run(START, ls).teardown| <= 4 * Run(START, ls).requests
  {
    CountRun(START, ls);
  }

  // ---- No alarm is lost ----

  predicate AfterTick(pc: Pc) {
    pc == TestChild || pc == ClearChild || pc == WaitChild || pc == ReapOne || pc == Return
  }

  /** While the scheduler runs, a tick came since there were `ticks` of them, or one is
      due. */
  predicate Due(s: State, ticks: nat) {
    s.ticks >= ticks && (s.pc == ClearAlarm ==> s.alarm) && (s.sched == RUNNING ==> s.ticks > ticks || s.alarm || s.pc == CallTick)
  }

  /** In a poll, past the tick, it came. */
  predicate Served(s: State, ticks: nat) {
    s.pc == Outside || (Due(s, ticks) && (AfterTick(s.pc) && s.sched == RUNNING ==> s.ticks > ticks))
  }

  lemma DueStep(s: State, l: Label, ticks: nat)
    requires Due(s, ticks) && Enabled(s, l) && !l.SetState?
    ensures Due(Apply(s, l), ticks)
  {
    hide PollStep;
    if l == Poll {
      DuePoll(s, ticks);
    }
  }

  lemma DuePoll(s: State, ticks: nat)
    requires Due(s, ticks) && s.pc != Outside
    ensures Due(PollStep(s), ticks)
  {
    hide DrainStep, WorkStep;
    if s.pc == TestDrain || s.pc == ClearDrain || Draining(s.pc) {
      DueDrain(s, ticks);
    } else {
      DueWork(s, ticks);
    }
  }

  lemma DueDrain(s: State, ticks: nat)
    requires Due(s, ticks) && (s.pc == TestDrain || s.pc == ClearDrain || Draining(s.pc))
    ensures Due(DrainStep(s), ticks)
  {
  }

  lemma DueWork(s: State, ticks: nat)
    requires Due(s, ticks) && s.pc != Outside && s.pc != TestDrain && s.pc != ClearDrain && !Draining(s.pc)
    ensures Due(WorkStep(s), ticks)
  {
  }

  lemma ServedStep(s: State, l: Label, ticks: nat)
    requires Served(s, ticks) && Enabled(s, l) && l != Enter
    ensures Served(Apply(s, l), ticks)
  {
    hide PollStep;
    if l == Poll {
      ServedPoll(s, ticks);
    }
  }

  lemma ServedPoll(s: State, ticks: nat)
    requires Served(s, ticks) && s.pc != Outside
    ensures Served(PollStep(s), ticks)
  {
    hide DrainStep, WorkStep;
    if s.pc == TestDrain || s.pc == ClearDrain || Draining(s.pc) {
      ServedDrain(s, ticks);
    } else {
      ServedWork(s, ticks);
    }
  }

  lemma ServedDrain(s: State, ticks: nat)
    requires Served(s, ticks) && (s.pc == TestDrain || s.pc == ClearDrain || Draining(s.pc))
    ensures Served(DrainStep(s), ticks)
  {
  }

  lemma ServedWork(s: State, ticks: nat)
    requires Served(s, ticks) && s.pc != Outside && s.pc != TestDrain && s.pc != ClearDrain && !Draining(s.pc)
    ensures Served(WorkStep(s), ticks)
  {
  }

  lemma {:induction false} DueRun(s: State, ls: seq<Label>, ticks: nat)
    requires Due(s, ticks) && IsRun(s, ls) && forall l :: l in ls ==> !l.SetState?
    ensures Due(Run(s, ls), ticks)
    decreases |ls|
  {
    hide Due, Enabled, Apply;
    if ls != [] {
      assert ls[0] in ls && forall l :: l in ls[1..] ==> l in ls;
      DueStep(s, ls[0], ticks);
      DueRun(Apply(s, ls[0]), ls[1..], ticks);
    }
  }

  lemma {:induction false} ServedRun(s: State, ls: seq<Label>, ticks: nat)
    requires Served(s, ticks) && IsRun(s, ls) && Enter !in ls
    ensures Served(Run(s, ls), ticks)
    decreases |ls|
  {
    hide Served, Enabled, Apply;
    if ls != [] {
      assert ls[0] in ls && forall l :: l in ls[1..] ==> l in ls;
      ServedStep(s, ls[0], ticks);
      ServedRun(Apply(s, ls[0]), ls[1..], ticks);
    }
  }

  /** A SIGALRM, and after it a whole poll: by the time that poll returns there is one tick
      more than when the alarm arrived, if the scheduler still runs and nobody set its
      state between the two. */
  lemma AlarmLeadsToTick(before: seq<Label>, between: seq<Label>, poll: seq<Label>)
    requires IsRun(START, before + ([Alarm] + (between + ([Enter] + poll))))
    requires (forall l :: l in between ==> !l.SetState?) && Enter !in poll
    requires var s := Run(START, before + ([Alarm] + (between + ([Enter] + poll)))); s.pc == Return && s.sched == RUNNING
    ensures IsRun(START, before)
    ensures Run(START, before + ([Alarm] + (between + ([Enter] + poll)))).ticks > Run(START, before).ticks
  {
    hide IsRun, Run;
    RunSplit(START, before, [Alarm] + (between + ([Enter] + poll)));
    var s0 := Run(START, before);
    CountRun(START, before);
    RunFirst(s0, Alarm, between + ([Enter] + poll));
    var s1 := Apply(s0, Alarm);
    RunSplit(s1, between, [Enter] + poll);
    DueRun(s1, between, s0.ticks);
    var s2 := Run(s1, between);
    RunFirst(s2, Enter, poll);
    ServedRun(Apply(s2, Enter), poll, s0.ticks);
  }

  // ---- No drain is lost ----

  /** A drain was asked for, is going on, or is done. */
  predicate Stopping(s: State) {
    s.drain || Draining(s.pc) || s.sched == STOPPED
  }

  /** In a poll, past the drain, it is done. */
  predicate Stopped(s: State) {
    s.pc == Outside
    || (Stopping(s) && (s.pc == ClearDrain ==> s.drain)
        && (s.pc == TestAlarm || s.pc == ClearAlarm || s.pc == CallTick || AfterTick(s.pc) ==> s.sched == STOPPED))
  }

  lemma StoppingStep(s: State, l: Label)
    requires Stopping(s) && Enabled(s, l) && !l.SetState?
    ensures Stopping(Apply(s, l))
  {
    hide PollStep;
    if l == Poll {
      StoppingPoll(s);
    }
  }

  lemma StoppingPoll(s: State)
    requires Stopping(s) && s.pc != Outside
    ensures Stopping(PollStep(s))
  {
    hide DrainStep, WorkStep;
    if s.pc == TestDrain || s.pc == ClearDrain || Draining(s.pc) {
      StoppingDrain(s);
    } else {
      StoppingWork(s);
    }
  }

  lemma StoppingDrain(s: State)
    requires Stopping(s) && (s.pc == TestDrain || s.pc == ClearDrain || Draining(s.pc))
    ensures Stopping(DrainStep(s))
  {
  }

  lemma StoppingWork(s: State)
    requires Stopping(s) && s.pc != Outside && s.pc != TestDrain && s.pc != ClearDrain && !Draining(s.pc)
    ensures Stopping(WorkStep(s))
  {
  }

  lemma StoppedStep(s: State, l: Label)
    requires Stopped(s) && Enabled(s, l) && l != Enter
    ensures Stopped(Apply(s, l))
  {
    hide PollStep;
    if l == Poll {
      StoppedPoll(s);
    }
  }

  lemma StoppedPoll(s: State)
    requires Stopped(s) && s.pc != Outside
    ensures Stopped(PollStep(s))
  {
    hide DrainStep, WorkStep;
    if s.pc == TestDrain || s.pc == ClearDrain || Draining(s.pc) {
      StoppedDrain(s);
    } else {
      StoppedWork(s);
    }
  }

  lemma StoppedDrain(s: State)
    requires Stopped(s) && (s.pc == TestDrain || s.pc == ClearDrain || Draining(s.pc))
    ensures Stopped(DrainStep(s))
  {
  }

  lemma StoppedWork(s: State)
    requires Stopped(s) && s.pc != Outside && s.pc != TestDrain && s.pc != ClearDrain && !Draining(s.pc)
    ensures Stopped(WorkStep(s))
  {
  }

  lemma {:induction false} StoppingRun(s: State, ls: seq<Label>)
    requires Stopping(s) && IsRun(s, ls) && forall l :: l in ls ==> !l.SetState?
    ensures Stopping(Run(s, ls))
    decreases |ls|
  {
    hide Stopping, Enabled, Apply;
    if ls != [] {
      assert ls[0] in ls && forall l :: l in ls[1..] ==> l in ls;
      StoppingStep(s, ls[0]);
      StoppingRun(Apply(s, ls[0]), ls[1..]);
    }
  }

  lemma {:induction false} StoppedRun(s: State, ls: seq<Label>)
    requires Stopped(s) && IsRun(s, ls) && Enter !in ls
    ensures Stopped(Run(s, ls))
    decreases |ls|
  {
    hide Stopped, Enabled, Apply;
    if ls != [] {
      assert ls[0] in ls && forall l :: l in ls[1..] ==> l in ls;
      StoppedStep(s, ls[0]);
      StoppedRun(Apply(s, ls[0]), ls[1..]);
    }
  }

  /** A SIGTERM or SIGINT, and after it a whole poll: when that poll returns the scheduler
      is stopped, if nobody set its state between the two. */
  lemma TerminationLeadsToStop(before: seq<Label>, between: seq<Label>, poll: seq<Label>)
    requires IsRun(START, before + ([Terminate] + (between + ([Enter] + poll))))
    requires (forall l :: l in between ==> !l.SetState?) && Enter !in poll
    requires Run(START, before + ([Terminate] + (between + ([Enter] + poll)))).pc == Return
    ensures Run(START, before + ([Terminate] + (between + ([Enter] + poll)))).sched == STOPPED
  {
    hide IsRun, Run;
    RunSplit(START, before, [Terminate] + (between + ([Enter] + poll)));
    var s0 := Run(START, before);
    RunFirst(s0, Terminate, between + ([Enter] + poll));
    var s1 := Apply(s0, Terminate);
    RunSplit(s1, between, [Enter] + poll);
    StoppingRun(s1, between);
    var s2 := Run(s1, between);
    RunFirst(s2, Enter, poll);
    StoppedRun(Apply(s2, Enter), poll);
  }

  // ---- How often the teardown is done ----

  /** Teardown calls made and owed: four for a request that is pending, and what a drain in
      progress still makes. */
  function Credit(s: State): nat {
    |s.teardown| + (if s.drain then 4 else 0) + CallsLeft(s.pc)
  }

  /** SIGTERMs and SIGINTs of a run that find no request pending. */
  function Asked(s: State, ls: seq<Label>): nat
    requires IsRun(s, ls)
    decreases |ls|
  {
    if ls == [] then 0
    else (if ls[0] == Terminate && !s.drain then 1 else 0) + Asked(Apply(s, ls[0]), ls[1..])
  }

  predicate DrainNoticed(s: State) {
    s.pc == ClearDrain ==> s.drain
  }

  lemma CreditStep(s: State, l: Label)
    requires DrainNoticed(s) && Enabled(s, l)
    ensures DrainNoticed(Apply(s, l))
    ensures Credit(Apply(s, l)) == Credit(s) + (if l == Terminate && !s.drain then 4 else 0)
    ensures s.teardown <= Apply(s, l).teardown
  {
    hide PollStep;
    if l == Poll {
      CreditPoll(s);
    }
  }

  lemma CreditPoll(s: State)
    requires DrainNoticed(s) && s.pc != Outside
    ensures DrainNoticed(PollStep(s)) && Credit(PollStep(s)) == Credit(s) && s.teardown <= PollStep(s).teardown
  {
    hide DrainStep, WorkStep, Credit, DrainNoticed;
    if s.pc == TestDrain || s.pc == ClearDrain || Draining(s.pc) {
      CreditDrain(s);
    } else {
      CreditWork(s);
    }
  }

  lemma CreditDrain(s: State)
    requires DrainNoticed(s) && (s.pc == TestDrain || s.pc == ClearDrain || Draining(s.pc))
    ensures DrainNoticed(DrainStep(s)) && Credit(DrainStep(s)) == Credit(s) && s.teardown <= DrainStep(s).teardown
  {
  }

  lemma CreditWork(s: State)
    requires DrainNoticed(s) && s.pc != Outside && s.pc != TestDrain && s.pc != ClearDrain && !Draining(s.pc)
    ensures DrainNoticed(WorkStep(s)) && Credit(WorkStep(s)) == Credit(s) && s.teardown == WorkStep(s).teardown
  {
  }

  /** Over every run: what was made and owed grows by four for each request that found none
      pending, and by nothing else; calls made are never unmade. */
  lemma {:induction false} CreditRun(s: State, ls: seq<Label>)
    requires DrainNoticed(s) && IsRun(s, ls)
    ensures DrainNoticed(Run(s, ls)) && Credit(Run(s, ls)) == Credit(s) + 4 * Asked(s, ls)
    ensures s.teardown <= Run(s, ls).teardown
    decreases |ls|
  {
    hide DrainNoticed, Credit, Enabled, Apply;
    if ls != [] {
      CreditStep(s, ls[0]);
      CreditRun(Apply(s, ls[0]), ls[1..]);
    }
  }

  /** Where no drain is asked for or going on and no request comes, none is done, however
      many polls there are. */
  lemma NoRequestNoTeardown(s: State, ls: seq<Label>)
    requires !s.drain && s.pc != ClearDrain && !Draining(s.pc) && IsRun(s, ls) && Terminate !in ls
    ensures Run(s, ls).teardown == s.teardown
  {
    CreditRun(s, ls);
    NobodyAsks(s, ls);
    assert Credit(s) == |s.teardown|;
  }

  lemma {:induction false} NobodyAsks(s: State, ls: seq<Label>)
    requires IsRun(s, ls) && Terminate !in ls
    ensures Asked(s, ls) == 0
    decreases |ls|
  {
    hide Enabled, Apply;
    if ls != [] {
      assert ls[0] in ls && forall l :: l in ls[1..] ==> l in ls;
      NobodyAsks(Apply(s, ls[0]), ls[1..]);
    }
  }

  /** In a poll that started with a request: n calls are made, or still to be made by it. */
  predicate Promised(s: State, n: nat) {
    s.pc == Outside
    || (DrainNoticed(s) && n <= |s.teardown| + CallsLeft(s.pc) + (if s.drain && (s.pc == TestDrain || s.pc == ClearDrain) then 4 else 0))
  }

  lemma PromisedStep(s: State, l: Label, n: nat)
    requires Promised(s, n) && Enabled(s, l) && l != Enter
    ensures Promised(Apply(s, l), n)
  {
    hide PollStep;
    if l == Poll {
      PromisedPoll(s, n);
    }
  }

  lemma PromisedPoll(s: State, n: nat)
    requires Promised(s, n) && s.pc != Outside
    ensures Promised(PollStep(s), n)
  {
    hide DrainStep, WorkStep, Promised;
    if s.pc == TestDrain || s.pc == ClearDrain || Draining(s.pc) {
      PromisedDrain(s, n);
    } else {
      PromisedWork(s, n);
    }
  }

  lemma PromisedDrain(s: State, n: nat)
    requires Promised(s, n) && (s.pc == TestDrain || s.pc == ClearDrain || Draining(s.pc))
    ensures Promised(DrainStep(s), n)
  {
  }

  lemma PromisedWork(s: State, n: nat)
    requires Promised(s, n) && s.pc != Outside && s.pc != TestDrain && s.pc != ClearDrain && !Draining(s.pc)
    ensures Promised(WorkStep(s), n)
  {
  }

  lemma {:induction false} PromisedRun(s: State, ls: seq<Label>, n: nat)
    requires Promised(s, n) && IsRun(s, ls) && Enter !in ls
    ensures Promised(Run(s, ls), n)
    decreases |ls|
  {
    hide Promised, Enabled, Apply;
    if ls != [] {
      assert ls[0] in ls && forall l :: l in ls[1..] ==> l in ls;
      PromisedStep(s, ls[0], n);
      PromisedRun(Apply(s, ls[0]), ls[1..], n);
    }
  }

  /** The calls made are whole teardowns one after another, and the start of one more. */
  predicate Rounds(calls: seq<Call>) {
    forall i :: 0 <= i < |calls| ==> calls[i] == TEARDOWN[i % 4]
  }

  lemma AnotherCall(calls: seq<Call>, c: Call)
    requires Rounds(calls) && c == TEARDOWN[|calls| % 4]
    ensures Rounds(calls + [c])
  {
  }

  predicate InOrder(s: State) {
    && Rounds(s.teardown)
    && |s.teardown| % 4 == (4 - CallsLeft(s.pc)) % 4
  }

  lemma OrderStep(s: State, l: Label)
    requires InOrder(s) && Enabled(s, l)
    ensures InOrder(Apply(s, l))
  {
    hide PollStep;
    if l == Poll {
      OrderPoll(s);
    }
  }

  lemma OrderPoll(s: State)
    requires InOrder(s) && s.pc != Outside
    ensures InOrder(PollStep(s))
  {
    hide DrainStep, WorkStep, InOrder;
    if s.pc == TestDrain || s.pc == ClearDrain || Draining(s.pc) {
      OrderDrain(s);
    } else {
      OrderWork(s);
    }
  }

  lemma OrderDrain(s: State)
    requires InOrder(s) && (s.pc == TestDrain || s.pc == ClearDrain || Draining(s.pc))
    ensures InOrder(DrainStep(s))
  {
    hide Rounds, DrainStep, InOrder;
    if s.pc == Disarm || s.pc == ReapChildren {
      OrderFirst(s);
    } else if s.pc == JoinWorkers || s.pc == Disconnect {
      OrderSecond(s);
    } else {
      OrderQuiet(s);
    }
  }

  lemma OrderFirst(s: State)
    requires InOrder(s) && (s.pc == Disarm || s.pc == ReapChildren)
    ensures InOrder(DrainStep(s))
  {
    hide Rounds;
    AnotherCall(s.teardown, if s.pc == Disarm then DISARM_TIMER else REAP_ALL);
  }

  lemma OrderSecond(s: State)
    requires InOrder(s) && (s.pc == JoinWorkers || s.pc == Disconnect)
    ensures InOrder(DrainStep(s))
  {
    hide Rounds;
    AnotherCall(s.teardown, if s.pc == JoinWorkers then POOL_SHUTDOWN else DISCONNECT_DATABASE);
  }

  lemma OrderQuiet(s: State)
    requires InOrder(s) && (s.pc == TestDrain || s.pc == ClearDrain || s.pc == SetDraining || s.pc == SetStopped)
    ensures InOrder(DrainStep(s))
  {
    hide Rounds;
  }

  lemma OrderWork(s: State)
    requires InOrder(s) && s.pc != Outside && s.pc != TestDrain && s.pc != ClearDrain && !Draining(s.pc)
    ensures InOrder(WorkStep(s))
  {
  }

  lemma {:induction false} OrderRun(s: State, ls: seq<Label>)
    requires InOrder(s) && IsRun(s, ls)
    ensures InOrder(Run(s, ls))
    decreases |ls|
  {
    hide InOrder, Enabled, Apply;
    if ls != [] {
      OrderStep(s, ls[0]);
      OrderRun(Apply(s, ls[0]), ls[1..]);
    }
  }

  /** A SIGTERM or SIGINT, and after it a whole poll: whatever was done before, when that
      poll returns the teardown was gone through once more since the signal, besides the rest
      of one that was going on; nothing remembers that it was done. */
  lemma EveryRequestTearsDown(before: seq<Label>, between: seq<Label>, poll: seq<Label>)
    requires IsRun(START, before + ([Terminate] + (between + ([Enter] + poll)))) && Enter !in poll
    requires Run(START, before + ([Terminate] + (between + ([Enter] + poll)))).pc == Return
    ensures IsRun(START, before)
    ensures var s0, s := Run(START, before), Run(START, before + ([Terminate] + (between + ([Enter] + poll))));
            && s0.teardown <= s.teardown
            && |s.teardown| >= |s0.teardown| + CallsLeft(s0.pc) + 4
            && |s.teardown| % 4 == 0
            && forall i :: 0 <= i < |s.teardown| ==>
                 s.teardown[i] == [DISARM_TIMER, REAP_ALL, POOL_SHUTDOWN, DISCONNECT_DATABASE][i % 4]
  {
    hide IsRun, Run, Asked;
    RunSplit(START, before, [Terminate] + (between + ([Enter] + poll)));
    var s0 := Run(START, before);
    CreditRun(START, before);
    CreditRun(s0, [Terminate] + (between + ([Enter] + poll)));
    OrderRun(START, before + ([Terminate] + (between + ([Enter] + poll))));
    RunFirst(s0, Terminate, between + ([Enter] + poll));
    var s1 := Apply(s0, Terminate);
    RunSplit(s1, between, [Enter] + poll);
    CreditRun(s1, between);
    var s2 := Run(s1, between);
    RunFirst(s2, Enter, poll);
    PromisedRun(Apply(s2, Enter), poll, |s0.teardown| + CallsLeft(s0.pc) + 4);
  }

  /** And exactly so often: between two drains the calls made are four for each request
      that found none pending. */
  lemma TeardownsExact(ls: seq<Label>)
    requires IsRun(START, ls)
    ensures var s := Run(START, ls);
            !s.drain && s.pc != ClearDrain && !Draining(s.pc) ==> |s.teardown| == 4 * Asked(START, ls)
  {
    CreditRun(START, ls);
  }

  // ---- No dead child is left ----

  function Occurs(l: Label, ls: seq<Label>): nat {
    if ls == [] then 0 else (if ls[0] == l then 1 else 0) + Occurs(l, ls[1..])
  }

  predicate Collecting(pc: Pc) {
    pc == WaitChild || pc == ReapOne
  }

  /** The signal is noted, the poll is collecting, or at most n dead children are left. */
  predicate Noted(s: State, n: nat) {
    (s.pc == ClearChild ==> s.child) && (s.child || Collecting(s.pc) || s.zombies <= n)
  }

  /** In a poll: when it returns at most n are left, and without a new signal the flag is
      down. */
  predicate LeftBehind(s: State, n: nat, quiet: bool) {
    s.pc == Outside
    || (Noted(s, n) && (s.pc == Return ==> s.zombies <= n)
        && (quiet && (Collecting(s.pc) || s.pc == Return) ==> !s.child))
  }

  function Died(l: Label): nat {
    if l == Exit then 1 else 0
  }

  lemma NotedStep(s: State, l: Label, n: nat)
    requires Noted(s, n) && Enabled(s, l)
    ensures Noted(Apply(s, l), n + Died(l))
  {
    hide PollStep;
    if l == Poll {
      NotedPoll(s, n);
    }
  }

  lemma NotedPoll(s: State, n: nat)
    requires Noted(s, n) && s.pc != Outside
    ensures Noted(PollStep(s), n)
  {
    hide DrainStep, WorkStep, Noted;
    if s.pc == TestDrain || s.pc == ClearDrain || Draining(s.pc) {
      NotedDrain(s, n);
    } else {
      NotedWork(s, n);
    }
  }

  lemma NotedDrain(s: State, n: nat)
    requires Noted(s, n) && (s.pc == TestDrain || s.pc == ClearDrain || Draining(s.pc))
    ensures Noted(DrainStep(s), n) && DrainStep(s).pc != Return && !Collecting(DrainStep(s).pc)
  {
  }

  lemma NotedWork(s: State, n: nat)
    requires Noted(s, n) && s.pc != Outside && s.pc != TestDrain && s.pc != ClearDrain && !Draining(s.pc)
    ensures Noted(WorkStep(s), n)
  {
  }

  lemma CollectedStep(s: State, l: Label, n: nat, quiet: bool)
    requires LeftBehind(s, n, quiet) && Enabled(s, l) && l != Enter && (quiet ==> l != Child)
    ensures LeftBehind(Apply(s, l), n + Died(l), quiet)
  {
    hide PollStep;
    if l == Poll {
      CollectedPoll(s, n, quiet);
    }
  }

  lemma CollectedPoll(s: State, n: nat, quiet: bool)
    requires LeftBehind(s, n, quiet) && s.pc != Outside
    ensures LeftBehind(PollStep(s), n, quiet)
  {
    hide DrainStep, WorkStep, Noted;
    if s.pc == TestDrain || s.pc == ClearDrain || Draining(s.pc) {
      NotedDrain(s, n);
    } else {
      NotedWork(s, n);
      CollectedWork(s, n, quiet);
    }
  }

  lemma CollectedWork(s: State, n: nat, quiet: bool)
    requires LeftBehind(s, n, quiet)
    requires s.pc != Outside && s.pc != TestDrain && s.pc != ClearDrain && !Draining(s.pc)
    ensures LeftBehind(WorkStep(s), n, quiet)
  {
  }

  lemma {:induction false} NotedRun(s: State, ls: seq<Label>, n: nat)
    requires Noted(s, n) && IsRun(s, ls)
    ensures Noted(Run(s, ls), n + Occurs(Exit, ls))
    decreases |ls|
  {
    hide Noted, Enabled, Apply;
    if ls != [] {
      NotedStep(s, ls[0], n);
      NotedRun(Apply(s, ls[0]), ls[1..], n + Died(ls[0]));
    }
  }

  lemma {:induction false} CollectedRun(s: State, ls: seq<Label>, n: nat, quiet: bool)
    requires LeftBehind(s, n, quiet) && IsRun(s, ls) && Enter !in ls && (quiet ==> Child !in ls)
    ensures LeftBehind(Run(s, ls), n + Occurs(Exit, ls), quiet)
    decreases |ls|
  {
    hide LeftBehind, Enabled, Apply;
    if ls != [] {
      assert ls[0] in ls && forall l :: l in ls[1..] ==> l in ls;
      CollectedStep(s, ls[0], n, quiet);
      CollectedRun(Apply(s, ls[0]), ls[1..], n + Died(ls[0]), quiet);
    }
  }

  predicate ClearingNoted(s: State) {
    s.pc == ClearChild ==> s.child
  }

  lemma ClearingStep(s: State, l: Label)
    requires ClearingNoted(s) && Enabled(s, l)
    ensures ClearingNoted(Apply(s, l))
  {
  }

  lemma {:induction false} ClearingRun(s: State, ls: seq<Label>)
    requires ClearingNoted(s) && IsRun(s, ls)
    ensures ClearingNoted(Run(s, ls))
    decreases |ls|
  {
    hide Enabled, Apply;
    if ls != [] {
      ClearingStep(s, ls[0]);
      ClearingRun(Apply(s, ls[0]), ls[1..]);
    }
  }

  /** A SIGCHLD, and after it a whole poll: when that poll returns no more dead children are
      left than died since the signal; if none did, every child that was dead has been
      collected.  And the request is down, unless there was another. */
  lemma ChildLeadsToReap(before: seq<Label>, between: seq<Label>, poll: seq<Label>)
    requires IsRun(START, before + ([Child] + (between + ([Enter] + poll)))) && Enter !in poll
    requires Run(START, before + ([Child] + (between + ([Enter] + poll)))).pc == Return
    ensures var s := Run(START, before + ([Child] + (between + ([Enter] + poll))));
            s.zombies <= Occurs(Exit, between) + Occurs(Exit, poll) && (Child !in poll ==> !s.child)
  {
    hide IsRun, Run;
    RunSplit(START, before, [Child] + (between + ([Enter] + poll)));
    var s0 := Run(START, before);
    ClearingRun(START, before);
    RunFirst(s0, Child, between + ([Enter] + poll));
    var s1 := Apply(s0, Child);
    RunSplit(s1, between, [Enter] + poll);
    NotedRun(s1, between, 0);
    var s2 := Run(s1, between);
    RunFirst(s2, Enter, poll);
    CollectedRun(Apply(s2, Enter), poll, Occurs(Exit, between), Child !in poll);
  }

  // ---- The teardown is done while draining ----

  predicate WhileDraining(s: State) {
    s.pc == Disarm || s.pc == ReapChildren || s.pc == JoinWorkers || s.pc == Disconnect || s.pc == SetStopped ==>
      s.sched == DRAINING
  }

  lemma WhileDrainingStep(s: State, l: Label)
    requires WhileDraining(s) && Enabled(s, l)
    ensures WhileDraining(Apply(s, l))
  {
    hide PollStep;
    if l == Poll {
      WhileDrainingPoll(s);
    }
  }

  lemma WhileDrainingPoll(s: State)
    requires WhileDraining(s) && s.pc != Outside
    ensures WhileDraining(PollStep(s))
  {
    hide DrainStep, WorkStep;
    if s.pc == TestDrain || s.pc == ClearDrain || Draining(s.pc) {
      WhileDrainingDrain(s);
    } else {
      WhileDrainingWork(s);
    }
  }

  lemma WhileDrainingDrain(s: State)
    requires WhileDraining(s) && (s.pc == TestDrain || s.pc == ClearDrain || Draining(s.pc))
    ensures WhileDraining(DrainStep(s))
  {
  }

  lemma WhileDrainingWork(s: State)
    requires s.pc != Outside && s.pc != TestDrain && s.pc != ClearDrain && !Draining(s.pc)
    ensures WhileDraining(WorkStep(s))
  {
  }

  /** Whatever signals come, the state is DRAINING from before the first teardown call until
      after the last. */
  lemma {:induction false} TeardownWhileDraining(s: State, ls: seq<Label>)
    requires WhileDraining(s) && IsRun(s, ls)
    ensures WhileDraining(Run(s, ls))
    decreases |ls|
  {
    if ls != [] {
      WhileDrainingStep(s, ls[0]);
      hide WhileDraining, Enabled, Apply;
      TeardownWhileDraining(Apply(s, ls[0]), ls[1..]);
    }
  }

  // ---- Nothing runs after a drain ----

  predicate NobodyRestarts(ls: seq<Label>) {
    forall l :: l in ls ==> l != SetState(RUNNING)
  }

  predicate Halted(s: State) {
    s.sched != RUNNING
  }

  lemma HaltedStep(s: State, l: Label)
    requires Halted(s) && Enabled(s, l) && l != SetState(RUNNING)
    ensures Halted(Apply(s, l)) && Apply(s, l).ticks == s.ticks
  {
  }

  /** Once a drain was handled no tick runs again, unless somebody sets RUNNING. */
  lemma {:induction false} NoTickAfterDrain(s: State, ls: seq<Label>)
    requires Halted(s) && IsRun(s, ls) && NobodyRestarts(ls)
    ensures Halted(Run(s, ls)) && Run(s, ls).ticks == s.ticks
    decreases |ls|
  {
    if ls != [] {
      assert ls[0] in ls && forall l :: l in ls[1..] ==> l in ls;
      HaltedStep(s, ls[0]);
      hide Apply, Enabled;
      NoTickAfterDrain(Apply(s, ls[0]), ls[1..]);
    }
  }

  // ---- Every poll returns ----

  /** How many steps of its own a poll still has, if no child is started: two for every
      child that may turn up dead, and at most fifteen others. */
  function StepsLeft(pc: Pc): nat {
    match pc
    case TestDrain => 15
    case ClearDrain => 14
    case SetDraining => 13
    case Disarm => 12
    case ReapChildren => 11
    case JoinWorkers => 10
    case Disconnect => 9
    case SetStopped => 8
    case TestAlarm => 7
    case ClearAlarm => 6
    case CallTick => 5
    case TestChild => 4
    case ClearChild => 3
    case WaitChild => 2
    case ReapOne => 3
    case Return => 1
    case Outside => 0
  }

  function Left(s: State): nat {
    StepsLeft(s.pc) + 2 * (s.running + s.zombies)
  }

  lemma StepShrinks(s: State, l: Label)
    requires Enabled(s, l) && l != Enter
    ensures Left(Apply(s, l)) + (if l == Poll then 1 else 0) <= Left(s) + (if l == Spawn then 2 else 0)
  {
    hide PollStep, StepsLeft;
    if l == Poll {
      PollShrinks(s);
    }
  }

  lemma PollShrinks(s: State)
    requires s.pc != Outside
    ensures Left(PollStep(s)) < Left(s)
  {
    hide DrainStep, WorkStep, Left;
    if s.pc == TestDrain || s.pc == ClearDrain || Draining(s.pc) {
      DrainShrinks(s);
    } else {
      WorkShrinks(s);
    }
  }

  lemma DrainShrinks(s: State)
    requires s.pc == TestDrain || s.pc == ClearDrain || Draining(s.pc)
    ensures Left(DrainStep(s)) < Left(s)
  {
  }

  lemma WorkShrinks(s: State)
    requires s.pc != Outside && s.pc != TestDrain && s.pc != ClearDrain && !Draining(s.pc)
    ensures Left(WorkStep(s)) < Left(s)
  {
  }

  /** No storm of signals and no order of dying children keeps a poll from returning: from
      its entry it takes at most fifteen steps and two for every child, old or new. */
  lemma {:induction false} PollReturns(s: State, ls: seq<Label>)
    requires IsRun(s, ls) && Enter !in ls
    ensures Occurs(Poll, ls) + Left(Run(s, ls)) <= Left(s) + 2 * Occurs(Spawn, ls)
    decreases |ls|
  {
    if ls != [] {
      assert ls[0] in ls && forall l :: l in ls[1..] ==> l in ls;
      StepShrinks(s, ls[0]);
      hide Apply, Enabled, Left;
      PollReturns(Apply(s, ls[0]), ls[1..]);
    }
  }

  // ---- The handler object ----

  /** The flags, next to the scheduler they drive; `protocol` is the step system. */
  class SignalHandler {
    const scheduler: Scheduler
    var alarmPending: bool
    var chldPending: bool
    var protocol: State

    ghost predicate Valid()
      reads this, scheduler, scheduler.jobRegistry, scheduler.members
    {
      && scheduler.Valid()
      && protocol.alarm == alarmPending && protocol.child == chldPending
      && protocol.drain == scheduler.drainRequested && protocol.sched == scheduler.state
      && protocol.ticks == scheduler.currentTick && protocol.teardown == scheduler.teardown
    }

    constructor (scheduler: Scheduler)
      requires scheduler.Valid() && scheduler.currentTick == 0 && scheduler.teardown == []
      requires scheduler.state == INITIALIZING && !scheduler.drainRequested
      ensures Valid() && protocol == START && this.scheduler == scheduler
    {
      this.scheduler := scheduler;
      alarmPending, chldPending, protocol := false, false, START;
    }

    /** Any delivery and any step of the poll, on the real fields. */
    method Perform(l: Label)
      requires Valid() && Enabled(protocol, l)
      modifies this, scheduler`drainRequested, scheduler`state, scheduler`teardown
      modifies scheduler`currentTick, scheduler`trace, scheduler.members
      ensures Valid() && protocol == Apply(old(protocol), l)
    {
      match l {
        case Alarm => alarmPending := true;
        case Child => chldPending := true;
        case Terminate => scheduler.RequestDrain();
        case SetState(to) => scheduler.SetState(to);
        case Poll => PerformPoll();
        case _ =>
      }
      if l != Poll {
        protocol := Apply(protocol, l);
      }
    }

    /** processPendingSignals and handleDrainRequest, one statement at a time. */
    method PerformPoll()
      requires Valid() && protocol.pc != Outside
      modifies this, scheduler`drainRequested, scheduler`state, scheduler`teardown
      modifies scheduler`currentTick, scheduler`trace, scheduler.members
      ensures Valid() && protocol == PollStep(old(protocol))
    {
      hide DrainStep, WorkStep;
      if protocol.pc == TestDrain || protocol.pc == ClearDrain || Draining(protocol.pc) {
        PerformDrain();
      } else {
        PerformWork();
      }
    }

    method PerformDrain()
      requires Valid() && (protocol.pc == TestDrain || protocol.pc == ClearDrain || Draining(protocol.pc))
      modifies this`protocol, scheduler`drainRequested, scheduler`state, scheduler`teardown
      ensures Valid() && protocol == DrainStep(old(protocol))
    {
      hide Schedule, OnTime, Describes;
      var next := DrainStep(protocol);
      match protocol.pc {
        case ClearDrain => scheduler.drainRequested := false;
        case SetDraining => scheduler.state := DRAINING;
        case Disarm => scheduler.teardown := scheduler.teardown + [DISARM_TIMER];
        case ReapChildren => scheduler.teardown := scheduler.teardown + [REAP_ALL];
        case JoinWorkers => scheduler.teardown := scheduler.teardown + [POOL_SHUTDOWN];
        case Disconnect => scheduler.teardown := scheduler.teardown + [DISCONNECT_DATABASE];
        case SetStopped => scheduler.state := STOPPED;
        case _ =>
      }
      protocol := next;
    }

    method PerformWork()
      requires Valid() && protocol.pc != Outside && protocol.pc != TestDrain && protocol.pc != ClearDrain
      requires !Draining(protocol.pc)
      modifies this, scheduler`currentTick, scheduler`trace, scheduler.members
      ensures Valid() && protocol == WorkStep(old(protocol))
    {
      hide Schedule, OnTime, Describes;
      var next := WorkStep(protocol);
      match protocol.pc {
        case ClearAlarm => alarmPending := false;
        case CallTick => scheduler.Tick();
        case ClearChild => chldPending := false;
        case _ =>
      }
      protocol := next;
    }

    /** Hence the scheduler goes along with every run of the step system: its trace is the
        schedule of as many ticks as the steps say, and does not grow once it is halted. */
    method Execute(ls: seq<Label>)
      requires Valid() && IsRun(protocol, ls)
      modifies this, scheduler`drainRequested, scheduler`state, scheduler`teardown
      modifies scheduler`currentTick, scheduler`trace, scheduler.members
      ensures Valid() && protocol == Run(old(protocol), ls)
      ensures scheduler.trace == Schedule(scheduler.regs, scheduler.observers, scheduler.fails, protocol.ticks)
      ensures Halted(old(protocol)) && NobodyRestarts(ls) ==> scheduler.trace == old(scheduler.trace)
    {
      hide Apply, Enabled, Schedule;
      if Halted(protocol) && NobodyRestarts(ls) {
        NoTickAfterDrain(protocol, ls);
      }
      assert ls[0..] == ls;
      for i := 0 to |ls|
        invariant Valid() && IsRun(protocol, ls[i..]) && Run(protocol, ls[i..]) == Run(old(protocol), ls)
      {
        assert ls[i..][1..] == ls[i + 1..] && ls[i..][0] == ls[i];
        Perform(ls[i]);
      }
    }
  }
}
