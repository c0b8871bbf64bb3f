/**
 The worker pool as a step system: N workers, any number of submitters and one
 shutdown caller, sharing one mutex and one condition variable.

 A step is the code between two points at which another thread may run.  What
 the mutex protects is `Shared`; everything in `State` below the line "history"
 is bookkeeping that no step reads.
 */
module PoolProtocol {

  const QUEUE_CAPACITY := 100

  datatype Task = Task(clientSocketFd: int, threadId: int)

  /** The fields guarded by the queue mutex: the queued tasks and the flag. */
  datatype Shared = Shared(queue: seq<Task>, shutdown: bool)

  /** Where a worker is in its loop.  Running remembers its task and the
      position at which that task was accepted. */
  datatype Pc = WantsLock | HoldsLock | Asleep | Running(task: Task, ticket: nat) | Exited

  /** Who owns the mutex; a submitter also says how far it has come. */
  datatype Holder =
    | Nobody
    | Worker(id: nat)
    | Entered(task: Task)      // submitter, capacity not yet looked at
    | Enqueued                 // submitter, task stored, signal not yet sent
    | Leaving(accepted: bool)  // submitter, about to unlock and return
    | Shutter                  // shutdown, flag not yet set

  datatype Phase = Serving | Locking | FlagSet | Joining(joined: nat) | Disconnected

  datatype State = State(
    shared: Shared,
    holder: Holder,
    pcs: seq<Pc>,
    phase: Phase,
    // history
    accepted: seq<Task>,  // every task submit accepted, in order
    taken: nat,           // how many of them were dequeued
    done: set<nat>,       // positions whose task has finished
    exitMark: nat         // |accepted| when a worker last exited
  )

  datatype Label =
    | WorkerLock(i: nat)
    | WorkerCheck(i: nat)
    | WorkerFinish(i: nat)
    | SpuriousWake(i: nat)
    | SubmitLock(task: Task)
    | SubmitBody
    | SubmitSignal(woken: set<nat>)
    | SubmitUnlock
    | ShutdownLock
    | ShutdownSet
    | ShutdownBroadcast
    | ShutdownJoin
    | DisconnectDatabase

  function Init(n: nat): State {
    State(Shared([], false), Nobody, seq(n, i => WantsLock), Serving, [], 0, {}, 0)
  }

  // ---- What a worker decides while it holds the lock ----

  datatype Decision = Sleep | Leave | Take(task: Task)

  function Decide(sh: Shared): Decision {
    if |sh.queue| == 0 && !sh.shutdown then Sleep
    else if sh.shutdown && |sh.queue| == 0 then Leave
    else Take(sh.queue[0])
  }

  function AfterDecision(sh: Shared): Shared {
    if Decide(sh).Take? then sh.(queue := sh.queue[1..]) else sh
  }

  // ---- Steps ----

  predicate IsWorker(s: State, i: nat) {
    i < |s.pcs|
  }

  /** pthread_cond_signal wakes at least one sleeper when there is one. */
  predicate SignalWakes(pcs: seq<Pc>, woken: set<nat>) {
    && (forall i | i in woken :: i < |pcs| && pcs[i] == Asleep)
    && ((exists i :: 0 <= i < |pcs| && pcs[i] == Asleep) ==> woken != {})
  }

  predicate Enabled(s: State, l: Label) {
    match l
    case WorkerLock(i) => IsWorker(s, i) && s.pcs[i] == WantsLock && s.holder == Nobody
    case WorkerCheck(i) => IsWorker(s, i) && s.pcs[i] == HoldsLock && s.holder == Worker(i)
    case WorkerFinish(i) => IsWorker(s, i) && s.pcs[i].Running?
    case SpuriousWake(i) => IsWorker(s, i) && s.pcs[i] == Asleep
    case SubmitLock(_) => s.holder == Nobody
    case SubmitBody => s.holder.Entered?
    case SubmitSignal(woken) => s.holder == Enqueued && SignalWakes(s.pcs, woken)
    case SubmitUnlock => s.holder.Leaving?
    case ShutdownLock => s.holder == Nobody && s.phase == Serving
    case ShutdownSet => s.holder == Shutter && s.phase == Locking
    case ShutdownBroadcast => s.phase == FlagSet
    case ShutdownJoin =>
      s.phase.Joining? && s.phase.joined < |s.pcs| && s.pcs[s.phase.joined] == Exited
    case DisconnectDatabase => s.phase == Joining(|s.pcs|)
  }

  function Wake(pcs: seq<Pc>, woken: set<nat>): (r: seq<Pc>)
    ensures |r| == |pcs|
  {
    seq(|pcs|, i requires 0 <= i < |pcs| => if i in woken then WantsLock else pcs[i])
  }

  function Sleepers(pcs: seq<Pc>): set<nat> {
    set i: nat | i < |pcs| && pcs[i] == Asleep
  }

  function Apply(s: State, l: Label): State
    requires Enabled(s, l)
  {
    match l
    case WorkerLock(i) => s.(pcs := s.pcs[i := HoldsLock], holder := Worker(i))
    case WorkerCheck(i) =>
      (match Decide(s.shared)
       case Sleep => s.(pcs := s.pcs[i := Asleep], holder := Nobody)
       case Leave => s.(pcs := s.pcs[i := Exited], holder := Nobody, exitMark := |s.accepted|)
       case Take(task) =>
         s.(pcs := s.pcs[i := Running(task, s.taken)], holder := Nobody,
            shared := AfterDecision(s.shared), taken := s.taken + 1))
    case WorkerFinish(i) => s.(pcs := s.pcs[i := WantsLock], done := s.done + {s.pcs[i].ticket})
    case SpuriousWake(i) => s.(pcs := s.pcs[i := WantsLock])
    case SubmitLock(task) => s.(holder := Entered(task))
    case SubmitBody =>
      if |s.shared.queue| == QUEUE_CAPACITY then s.(holder := Leaving(false))
      else s.(holder := Enqueued,
              shared := s.shared.(queue := s.shared.queue + [s.holder.task]),
              accepted := s.accepted + [s.holder.task])
    case SubmitSignal(woken) => s.(pcs := Wake(s.pcs, woken), holder := Leaving(true))
    case SubmitUnlock => s.(holder := Nobody)
    case ShutdownLock => s.(holder := Shutter, phase := Locking)
    case ShutdownSet => s.(shared := s.shared.(shutdown := true), holder := Nobody, phase := FlagSet)
    case ShutdownBroadcast => s.(pcs := Wake(s.pcs, Sleepers(s.pcs)), phase := Joining(0))
    case ShutdownJoin => s.(phase := Joining(s.phase.joined + 1))
    case DisconnectDatabase => s.(phase := Disconnected)
  }

  predicate IsRun(s: State, ls: seq<Label>)
    decreases |ls|
  {
    ls == [] || (Enabled(s, ls[0]) && IsRun(Apply(s, ls[0]), ls[1..]))
  }

  function Run(s: State, ls: seq<Label>): State
    requires IsRun(s, ls)
    decreases |ls|
  {
    if ls == [] then s else Run(Apply(s, ls[0]), ls[1..])
  }

  // ---- Weighted sums over the workers ----

  function Sum(pcs: seq<Pc>, w: Pc -> nat): nat {
    if pcs == [] then 0 else w(pcs[0]) + Sum(pcs[1..], w)
  }

  /** 1 for a worker that is awake and will look at the queue before it can sleep. */
  function OnItsWay(pc: Pc): nat {
    if pc == WantsLock || pc == HoldsLock then 1 else 0
  }

  /** How many more steps a worker can take before it needs another task. */
  function StepsLeft(pc: Pc): nat {
    match pc
    case Exited => 0
    case HoldsLock => 1
    case WantsLock => 2
    case Running(_, _) => 3
    case Asleep => 3
  }

  function OnTheWay(pcs: seq<Pc>): nat {
    Sum(pcs, OnItsWay)
  }

  lemma {:induction false} SumUpdate(pcs: seq<Pc>, w: Pc -> nat, i: nat, pc: Pc)
    requires i < |pcs|
    ensures Sum(pcs[i := pc], w) == Sum(pcs, w) - w(pcs[i]) + w(pc)
  {
    if i == 0 {
      assert pcs[i := pc][1..] == pcs[1..];
    } else {
      SumUpdate(pcs[1..], w, i - 1, pc);
      assert pcs[i := pc][1..] == pcs[1..][i - 1 := pc];
    }
  }

  /** Waking sleepers raises the number on the way, by at least one if anybody
      really woke, and never raises the number of steps left. */
  lemma {:induction false} SumWake(pcs: seq<Pc>, pcs': seq<Pc>)
    requires |pcs| == |pcs'|
    requires forall i :: 0 <= i < |pcs| ==> pcs'[i] == pcs[i] || (pcs[i] == Asleep && pcs'[i] == WantsLock)
    ensures Sum(pcs', OnItsWay) >= Sum(pcs, OnItsWay)
    ensures pcs' != pcs ==> Sum(pcs', OnItsWay) > Sum(pcs, OnItsWay)
    ensures Sum(pcs', StepsLeft) <= Sum(pcs, StepsLeft)
  {
    if pcs != [] {
      SumWake(pcs[1..], pcs'[1..]);
      if pcs[0] == pcs'[0] && pcs[1..] == pcs'[1..] {
        assert pcs == [pcs[0]] + pcs[1..];
        assert pcs' == [pcs'[0]] + pcs'[1..];
      }
    }
  }

  // ---- What every reachable state satisfies ----

  ghost predicate SomeoneAsleep(s: State) {
    exists i :: 0 <= i < |s.pcs| && s.pcs[i] == Asleep
  }

  ghost predicate SomeoneExited(s: State) {
    exists i :: 0 <= i < |s.pcs| && s.pcs[i] == Exited
  }

  ghost predicate AllExited(s: State) {
    forall i :: 0 <= i < |s.pcs| ==> s.pcs[i] == Exited
  }

  predicate Carries(pc: Pc, ticket: nat) {
    pc.Running? && pc.ticket == ticket
  }

  ghost predicate IsRunning(s: State, ticket: nat) {
    exists i :: 0 <= i < |s.pcs| && Carries(s.pcs[i], ticket)
  }

  /** The queue is what was accepted and not yet dequeued, in acceptance order. */
  ghost predicate QueueInv(s: State) {
    && |s.shared.queue| <= QUEUE_CAPACITY
    && s.taken <= |s.accepted|
    && s.shared.queue == s.accepted[s.taken..]
  }

  /** Mutual exclusion. */
  ghost predicate LockInv(s: State) {
    && (forall i: nat :: i < |s.pcs| ==> (s.pcs[i] == HoldsLock <==> s.holder == Worker(i)))
    && (s.holder.Worker? ==> s.holder.id < |s.pcs|)
  }

  /** Every dequeued task is with exactly one worker or done, never both, and the
      worker runs the very task that was accepted at that position. */
  ghost predicate TicketInv(s: State) {
    && TicketsSound(s)
    && TicketsDistinct(s)
    && TicketsCovered(s)
  }

  ghost predicate TicketsSound(s: State) {
    && (forall t :: t in s.done ==> t < s.taken)
    && (forall i :: 0 <= i < |s.pcs| && s.pcs[i].Running? ==>
          && s.pcs[i].ticket < s.taken <= |s.accepted|
          && s.pcs[i].task == s.accepted[s.pcs[i].ticket]
          && s.pcs[i].ticket !in s.done)
  }

  ghost predicate TicketsDistinct(s: State) {
    forall i, j :: 0 <= i < j < |s.pcs| && s.pcs[i].Running? && s.pcs[j].Running? ==>
      s.pcs[i].ticket != s.pcs[j].ticket
  }

  ghost predicate TicketsCovered(s: State) {
    forall t: nat :: t < s.taken && t !in s.done ==> IsRunning(s, t)
  }

  /** No lost wake-up: while somebody sleeps, every queued task has its own worker
      on the way to the queue, or its signal is just about to be sent. */
  ghost predicate WakeInv(s: State) {
    SomeoneAsleep(s) ==>
      |s.shared.queue| <= OnTheWay(s.pcs) + (if s.holder == Enqueued then 1 else 0)
  }

  ghost predicate ShutdownInv(s: State) {
    && (s.shared.shutdown <==> s.phase.FlagSet? || s.phase.Joining? || s.phase.Disconnected?)
    && (s.phase == Locking <==> s.holder == Shutter)
    && (SomeoneExited(s) ==> s.shared.shutdown)
    && (s.phase.Joining? || s.phase.Disconnected? ==> !SomeoneAsleep(s))
    && (s.phase.Joining? ==>
          s.phase.joined <= |s.pcs| && forall i :: 0 <= i < s.phase.joined ==> s.pcs[i] == Exited)
    && (s.phase.Disconnected? ==> AllExited(s))
  }

  ghost predicate ExitInv(s: State) {
    && s.exitMark <= |s.accepted|
    && (AllExited(s) ==> s.taken == s.exitMark)
  }

  ghost predicate Inv(s: State) {
    && |s.pcs| > 0
    && QueueInv(s) && LockInv(s) && TicketInv(s) && WakeInv(s) && ShutdownInv(s) && ExitInv(s)
  }

  lemma QueueStep(s: State, l: Label)
    requires QueueInv(s) && Enabled(s, l)
    ensures QueueInv(Apply(s, l))
  {
    var s' := Apply(s, l);
    if l.SubmitBody? && s'.holder == Enqueued {
      assert (s.accepted + [s.holder.task])[s.taken..] == s.accepted[s.taken..] + [s.holder.task];
    }
  }

  lemma TicketsSoundStep(s: State, l: Label)
    requires QueueInv(s) && TicketsSound(s) && TicketsDistinct(s) && Enabled(s, l)
    ensures TicketsSound(Apply(s, l))
  {
  }

  lemma TicketsDistinctStep(s: State, l: Label)
    requires TicketsSound(s) && TicketsDistinct(s) && Enabled(s, l)
    ensures TicketsDistinct(Apply(s, l))
  {
  }

  lemma TicketsCoveredStep(s: State, l: Label)
    requires TicketsCovered(s) && Enabled(s, l)
    ensures TicketsCovered(Apply(s, l))
  {
    var s' := Apply(s, l);
    forall t: nat | t < s'.taken && t !in s'.done
      ensures IsRunning(s', t)
    {
      if l.WorkerCheck? && t == s.taken {
        assert Carries(s'.pcs[l.i], t);
      } else {
        var i :| 0 <= i < |s.pcs| && Carries(s.pcs[i], t);
        assert Carries(s'.pcs[i], t);
      }
    }
  }

  lemma WakeStep(s: State, l: Label)
    requires WakeInv(s) && ShutdownInv(s) && Enabled(s, l)
    ensures WakeInv(Apply(s, l))
  {
    var s' := Apply(s, l);
    match l {
      case WorkerLock(i) => SumUpdate(s.pcs, OnItsWay, i, HoldsLock);
      case WorkerCheck(i) => SumUpdate(s.pcs, OnItsWay, i, s'.pcs[i]);
      case WorkerFinish(i) => SumUpdate(s.pcs, OnItsWay, i, WantsLock);
      case SpuriousWake(i) => SumUpdate(s.pcs, OnItsWay, i, WantsLock);
      case SubmitSignal(woken) =>
        SumWake(s.pcs, s'.pcs);
        if woken != {} {
          var i :| i in woken;
          assert s'.pcs[i] != s.pcs[i];
        }
      case _ =>
    }
  }

  lemma LockStep(s: State, l: Label)
    requires LockInv(s) && Enabled(s, l)
    ensures LockInv(Apply(s, l))
  {
  }

  lemma ShutdownStep(s: State, l: Label)
    requires ShutdownInv(s) && Enabled(s, l)
    ensures ShutdownInv(Apply(s, l))
  {
    var s' := Apply(s, l);
    if SomeoneExited(s') {
      var i :| 0 <= i < |s'.pcs| && s'.pcs[i] == Exited;
      assert s.pcs[i] == Exited || (l == WorkerCheck(i) && s.shared.shutdown);
    }
    if SomeoneAsleep(s') {
      var i :| 0 <= i < |s'.pcs| && s'.pcs[i] == Asleep;
      assert s.pcs[i] == Asleep || (l == WorkerCheck(i) && !s.shared.shutdown);
    }
  }

  lemma ExitStep(s: State, l: Label)
    requires |s.pcs| > 0 && QueueInv(s) && ExitInv(s) && Enabled(s, l)
    ensures ExitInv(Apply(s, l))
  {
    var s' := Apply(s, l);
    if AllExited(s') && !AllExited(s) {
      var i :| 0 <= i < |s.pcs| && s.pcs[i] != Exited;
      assert s'.pcs[i] == Exited;
      assert l == WorkerCheck(i);
    }
    if AllExited(s) {
      assert forall i :: 0 <= i < |s.pcs| ==> !s.pcs[i].Running?;
    }
  }

  lemma InitInv(n: nat)
    requires n > 0
    ensures Inv(Init(n))
  {
    assert Init(n).pcs[0] == WantsLock;
  }

  lemma StepInv(s: State, l: Label)
    requires Inv(s) && Enabled(s, l)
    ensures Inv(Apply(s, l))
  {
    QueueStep(s, l);
    TicketsSoundStep(s, l);
    TicketsDistinctStep(s, l);
    TicketsCoveredStep(s, l);
    WakeStep(s, l);
    LockStep(s, l);
    ShutdownStep(s, l);
    ExitStep(s, l);
  }

  lemma {:induction false} RunInv(s: State, ls: seq<Label>)
    requires Inv(s) && IsRun(s, ls)
    ensures Inv(Run(s, ls))
    decreases |ls|
  {
    if ls != [] {
      StepInv(s, ls[0]);
      RunInv(Apply(s, ls[0]), ls[1..]);
    }
  }

  // ---- Theorems about every run ----

  lemma {:induction false} SomeoneOnTheWay(pcs: seq<Pc>) returns (i: nat)
    requires OnTheWay(pcs) > 0
    ensures i < |pcs| && (pcs[i] == WantsLock || pcs[i] == HoldsLock)
  {
    if OnItsWay(pcs[0]) > 0 {
      i := 0;
    } else {
      var j := SomeoneOnTheWay(pcs[1..]);
      i := j + 1;
    }
  }

  /** No queued task ever waits on sleepers alone. */
  lemma NoLostWakeUp(n: nat, ls: seq<Label>)
    requires n > 0 && IsRun(Init(n), ls)
    ensures var s := Run(Init(n), ls);
            && (SomeoneAsleep(s) && s.holder != Enqueued ==> |s.shared.queue| <= OnTheWay(s.pcs))
            && (s.holder == Enqueued && SomeoneAsleep(s) ==> |s.shared.queue| <= OnTheWay(s.pcs) + 1)
  {
    InitInv(n);
    RunInv(Init(n), ls);
  }

  /** What submit returns tells whether the task was accepted: true, after its signal, exactly
      when fewer than a hundred tasks were queued, and then the task is the last accepted. */
  lemma SubmitTells(s: State, task: Task, woken: set<nat>)
    requires QueueInv(s) && s.holder == Entered(task)
    ensures var s1 := Apply(s, SubmitBody);
            && (|s.shared.queue| >= 100 ==> s1 == s.(holder := Leaving(false)))
            && (|s.shared.queue| < 100 ==>
                  && s1.accepted == s.accepted + [task] && s1.shared.queue == s.shared.queue + [task]
                  && !s1.holder.Leaving?
                  && (Enabled(s1, SubmitSignal(woken)) ==>
                        Apply(s1, SubmitSignal(woken)).holder == Leaving(true)
                        && Apply(s1, SubmitSignal(woken)).accepted == s1.accepted))
  {
  }

  /** Hence a queued task always has somebody who can move: unless every worker has
      left, or a submitter or the shutdown caller is inside its critical section,
      some worker can take a step that is not a spurious wake-up. */
  lemma QueuedTaskMoves(n: nat, ls: seq<Label>) returns (l: Label)
    requires n > 0 && IsRun(Init(n), ls)
    requires var s := Run(Init(n), ls);
             s.shared.queue != [] && !AllExited(s) && (s.holder == Nobody || s.holder.Worker?)
    ensures Enabled(Run(Init(n), ls), l)
    ensures l.WorkerLock? || l.WorkerCheck? || l.WorkerFinish?
  {
    InitInv(n);
    RunInv(Init(n), ls);
    var s := Run(Init(n), ls);
    var i: nat;
    if SomeoneAsleep(s) {
      i := SomeoneOnTheWay(s.pcs);
    } else {
      i :| i < |s.pcs| && s.pcs[i] != Exited;
    }
    l := MoveOf(s, i);
  }

  lemma MoveOf(s: State, i: nat) returns (l: Label)
    requires LockInv(s) && i < |s.pcs| && s.pcs[i] != Exited && s.pcs[i] != Asleep
    requires s.holder == Nobody || s.holder.Worker?
    ensures Enabled(s, l) && (l.WorkerLock? || l.WorkerCheck? || l.WorkerFinish?)
  {
    if s.pcs[i].Running? {
      l := WorkerFinish(i);
    } else if s.holder.Worker? {
      l := WorkerCheck(s.holder.id);
    } else {
      l := WorkerLock(i);
    }
  }

  /** Conservation and order: the accepted tasks are those queued, in order, after
      those dequeued; each dequeued one is running on exactly one worker or done. */
  lemma TasksConserved(n: nat, ls: seq<Label>, t: nat)
    requires n > 0 && IsRun(Init(n), ls)
    requires t < |Run(Init(n), ls).accepted|
    ensures var s := Run(Init(n), ls);
            var queued := t >= s.taken;
            && (queued ==> t - s.taken < |s.shared.queue| && s.shared.queue[t - s.taken] == s.accepted[t])
            && (if queued then t !in s.done && !IsRunning(s, t)
                else (t in s.done <==> !IsRunning(s, t)))
    ensures var s := Run(Init(n), ls);
            forall i, j :: 0 <= i < |s.pcs| && 0 <= j < |s.pcs| && Carries(s.pcs[i], t) && Carries(s.pcs[j], t) ==>
              i == j && s.pcs[i].task == s.accepted[t]
  {
    InitInv(n);
    RunInv(Init(n), ls);
  }

  // ---- Shutdown ----

  /** The flag is set and no submitter is inside its critical section. */
  ghost predicate Draining(s: State) {
    && s.shared.shutdown
    && (s.holder == Nobody || s.holder.Worker?)
    && (SomeoneExited(s) ==> s.shared.queue == [])
  }

  function PhaseLeft(s: State): int {
    match s.phase
    case Serving => |s.pcs| + 4
    case Locking => |s.pcs| + 3
    case FlagSet => |s.pcs| + 2
    case Joining(k) => |s.pcs| - k + 1
    case Disconnected => 0
  }

  function Measure(s: State): int {
    3 * |s.shared.queue| + Sum(s.pcs, StepsLeft) + PhaseLeft(s)
  }

  predicate NoSubmit(ls: seq<Label>) {
    forall l :: l in ls ==> !l.SubmitLock?
  }

  /** While draining, every step of anybody brings the end closer. */
  lemma DrainStep(s: State, l: Label)
    requires ShutdownInv(s) && Draining(s) && Enabled(s, l) && !l.SubmitLock?
    ensures Draining(Apply(s, l))
    ensures Measure(Apply(s, l)) < Measure(s)
  {
    StaysDraining(s, l);
    var s' := Apply(s, l);
    match l {
      case WorkerLock(i) => SumUpdate(s.pcs, StepsLeft, i, HoldsLock);
      case WorkerCheck(i) => SumUpdate(s.pcs, StepsLeft, i, s'.pcs[i]);
      case WorkerFinish(i) => SumUpdate(s.pcs, StepsLeft, i, WantsLock);
      case SpuriousWake(i) => SumUpdate(s.pcs, StepsLeft, i, WantsLock);
      case ShutdownBroadcast => SumWake(s.pcs, s'.pcs);
      case ShutdownJoin =>
      case DisconnectDatabase =>
    }
  }

  lemma StaysDraining(s: State, l: Label)
    requires ShutdownInv(s) && Draining(s) && Enabled(s, l) && !l.SubmitLock?
    ensures Draining(Apply(s, l))
  {
    var s' := Apply(s, l);
    if SomeoneExited(s') {
      var i :| 0 <= i < |s'.pcs| && s'.pcs[i] == Exited;
      assert s.pcs[i] == Exited || l == WorkerCheck(i);
    }
  }

  /** While draining, somebody can always move until the database is disconnected. */
  lemma DrainProgress(s: State) returns (l: Label)
    requires Inv(s) && Draining(s) && s.phase != Disconnected
    ensures Enabled(s, l) && !l.SubmitLock?
  {
    if s.phase == FlagSet {
      l := ShutdownBroadcast;
    } else if s.phase.joined == |s.pcs| {
      l := DisconnectDatabase;
    } else if s.pcs[s.phase.joined] == Exited {
      l := ShutdownJoin;
    } else {
      l := MoveOf(s, s.phase.joined);
    }
  }

  lemma {:induction false} DrainRun(s: State, ls: seq<Label>)
    requires Inv(s) && Draining(s) && IsRun(s, ls) && NoSubmit(ls)
    ensures Inv(Run(s, ls)) && Draining(Run(s, ls))
    ensures |ls| <= Measure(s) - Measure(Run(s, ls))
    ensures Run(s, ls).accepted == s.accepted && |Run(s, ls).pcs| == |s.pcs|
    decreases |ls|
  {
    if ls != [] {
      assert ls[0] in ls;
      StepInv(s, ls[0]);
      DrainStep(s, ls[0]);
      DrainRun(Apply(s, ls[0]), ls[1..]);
    }
  }

  lemma {:induction false} SumBound(pcs: seq<Pc>)
    ensures Sum(pcs, StepsLeft) <= 3 * |pcs|
  {
    if pcs != [] {
      SumBound(pcs[1..]);
    }
  }

  /** Shutdown terminates: once the flag is set and nobody submits any more, at most
      302 + 4n further steps are possible; when none is left, every worker has been
      joined, the database is disconnected, and every accepted task was executed. */
  lemma ShutdownTerminates(n: nat, before: seq<Label>, after: seq<Label>)
    requires n > 0 && IsRun(Init(n), before) && Enabled(Run(Init(n), before), ShutdownSet)
    requires IsRun(Apply(Run(Init(n), before), ShutdownSet), after) && NoSubmit(after)
    ensures |after| <= 3 * QUEUE_CAPACITY + 4 * n + 2
    ensures var s := Run(Apply(Run(Init(n), before), ShutdownSet), after);
            (forall l: Label :: Enabled(s, l) ==> l.SubmitLock?) ==>
              && s.phase == Disconnected && AllExited(s) && s.shared.queue == []
              && (forall t: nat :: t in s.done <==> t < |s.accepted|)
  {
    InitInv(n);
    RunInv(Init(n), before);
    var s0 := Run(Init(n), before);
    StepInv(s0, ShutdownSet);
    var s1 := Apply(s0, ShutdownSet);
    DrainRun(s1, after);
    SumBound(s1.pcs);
    WorkersKept(Init(n), before);
    var s := Run(s1, after);
    if forall l: Label :: Enabled(s, l) ==> l.SubmitLock? {
      if s.phase != Disconnected {
        var l := DrainProgress(s);
      }
      assert s.pcs[0] == Exited;
      forall t: nat | t < |s.accepted|
        ensures t in s.done
      {
        assert !IsRunning(s, t);
      }
    }
  }

  lemma {:induction false} WorkersKept(s: State, ls: seq<Label>)
    requires IsRun(s, ls)
    ensures |Run(s, ls).pcs| == |s.pcs|
    decreases |ls|
  {
    if ls != [] {
      WorkersKept(Apply(s, ls[0]), ls[1..]);
    }
  }

  /** No task is running when the drain disconnects the database, whatever submitters do. */
  lemma NothingRunsAtDisconnect(n: nat, ls: seq<Label>)
    requires n > 0 && IsRun(Init(n), ls)
    requires var s := Run(Init(n), ls); s.phase == Disconnected || Enabled(s, DisconnectDatabase)
    ensures AllExited(Run(Init(n), ls))
    ensures forall t: nat :: t in Run(Init(n), ls).done <==> t < Run(Init(n), ls).taken
  {
    InitInv(n);
    RunInv(Init(n), ls);
    var s := Run(Init(n), ls);
    forall t: nat | t < s.taken
      ensures t in s.done
    {
      assert !IsRunning(s, t);
    }
  }

  /** submit never looks at the flag, so a task can be accepted and never executed.
      Once all workers have left, that is the fate of exactly the tasks that were
      accepted after the last of them left. */
  lemma StrandedTasks(n: nat, ls: seq<Label>)
    requires n > 0 && IsRun(Init(n), ls) && AllExited(Run(Init(n), ls))
    ensures var s := Run(Init(n), ls);
            && s.exitMark <= |s.accepted|
            && s.shared.queue == s.accepted[s.exitMark..]
            && (forall t: nat :: t in s.done <==> t < s.exitMark)
            && (s.shared.queue == [] <==> |s.accepted| == s.exitMark)
  {
    InitInv(n);
    RunInv(Init(n), ls);
    var s := Run(Init(n), ls);
    forall t: nat | t < s.exitMark
      ensures t in s.done
    {
      assert !IsRunning(s, t);
    }
  }

  /** Shutting down an idle pool of one worker: first the caller, then the worker. */
  lemma IdleBroadcast() returns (ls: seq<Label>)
    ensures ls == [ShutdownLock, ShutdownSet, ShutdownBroadcast] && IsRun(Init(1), ls)
    ensures Run(Init(1), ls) == State(Shared([], true), Nobody, [WantsLock], Joining(0), [], 0, {}, 0)
  {
    ls := Extend(Init(1), [], ShutdownLock);
    ls := Extend(Init(1), ls, ShutdownSet);
    ls := Extend(Init(1), ls, ShutdownBroadcast);
  }

  lemma IdleShutdown() returns (ls: seq<Label>)
    ensures ls == [ShutdownLock, ShutdownSet, ShutdownBroadcast, WorkerLock(0), WorkerCheck(0), ShutdownJoin]
    ensures IsRun(Init(1), ls)
    ensures Run(Init(1), ls) == State(Shared([], true), Nobody, [Exited], Joining(1), [], 0, {}, 0)
  {
    ls := IdleBroadcast();
    ls := Extend(Init(1), ls, WorkerLock(0));
    ls := Extend(Init(1), ls, WorkerCheck(0));
    assert Run(Init(1), ls) == State(Shared([], true), Nobody, [Exited], Joining(0), [], 0, {}, 0);
    ls := Extend(Init(1), ls, ShutdownJoin);
  }

  /** A run in which submit says yes and what it accepted is never executed. */
  lemma SubmitAfterShutdownStrands(task: Task) returns (ls: seq<Label>)
    ensures ls == [ShutdownLock, ShutdownSet, ShutdownBroadcast, WorkerLock(0), WorkerCheck(0), ShutdownJoin,
                   SubmitLock(task), SubmitBody, SubmitSignal({})]
    ensures IsRun(Init(1), ls)
    ensures Run(Init(1), ls).holder == Leaving(true)
    ensures AllExited(Run(Init(1), ls)) && Run(Init(1), ls).shared.queue == [task]
  {
    ls := IdleShutdown();
    ls := Extend(Init(1), ls, SubmitLock(task));
    ls := Extend(Init(1), ls, SubmitBody);
    ls := Extend(Init(1), ls, SubmitSignal({}));
    assert Run(Init(1), ls).pcs == [Exited];
  }

  lemma Extend(s: State, ls: seq<Label>, l: Label) returns (more: seq<Label>)
    requires IsRun(s, ls) && Enabled(Run(s, ls), l)
    ensures more == ls + [l]
    ensures IsRun(s, more) && Run(s, more) == Apply(Run(s, ls), l)
    decreases |ls|
  {
    more := ls + [l];
    if ls != [] {
      var rest := Extend(Apply(s, ls[0]), ls[1..], l);
      assert more[1..] == rest;
    }
  }
}
