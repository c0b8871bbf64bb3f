/**
 Child processes: the registry, reaping one child, and the shutdown sequence TERM,
 wait, KILL.  The kernel is a model of its own: children die and are reaped by other
 threads whenever they like, and time passes.
 */
module Reaper {
  import opened Codes
  import S = Signals

  const MAX_RESTARTS := 3
  const SHUTDOWN_TIMEOUT_SEC := 10
  const NS_PER_SEC := 1_000_000_000

  // ---- The kernel ----

  datatype Status = Alive | Zombie(clean: bool) | Gone

  datatype Signal = SIGTERM | SIGKILL

  datatype KillResult = Delivered | Esrch | OtherError

  datatype WaitResult = Reaped(clean: bool) | StillAlive | Eintr | Echild

  /** What the supervisor did to its children, with the time in nanoseconds. */
  datatype Entry =
    | Sent(pid: int, signal: Signal, time: nat)
    | Waited(pid: int, result: WaitResult, time: nat)

  predicate Later(s: Status, t: Status) {
    s == t || (s == Alive && t.Zombie?) || t == Gone
  }

  class Kernel {
    var status: map<int, Status>
    var now: nat
    var log: seq<Entry>
    const foreign: set<int>   // processes of another user

    /** Children only ever go from alive to zombie to gone; no pid comes back. */
    twostate predicate Progress()
      reads this
    {
      && old(now) <= now
      && old(status.Keys) == status.Keys
      && forall pid :: pid in old(status) ==> Later(old(status[pid]), status[pid])
    }

    twostate lemma OnlyFewer()
      requires Progress()
      ensures Unreaped(status) <= old(Unreaped(status))
      ensures forall pid :: old(StatusOf(pid)) == Gone ==> StatusOf(pid) == Gone
    {
      forall pid | pid in Unreaped(status) ensures pid in old(Unreaped(status)) {
        assert pid in old(status);
      }
    }

    function StatusOf(pid: int): Status
      reads this
    {
      if pid in status then status[pid] else Gone
    }

    /** Time passes, and every child may move on by itself. */
    method Elapse(least: nat)
      modifies this`status, this`now
      ensures Progress() && now >= old(now) + least
    {
      var extra: int := *;
      now := now + least + (if extra > 0 then extra else 0);
      var next: map<int, Status> := *;
      if next.Keys == status.Keys && forall pid :: pid in status ==> Later(status[pid], next[pid]) {
        status := next;
      }
    }

    /** kill(2): ESRCH for a process that is gone; another error only for one this
        process may not signal. */
    method Kill(pid: int, signal: Signal) returns (r: KillResult)
      modifies this
      ensures Progress()
      ensures r == if StatusOf(pid) == Gone then Esrch else if pid in foreign then OtherError else Delivered
      ensures log == old(log) + if r.Delivered? then [Sent(pid, signal, now)] else []
    {
      Elapse(0);
      if StatusOf(pid) == Gone {
        return Esrch;
      }
      if pid in foreign {
        return OtherError;
      }
      log := log + [Sent(pid, signal, now)];
      return Delivered;
    }

    /** waitpid(pid, WNOHANG). */
    method WaitNoHang(pid: int) returns (r: WaitResult)
      modifies this
      ensures Progress() && log == old(log) + [Waited(pid, r, now)]
      ensures r.Reaped? ==> old(StatusOf(pid)) != Gone && StatusOf(pid) == Gone
      ensures r.StillAlive? ==> StatusOf(pid) == Alive
      ensures r.Echild? ==> StatusOf(pid) == Gone
    {
      Elapse(0);
      var interrupted := *;
      if interrupted {
        r := Eintr;
      } else {
        match StatusOf(pid) {
          case Alive => r := StillAlive;
          case Gone => r := Echild;
          case Zombie(clean) =>
            status := status[pid := Gone];
            r := Reaped(clean);
        }
      }
      log := log + [Waited(pid, r, now)];
    }

    /** waitpid(pid) without flags, on a child that was sent SIGKILL or is dead: the
        kernel lets it die.  The handlers are installed with SA_RESTART. */
    method WaitBlocking(pid: int) returns (r: WaitResult)
      requires StatusOf(pid) != Gone ==> Killed(log, pid)
      modifies this
      ensures Progress() && log == old(log) + [Waited(pid, r, now)]
      ensures StatusOf(pid) == Gone && (r.Reaped? || r.Echild?)
      ensures r.Reaped? ==> old(StatusOf(pid)) != Gone
    {
      Elapse(0);
      if StatusOf(pid) == Gone {
        r := Echild;
      } else {
        var clean := false;
        if status[pid].Zombie? {
          clean := status[pid].clean;
        }
        status := status[pid := Gone];
        r := Reaped(clean);
      }
      log := log + [Waited(pid, r, now)];
    }

    /** waitpid(-1, WNOHANG): some zombie, if there is one.  `found` is what it found when it
        looked. */
    method WaitAny() returns (pid: int, ghost found: map<int, Status>)
      modifies this
      ensures Progress() && log == old(log)
      ensures pid > 0 ==> pid in status && old(StatusOf(pid)) != Gone && StatusOf(pid) == Gone
      ensures pid <= 0 ==> NoZombies(status)
      ensures found.Keys == old(status).Keys && forall p :: p in found ==> Later(old(status)[p], found[p])
      ensures pid > 0 ==> pid in found && found[pid].Zombie? && status == found[pid := Gone]
      ensures pid <= 0 ==> status == found
    {
      Elapse(0);
      found := status;
      if p :| p in status && p > 0 && status[p].Zombie? {
        status := status[p := Gone];
        pid := p;
      } else {
        pid := 0;
      }
    }
  }

  /** No child waits to be collected. */
  predicate NoZombies(status: map<int, Status>) {
    forall p :: p in status && p > 0 ==> !status[p].Zombie?
  }

  // ---- The registry ----

  datatype ProcessState = RUNNING | COMPLETED | FAILED | REAPED

  datatype Record = Record(agentName: string, state: ProcessState, restartCount: int)

  datatype Action = NONE | RESTART | ESCALATE_ERROR

  class ProcessRegistry {
    var registry: map<int, Record>
    var order: seq<int>  // the container's iteration order

    ghost predicate Valid()
      reads this
    {
      NoRepeats(order) && forall p :: p in order <==> p in registry
    }

    constructor ()
      ensures registry == map[] && Valid()
    {
      registry := map[];
      order := [];
    }

    method RegisterProcess(pid: int, record: Record) returns (rc: ResultCode)
      requires Valid()
      modifies this
      ensures Valid()
      ensures rc == if pid in old(registry) then ALREADY_EXISTS else OK
      ensures registry == if rc == OK then old(registry)[pid := record] else old(registry)
    {
      if pid in registry {
        return ALREADY_EXISTS;
      }
      registry := registry[pid := record];
      order := order + [pid];
      return OK;
    }

    method UpdateState(pid: int, newState: ProcessState) returns (rc: ResultCode)
      modifies this`registry
      ensures rc == if pid in old(registry) then OK else NOT_FOUND
      ensures registry == WithState(old(registry), pid, newState)
      ensures pid in old(registry) ==>
                registry == old(registry)[pid := Record(old(registry)[pid].agentName, newState, old(registry)[pid].restartCount)]
      ensures pid !in old(registry) ==> registry == old(registry)
    {
      if pid !in registry {
        return NOT_FOUND;
      }
      registry := registry[pid := registry[pid].(state := newState)];
      return OK;
    }

    method IncrementRestartCount(pid: int) returns (rc: ResultCode, newCount: int)
      modifies this`registry
      ensures rc == if pid in old(registry) then OK else NOT_FOUND
      ensures registry == WithRestart(old(registry), pid)
      ensures rc == OK ==> newCount == registry[pid].restartCount == old(registry)[pid].restartCount + 1
    {
      if pid !in registry {
        return NOT_FOUND, 0;
      }
      registry := registry[pid := registry[pid].(restartCount := registry[pid].restartCount + 1)];
      return OK, registry[pid].restartCount;
    }

    /** A snapshot of the keys, each once, in the container's order. */
    method GetAllPids() returns (pids: seq<int>)
      requires Valid()
      ensures NoRepeats(pids) && forall p :: p in pids <==> p in registry
    {
      pids := [];
      for i := 0 to |order|
        invariant pids == order[..i]
      {
        pids := pids + [order[i]];
      }
    }
  }

  predicate NoRepeats(s: seq<int>) {
    forall i, j :: 0 <= i < j < |s| ==> s[i] != s[j]
  }

  function WithState(registry: map<int, Record>, pid: int, state: ProcessState): map<int, Record> {
    if pid in registry then registry[pid := registry[pid].(state := state)] else registry
  }

  function WithRestart(registry: map<int, Record>, pid: int): map<int, Record> {
    if pid in registry then registry[pid := registry[pid].(restartCount := registry[pid].restartCount + 1)] else registry
  }

  // ---- Reaping one child ----

  /** What becomes of the registry, and what the caller is told to do, when reapOne
      collects a child itself. */
  function AfterReap(registry: map<int, Record>, pid: int, clean: bool): map<int, Record> {
    var reaped := WithState(registry, pid, REAPED);
    if clean then reaped else WithRestart(reaped, pid)
  }

  function ActionFor(registry: map<int, Record>, pid: int, clean: bool): Action {
    if clean || pid !in registry then NONE
    else if registry[pid].restartCount + 1 <= MAX_RESTARTS then RESTART
    else ESCALATE_ERROR
  }

  /** What reaping does to a record and what it asks for: the record is REAPED and keeps its
      name; an unclean exit is counted, and the first three of them ask for a restart. */
  lemma ReapExact(registry: map<int, Record>, pid: int, clean: bool)
    ensures pid !in registry ==> AfterReap(registry, pid, clean) == registry && ActionFor(registry, pid, clean) == NONE
    ensures pid in registry ==>
              var n := registry[pid].restartCount;
              && AfterReap(registry, pid, clean) ==
                   registry[pid := Record(registry[pid].agentName, REAPED, if clean then n else n + 1)]
              && (ActionFor(registry, pid, clean) == NONE <==> clean)
              && (ActionFor(registry, pid, clean) == RESTART <==> !clean && n < 3)
              && (ActionFor(registry, pid, clean) == ESCALATE_ERROR <==> !clean && n >= 3)
  {
  }

  method ReapOne(k: Kernel, reg: ProcessRegistry, pid: int) returns (rc: ResultCode, action: Action)
    modifies k, reg`registry
    ensures k.Progress() && |k.log| == |old(k.log)| + 1 && k.log[..|old(k.log)|] == old(k.log)
    ensures k.log[|old(k.log)|].Waited? && k.log[|old(k.log)|].pid == pid
    ensures match k.log[|old(k.log)|].result
            case Reaped(clean) => rc == OK && action == ActionFor(old(reg.registry), pid, clean)
                                  && reg.registry == AfterReap(old(reg.registry), pid, clean)
            case StillAlive => rc == NOT_FOUND && action == NONE && reg.registry == old(reg.registry)
            case Echild => rc == OK && action == NONE && reg.registry == old(reg.registry)
            case Eintr => rc == DB_ERROR && action == NONE && reg.registry == old(reg.registry)
    ensures k.log[|old(k.log)|].result.Reaped? ==> old(k.StatusOf(pid)) != Gone
  {
    action := NONE;
    var r := k.WaitNoHang(pid);
    match r {
      case StillAlive => return NOT_FOUND, NONE;
      case Echild => return OK, NONE;
      case Eintr => return DB_ERROR, NONE;
      case Reaped(clean) =>
        var found := reg.UpdateState(pid, REAPED);
        if !clean && pid in reg.registry {
          var newCount;
          found, newCount := reg.IncrementRestartCount(pid);
          action := if newCount <= MAX_RESTARTS then RESTART else ESCALATE_ERROR;
        }
        return OK, action;
    }
  }

  /** Some child that is not yet gone. */
  function Unreaped(status: map<int, Status>): set<int> {
    set p | p in status && status[p] != Gone
  }

  // ---- The loop of the signal poll ----

  function CountAlive(status: map<int, Status>, pids: seq<int>): nat {
    if pids == [] then 0
    else (if pids[0] in status && status[pids[0]] == Alive then 1 else 0) + CountAlive(status, pids[1..])
  }

  function CountZombies(status: map<int, Status>, pids: seq<int>): nat {
    if pids == [] then 0
    else (if pids[0] in status && status[pids[0]].Zombie? then 1 else 0) + CountZombies(status, pids[1..])
  }

  /** All children, each once. */
  ghost predicate Lists(pids: seq<int>, status: map<int, Status>) {
    NoRepeats(pids) && forall p :: p in pids <==> p in status && p > 0
  }

  /** The signal steps count the children that the kernel has. */
  predicate Counted(s: S.State, status: map<int, Status>, pids: seq<int>) {
    s.running == CountAlive(status, pids) && s.zombies == CountZombies(status, pids)
  }

  /** What one child does meanwhile, as a step of the signal model. */
  function MoveOf(before: Status, after: Status): seq<S.Label> {
    if before == after then []
    else if before == Alive then (if after.Zombie? then [S.Exit] else [S.Vanish])
    else [S.Collected]
  }

  /** Children that die or are taken away while a call runs are steps of the signal model. */
  lemma {:induction false} ElapsedSteps(s: S.State, before: map<int, Status>, after: map<int, Status>, pids: seq<int>)
    returns (ls: seq<S.Label>)
    requires s.running >= CountAlive(before, pids) && s.zombies >= CountZombies(before, pids)
    requires forall i :: 0 <= i < |pids| ==> pids[i] in before && pids[i] in after && Later(before[pids[i]], after[pids[i]])
    ensures forall l :: l in ls ==> l == S.Exit || l == S.Vanish || l == S.Collected
    ensures S.IsRun(s, ls)
    ensures S.Run(s, ls) == s.(running := s.running - CountAlive(before, pids) + CountAlive(after, pids),
                               zombies := s.zombies - CountZombies(before, pids) + CountZombies(after, pids))
    decreases |pids|
  {
    CountHead(before, pids);
    CountHead(after, pids);
    if pids == [] {
      ls := [];
      assert S.IsRun(s, []) && S.Run(s, []) == s;
    } else {
      hide CountAlive, CountZombies;
      var p := pids[0];
      assert forall i :: 0 <= i < |pids| - 1 ==> pids[1..][i] == pids[i + 1];
      var first := MoveOf(before[p], after[p]);
      var s1 := OneMoves(s, before[p], after[p]);
      hide S.IsRun, S.Run;
      var rest := ElapsedSteps(s1, before, after, pids[1..]);
      ls := first + rest;
      JoinRuns(s, first, rest);
    }
  }

  lemma CountHead(status: map<int, Status>, pids: seq<int>)
    ensures pids == [] ==> CountAlive(status, pids) == 0 && CountZombies(status, pids) == 0
    ensures pids != [] ==>
              && CountAlive(status, pids) ==
                   (if pids[0] in status && status[pids[0]] == Alive then 1 else 0) + CountAlive(status, pids[1..])
              && CountZombies(status, pids) ==
                   (if pids[0] in status && status[pids[0]].Zombie? then 1 else 0) + CountZombies(status, pids[1..])
  {
  }

  lemma OneMoves(s: S.State, before: Status, after: Status) returns (s1: S.State)
    requires Later(before, after) && (before == Alive ==> s.running > 0) && (before.Zombie? ==> s.zombies > 0)
    ensures S.IsRun(s, MoveOf(before, after)) && s1 == S.Run(s, MoveOf(before, after))
    ensures s1 == s.(running := s.running - (if before == Alive then 1 else 0) + (if after == Alive then 1 else 0),
                     zombies := s.zombies - (if before.Zombie? then 1 else 0) + (if after.Zombie? then 1 else 0))
  {
    var m := MoveOf(before, after);
    if m != [] {
      assert m[1..] == [];
    }
    s1 := S.Run(s, m);
  }

  lemma {:induction false} JoinRuns(s: S.State, a: seq<S.Label>, b: seq<S.Label>)
    requires S.IsRun(s, a) && S.IsRun(S.Run(s, a), b)
    ensures S.IsRun(s, a + b) && S.Run(s, a + b) == S.Run(S.Run(s, a), b)
    decreases |a|
  {
    hide S.Enabled, S.Apply;
    if a == [] {
      assert a + b == b;
    } else {
      assert (a + b)[0] == a[0] && (a + b)[1..] == a[1..] + b;
      JoinRuns(S.Apply(s, a[0]), a[1..], b);
    }
  }

  lemma {:induction false} SameCounts(one: map<int, Status>, two: map<int, Status>, pids: seq<int>)
    requires forall i :: 0 <= i < |pids| ==>
               (pids[i] in one <==> pids[i] in two) && (pids[i] in one ==> one[pids[i]] == two[pids[i]])
    ensures CountAlive(one, pids) == CountAlive(two, pids) && CountZombies(one, pids) == CountZombies(two, pids)
  {
    if pids != [] {
      assert forall i :: 0 <= i < |pids| - 1 ==> pids[1..][i] == pids[i + 1];
      SameCounts(one, two, pids[1..]);
    }
  }

  /** Collecting a dead child takes it off the count. */
  lemma {:induction false} CollectOne(status: map<int, Status>, pids: seq<int>, pid: int)
    requires NoRepeats(pids) && pid in pids && pid in status && status[pid].Zombie?
    requires forall i :: 0 <= i < |pids| ==> pids[i] in status
    ensures CountZombies(status, pids) > 0
    ensures CountZombies(status[pid := Gone], pids) == CountZombies(status, pids) - 1
    ensures CountAlive(status[pid := Gone], pids) == CountAlive(status, pids)
  {
    var rest := pids[1..];
    assert NoRepeats(rest) && forall i :: 0 <= i < |rest| ==> rest[i] == pids[i + 1];
    if pids[0] == pid {
      assert pid !in rest;
      SameCounts(status, status[pid := Gone], rest);
    } else {
      CollectOne(status, rest, pid);
    }
  }

  lemma {:induction false} NoneDead(status: map<int, Status>, pids: seq<int>)
    requires forall i :: 0 <= i < |pids| ==> pids[i] in status && !status[pids[i]].Zombie?
    ensures CountZombies(status, pids) == 0
  {
    if pids != [] {
      assert forall i :: 0 <= i < |pids| - 1 ==> pids[1..][i] == pids[i + 1];
      NoneDead(status, pids[1..]);
    }
  }

  /** One look of waitpid(-1), as steps: what happens meanwhile, then the look itself. */
  lemma LookSteps(s: S.State, before: map<int, Status>, found: map<int, Status>, pid: int, pids: seq<int>)
    returns (ls: seq<S.Label>)
    requires s.pc == S.WaitChild && Lists(pids, before) && Counted(s, before, pids)
    requires found.Keys == before.Keys && forall p :: p in found ==> Later(before[p], found[p])
    requires if pid > 0 then pid in found && found[pid].Zombie? else NoZombies(found)
    ensures S.IsRun(s, ls)
    ensures var s1 := S.Run(s, ls);
            && Counted(s1, if pid > 0 then found[pid := Gone] else found, pids)
            && s1.pc == (if pid > 0 then S.ReapOne else S.Return)
  {
    hide S.IsRun, S.Run;
    assert forall i :: 0 <= i < |pids| ==> pids[i] in pids;
    var elapsed := ElapsedSteps(s, before, found, pids);
    var s1 := S.Run(s, elapsed);
    if pid > 0 {
      CollectOne(found, pids, pid);
    } else {
      NoneDead(found, pids);
    }
    OneStep(s1);
    JoinRuns(s, elapsed, [S.Poll]);
    ls := elapsed + [S.Poll];
  }

  lemma OneStep(s: S.State)
    requires s.pc != S.Outside
    ensures S.IsRun(s, [S.Poll]) && S.Run(s, [S.Poll]) == S.PollStep(s)
  {
    hide S.PollStep;
    assert [S.Poll][1..] == [];
  }

  /** The rest of a turn: reapOne, and back to waitpid. */
  lemma TurnSteps(s: S.State, before: map<int, Status>, after: map<int, Status>, pids: seq<int>) returns (ls: seq<S.Label>)
    requires s.pc == S.ReapOne && Lists(pids, before) && Counted(s, before, pids)
    requires after.Keys == before.Keys && forall p :: p in after ==> Later(before[p], after[p])
    ensures S.IsRun(s, ls) && S.Run(s, ls).pc == S.WaitChild && Counted(S.Run(s, ls), after, pids)
  {
    hide S.IsRun, S.Run;
    assert forall i :: 0 <= i < |pids| ==> pids[i] in pids;
    var elapsed := ElapsedSteps(s, before, after, pids);
    var s1 := S.Run(s, elapsed);
    OneStep(s1);
    JoinRuns(s, elapsed, [S.Poll]);
    ls := elapsed + [S.Poll];
  }

  /** `ls` is a run of the signal steps that has come to pc, with these children. */
  ghost predicate Follows(s: S.State, ls: seq<S.Label>, pc: S.Pc, status: map<int, Status>, pids: seq<int>) {
    S.IsRun(s, ls) && S.Run(s, ls).pc == pc && Lists(pids, status) && Counted(S.Run(s, ls), status, pids)
  }

  lemma FollowLook(s: S.State, ls: seq<S.Label>, before: map<int, Status>, found: map<int, Status>,
                   after: map<int, Status>, pid: int, pids: seq<int>)
    returns (more: seq<S.Label>)
    requires Follows(s, ls, S.WaitChild, before, pids)
    requires found.Keys == before.Keys && forall p :: p in found ==> Later(before[p], found[p])
    requires if pid > 0 then pid in found && found[pid].Zombie? else NoZombies(found)
    requires after == if pid > 0 then found[pid := Gone] else found
    ensures Follows(s, more, if pid > 0 then S.ReapOne else S.Return, after, pids)
  {
    hide S.IsRun, S.Run, Counted;
    var steps := LookSteps(S.Run(s, ls), before, found, pid, pids);
    JoinRuns(s, ls, steps);
    more := ls + steps;
    assert after.Keys == before.Keys;
  }

  lemma FollowTurn(s: S.State, ls: seq<S.Label>, before: map<int, Status>, after: map<int, Status>, pids: seq<int>)
    returns (more: seq<S.Label>)
    requires Follows(s, ls, S.ReapOne, before, pids)
    requires after.Keys == before.Keys && forall p :: p in after ==> Later(before[p], after[p])
    ensures Follows(s, more, S.WaitChild, after, pids)
  {
    hide S.IsRun, S.Run, Counted;
    var steps := TurnSteps(S.Run(s, ls), before, after, pids);
    JoinRuns(s, ls, steps);
    more := ls + steps;
  }

  lemma FollowNothing(s: S.State, status: map<int, Status>, pids: seq<int>)
    requires s.pc == S.WaitChild && Lists(pids, status) && Counted(s, status, pids)
    ensures Follows(s, [], S.WaitChild, status, pids)
  {
  }

  /** One turn of that loop, and the next look. */
  method ReapTurn(k: Kernel, reg: ProcessRegistry, pid: int, ghost s: S.State, ghost ls: seq<S.Label>, ghost pids: seq<int>)
    returns (action: Action, next: int, ghost more: seq<S.Label>)
    requires k.StatusOf(pid) == Gone && Follows(s, ls, S.ReapOne, k.status, pids)
    modifies k, reg`registry
    ensures action == NONE && reg.registry == old(reg.registry)
    ensures k.Progress() && (next <= 0 ==> NoZombies(k.status))
    ensures next > 0 ==> next in k.status && k.StatusOf(next) == Gone
    ensures next > 0 ==> Unreaped(k.status) < old(Unreaped(k.status))
    ensures Follows(s, more, if next > 0 then S.ReapOne else S.Return, k.status, pids)
  {
    hide Follows, ActionFor, AfterReap;
    ghost var before := k.status;
    var rc;
    rc, action := ReapOne(k, reg, pid);
    k.OnlyFewer();
    more := FollowTurn(s, ls, before, k.status, pids);
    label again:
    before := k.status;
    ghost var found;
    next, found := k.WaitAny();
    k.OnlyFewer@again();
    k.OnlyFewer();
    assert next > 0 ==> next in old@again(Unreaped(k.status)) && next !in Unreaped(k.status);
    more := FollowLook(s, more, before, found, k.status, next, pids);
  }

  /** The child part of processPendingSignals collects every zombie itself before it
      asks reapOne about it, so reapOne finds it gone: no record is ever marked
      REAPED and no restart is ever requested on this path.  `ls` is the loop as a run of the
      signal steps, from the first waitpid to the poll's return, with what children did
      meanwhile. */
  method ReapPending(k: Kernel, reg: ProcessRegistry, ghost s: S.State, ghost pids: seq<int>)
    returns (actions: seq<Action>, ghost ls: seq<S.Label>)
    requires s.pc == S.WaitChild && Lists(pids, k.status) && Counted(s, k.status, pids)
    modifies k, reg`registry
    ensures reg.registry == old(reg.registry)
    ensures forall a :: a in actions ==> a == NONE
    ensures k.Progress() && NoZombies(k.status)
    ensures Follows(s, ls, S.Return, k.status, pids)
  {
    hide Follows;
    FollowNothing(s, k.status, pids);
    actions := [];
    ghost var before := k.status;
    var pid;
    ghost var found;
    pid, found := k.WaitAny();
    ls := FollowLook(s, [], before, found, k.status, pid, pids);
    while pid > 0
      invariant k.Progress() && reg.registry == old(reg.registry)
      invariant forall a :: a in actions ==> a == NONE
      invariant pid > 0 ==> pid in k.status && k.StatusOf(pid) == Gone
      invariant pid <= 0 ==> NoZombies(k.status)
      invariant Follows(s, ls, if pid > 0 then S.ReapOne else S.Return, k.status, pids)
      decreases pid > 0, Unreaped(k.status)
    {
      var action;
      action, pid, ls := ReapTurn(k, reg, pid, s, ls, pids);
      actions := actions + [action];
    }
  }

  // ---- Shutting all children down ----

  const SHUTDOWN_NS := SHUTDOWN_TIMEOUT_SEC * NS_PER_SEC

  /** sendSignal. */
  method SendSignal(k: Kernel, pid: int, signal: Signal) returns (rc: ResultCode)
    modifies k
    ensures k.Progress()
    ensures rc == if pid <= 0 then INVALID_INPUT else if k.StatusOf(pid) == Gone then NOT_FOUND
                  else if pid in k.foreign then DB_ERROR else OK
    ensures k.log == old(k.log) + if rc == OK then [Sent(pid, signal, k.now)] else []
  {
    if pid <= 0 {
      return INVALID_INPUT;
    }
    var r := k.Kill(pid, signal);
    return match r case Delivered => OK case Esrch => NOT_FOUND case OtherError => DB_ERROR;
  }

  /** `pid` was sent SIGTERM no later than `limit`. */
  ghost predicate Termed(log: seq<Entry>, pid: int, limit: int) {
    exists e :: e in log && e.Sent? && e.pid == pid && e.signal == SIGTERM && e.time <= limit
  }

  ghost predicate Killed(log: seq<Entry>, pid: int) {
    exists e :: e in log && e.Sent? && e.pid == pid && e.signal == SIGKILL
  }

  /** A wait reported that `pid` is no longer there. */
  ghost predicate FoundDead(log: seq<Entry>, pid: int) {
    exists e :: e in log && e.Waited? && e.pid == pid && (e.result.Reaped? || e.result.Echild?)
  }

  /** A SIGKILL at position i of the log is justified by what precedes it. */
  ghost predicate Justified(log: seq<Entry>, i: nat)
    requires i < |log|
  {
    log[i].Sent? && log[i].signal == SIGKILL ==>
      Termed(log[..i], log[i].pid, log[i].time - 10_000_000_000) && !FoundDead(log[..i], log[i].pid)
  }

  ghost predicate NoKills(log: seq<Entry>) {
    forall e :: e in log ==> !(e.Sent? && e.signal == SIGKILL)
  }

  /** The registry with the given processes marked as collected. */
  ghost function Marked(registry: map<int, Record>, done: set<int>): map<int, Record> {
    map p | p in registry :: if p in done then registry[p].(state := REAPED) else registry[p]
  }

  lemma MarkedMore(registry: map<int, Record>, done: set<int>, pid: int)
    ensures WithState(Marked(registry, done), pid, REAPED) == Marked(registry, done + {pid})
  {
  }

  /** First phase: SIGTERM to every process in the snapshot. */
  method TermAll(k: Kernel, pids: seq<int>) returns (ghost sent: seq<Entry>)
    modifies k
    ensures k.Progress() && k.log == old(k.log) + sent && NoKills(sent)
    ensures forall e :: e in sent ==> e.Sent?
    ensures forall p :: p in pids && p > 0 && p !in k.foreign && k.StatusOf(p) != Gone ==> Termed(sent, p, k.now)
  {
    sent := [];
    for i := 0 to |pids|
      invariant k.Progress() && k.log == old(k.log) + sent && NoKills(sent)
      invariant forall e :: e in sent ==> e.Sent?
      invariant forall p :: p in pids[..i] && p > 0 && p !in k.foreign && k.StatusOf(p) != Gone ==> Termed(sent, p, k.now)
    {
      ghost var before := sent;
      label step:
      var rc := SendSignal(k, pids[i], SIGTERM);
      k.OnlyFewer@step();
      if rc == OK {
        sent := sent + [Sent(pids[i], SIGTERM, k.now)];
      }
      forall p | p in pids[..i + 1] && p > 0 && p !in k.foreign && k.StatusOf(p) != Gone ensures Termed(sent, p, k.now) {
        assert pids[i] in pids;
        if p == pids[i] {
          assert sent[|before|] == Sent(p, SIGTERM, k.now);
        } else {
          assert p in pids[..i] && old@step(k.StatusOf(p)) != Gone;
          TermedLater(before, sent, p, old@step(k.now), k.now);
        }
      }
    }
    assert pids[..|pids|] == pids;
  }

  lemma TermedLater(before: seq<Entry>, after: seq<Entry>, pid: int, limit: int, later: int)
    requires Termed(before, pid, limit) && before <= after && limit <= later
    ensures Termed(after, pid, later)
  {
    var e :| e in before && e.Sent? && e.pid == pid && e.signal == SIGTERM && e.time <= limit;
    assert e in after;
  }

  lemma FoundDeadSplit(a: seq<Entry>, b: seq<Entry>, pid: int)
    ensures FoundDead(a + b, pid) <==> FoundDead(a, pid) || FoundDead(b, pid)
  {
    if FoundDead(a, pid) {
      var e :| e in a && e.Waited? && e.pid == pid && (e.result.Reaped? || e.result.Echild?);
      assert e in a + b;
    }
    if FoundDead(b, pid) {
      var e :| e in b && e.Waited? && e.pid == pid && (e.result.Reaped? || e.result.Echild?);
      assert e in a + b;
    }
  }

  /** One non-blocking wait of the second phase. */
  method WaitOne(k: Kernel, reg: ProcessRegistry, pid: int) returns (dead: bool, ghost e: Entry)
    modifies k, reg`registry
    ensures k.Progress() && k.log == old(k.log) + [e] && e.Waited? && e.pid == pid && e.time >= old(k.now)
    ensures dead <==> e.result.Reaped? || e.result.Echild?
    ensures dead ==> k.StatusOf(pid) == Gone
    ensures e.result.Reaped? || e.result.StillAlive? ==> old(k.StatusOf(pid)) != Gone
    ensures reg.registry == if dead then WithState(old(reg.registry), pid, REAPED) else old(reg.registry)
  {
    var r := k.WaitNoHang(pid);
    k.OnlyFewer();
    e := Waited(pid, r, k.now);
    dead := false;
    match r {
      case Reaped(_) =>
        var rc := reg.UpdateState(pid, REAPED);
        dead := true;
      case Echild =>
        var rc := reg.UpdateState(pid, REAPED);
        dead := true;
      case StillAlive =>
      case Eintr =>
    }
  }

  /** Second phase, one round: a non-blocking wait for each process that is left. */
  method WaitRound(k: Kernel, reg: ProcessRegistry, remaining: seq<int>)
    returns (still: seq<int>, ghost done: set<int>, ghost waits: seq<Entry>)
    requires NoRepeats(remaining)
    modifies k, reg`registry
    ensures k.Progress() && k.log == old(k.log) + waits && NoKills(waits)
    ensures |still| <= |remaining|
    ensures NoRepeats(still) && forall p :: p in remaining <==> p in still || p in done
    ensures forall p :: p in still ==> p !in done && !FoundDead(waits, p)
    ensures forall p :: p in done ==> k.StatusOf(p) == Gone
    ensures reg.registry == Marked(old(reg.registry), done)
    ensures forall e :: e in waits && e.Waited? && (e.result.Reaped? || e.result.StillAlive?) ==>
      e.pid in remaining && old(k.StatusOf(e.pid)) != Gone && e.time >= old(k.now)
  {
    still, done, waits := [], {}, [];
    for i := 0 to |remaining|
      invariant k.Progress() && k.log == old(k.log) + waits && NoKills(waits)
      invariant |still| <= i
      invariant NoRepeats(still) && forall p :: p in remaining[..i] <==> p in still || p in done
      invariant forall p :: p in still ==> p !in done
      invariant forall p :: p in still || p in remaining[i..] ==> !FoundDead(waits, p)
      invariant forall p :: p in done ==> k.StatusOf(p) == Gone
      invariant reg.registry == Marked(old(reg.registry), done)
      invariant forall e :: e in waits && e.Waited? && (e.result.Reaped? || e.result.StillAlive?) ==>
        e.pid in remaining && old(k.StatusOf(e.pid)) != Gone && e.time >= old(k.now)
    {
      ghost var before := waits;
      label step:
      k.OnlyFewer();
      var pid := remaining[i];
      var dead, e := WaitOne(k, reg, pid);
      k.OnlyFewer@step();
      assert old@step(k.StatusOf(pid)) != Gone ==> old(k.StatusOf(pid)) != Gone;
      waits := waits + [e];
      assert pid !in remaining[..i] && pid !in remaining[i + 1..];
      assert remaining[..i + 1] == remaining[..i] + [pid] && remaining[i..] == [pid] + remaining[i + 1..];
      if dead {
        MarkedMore(old(reg.registry), done, pid);
        done := done + {pid};
      } else {
        still := still + [pid];
      }
      forall p | p in still || p in remaining[i + 1..] ensures !FoundDead(waits, p) {
        FoundDeadSplit(before, [e], p);
      }
    }
    assert remaining[..|remaining|] == remaining;
  }

  /** Third phase: SIGKILL to every process that is left. */
  method KillAll(k: Kernel, remaining: seq<int>) returns (ghost kills: seq<Entry>)
    modifies k
    ensures k.Progress() && k.log == old(k.log) + kills
    ensures forall e :: e in kills ==>
      e.Sent? && e.signal == SIGKILL && e.pid in remaining && old(k.StatusOf(e.pid)) != Gone && e.time >= old(k.now)
    ensures forall p :: p in remaining && p > 0 && p !in k.foreign && k.StatusOf(p) != Gone ==> Killed(k.log, p)
  {
    kills := [];
    for i := 0 to |remaining|
      invariant k.Progress() && k.log == old(k.log) + kills
      invariant forall p :: p in remaining[..i] && p > 0 && p !in k.foreign && k.StatusOf(p) != Gone ==> Killed(k.log, p)
      invariant forall e :: e in kills ==>
        e.Sent? && e.signal == SIGKILL && e.pid in remaining && old(k.StatusOf(e.pid)) != Gone && e.time >= old(k.now)
    {
      label step:
      var rc := SendSignal(k, remaining[i], SIGKILL);
      k.OnlyFewer@step();
      k.OnlyFewer();
      assert remaining[i] in remaining;
      ghost var sent := Sent(remaining[i], SIGKILL, k.now);
      if rc == OK {
        kills := kills + [sent];
        assert sent in k.log;
      }
      forall p | p in remaining[..i + 1] && p > 0 && p !in k.foreign && k.StatusOf(p) != Gone ensures Killed(k.log, p) {
        if p != remaining[i] {
          assert p in remaining[..i] && old@step(k.StatusOf(p)) != Gone;
          KilledLater(old@step(k.log), k.log, p);
        }
      }
    }
    assert remaining[..|remaining|] == remaining;
  }

  lemma KilledLater(before: seq<Entry>, after: seq<Entry>, pid: int)
    requires Killed(before, pid) && before <= after
    ensures Killed(after, pid)
  {
    var e :| e in before && e.Sent? && e.pid == pid && e.signal == SIGKILL;
    assert e in after;
  }

  /** Last: a blocking wait for each of them. */
  method FinalReap(k: Kernel, reg: ProcessRegistry, remaining: seq<int>)
    returns (ghost done: set<int>, ghost waits: seq<Entry>)
    requires forall p :: p in remaining && k.StatusOf(p) != Gone ==> Killed(k.log, p)
    modifies k, reg`registry
    ensures k.Progress() && k.log == old(k.log) + waits && NoKills(waits)
    ensures forall p :: p in remaining ==> k.StatusOf(p) == Gone
    ensures forall e :: e in waits && e.Waited? && e.result.Reaped? ==>
      e.pid in remaining && old(k.StatusOf(e.pid)) != Gone
    ensures forall e :: e in waits ==> e.Waited? && !e.result.StillAlive? && e.time >= old(k.now)
    ensures forall p :: p in done ==> p in remaining
    ensures forall p :: p in remaining && p !in done ==> FoundDead(waits, p)
    ensures reg.registry == Marked(old(reg.registry), done)
  {
    done, waits := {}, [];
    for i := 0 to |remaining|
      invariant k.Progress() && k.log == old(k.log) + waits && NoKills(waits)
      invariant forall p :: p in remaining[..i] ==> k.StatusOf(p) == Gone
      invariant forall e :: e in waits && e.Waited? && e.result.Reaped? ==>
        e.pid in remaining && old(k.StatusOf(e.pid)) != Gone
      invariant forall e :: e in waits ==> e.Waited? && !e.result.StillAlive? && e.time >= old(k.now)
      invariant forall p :: p in done ==> p in remaining
      invariant forall p :: p in remaining[..i] && p !in done ==> FoundDead(waits, p)
      invariant reg.registry == Marked(old(reg.registry), done)
    {
      ghost var before := waits;
      label step:
      var pid := remaining[i];
      k.OnlyFewer();
      if k.StatusOf(pid) != Gone {
        KilledLater(old(k.log), k.log, pid);
      }
      var r := k.WaitBlocking(pid);
      k.OnlyFewer@step();
      waits := waits + [Waited(pid, r, k.now)];
      assert waits[|before|] in waits;
      forall p | p in remaining[..i] && p !in done ensures FoundDead(waits, p) {
        FoundDeadSplit(before, [Waited(pid, r, k.now)], p);
      }
      if r.Reaped? {
        var rc := reg.UpdateState(pid, REAPED);
        MarkedMore(old(reg.registry), done, pid);
        done := done + {pid};
      }
    }
    assert remaining[..|remaining|] == remaining;
  }

  lemma MarkedTwice(registry: map<int, Record>, a: set<int>, b: set<int>)
    ensures Marked(Marked(registry, a), b) == Marked(registry, a + b)
  {
  }

  lemma KillsJustified(before: seq<Entry>, kills: seq<Entry>, after: seq<Entry>, limit: int)
    requires NoKills(before) && NoKills(after)
    requires forall e :: e in kills ==> e.Sent? && e.signal == SIGKILL && e.time >= limit + SHUTDOWN_NS
    requires forall e :: e in kills ==> Termed(before, e.pid, limit) && !FoundDead(before, e.pid)
    ensures forall i :: 0 <= i < |before + kills + after| ==> Justified(before + kills + after, i)
  {
    var log := before + kills + after;
    forall i | 0 <= i < |log| ensures Justified(log, i) {
      assert i < |before| ==> log[i] in before;
      assert i >= |before + kills| ==> log[i] in after;
      if |before| <= i < |before + kills| {
        var pid := log[i].pid;
        assert log[i] in kills;
        assert log[..i] == before + kills[..i - |before|];
        assert !FoundDead(kills[..i - |before|], pid);
        FoundDeadSplit(before, kills[..i - |before|], pid);
        TermedLater(before, log[..i], pid, limit, log[i].time - SHUTDOWN_NS);
      }
    }
  }

  /** The second phase: rounds of waits until no process is left or ten seconds have
      passed. */
  method WaitPhase(k: Kernel, reg: ProcessRegistry, pids: seq<int>)
    returns (remaining: seq<int>, ghost done: set<int>, ghost waits: seq<Entry>)
    requires NoRepeats(pids)
    modifies k, reg`registry
    ensures k.Progress() && k.log == old(k.log) + waits && NoKills(waits)
    ensures forall p :: p in pids <==> p in remaining || p in done
    ensures forall p :: p in remaining ==> p !in done && !FoundDead(waits, p)
    ensures forall p :: p in done ==> k.StatusOf(p) == Gone
    ensures reg.registry == Marked(old(reg.registry), done)
    ensures forall e :: e in waits && e.Waited? && (e.result.Reaped? || e.result.StillAlive?) ==>
      e.pid in pids && old(k.StatusOf(e.pid)) != Gone && e.time >= old(k.now)
    ensures remaining != [] ==> k.now >= old(k.now) + SHUTDOWN_NS
  {
    hide Justified, Termed;
    var start := k.now;
    remaining, done, waits := pids, {}, [];
    while remaining != []
      invariant k.Progress() && k.log == old(k.log) + waits && NoKills(waits)
      invariant NoRepeats(remaining) && forall p :: p in pids <==> p in remaining || p in done
      invariant forall p :: p in remaining ==> p !in done && !FoundDead(waits, p)
      invariant forall p :: p in done ==> k.StatusOf(p) == Gone
      invariant reg.registry == Marked(old(reg.registry), done)
      invariant forall e :: e in waits && e.Waited? && (e.result.Reaped? || e.result.StillAlive?) ==>
        e.pid in pids && old(k.StatusOf(e.pid)) != Gone && e.time >= old(k.now)
      decreases |remaining|, start + SHUTDOWN_NS - k.now
    {
      var now := k.now;
      var elapsedSec := (now - start) / NS_PER_SEC;
      if elapsedSec >= SHUTDOWN_TIMEOUT_SEC {
        break;
      }
      label round:
      k.OnlyFewer();
      ghost var before := waits;
      ghost var more, round;
      remaining, more, round := WaitRound(k, reg, remaining);
      k.OnlyFewer@round();
      MarkedTwice(old(reg.registry), done, more);
      done, waits := done + more, waits + round;
      forall p | p in remaining ensures !FoundDead(waits, p) {
        FoundDeadSplit(before, round, p);
      }
      if remaining != [] {
        label rest:
        k.Elapse(1);
        k.OnlyFewer@rest();
      }
    }
  }

  /** The third phase: kill what is left, and wait for it. */
  method KillPhase(k: Kernel, reg: ProcessRegistry, remaining: seq<int>)
    returns (ghost collected: set<int>, ghost kills: seq<Entry>, ghost waits: seq<Entry>)
    requires forall p :: p in remaining ==> p > 0 && p !in k.foreign
    modifies k, reg`registry
    ensures k.Progress() && k.log == old(k.log) + kills + waits && NoKills(waits)
    ensures forall e :: e in kills ==>
      e.Sent? && e.signal == SIGKILL && e.pid in remaining && old(k.StatusOf(e.pid)) != Gone && e.time >= old(k.now)
    ensures forall e :: e in waits && e.Waited? && (e.result.Reaped? || e.result.StillAlive?) ==>
      e.pid in remaining && old(k.StatusOf(e.pid)) != Gone && e.time >= old(k.now)
    ensures forall p :: p in remaining ==> k.StatusOf(p) == Gone
    ensures forall p :: p in collected ==> p in remaining
    ensures reg.registry == Marked(old(reg.registry), collected)
  {
    hide NoKills, Killed, FoundDead;
    label killing:
    kills := KillAll(k, remaining);
    k.OnlyFewer@killing();
    collected, waits := FinalReap(k, reg, remaining);
  }

  lemma NoneFoundDead(sent: seq<Entry>, pid: int)
    requires forall e :: e in sent ==> e.Sent?
    ensures !FoundDead(sent, pid)
  {
  }

  lemma TermedAfter(sent: seq<Entry>, waits: seq<Entry>, pid: int, limit: int)
    requires Termed(sent, pid, limit)
    ensures Termed(sent + waits, pid, limit)
  {
    TermedLater(sent, sent + waits, pid, limit, limit);
  }

  /** Every process that a wait reaped or found alive had been asked to terminate. */
  ghost predicate AskedFirst(log: seq<Entry>) {
    forall e :: e in log && e.Waited? && (e.result.Reaped? || e.result.StillAlive?) ==> Termed(log, e.pid, e.time)
  }

  lemma AllAsked(sent: seq<Entry>, waits: seq<Entry>, kills: seq<Entry>, last: seq<Entry>, start: int)
    requires (forall e :: e in sent ==> e.Sent?) && (forall e :: e in kills ==> e.Sent?)
    requires forall e :: (e in waits || e in last) && e.Waited? && (e.result.Reaped? || e.result.StillAlive?) ==>
               Termed(sent, e.pid, start) && start <= e.time
    ensures AskedFirst(sent + waits + kills + last)
  {
    hide Termed;
    var log := sent + waits + kills + last;
    assert sent <= log;
    forall e | e in log && e.Waited? && (e.result.Reaped? || e.result.StillAlive?) ensures Termed(log, e.pid, e.time) {
      assert e in waits || e in last;
      TermedLater(sent, log, e.pid, start, e.time);
    }
  }

  /** Every process of the snapshot is gone on return.  A process is killed only ten
      seconds after it was asked to terminate and while no wait had reported it dead.
      `done` and `stragglers` partition the snapshot; a straggler that another thread
      collected after its SIGKILL keeps the state it had. */
  method ReapAll(k: Kernel, reg: ProcessRegistry)
    returns (rc: ResultCode, ghost steps: seq<Entry>, ghost done: set<int>, ghost stragglers: seq<int>,
             ghost collected: set<int>)
    requires reg.Valid() && forall p :: p in reg.registry ==> p > 0 && p !in k.foreign
    modifies k, reg`registry
    ensures rc == OK && reg.Valid() && k.Progress() && k.log == old(k.log) + steps
    ensures forall p :: p in old(reg.registry) ==> k.StatusOf(p) == Gone
    ensures forall p :: p in old(reg.registry) <==> p in done || p in stragglers
    ensures forall p :: p in stragglers ==> p !in done
    ensures forall p :: p in collected ==> p in stragglers
    ensures reg.registry == Marked(old(reg.registry), done + collected)
    ensures stragglers != [] ==> k.now - old(k.now) >= 10_000_000_000
    ensures forall i :: 0 <= i < |steps| ==> Justified(steps, i)
    ensures AskedFirst(steps)
  {
    hide Justified, Termed, FoundDead, Killed, AskedFirst;
    var pids := reg.GetAllPids();
    var sent := TermAll(k, pids);
    var start := k.now;
    label waiting:
    var remaining;
    ghost var waits;
    remaining, done, waits := WaitPhase(k, reg, pids);
    k.OnlyFewer@waiting();
    ghost var before := sent + waits;
    ghost var kills, last := [], [];
    stragglers, collected := remaining, {};
    if remaining != [] {
      label killing:
      collected, kills, last := KillPhase(k, reg, remaining);
      k.OnlyFewer@killing();
      MarkedTwice(old(reg.registry), done, collected);
      forall e | e in kills ensures Termed(before, e.pid, start) && !FoundDead(before, e.pid) {
        assert old@killing(k.StatusOf(e.pid)) != Gone;
        TermedAfter(sent, waits, e.pid, start);
        NoneFoundDead(sent, e.pid);
        FoundDeadSplit(sent, waits, e.pid);
      }
    }
    KillsJustified(before, kills, last, start);
    AllAsked(sent, waits, kills, last, start);
    steps := before + kills + last;
    return OK, steps, done, stragglers, collected;
  }
}
