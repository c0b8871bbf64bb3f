/**
 The pool's own data: a ring buffer of 100 slots, its head, tail and count, and
 the shutdown flag.  `protocol` is the state of the step system; every method
 here performs the data part of one step of it.
 */
module ThreadPool {
  import opened PoolProtocol

  const MAX_WORKERS := 50

  /** The tasks in `count` consecutive slots of a ring, from `head` on. */
  function Slots(ring: seq<Task>, head: nat, count: nat): (s: seq<Task>)
    requires |ring| == QUEUE_CAPACITY
    ensures |s| == count
  {
    seq(count, i requires 0 <= i < count => ring[(head + i) % QUEUE_CAPACITY])
  }

  lemma SlotsPush(ring: seq<Task>, head: nat, count: nat, task: Task)
    requires |ring| == QUEUE_CAPACITY && head < QUEUE_CAPACITY && count < QUEUE_CAPACITY
    ensures Slots(ring[(head + count) % QUEUE_CAPACITY := task], head, count + 1) == Slots(ring, head, count) + [task]
    ensures ((head + count) % QUEUE_CAPACITY + 1) % QUEUE_CAPACITY == (head + (count + 1)) % QUEUE_CAPACITY
  {
    var ring' := ring[(head + count) % QUEUE_CAPACITY := task];
    forall i | 0 <= i < count
      ensures Slots(ring', head, count + 1)[i] == Slots(ring, head, count)[i]
    {
      assert (head + i) % QUEUE_CAPACITY != (head + count) % QUEUE_CAPACITY;
    }
  }

  lemma SlotsPop(ring: seq<Task>, head: nat, count: nat)
    requires |ring| == QUEUE_CAPACITY && head < QUEUE_CAPACITY && 0 < count <= QUEUE_CAPACITY
    ensures Slots(ring, head, count) == [ring[head]] + Slots(ring, (head + 1) % QUEUE_CAPACITY, count - 1)
    ensures ((head + 1) % QUEUE_CAPACITY + (count - 1)) % QUEUE_CAPACITY == (head + count) % QUEUE_CAPACITY
  {
    var all, rest := Slots(ring, head, count), Slots(ring, (head + 1) % QUEUE_CAPACITY, count - 1);
    forall i | 0 <= i < |rest|
      ensures all[1..][i] == rest[i]
    {
      assert (head + (i + 1)) % QUEUE_CAPACITY == ((head + 1) % QUEUE_CAPACITY + i) % QUEUE_CAPACITY;
    }
  }

  class ThreadPool {
    var taskQueue: array<Task>
    var queueHead: nat
    var queueTail: nat
    var taskCount: nat
    var shutdownFlag: bool
    ghost var protocol: State

    ghost predicate ValidRing()
      reads this
    {
      && taskQueue.Length == QUEUE_CAPACITY
      && queueHead < QUEUE_CAPACITY
      && taskCount <= QUEUE_CAPACITY
      && queueTail == (queueHead + taskCount) % QUEUE_CAPACITY
    }

    /** The queued tasks, oldest first. */
    ghost function Contents(): (s: seq<Task>)
      reads this, taskQueue
      requires ValidRing()
      ensures |s| == taskCount
    {
      Slots(taskQueue[..], queueHead, taskCount)
    }

    ghost predicate Valid()
      reads this, taskQueue
    {
      && ValidRing()
      && protocol.shared == Shared(Contents(), shutdownFlag)
    }

    /** init: more than MAX_WORKERS are clamped. */
    constructor (numWorkers: int)
      requires numWorkers > 0
      ensures Valid() && fresh(taskQueue)
      ensures protocol == Init(if numWorkers > 50 then 50 else numWorkers)
    {
      var n: nat := if numWorkers > MAX_WORKERS then MAX_WORKERS else numWorkers;
      taskQueue := new Task[QUEUE_CAPACITY](_ => Task(0, 0));
      queueHead, queueTail, taskCount, shutdownFlag := 0, 0, 0, false;
      protocol := Init(n);
    }

    /** submit, from taking the lock to just before signalling. */
    method Enqueue(task: Task) returns (ok: bool)
      requires Valid() && protocol.holder == Entered(task)
      modifies this, taskQueue
      ensures Valid() && taskQueue == old(taskQueue)
      ensures protocol == Apply(old(protocol), SubmitBody)
      ensures ok <==> |old(Contents())| < 100
      ensures protocol.holder == if ok then Enqueued else Leaving(false)
      ensures Contents() == if ok then old(Contents()) + [task] else old(Contents())
      ensures shutdownFlag == old(shutdownFlag)
    {
      if taskCount == QUEUE_CAPACITY {
        protocol := Apply(protocol, SubmitBody);
        return false;
      }
      SlotsPush(taskQueue[..], queueHead, taskCount, task);
      taskQueue[queueTail] := task;
      queueTail := (queueTail + 1) % QUEUE_CAPACITY;
      taskCount := taskCount + 1;
      protocol := Apply(protocol, SubmitBody);
      return true;
    }

    /** What worker i does once it holds the lock: sleep, leave or dequeue. */
    method Check(i: nat) returns (d: Decision)
      requires Valid() && Enabled(protocol, WorkerCheck(i))
      modifies this
      ensures Valid() && taskQueue == old(taskQueue) && taskQueue[..] == old(taskQueue[..])
      ensures protocol == Apply(old(protocol), WorkerCheck(i))
      ensures d == Decide(Shared(old(Contents()), shutdownFlag)) && shutdownFlag == old(shutdownFlag)
      ensures d.Take? ==> old(Contents()) == [d.task] + Contents()
      ensures !d.Take? ==> Contents() == old(Contents()) == []
    {
      if taskCount == 0 && !shutdownFlag {
        protocol := Apply(protocol, WorkerCheck(i));
        return Sleep;
      }
      if shutdownFlag && taskCount == 0 {
        protocol := Apply(protocol, WorkerCheck(i));
        return Leave;
      }
      SlotsPop(taskQueue[..], queueHead, taskCount);
      var task := taskQueue[queueHead];
      queueHead := (queueHead + 1) % QUEUE_CAPACITY;
      taskCount := taskCount - 1;
      protocol := Apply(protocol, WorkerCheck(i));
      return Take(task);
    }

    /** shutdown, while it holds the lock. */
    method SetShutdownFlag()
      requires Valid() && Enabled(protocol, ShutdownSet)
      modifies this
      ensures Valid() && taskQueue == old(taskQueue) && taskQueue[..] == old(taskQueue[..])
      ensures protocol == Apply(old(protocol), ShutdownSet)
      ensures Contents() == old(Contents()) && shutdownFlag
    {
      shutdownFlag := true;
      protocol := Apply(protocol, ShutdownSet);
      assert Contents() == old(Contents());
    }

    /** Any step of anybody: locking, waking and joining leave the data alone.
        `argument` is what the submitter inside its critical section was given. */
    method Perform(l: Label, argument: Task)
      requires Valid() && Enabled(protocol, l)
      requires protocol.holder.Entered? ==> protocol.holder.task == argument
      modifies this, taskQueue
      ensures Valid() && taskQueue == old(taskQueue)
      ensures protocol == Apply(old(protocol), l)
    {
      if l.SubmitBody? {
        var ok := Enqueue(argument);
      } else if l.WorkerCheck? {
        var d := Check(l.i);
      } else if l.ShutdownSet? {
        SetShutdownFlag();
      } else {
        protocol := Apply(protocol, l);
        assert Contents() == old(Contents());
      }
    }

    /** Hence the ring buffer goes along with every run of the step system, and what
        holds of every reachable state of that system holds of the pool. */
    method Execute(ls: seq<Label>)
      requires Valid() && Inv(protocol) && IsRun(protocol, ls) && !protocol.holder.Entered?
      modifies this, taskQueue
      ensures Valid() && taskQueue == old(taskQueue)
      ensures protocol == Run(old(protocol), ls) && Inv(protocol)
    {
      RunInv(protocol, ls);
      var argument := Task(0, 0);
      for k := 0 to |ls|
        invariant Valid() && taskQueue == old(taskQueue)
        invariant protocol.holder.Entered? ==> protocol.holder.task == argument
        invariant IsRun(protocol, ls[k..])
        invariant Run(protocol, ls[k..]) == Run(old(protocol), ls)
      {
        assert ls[k..][0] == ls[k] && ls[k..][1..] == ls[k + 1..];
        Perform(ls[k], argument);
        if ls[k].SubmitLock? {
          argument := ls[k].task;
        }
      }
    }
  }
}
