/** The mutex and the semaphore: a counter, a queue of waiting processes and the
    scheduler that puts them to sleep. */
module Locks {
  import opened SchedulerModel
  import opened Scheduler
  import opened WaitLists
  import opened LockModel
  import opened LockRuns

  /** The lock and the scheduler as values. */
  ghost function View(queue: WaitList, value: nat, ps: Processes): Machine
    reads queue, ps, ps.pcb
  {
    Machine(ps.S(), Lock(value, PidsOf(queue.nodes)))
  }

  /** The current process runs, so it is not in the queue yet. */
  lemma CurrentIsNotQueued(nodes: seq<WaitNode>, m: Machine, wait: WaitNode)
    requires MachineOk(m) && m.lock.queue == PidsOf(nodes) && wait.pid == m.sched.current
    ensures wait !in nodes
  {
    AwakeIsNotQueued(m);
    forall k | 0 <= k < |nodes| ensures nodes[k] != wait {
      assert PidsOf(nodes)[k] in PidsOf(nodes);
    }
  }

  class Mutex {
    var value: nat
    const queue: WaitList
    /** Who holds the mutex, who waited and who was served; and its number of permits. */
    ghost var sys: System
    ghost var total: nat

    ghost function R(ps: Processes): MutexRun
      reads this, queue, ps, ps.pcb
    {
      MutexRun(View(queue, value, ps), sys)
    }

    /** The queue, the value and the scheduler. */
    ghost predicate Shape(ps: Processes)
      reads this`value, queue, queue.nodes, ps, ps.pcb
    {
      queue.Valid() && ps.Valid() && value <= 1 && MachineOk(View(queue, value, ps))
    }

    ghost predicate Valid(ps: Processes)
      reads this, queue, queue.nodes, ps, ps.pcb
    {
      Shape(ps) && sys.lock == View(queue, value, ps).lock
    }

    /** The permit is in one place: free, or with the only holder. */
    ghost predicate Exclusive()
      reads this
    {
      Good(sys, total)
    }

    constructor (v: nat, ps: Processes)
      requires ps.Valid()
      ensures Valid(ps) && Exclusive() && fresh(queue)
      ensures R(ps) == MutexRun(Machine(old(ps.S()), Initial(v).lock), Initial(v))
    {
      queue := new WaitList();
      if v > 1 {
        value := 1;
      } else {
        value := v;
      }
      sys, total := Initial(v), if v > 1 then 1 else v;
    }

    /** Takes the mutex, or waits in the queue and leaves the processor to another process. */
    method Lock(wait: WaitNode, ps: Processes) returns (choice: nat)
      requires Valid(ps) && wait.pid == ps.currentPid && ps.currentPid != ps.idlePid
      modifies this, queue, queue.nodes, wait, ps, ps.pcb
      ensures Valid(ps) && CanStep(old(R(ps)), Acquire(choice)) && R(ps) == MutexStep(old(R(ps)), Acquire(choice))
      ensures old(Exclusive()) ==> Exclusive() && total == old(total)
    {
      ghost var r := R(ps);
      choice := TakeOrWait(wait, ps);
      sys := Step(sys, Take(r.m.sched.current));
      assert Good(r.s, total) ==> Good(sys, total) by {
        if Good(r.s, total) { MutexStepKeepsOk(r, total, Acquire(choice)); }
      }
    }

    /** The value, the queue and the scheduler, without the record of holders. */
    method TakeOrWait(wait: WaitNode, ps: Processes) returns (choice: nat)
      requires Shape(ps) && wait.pid == ps.currentPid && ps.currentPid != ps.idlePid
      modifies this`value, queue, queue.nodes, wait, ps, ps.pcb
      ensures Shape(ps) && CanMove(old(View(queue, value, ps)), Acquire(choice))
      ensures View(queue, value, ps) == Moved(old(View(queue, value, ps)), Acquire(choice))
    {
      ghost var m := View(queue, value, ps);
      choice := ps.currentPid;
      if value > 0 {
        value := 0;
      } else {
        choice := Suspend(queue, value, wait, ps);
      }
      MoveKeepsOk(m, Acquire(choice));
    }

    method TryLock(ps: Processes) returns (ok: bool)
      requires Valid(ps)
      modifies this
      ensures Valid(ps) && (ok <==> old(value) > 0) && R(ps) == MutexStep(old(R(ps)), Attempt)
      ensures old(Exclusive()) ==> Exclusive() && total == old(total)
    {
      ghost var r := R(ps);
      ok := false;
      if value > 0 {
        value := 0;
        ok := true;
      }
      sys := Step(sys, Try(r.m.sched.current));
      MoveKeepsOk(r.m, Attempt);
      if Good(r.s, total) { MutexStepKeepsOk(r, total, Attempt); }
    }

    /** Hands the mutex to the first waiting process, or frees it. Whether the permit stays
        in one place depends on who calls. */
    method Unlock(ps: Processes)
      requires Valid(ps)
      modifies this, queue, ps.pcb
      ensures Valid(ps) && R(ps) == Unlocked(old(R(ps)))
      ensures old(Exclusive()) ==> (Exclusive() <==> KeepsPermit(old(R(ps)), old(total)))
    {
      ghost var r := R(ps);
      ghost var next, keeps := Unlocked(r), KeepsPermit(r, total);
      assert Good(r.s, total) ==> total <= 1 && (Good(next.s, 1) <==> keeps) by {
        if Good(r.s, total) { UnlockIsKnown(r, total); }
      }
      assert next.m == Moved(r.m, Hand).(lock := Free(r.m.lock)) by { UnlockFrees(r); }
      HandOver(ps, next.m);
      sys, total := next.s, if total == 0 then 1 else total;
      assert R(ps) == next;
    }

    /** The queue and the value, without the record of holders. */
    method HandOver(ps: Processes, ghost goal: Machine)
      requires Shape(ps)
      requires var m := View(queue, value, ps); goal == Moved(m, Hand).(lock := Free(m.lock))
      modifies this`value, queue, ps.pcb
      ensures Shape(ps) && View(queue, value, ps) == goal
    {
      ghost var m := View(queue, value, ps);
      var empty := queue.IsEmpty();
      if empty {
        value := 1;
      } else {
        var pid := WakeFirst(queue, value, ps);
        MoveKeepsOk(m, Hand);
      }
    }
  }

  /** Queues the current process and gives the processor up. */
  method Suspend(queue: WaitList, ghost value: nat, wait: WaitNode, ps: Processes) returns (choice: nat)
    requires queue.Valid() && ps.Valid() && value == 0 && MachineOk(View(queue, value, ps))
    requires wait.pid == ps.currentPid && ps.currentPid != ps.idlePid
    modifies queue, queue.nodes, wait, ps, ps.pcb
    ensures queue.Valid() && ps.Valid() && PidsOf(queue.nodes) == old(PidsOf(queue.nodes)) + [old(ps.currentPid)]
    ensures Enabled(old(ps.S()), Block(choice)) && ps.S() == Apply(old(ps.S()), Block(choice))
  {
    ghost var s := ps.S();
    assert wait !in queue.nodes by { CurrentIsNotQueued(queue.nodes, View(queue, value, ps), wait); }
    queue.Enqueue(wait, ps);
    choice := GiveUp(ps, s);
  }

  /** The rest of blocking: another process is chosen. */
  method GiveUp(ps: Processes, ghost s: Sched) returns (choice: nat)
    requires Inv(s) && s.current != s.idle && ps.S() == SetState(s, s.current, Blocked) && ps.idlePid == 0
    modifies ps, ps.pcb
    ensures ps.Valid() && Enabled(s, Block(choice)) && ps.S() == Apply(s, Block(choice))
  {
    assert Core(ps.S()) by { StopKeepsCore(s, Blocked); }
    ps.Reschedule();
    choice := ps.currentPid;
    assert ps.S() == Apply(s, Block(choice));
    assert Inv(ps.S()) by { StepKeepsInv(s, Block(choice)); }
  }

  method WakeFirst(queue: WaitList, ghost value: nat, ps: Processes) returns (pid: nat)
    requires queue.Valid() && ps.Valid() && MachineOk(View(queue, value, ps)) && queue.nodes != []
    modifies queue, ps.pcb
    ensures queue.Valid() && ps.Valid() && PidsOf(queue.nodes) == old(PidsOf(queue.nodes))[1..]
    ensures pid == old(PidsOf(queue.nodes))[0] && Enabled(old(ps.S()), Unblock(pid))
    ensures ps.S() == Apply(old(ps.S()), Unblock(pid))
  {
    WaiterCanBeWoken(View(queue, value, ps));
    pid := queue.Dequeue(ps);
  }

  class Semaphore {
    var value: nat
    const queue: WaitList
    /** The permits taken and given, who waited and who was served; and the first value. */
    ghost var count: Counter
    ghost const first: nat

    ghost function R(ps: Processes): SemRun
      reads this, queue, ps, ps.pcb
    {
      SemRun(View(queue, value, ps), count)
    }

    /** The queue, the value and the scheduler. */
    ghost predicate Shape(ps: Processes)
      reads this`value, queue, queue.nodes, ps, ps.pcb
    {
      queue.Valid() && ps.Valid() && MachineOk(View(queue, value, ps))
    }

    ghost predicate Valid(ps: Processes)
      reads this, queue, queue.nodes, ps, ps.pcb
    {
      Shape(ps) && count.lock == View(queue, value, ps).lock && Conserved(count, first)
    }

    constructor (v: nat, ps: Processes)
      requires ps.Valid()
      ensures Valid(ps) && first == v && fresh(queue) && R(ps).m == Machine(old(ps.S()), LockModel.Lock.Lock(v, []))
      ensures count.taken == 0 && count.given == 0
    {
      queue := new WaitList();
      value := v;
      count := Counter(LockModel.Lock.Lock(v, []), 0, 0, [], []);
      first := v;
    }

    method Lock(wait: WaitNode, ps: Processes) returns (choice: nat)
      requires Valid(ps) && wait.pid == ps.currentPid && ps.currentPid != ps.idlePid
      modifies this, queue, queue.nodes, wait, ps, ps.pcb
      ensures Valid(ps) && CanMove(old(R(ps)).m, Acquire(choice)) && R(ps) == SemStep(old(R(ps)), Acquire(choice))
    {
      ghost var r := R(ps);
      choice := ps.currentPid;
      if value > 0 {
        value := value - 1;
      } else {
        choice := Suspend(queue, value, wait, ps);
      }
      count := UseStep(count, Wait(r.m.sched.current));
      SemStepKeepsOk(r, first, Acquire(choice));
    }

    method TryLock(ps: Processes) returns (ok: bool)
      requires Valid(ps)
      modifies this
      ensures Valid(ps) && (ok <==> old(value) > 0) && R(ps) == SemStep(old(R(ps)), Attempt)
    {
      ghost var r := R(ps);
      ok := false;
      if value > 0 {
        value := value - 1;
        ok := true;
      }
      count := UseStep(count, TryWait(r.m.sched.current));
      SemStepKeepsOk(r, first, Attempt);
    }

    method Unlock(ps: Processes)
      requires Valid(ps)
      modifies this, queue, ps.pcb
      ensures Valid(ps) && R(ps) == SemStep(old(R(ps)), Hand)
    {
      ghost var r := R(ps);
      ghost var next := SemStep(r, Hand);
      assert SemOk(next, first) by { SemStepKeepsOk(r, first, Hand); }
      GiveOne(ps);
      count := next.c;
      assert R(ps) == next;
    }

    /** The queue and the value, without the counts. */
    method GiveOne(ps: Processes)
      requires Shape(ps)
      modifies this`value, queue, ps.pcb
      ensures Shape(ps) && View(queue, value, ps) == Moved(old(View(queue, value, ps)), Hand)
    {
      ghost var m := View(queue, value, ps);
      var empty := queue.IsEmpty();
      if empty {
        value := value + 1;
      } else {
        var pid := WakeFirst(queue, value, ps);
      }
      MoveKeepsOk(m, Hand);
    }

    /** `k` more unlocks lead to `goal`. */
    ghost predicate Waking(ps: Processes, k: nat, goal: SemRun)
      reads this, queue, queue.nodes, ps, ps.pcb
    {
      Valid(ps) && Reaches(R(ps), k, goal)
    }

    method WakeOne(ps: Processes, ghost k: nat, ghost goal: SemRun) returns (empty: bool)
      requires k > 0 && Waking(ps, k, goal) && queue.nodes != []
      modifies this`count, queue, ps.pcb
      ensures Waking(ps, k - 1, goal) && (empty <==> queue.nodes == [])
    {
      ghost var r := R(ps);
      ghost var next := SemStep(r, Hand);
      assert SemOk(next, first) by { SemStepKeepsOk(r, first, Hand); }
      assert Reaches(next, k - 1, goal) by { ReachesStep(r, k, goal); }
      empty := PassOn(ps);
      count := next.c;
      assert R(ps) == next;
    }

    /** Wakes the first waiting process. */
    method PassOn(ps: Processes) returns (empty: bool)
      requires Shape(ps) && queue.nodes != []
      modifies queue, ps.pcb
      ensures Shape(ps) && (empty <==> queue.nodes == [])
      ensures View(queue, value, ps) == Moved(old(View(queue, value, ps)), Hand)
    {
      ghost var m := View(queue, value, ps);
      var pid := WakeFirst(queue, value, ps);
      MoveKeepsOk(m, Hand);
      empty := queue.IsEmpty();
    }

    /** Wakes waiting processes while there are permits for them. */
    method WakeMany(n: nat, ps: Processes, ghost goal: SemRun) returns (left: nat)
      requires Waking(ps, n, goal)
      modifies this`count, queue, ps.pcb
      ensures Waking(ps, left, goal) && (left == 0 || queue.nodes == [])
    {
      left := n;
      var empty := queue.IsEmpty();
      while left > 0 && !empty
        invariant Waking(ps, left, goal) && (empty <==> queue.nodes == [])
        decreases left
      {
        empty := WakeOne(ps, left, goal);
        left := left - 1;
      }
    }

    /** Counts `n` permits with nobody waiting. */
    method CountUp(n: nat, ps: Processes, ghost goal: SemRun)
      requires Waking(ps, n, goal) && queue.nodes == []
      modifies this`value, this`count
      ensures Valid(ps) && R(ps) == goal
    {
      ghost var r := R(ps);
      value := value + n;
      count := UseStep(count, Use.Release(n));
      HandsOnEmptyQueue(r, first, n);
      HandsAreOneRelease(r, first, n);
    }

    /** Gives `n` permits at once: the same as `n` unlocks. */
    method Release(n: nat, ps: Processes)
      requires Valid(ps)
      modifies this, queue, ps.pcb
      ensures Valid(ps) && R(ps) == Hands(old(R(ps)), n) && count == UseStep(old(count), Use.Release(n))
    {
      ghost var r := R(ps);
      ghost var goal := Hands(r, n);
      HandsAreOneRelease(r, first, n);
      var empty := queue.IsEmpty();
      if empty {
        CountUp(n, ps, goal);
      } else {
        var left := WakeMany(n, ps, goal);
        if left > 0 {
          CountUp(left, ps, goal);
        }
      }
    }
  }
}
