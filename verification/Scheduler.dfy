/** The scheduler calls on the process table they share. */
module Scheduler {
  import opened SchedulerModel

  /** No process of priority `p` can run. */
  ghost predicate LevelIdle(s: Sched, p: nat)
    requires Sized(s) && IsPriority(p)
  {
    forall k :: 0 <= k < |RunQueue(s, p)| ==> !CanRun(s, RunQueue(s, p)[k])
  }

  ghost predicate IdleAbove(s: Sched, p: nat)
    requires Sized(s)
  {
    forall r :: p < r <= MAX_PRIORITY && IsPriority(r) ==> LevelIdle(s, r)
  }

  /** The first that can run on the highest level where one can is the choice. */
  lemma FoundChoice(s: Sched, p: nat, start: nat, m: nat, i: nat)
    requires Core(s) && IsPriority(p) && IdleAbove(s, p) && start == SearchStart(s, p)
    requires FirstReady(s, RunQueue(s, p), start, m, i)
    ensures i < MAX_PROCESS && IsChoice(s, i)
  {
    var q := RunQueue(s, p);
    assert QueueOk(s, p);
    QueuedAreLive(s, p);
    assert i in q;
    forall j {:trigger NotAbove(s, j, p)} | 0 <= j < MAX_PROCESS ensures NotAbove(s, j, p) {
      assert SlotOk(s, j);
      assert Live(s.pcb[j]) && s.pcb[j].priority > p ==> LevelIdle(s, s.pcb[j].priority);
    }
  }

  /** The idle task can always run, so not every level is idle. */
  lemma SomeLevelReady(s: Sched)
    requires Core(s)
    ensures !IdleAbove(s, 0)
  {
    assert SlotOk(s, s.idle);
    var p := s.pcb[s.idle].priority;
    var k :| 0 <= k < |RunQueue(s, p)| && RunQueue(s, p)[k] == s.idle;
    assert !LevelIdle(s, p);
  }

  ghost predicate NotWaiting(s: Sched, i: nat)
  {
    i < |s.pcb| && !s.pcb[i].state.Waiting?
  }

  lemma KilledSlots(s: Sched)
    requires Inv(s)
    ensures forall i {:trigger SlotOk(SetState(s, s.current, Killed), i)} :: 0 <= i < MAX_PROCESS ==>
            SlotOk(SetState(s, s.current, Killed), i)
  {
    var s' := SetState(s, s.current, Killed);
    forall i {:trigger SlotOk(s', i)} | 0 <= i < MAX_PROCESS ensures SlotOk(s', i) { assert SlotOk(s, i); }
  }

  /** No ended process in the first `n` slots. */
  ghost predicate ClearUpTo(s: Sched, n: nat)
  {
    n <= |s.pcb| && forall j :: 0 <= j < n ==> !s.pcb[j].state.Killed?
  }

  /** A run of collections from `s` to `s'` that has emptied the first `n` slots of ended processes. */
  ghost predicate Collecting(s: Sched, es: seq<Event>, s': Sched, n: nat)
  {
    IsRun(s, es, s') && (forall e :: e in es ==> e.Collect?) && ClearUpTo(s', n)
  }

  lemma CollectionClears(s: Sched, i: nat)
    requires Inv(s) && Enabled(s, Collect(i)) && ClearUpTo(s, i)
    ensures ClearUpTo(Apply(s, Collect(i)), i + 1)
  {
    assert SlotOk(s, i);
  }

  /** The first `n` slots hold ready tasks; the others are empty. */
  ghost predicate BootOk(pcb: seq<Process>, n: nat)
  {
    && |pcb| == MAX_PROCESS && n < MAX_PROCESS
    && (forall i :: 0 <= i < n ==> pcb[i].state.Ready?)
    && (forall i :: n <= i < MAX_PROCESS ==> pcb[i].state.Empty?)
  }

  lemma EmptyTable(s: Sched)
    requires Sized(s) && (forall i :: 0 <= i < MAX_PROCESS ==> s.pcb[i] == Process(0, 0, 0, Empty, 0, 0))
    requires forall i :: 0 <= i < MAX_PRIORITY ==> s.queues[i] == []
    ensures Table(s)
  {
  }

  lemma StartIsGood(s: Sched, i: nat)
    requires Table(s) && BootOk(s.pcb, s.next) && s.idle < s.next && i < s.next && s.current == 0
    ensures Inv(SwitchTo(s, i))
  {
    forall j {:trigger NotRunning(s, j)} | 0 <= j < MAX_PROCESS
      ensures NotRunning(s, j)
    {
      assert 0 <= j < MAX_PROCESS;
    }
    SwitchKeepsInv(s, i);
  }

  /** The next slot is taken if it is empty. */
  lemma NextComesFirst(s: Sched, pid: nat)
    requires Sized(s) && s.pcb[s.next].state.Empty? && IsFreePid(s, pid)
    ensures pid == s.next
  {
    var k: nat :| k < MAX_PROCESS && FreeAfter(s, pid, k);
    assert SlotFrom(s, 0) == s.next;
  }

  /** The table does not depend on which tasks have the special roles. */
  lemma RolesKeepTable(s: Sched, idle: nat, gc: nat)
    requires Table(s) && idle < MAX_PROCESS && gc < MAX_PROCESS
    ensures Table(s.(idle := idle, gc := gc))
  {
    var s' := s.(idle := idle, gc := gc);
    forall j {:trigger SameRole(s, s', j)} | 0 <= j < MAX_PROCESS ensures SameRole(s, s', j) { assert SlotOk(s, j); }
    forall w {:trigger WaitOk(s', w)} | 0 <= w < MAX_PROCESS ensures WaitOk(s', w) { assert WaitOk(s, w); }
    TableFrame(s, s');
  }

  /** The slots from `next` to `n` places behind it are taken. */
  ghost predicate NoneEmptyUpTo(s: Sched, n: nat)
    requires Sized(s)
  {
    forall l :: 0 <= l <= n ==> !s.pcb[SlotFrom(s, l)].state.Empty?
  }

  /** Going round the table meets every slot. */
  lemma NoneEmpty(s: Sched)
    requires Sized(s) && NoneEmptyUpTo(s, MAX_PROCESS)
    ensures forall i :: 0 <= i < MAX_PROCESS ==> !s.pcb[i].state.Empty?
  {
    forall i | 0 <= i < MAX_PROCESS ensures !s.pcb[i].state.Empty? {
      var l := if i >= s.next then i - s.next else i + MAX_PROCESS - s.next;
      assert SlotFrom(s, l) == i;
    }
  }

  /** The search moves on by a slot that is taken. */
  lemma NextSlot(s: Sched, i: nat)
    requires Sized(s)
    ensures SlotFrom(s, i + 2) == (SlotFrom(s, i + 1) + 1) % MAX_PROCESS
    ensures NoneEmptyUpTo(s, i) && !s.pcb[SlotFrom(s, i + 1)].state.Empty? ==> NoneEmptyUpTo(s, i + 1)
  {
  }

  lemma FirstEmpty(s: Sched, i: nat)
    requires Sized(s) && i < MAX_PROCESS && NoneEmptyUpTo(s, i) && s.pcb[SlotFrom(s, i + 1)].state.Empty?
    ensures IsFreePid(s, SlotFrom(s, i + 1))
  {
    assert !s.pcb[SlotFrom(s, 0)].state.Empty?;
    NotAllTaken(s, i);
    assert FreeAfter(s, SlotFrom(s, i + 1), i + 1);
  }

  lemma NotAllTaken(s: Sched, i: nat)
    requires Sized(s) && i < MAX_PROCESS && s.pcb[SlotFrom(s, i + 1)].state.Empty?
    requires !s.pcb[SlotFrom(s, 0)].state.Empty?
    ensures i + 1 < MAX_PROCESS
  {
  }

  /** A search that wraps around meets every entry. */
  lemma SearchIsComplete(s: Sched, p: nat, start: nat)
    requires Sized(s) && IsPriority(p) && (RunQueue(s, p) != [] ==> start < |RunQueue(s, p)|)
    requires forall l :: 0 <= l < |RunQueue(s, p)| ==> !CanRun(s, Wrapped(RunQueue(s, p), start, l))
    ensures LevelIdle(s, p)
  {
    var q, n := RunQueue(s, p), |RunQueue(s, p)|;
    forall k | 0 <= k < n ensures !CanRun(s, q[k]) {
      var l := if k >= start then k - start else k + n - start;
      Wrap(start + l, n);
      assert Wrapped(q, start, l) == q[k];
    }
  }

  /** Times are 64-bit words. */
  const WORD: nat := 0x1_0000_0000_0000_0000

  /** At least one tick, however short the time asked for, and the right number exactly if
      that is positive and fits the word. */
  function TicksFor(time: nat, frequency: nat): (ticks: nat)
    ensures 0 < ticks < WORD
    ensures ticks == time * (frequency / 1000) <==> 0 < time * (frequency / 1000) < WORD
  {
    var ticks := time * (frequency / 1000) % WORD;
    if ticks == 0 then 1 else ticks
  }

  class Processes {
    const pcb: array<Process>
    var runQueues: seq<seq<nat>>
    var currentPid: nat
    var nextPid: nat
    var gcPid: nat
    var idlePid: nat
    var postInitPid: nat
    var rrQuantum: nat
    ghost var awaited: map<nat, nat>

    ghost function S(): Sched
      reads this, pcb
    {
      Sched(pcb[..], runQueues, currentPid, nextPid, gcPid, idlePid, rrQuantum, awaited)
    }

    ghost predicate Valid()
      reads this, pcb
    {
      Inv(S()) && idlePid == 0
    }

    /** Before the start: the first slots hold ready system tasks, and nothing runs. */
    ghost predicate Booting()
      reads this, pcb
    {
      Table(S()) && currentPid == 0 && BootOk(pcb[..], nextPid)
    }

    constructor (quantum: nat)
      ensures Booting() && nextPid == 0 && rrQuantum == quantum && fresh(pcb)
    {
      pcb := new Process[MAX_PROCESS](_ => Process(0, 0, 0, Empty, 0, 0));
      runQueues := [[], [], [], []];
      currentPid, nextPid, gcPid, idlePid, postInitPid := 0, 0, 0, 0, 0;
      rrQuantum := quantum;
      awaited := map[];
      new;
      EmptyTable(S());
    }

    /** Gives the fresh process its parent and priority and queues it. */
    method QueueTask(pid: nat, priority: nat, parent: nat)
      requires Table(S()) && pid < MAX_PROCESS && pcb[pid].state.New? && Unawaited(S(), pid)
      requires IsPriority(priority) && parent < MAX_PROCESS
      modifies `runQueues, pcb
      ensures Table(S())
      ensures pcb[..] == old(pcb[..])[pid := old(pcb[pid]).(ppid := parent, priority := priority, state := Ready)]
    {
      ghost var s := S();
      SetProcess(pid, pcb[pid].(ppid := parent, priority := priority));
      ghost var named := S();
      assert Table(named) by { RoleKeepsTable(s, pid, priority, parent); }
      QueueProcess(pid);
      assert Table(S()) by {
        assert SlotOk(named, pid);
        EnqueueKeepsTable(named, pid);
      }
    }

    method CreateTask(priority: nat, parent: nat) returns (pid: nat)
      requires Booting() && nextPid < MAX_PROCESS - 1 && IsPriority(priority) && parent < MAX_PROCESS
      modifies `nextPid, `runQueues, pcb
      ensures Booting() && pid == old(nextPid) && nextPid == old(nextPid) + 1
      ensures pcb[pid].priority == priority && pcb[pid].ppid == parent
      ensures forall i :: 0 <= i < pid ==> pcb[i] == old(pcb[i])
    {
      ghost var s := S();
      pid := CreatePid();
      assert Table(S()) && Unawaited(S(), pid) by { CreationKeepsTable(s, pid); }
      QueueTask(pid, priority, parent);
    }

    /** During the boot the next slot is always empty. */
    method CreatePid() returns (pid: nat)
      requires Booting() && nextPid < MAX_PROCESS - 1
      modifies `nextPid, pcb
      ensures pid == old(nextPid) && S() == Created(old(S()), pid)
    {
      var found;
      found, pid := NewProcess();
      NextComesFirst(old(S()), pid);
    }

    /** The idle task, one task per terminal, the collector and the last of the boot. */
    method Init(terminals: nat)
      requires Booting() && nextPid == 0 && terminals + 3 < MAX_PROCESS
      modifies this, pcb
      ensures Booting() && nextPid == terminals + 3
      ensures idlePid == 0 && pcb[0].priority == 1 && pcb[0].ppid == 0
      ensures forall i :: 1 <= i <= terminals ==> pcb[i].priority == 2 && pcb[i].ppid == 0
      ensures gcPid == terminals + 1 && pcb[gcPid].priority == 2 && pcb[gcPid].ppid == 0
      ensures postInitPid == terminals + 2 && pcb[postInitPid].priority == 4 && pcb[postInitPid].ppid == 0
    {
      var idle := CreateTask(MIN_PRIORITY, 0);
      RolesKeepTable(S(), idle, gcPid);
      idlePid := idle;
      CreateInitTasks(terminals);
      var gc := CreateTask(MIN_PRIORITY + 1, 0);
      RolesKeepTable(S(), idlePid, gc);
      gcPid := gc;
      postInitPid := CreateTask(MAX_PRIORITY, 0);
    }

    /** The first tasks of the terminals. */
    method CreateInitTasks(terminals: nat)
      requires Booting() && nextPid + terminals < MAX_PROCESS
      modifies `nextPid, `runQueues, pcb
      ensures Booting() && nextPid == old(nextPid) + terminals
      ensures forall i :: 0 <= i < old(nextPid) ==> pcb[i] == old(pcb[i])
      ensures forall i :: old(nextPid) <= i < nextPid ==> pcb[i].priority == 2 && pcb[i].ppid == 0
    {
      for i := 0 to terminals
        invariant Booting() && nextPid == old(nextPid) + i
        invariant forall j :: 0 <= j < old(nextPid) ==> pcb[j] == old(pcb[j])
        invariant forall j :: old(nextPid) <= j < nextPid ==> pcb[j].priority == 2 && pcb[j].ppid == 0
      {
        var init := CreateTask(MIN_PRIORITY + 1, 0);
      }
    }

    /** The input tasks of the terminals, children of the first task of the first terminal. */
    method CreateInputTasks(terminals: nat)
      requires Booting() && nextPid + terminals < MAX_PROCESS
      modifies `nextPid, `runQueues, pcb
      ensures Booting() && nextPid == old(nextPid) + terminals
      ensures forall i :: 0 <= i < old(nextPid) ==> pcb[i] == old(pcb[i])
      ensures forall i :: old(nextPid) <= i < nextPid ==> pcb[i].priority == 3 && pcb[i].ppid == 1
    {
      for i := 0 to terminals
        invariant Booting() && nextPid == old(nextPid) + i
        invariant forall j :: 0 <= j < old(nextPid) ==> pcb[j] == old(pcb[j])
        invariant forall j :: old(nextPid) <= j < nextPid ==> pcb[j].priority == DEFAULT_PRIORITY && pcb[j].ppid == 1
      {
        var input := CreateTask(DEFAULT_PRIORITY, 1);
      }
    }

    /** The last task of the boot runs first; no other has a higher priority. */
    method Start()
      requires Booting() && idlePid == 0 && 0 < postInitPid < nextPid && gcPid < nextPid
      modifies this, pcb
      ensures Valid() && currentPid == postInitPid == old(postInitPid) && S() == SwitchTo(old(S()), currentPid)
    {
      ghost var s := S();
      currentPid := postInitPid;
      SetStateOf(currentPid, Running);
      StartIsGood(s, currentPid);
    }

    /** The first process of one queue that can run, in order from `start`. */
    method ScanQueue(p: nat, start: nat) returns (found: bool, pid: nat, ghost m: nat)
      requires Core(S()) && IsPriority(p) && (RunQueue(S(), p) != [] ==> start < |RunQueue(S(), p)|)
      ensures found ==> FirstReady(S(), RunQueue(S(), p), start, m, pid)
      ensures !found ==> LevelIdle(S(), p)
    {
      ghost var s := S();
      assert QueueOk(s, p);
      QueuedAreLive(s, p);
      var q := runQueues[p - MIN_PRIORITY];
      for i := 0 to |q|
        invariant forall l :: 0 <= l < i ==> !CanRun(s, Wrapped(q, start, l))
      {
        var candidate := q[(start + i) % |q|];
        assert candidate in q && candidate == Wrapped(q, start, i);
        if pcb[candidate].state.Ready? || pcb[candidate].state.Running? {
          return true, candidate, i;
        }
      }
      SearchIsComplete(s, p, start);
      return false, 0, 0;
    }

    /** The levels from `from` down to `to`, none of them the current one. */
    method ScanLevels(from: nat, to: nat) returns (found: bool, pid: nat)
      requires Core(S()) && MIN_PRIORITY <= to <= from + 1 <= MAX_PRIORITY + 1 && IdleAbove(S(), from)
      requires !(to <= pcb[currentPid].priority <= from)
      ensures found ==> pid < MAX_PROCESS && IsChoice(S(), pid)
      ensures !found ==> IdleAbove(S(), to - 1)
    {
      ghost var s := S();
      var p := from;
      while p >= to
        invariant to - 1 <= p <= from && IdleAbove(s, p)
      {
        ghost var m: nat;
        found, pid, m := ScanQueue(p, 0);
        if found {
          FoundChoice(s, p, 0, m, pid);
          return;
        }
        p := p - 1;
      }
      return false, 0;
    }

    /** Where the search of the current level starts. */
    method FindNextIndex(p: nat) returns (n: nat)
      requires Sized(S()) && IsPriority(p)
      ensures n == NextIndex(RunQueue(S(), p), currentPid)
    {
      var q := runQueues[p - MIN_PRIORITY];
      n := 0;
      for i := 0 to |q|
        invariant currentPid !in q[..i]
      {
        if q[i] == currentPid {
          assert currentPid !in q[0..i];
          return (i + 1) % |q|;
        }
      }
      assert q[0..] == q;
    }

    method SelectNextProcess() returns (pid: nat)
      requires Core(S())
      ensures pid < MAX_PROCESS && IsChoice(S(), pid)
    {
      ghost var s := S();
      var currentPriority := pcb[currentPid].priority;
      assert SlotOk(s, s.current);

      var found: bool;
      found, pid := ScanLevels(MAX_PRIORITY, currentPriority + 1);
      if found {
        return;
      }

      var nextIndex := FindNextIndex(currentPriority);
      ghost var m: nat;
      found, pid, m := ScanQueue(currentPriority, nextIndex);
      if found {
        FoundChoice(s, currentPriority, nextIndex, m, pid);
        return;
      }

      found, pid := ScanLevels(currentPriority - 1, MIN_PRIORITY);
      if !found {
        SomeLevelReady(s);
        assert false;
      }
    }

    method SetProcess(i: nat, p: Process)
      requires Sized(S()) && i < MAX_PROCESS
      modifies pcb
      ensures S() == old(S()).(pcb := old(S()).pcb[i := p])
    {
      pcb[i] := p;
      assert pcb[..] == old(pcb[..])[i := p];
    }

    method SetStateOf(i: nat, st: State)
      requires Sized(S()) && i < MAX_PROCESS
      modifies pcb
      ensures S() == SetState(old(S()), i, st)
    {
      SetProcess(i, pcb[i].(state := st));
    }

    /** A switch to the current process does nothing. */
    method SwitchToProcess(newPid: nat)
      requires Sized(S()) && newPid < MAX_PROCESS
      modifies this, pcb
      ensures S() == if newPid == old(currentPid) then old(S()) else SwitchTo(old(S()), newPid)
    {
      var oldPid := currentPid;
      if oldPid == newPid {
        return;
      }
      currentPid := newPid;
      SetStateOf(newPid, Running);
    }

    /** Leaves the processor to another process, unless the current one still runs. */
    method Reschedule()
      requires Core(S())
      modifies this, pcb
      ensures old(pcb[currentPid].state.Running?) ==> S() == old(S())
      ensures !old(pcb[currentPid].state.Running?) ==>
                IsChoice(old(S()), currentPid) && currentPid < MAX_PROCESS && S() == Rescheduled(old(S()), currentPid)
    {
      if !pcb[currentPid].state.Running? {
        var index := SelectNextProcess();
        SwitchToProcess(index);
      }
    }

    method Yield() returns (choice: nat)
      requires Valid()
      modifies this, pcb
      ensures Valid() && Enabled(old(S()), Event.Yield(choice)) && S() == Apply(old(S()), Event.Yield(choice))
    {
      ghost var s := S();
      SetStateOf(currentPid, Ready);
      StopKeepsCore(s, Ready);
      choice := SelectNextProcess();
      if choice != currentPid {
        SwitchToProcess(choice);
      } else {
        SetStateOf(currentPid, Running);
      }
      StepKeepsInv(s, Event.Yield(choice));
    }

    /** Blocks a process. The current one leaves the processor to the choice; another one
        only changes its state. */
    method BlockProcess(pid: nat) returns (choice: nat)
      requires Valid() && pid < MAX_PROCESS && pid != idlePid
      modifies this, pcb
      ensures pid == old(currentPid) ==>
                Valid() && Enabled(old(S()), Block(choice)) && S() == Apply(old(S()), Block(choice))
      ensures pid != old(currentPid) ==> S() == SetState(old(S()), pid, Blocked) && (Valid() <==> Live(old(pcb[pid])))
    {
      ghost var s := S();
      choice := currentPid;
      if pid == currentPid {
        choice := BlockCurrent();
      } else {
        assert RunsOnlyIf(s, s.current);
        SetStateOf(pid, Blocked);
        assert pcb[currentPid].state.Running?;
        BlockingAnother(s, pid);
      }
    }

    method BlockCurrent() returns (choice: nat)
      requires Valid() && currentPid != idlePid
      modifies this, pcb
      ensures Valid() && Enabled(old(S()), Block(choice)) && S() == Apply(old(S()), Block(choice))
    {
      ghost var s := S();
      SetStateOf(currentPid, Blocked);
      StopKeepsCore(s, Blocked);
      Reschedule();
      choice := currentPid;
      StepKeepsInv(s, Block(choice));
    }

    method SetTimeoutOf(i: nat, ticks: nat, st: State)
      requires Sized(S()) && i < MAX_PROCESS
      modifies pcb
      ensures S() == SetState(SetTimeout(old(S()), i, ticks), i, st)
    {
      SetProcess(i, pcb[i].(sleepTimeout := ticks));
      SetStateOf(i, st);
    }

    method BlockProcessTimeout(time: nat, frequency: nat) returns (choice: nat)
      requires Valid() && currentPid != idlePid
      modifies this, pcb
      ensures Valid() && Enabled(old(S()), BlockFor(TicksFor(time, frequency), choice))
      ensures S() == Apply(old(S()), BlockFor(TicksFor(time, frequency), choice))
    {
      ghost var s := S();
      var t := TicksFor(time, frequency);
      SetTimeoutOf(currentPid, t, BlockedTimeout);
      TimeoutKeepsInv(s, t);
      StopKeepsCore(SetTimeout(s, s.current, t), BlockedTimeout);
      Reschedule();
      choice := currentPid;
      StepKeepsInv(s, BlockFor(t, choice));
    }

    method SleepMs(time: nat, frequency: nat) returns (choice: nat)
      requires Valid() && currentPid != idlePid
      modifies this, pcb
      ensures Valid() && Enabled(old(S()), Sleep(TicksFor(time, frequency), choice))
      ensures S() == Apply(old(S()), Sleep(TicksFor(time, frequency), choice))
    {
      ghost var s := S();
      var t := TicksFor(time, frequency);
      SetTimeoutOf(currentPid, t, Sleeping);
      TimeoutKeepsInv(s, t);
      StopKeepsCore(SetTimeout(s, s.current, t), Sleeping);
      Reschedule();
      choice := currentPid;
      StepKeepsInv(s, Sleep(t, choice));
    }

    method UnblockProcess(pid: nat)
      requires Sized(S()) && Enabled(S(), Unblock(pid))
      modifies pcb
      ensures S() == SetState(old(S()), pid, Ready)
      ensures old(Valid()) ==> Valid() && S() == Apply(old(S()), Unblock(pid))
    {
      ghost var s := S();
      SetStateOf(pid, Ready);
      if Inv(s) {
        StepKeepsInv(s, Unblock(pid));
      }
    }

    /** Makes a process ready that does not run. It is a step exactly for the processes
        in a run queue that have not ended; the code checks neither. */
    method UnblockProcessHint(pid: nat)
      requires Sized(S()) && pid < MAX_PROCESS && pid != idlePid
      modifies pcb
      ensures S() == if old(pcb[pid].state.Running?) then old(S()) else SetState(old(S()), pid, Ready)
      ensures old(Valid()) ==> (Valid() <==> Live(old(pcb[pid])))
      ensures old(Valid()) && Enabled(old(S()), UnblockHint(pid)) ==> S() == Apply(old(S()), UnblockHint(pid))
    {
      ghost var s := S();
      if !pcb[pid].state.Running? {
        SetStateOf(pid, Ready);
        if Inv(s) { HintIsSafe(s, pid); }
      }
    }

    /** Counts the timers down. */
    method TickAll()
      requires Table(S())
      modifies pcb
      ensures S() == TickTimers(old(S()))
    {
      ghost var s := S();
      for i := 0 to MAX_PROCESS
        invariant forall j :: 0 <= j < i ==> pcb[j] == TickOne(s.pcb[j])
        invariant forall j :: i <= j < MAX_PROCESS ==> pcb[j] == s.pcb[j]
      {
        assert SlotOk(s, i);
        var st := pcb[i].state;
        if st.Sleeping? || st.BlockedTimeout? {
          pcb[i] := pcb[i].(sleepTimeout := pcb[i].sleepTimeout - 1);
          if pcb[i].sleepTimeout == 0 {
            pcb[i] := pcb[i].(state := Ready);
          }
        }
      }
      assert pcb[..] == TickTimers(s).pcb;
    }

    /** The quantum is used up: another process may take over. */
    method Preempt() returns (choice: nat)
      requires Core(S())
      modifies this, pcb
      ensures IsChoice(Offered(old(S())), choice) && choice < MAX_PROCESS
      ensures S() == if choice == old(currentPid) then SetRounds(old(S()), choice, 0)
              else SwitchTo(Offered(old(S())), choice)
    {
      ghost var s := S();
      SetProcess(currentPid, pcb[currentPid].(rounds := 0));
      var previousState := pcb[currentPid].state;
      if !previousState.Blocked? && !previousState.BlockedTimeout? {
        SetStateOf(currentPid, Ready);
      }
      assert S() == Offered(s);
      OfferedKeepsCore(s);
      choice := SelectNextProcess();
      if choice == currentPid {
        SetStateOf(currentPid, previousState);
        assert S().pcb == SetRounds(s, choice, 0).pcb;
      } else {
        SwitchToProcess(choice);
      }
    }

    /** A tick, which may come at any time, also inside a call. */
    method Tick() returns (choice: nat)
      requires Core(S())
      modifies this, pcb
      ensures CanTick(old(S()), choice) && S() == TickAt(old(S()), choice)
      ensures old(Valid()) ==>
                Valid() && Enabled(old(S()), Event.Tick(choice)) && S() == Apply(old(S()), Event.Tick(choice))
      ensures old(pcb[currentPid].rounds < rrQuantum) ==>
                currentPid == old(currentPid) && pcb[currentPid].rounds == old(pcb[currentPid].rounds) + 1
    {
      ghost var s := S();
      TickAll();
      TimersKeepCore(s);
      if pcb[currentPid].rounds == rrQuantum {
        choice := Preempt();
      } else {
        choice := currentPid;
        SetProcess(currentPid, pcb[currentPid].(rounds := pcb[currentPid].rounds + 1));
      }
      if Inv(s) {
        TickOutside(s, choice);
        StepKeepsInv(s, Event.Tick(choice));
      }
    }

    /** Looks the child up by number and parent. */
    method FindChild(pid: nat) returns (found: bool)
      requires Valid() && currentPid != idlePid
      ensures found <==> IsLiveChild(S(), pid)
    {
      ghost var s := S();
      for i := 0 to MAX_PROCESS
        invariant forall j :: 0 <= j < i ==> !(pcb[j].ppid == currentPid && pcb[j].pid == pid)
      {
        assert SlotOk(s, i);
        if pcb[i].ppid == currentPid && pcb[i].pid == pid {
          return !(pcb[i].state.Killed? || pcb[i].state.Empty?);
        }
      }
      return false;
    }

    /** One round of the wait for a child: done if it has ended, else asleep until woken. */
    method AwaitTermination(pid: nat) returns (done: bool, choice: nat)
      requires Valid() && currentPid != idlePid
      modifies this, pcb
      ensures Valid() && (done <==> !IsLiveChild(old(S()), pid))
      ensures done ==> S() == old(S())
      ensures !done ==> Enabled(old(S()), Await(pid, choice)) && S() == Apply(old(S()), Await(pid, choice))
    {
      ghost var s := S();
      var found := FindChild(pid);
      if !found {
        return true, currentPid;
      }
      SetStateOf(currentPid, Waiting);
      awaited := awaited[currentPid := pid];
      WaitingKeepsCore(s, pid);
      assert S() == Middle(s, Await(pid, 0));
      Reschedule();
      done, choice := false, currentPid;
      StepKeepsInv(s, Await(pid, choice));
    }

    /** Wakes the process numbered `ppid` if it waits for a child. */
    method WakeParent(ppid: nat)
      requires Sized(S()) && (forall i :: 0 <= i < MAX_PROCESS ==> SlotOk(S(), i))
      requires NotWaiting(S(), idlePid) && ppid < MAX_PROCESS
      modifies pcb
      ensures S() == Wake(old(S()), ppid)
    {
      ghost var s := S();
      for i := 0 to MAX_PROCESS
        invariant S() == if ppid < i then Wake(s, ppid) else s
      {
        assert SlotOk(s, i);
        if pcb[i].pid == ppid && pcb[i].state.Waiting? {
          UnblockProcess(pcb[i].pid);
        }
      }
    }

    /** The process ends, its parent and the collector learn of it. */
    method EndCurrentProcess()
      requires Valid() && currentPid != idlePid
      modifies pcb
      ensures S() == Exited(old(S()))
    {
      ghost var s := S();
      assert SlotOk(s, s.current);
      SetStateOf(currentPid, Killed);
      KilledSlots(s);
      WakeParent(pcb[currentPid].ppid);
      if pcb[gcPid].state.Blocked? {
        UnblockProcess(gcPid);
      }
    }

    method KillCurrentProcess() returns (choice: nat)
      requires Valid() && currentPid != idlePid
      modifies this, pcb
      ensures Valid() && Enabled(old(S()), Exit(choice)) && S() == Apply(old(S()), Exit(choice))
    {
      ghost var s := S();
      EndCurrentProcess();
      ExitKeepsCore(s);
      assert NotRunning(S(), currentPid) && S().pcb[currentPid].state.Killed?;
      Reschedule();
      choice := currentPid;
      StepKeepsInv(s, Exit(choice));
    }

    /** Drops a process from its run queue. */
    method Dequeue(i: nat)
      requires Sized(S()) && i < MAX_PROCESS && IsPriority(pcb[i].priority) && pcb[i].pid == i
      modifies `runQueues
      ensures var p := pcb[i].priority - MIN_PRIORITY;
              runQueues == old(runQueues)[p := Removed(old(runQueues)[p], i)]
    {
      var p := pcb[i].priority - MIN_PRIORITY;
      var q := runQueues[p];
      for index := 0 to |q|
        invariant (forall j :: 0 <= j < index ==> q[j] != i) && runQueues == old(runQueues)
      {
        if q[index] == pcb[i].pid {
          runQueues := runQueues[p := q[..index] + q[index + 1..]];
          RemovedAt(q, i, index);
          return;
        }
      }
      RemovedAt(q, i, |q|);
    }

    /** What the collector does with one ended process. */
    method CollectProcess(i: nat)
      requires Valid() && Enabled(S(), Collect(i))
      modifies this, pcb
      ensures Valid() && S() == Apply(old(S()), Collect(i))
    {
      ghost var s := S();
      assert SlotOk(s, i);
      WakeParent(pcb[i].ppid);
      Dequeue(i);
      SetProcess(i, pcb[i].(pid := 0, ppid := 0));
      SetStateOf(i, Empty);
      assert S() == Collected(s, i);
      StepKeepsInv(s, Collect(i));
    }

    /** One slot of a pass. */
    method CollectNext(i: nat, ghost start: Sched, ghost es: seq<Event>) returns (ghost es': seq<Event>)
      requires Valid() && i < MAX_PROCESS && Collecting(start, es, S(), i)
      modifies this, pcb
      ensures Valid() && Collecting(start, es', S(), i + 1)
    {
      es' := es;
      if pcb[i].state.Killed? {
        ghost var mid := S();
        CollectProcess(i);
        es' := es + [Collect(i)];
        assert IsRun(start, es', S()) by { RunExtends(start, es, mid, Collect(i)); }
        assert ClearUpTo(S(), i + 1) by { CollectionClears(mid, i); }
      }
    }

    /** One pass of the collector leaves no ended process behind. */
    method CollectAll() returns (ghost es: seq<Event>)
      requires Valid()
      modifies this, pcb
      ensures Valid() && Collecting(old(S()), es, S(), MAX_PROCESS)
    {
      ghost var start := S();
      es := [];
      for i := 0 to MAX_PROCESS
        invariant Valid() && Collecting(start, es, S(), i)
      {
        es := CollectNext(i, start, es);
      }
    }

    method GetFreePid() returns (found: bool, pid: nat)
      requires Sized(S())
      modifies `nextPid
      ensures found ==> pid < MAX_PROCESS && IsFreePid(old(S()), pid) && nextPid == (pid + 1) % 128
      ensures !found ==> nextPid == old(nextPid) && forall i :: 0 <= i < MAX_PROCESS ==> !pcb[i].state.Empty?
    {
      ghost var s := S();
      if pcb[nextPid].state.Empty? {
        pid := nextPid;
        assert FreeAfter(s, pid, 0);
        nextPid := (nextPid + 1) % MAX_PROCESS;
        return true, pid;
      }
      found, pid := FindFreePid();
      if found {
        nextPid := (pid + 1) % MAX_PROCESS;
      }
    }

    /** The search behind a slot that is taken. */
    method FindFreePid() returns (found: bool, pid: nat)
      requires Sized(S()) && !pcb[nextPid].state.Empty?
      ensures found ==> pid < MAX_PROCESS && IsFreePid(S(), pid)
      ensures !found ==> forall i :: 0 <= i < MAX_PROCESS ==> !pcb[i].state.Empty?
    {
      ghost var s := S();
      pid := (nextPid + 1) % MAX_PROCESS;
      var i := 0;
      assert NoneEmptyUpTo(s, 0);
      while !pcb[pid].state.Empty? && i < MAX_PROCESS
        invariant 0 <= i <= MAX_PROCESS && pid == SlotFrom(s, i + 1) && NoneEmptyUpTo(s, i)
        decreases MAX_PROCESS - i
      {
        NextSlot(s, i);
        pid := (pid + 1) % MAX_PROCESS;
        i := i + 1;
      }
      if i == MAX_PROCESS {
        NoneEmpty(s);
        return false, 0;
      }
      FirstEmpty(s, i);
      found := true;
    }

    /** A fresh process, or failure when the table is full. */
    method NewProcess() returns (found: bool, pid: nat)
      requires Sized(S())
      modifies `nextPid, pcb
      ensures found ==> Enabled(old(S()), Create(pid)) && S() == Created(old(S()), pid)
      ensures found ==> IsLiveChild(S(), pid) && pcb[pid].priority == 3 && pcb[pid].state.New?
      ensures !found ==> S() == old(S()) && forall i :: 0 <= i < MAX_PROCESS ==> !pcb[i].state.Empty?
      ensures old(Valid()) ==> Valid()
    {
      ghost var s := S();
      found, pid := GetFreePid();
      if found {
        SetProcess(pid, pcb[pid].(pid := pid, ppid := currentPid, priority := DEFAULT_PRIORITY, state := New));
        if Inv(s) {
          StepKeepsInv(s, Create(pid));
        }
      }
    }

    method QueueProcess(pid: nat)
      requires Sized(S()) && pid < MAX_PROCESS && IsPriority(pcb[pid].priority)
      modifies `runQueues, pcb
      ensures S() == Enqueued(old(S()), pid) && pcb[pid].state.Ready?
      ensures var p := old(pcb[pid]).priority - 1;
              && |runQueues| == 4 && |runQueues[p]| == |old(runQueues)[p]| + 1
              && runQueues[p][|old(runQueues)[p]|] == pid && runQueues[p][..|old(runQueues)[p]|] == old(runQueues)[p]
      ensures old(Valid()) && old(pcb[pid].state.New?) ==> Valid() && S() == Apply(old(S()), Enqueue(pid))
    {
      ghost var s := S();
      SetStateOf(pid, Ready);
      var p := pcb[pid].priority - MIN_PRIORITY;
      runQueues := runQueues[p := runQueues[p] + [pid]];
      if Inv(s) && s.pcb[pid].state.New? {
        StepKeepsInv(s, Enqueue(pid));
      }
    }
  }
}
