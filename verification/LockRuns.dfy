/** A mutex or a semaphore in a running system: the calls that the processes make on it,
    the scheduler that puts waiting ones to sleep, and every other scheduler step. */
module LockRuns {
  import opened SchedulerModel
  import opened LockModel

  // ----- A mutex -----

  datatype MutexRun = MutexRun(m: Machine, s: System)

  /** A mutex with `v` permits: waiters sleep, and the permit is in one place. */
  ghost predicate MutexOk(r: MutexRun, v: nat)
  {
    MachineOk(r.m) && r.s.lock == r.m.lock && Good(r.s, v)
  }

  /** Only a holder unlocks. Nothing is asked of waiting processes: they do not run. */
  ghost predicate CanStep(r: MutexRun, mv: Move)
  {
    CanMove(r.m, mv) && (mv.Hand? ==> r.m.sched.current in r.s.holders)
  }

  /** The calls on the mutex that the move stands for, made by the current process. */
  function CallOf(m: Machine, mv: Move): seq<Call>
  {
    match mv
    case Acquire(_) => [Take(m.sched.current)]
    case Attempt => [Try(m.sched.current)]
    case Hand => [Leave(m.sched.current)]
    case Other(_) => []
  }

  ghost function MutexStep(r: MutexRun, mv: Move): MutexRun
    requires MachineOk(r.m) && CanMove(r.m, mv)
  {
    var calls := CallOf(r.m, mv);
    MutexRun(Moved(r.m, mv), if calls == [] then r.s else Step(r.s, calls[0]))
  }

  /** The current process runs, so it does not wait and may call. */
  lemma CurrentCanCall(r: MutexRun, mv: Move)
    requires MachineOk(r.m) && r.s.lock == r.m.lock && CanStep(r, mv) && !mv.Other?
    ensures CanCall(r.s, CallOf(r.m, mv)[0])
  {
    AwakeIsNotQueued(r.m);
  }

  lemma MutexStepKeepsOk(r: MutexRun, v: nat, mv: Move)
    requires MutexOk(r, v) && CanStep(r, mv)
    ensures MutexOk(MutexStep(r, mv), v)
  {
    MoveKeepsOk(r.m, mv);
    if !mv.Other? {
      CurrentCanCall(r, mv);
      StepKeepsGood(r.s, v, CallOf(r.m, mv)[0]);
      if mv.Hand? { FreeIsUp(r.s, v, r.m.sched.current); }
    }
  }

  /** An unlock by the current process, holder or not. */
  ghost function Unlocked(r: MutexRun): MutexRun
    requires MachineOk(r.m)
  {
    var s := Step(r.s, Leave(r.m.sched.current));
    MutexRun(Moved(r.m, Hand).(lock := s.lock), s)
  }

  lemma UnlockFrees(r: MutexRun)
    requires MachineOk(r.m) && r.s.lock == r.m.lock
    ensures Unlocked(r).m == Moved(r.m, Hand).(lock := Free(r.m.lock))
  {
  }

  /** The mutex started taken and is unlocked for the first time, or the caller holds it,
      or nobody does, or the holder itself waits first. */
  ghost predicate KeepsPermit(r: MutexRun, total: nat)
  {
    || total == 0 || r.m.sched.current in r.s.holders || r.s.lock.value == 1
    || (r.s.lock.queue != [] && r.s.lock.queue[0] in r.s.holders)
  }

  /** Exactly then the permit stays in one place. */
  lemma UnlockIsKnown(r: MutexRun, total: nat)
    requires MachineOk(r.m) && r.s.lock == r.m.lock && Good(r.s, total)
    ensures total <= 1 && (Good(Unlocked(r).s, 1) <==> KeepsPermit(r, total))
  {
    AwakeIsNotQueued(r.m);
    if total == 0 { FirstLeave(r.s, r.m.sched.current); } else { StrayLeave(r.s, r.m.sched.current); }
  }

  /** For a holder an unlock is the step that hands the mutex over. */
  lemma HolderUnlocks(r: MutexRun, v: nat)
    requires MutexOk(r, v) && r.m.sched.current in r.s.holders
    ensures CanStep(r, Hand) && Unlocked(r) == MutexStep(r, Hand)
  {
    AwakeIsNotQueued(r.m);
    FreeIsUp(r.s, v, r.m.sched.current);
  }

  ghost predicate IsMutexRun(r: MutexRun, mvs: seq<Move>, r': MutexRun)
    decreases |mvs|
  {
    if mvs == [] then r == r'
    else MachineOk(r.m) && CanStep(r, mvs[0]) && IsMutexRun(MutexStep(r, mvs[0]), mvs[1..], r')
  }

  lemma {:induction false} MutexRunKeepsOk(r: MutexRun, v: nat, mvs: seq<Move>, r': MutexRun)
    requires MutexOk(r, v) && IsMutexRun(r, mvs, r')
    ensures MutexOk(r', v)
    decreases |mvs|
  {
    if mvs != [] {
      MutexStepKeepsOk(r, v, mvs[0]);
      MutexRunKeepsOk(MutexStep(r, mvs[0]), v, mvs[1..], r');
    }
  }

  /** In every run of the system two processes never hold the mutex, and nobody waits
      for a free one. */
  lemma ExclusiveInRuns(r: MutexRun, v: nat, mvs: seq<Move>, r': MutexRun, p: nat, q: nat)
    requires MutexOk(r, v) && IsMutexRun(r, mvs, r') && p in r'.s.holders && q in r'.s.holders
    ensures p == q && r'.m.lock.value == 0
  {
    MutexRunKeepsOk(r, v, mvs, r');
    SoleMember(r'.s.holders, p);
  }

  /** The calls of a run. */
  ghost function CallsOf(r: MutexRun, mvs: seq<Move>, r': MutexRun): seq<Call>
    requires IsMutexRun(r, mvs, r')
    decreases |mvs|
  {
    if mvs == [] then [] else CallOf(r.m, mvs[0]) + CallsOf(MutexStep(r, mvs[0]), mvs[1..], r')
  }

  function Unlocks(mvs: seq<Move>): nat
  {
    if mvs == [] then 0 else (if mvs[0].Hand? then 1 else 0) + Unlocks(mvs[1..])
  }

  /** Every run of the system is a run of calls on the mutex. */
  lemma {:induction false} RunIsCallRun(r: MutexRun, v: nat, mvs: seq<Move>, r': MutexRun)
    requires MutexOk(r, v) && IsMutexRun(r, mvs, r')
    ensures IsCallRun(r.s, CallsOf(r, mvs, r'), r'.s) && Leaves(CallsOf(r, mvs, r')) == Unlocks(mvs)
    decreases |mvs|
  {
    if mvs != [] {
      var mv, t := mvs[0], MutexStep(r, mvs[0]);
      MutexStepKeepsOk(r, v, mv);
      RunIsCallRun(t, v, mvs[1..], r');
      var rest := CallsOf(t, mvs[1..], r');
      if mv.Other? {
        assert [] + rest == rest;
      } else {
        CurrentCanCall(r, mv);
        assert (CallOf(r.m, mv) + rest)[1..] == rest;
      }
    }
  }

  /** In every run of the system a process with `k` waiting before it is served by the
      `k + 1`-st unlock, and those before it are served first. */
  lemma ServedInRuns(r: MutexRun, v: nat, mvs: seq<Move>, r': MutexRun, k: nat)
    requires MutexOk(r, v) && IsMutexRun(r, mvs, r') && k < |r.m.lock.queue| && k < Unlocks(mvs)
    ensures |r.s.granted| + k < |r'.s.granted| && r'.s.granted[|r.s.granted| + k] == r.m.lock.queue[k]
  {
    RunIsCallRun(r, v, mvs, r');
    ServedInTurn(r.s, v, CallsOf(r, mvs, r'), r'.s, k);
  }

  // ----- A semaphore -----

  datatype SemRun = SemRun(m: Machine, c: Counter)

  /** A semaphore that started with `v` permits: waiters sleep and permits are conserved. */
  ghost predicate SemOk(r: SemRun, v: nat)
  {
    MachineOk(r.m) && r.c.lock == r.m.lock && Conserved(r.c, v)
  }

  ghost function SemStep(r: SemRun, mv: Move): SemRun
    requires MachineOk(r.m) && CanMove(r.m, mv)
  {
    SemRun(Moved(r.m, mv),
           match mv
           case Acquire(_) => UseStep(r.c, Wait(r.m.sched.current))
           case Attempt => UseStep(r.c, TryWait(r.m.sched.current))
           case Hand => UseStep(r.c, Post)
           case Other(_) => r.c)
  }

  lemma SemStepKeepsOk(r: SemRun, v: nat, mv: Move)
    requires SemOk(r, v) && CanMove(r.m, mv)
    ensures SemOk(SemStep(r, mv), v)
  {
    MoveKeepsOk(r.m, mv);
  }

  ghost predicate IsSemRun(r: SemRun, mvs: seq<Move>, r': SemRun)
    decreases |mvs|
  {
    if mvs == [] then r == r'
    else MachineOk(r.m) && CanMove(r.m, mvs[0]) && IsSemRun(SemStep(r, mvs[0]), mvs[1..], r')
  }

  /** In every run of the system permits are conserved, none lies idle while somebody
      waits, and waiters are served in order of arrival. */
  lemma {:induction false} ConservedInRuns(r: SemRun, v: nat, mvs: seq<Move>, r': SemRun)
    requires SemOk(r, v) && IsSemRun(r, mvs, r')
    ensures SemOk(r', v)
    decreases |mvs|
  {
    if mvs != [] {
      SemStepKeepsOk(r, v, mvs[0]);
      ConservedInRuns(SemStep(r, mvs[0]), v, mvs[1..], r');
    }
  }

  /** Several unlocks in a row. */
  ghost function Hands(r: SemRun, n: nat): SemRun
    requires MachineOk(r.m)
    decreases n
  {
    if n == 0 then r else (MoveKeepsOk(r.m, Hand); Hands(SemStep(r, Hand), n - 1))
  }

  /** They give as many permits. */
  lemma {:induction false} HandsAreOneRelease(r: SemRun, v: nat, n: nat)
    requires SemOk(r, v)
    ensures SemOk(Hands(r, n), v) && Hands(r, n).c == UseStep(r.c, Use.Release(n))
    decreases n
  {
    if n > 0 {
      SemStepKeepsOk(r, v, Hand);
      HandsAreOneRelease(SemStep(r, Hand), v, n - 1);
    }
  }

  /** They wake as many of the first waiters. */
  lemma {:induction false} HandsWake(r: SemRun, v: nat, n: nat, k: nat)
    requires SemOk(r, v) && k < n && k < |r.m.lock.queue|
    ensures CanRun(Hands(r, n).m.sched, r.m.lock.queue[k])
    decreases n
  {
    SemStepKeepsOk(r, v, Hand);
    HandMeans(r.m);
    if k == 0 {
      HandsKeepRunnable(SemStep(r, Hand), v, n - 1, r.m.lock.queue[0]);
    } else {
      HandsWake(SemStep(r, Hand), v, n - 1, k - 1);
    }
  }

  lemma {:induction false} HandsKeepRunnable(r: SemRun, v: nat, n: nat, i: nat)
    requires SemOk(r, v) && CanRun(r.m.sched, i)
    ensures CanRun(Hands(r, n).m.sched, i)
    decreases n
  {
    if n > 0 {
      SemStepKeepsOk(r, v, Hand);
      if r.m.lock.queue != [] { WaiterCanBeWoken(r.m); }
      HandsKeepRunnable(SemStep(r, Hand), v, n - 1, i);
    }
  }

  /** With nobody waiting they only count up. */
  lemma {:induction false} HandsOnEmptyQueue(r: SemRun, v: nat, n: nat)
    requires SemOk(r, v) && r.m.lock.queue == []
    ensures Hands(r, n).m == r.m.(lock := r.m.lock.(value := r.m.lock.value + n))
    decreases n
  {
    if n > 0 {
      SemStepKeepsOk(r, v, Hand);
      HandsOnEmptyQueue(SemStep(r, Hand), v, n - 1);
    }
  }

  /** `k` more unlocks lead from `r` to `goal`. */
  ghost predicate Reaches(r: SemRun, k: nat, goal: SemRun)
  {
    MachineOk(r.m) && Hands(r, k) == goal
  }

  lemma ReachesStep(r: SemRun, k: nat, goal: SemRun)
    requires Reaches(r, k, goal) && k > 0
    ensures Reaches(SemStep(r, Hand), k - 1, goal)
  {
    MoveKeepsOk(r.m, Hand);
  }
}
