/** Blocking locks over values: a counter, the queue of processes that wait for it,
    and the runs of calls that any number of processes make on it. */
module LockModel {
  import opened Basics
  import opened SchedulerModel

  datatype Lock = Lock(value: nat, queue: seq<nat>)

  /** Nobody waits while a permit is left. */
  predicate NoneIdle(l: Lock)
  {
    l.value > 0 ==> l.queue == []
  }

  /** Takes a permit, or waits for one. */
  function Down(l: Lock, p: nat): Lock
  {
    if l.value > 0 then l.(value := l.value - 1) else l.(queue := l.queue + [p])
  }

  /** Hands a permit to the longest waiting process, or puts it back. */
  function Up(l: Lock): Lock
  {
    if l.queue == [] then l.(value := l.value + 1) else l.(queue := l.queue[1..])
  }

  function Ups(l: Lock, n: nat): Lock
    decreases n
  {
    if n == 0 then l else Ups(Up(l), n - 1)
  }

  /** A mutex has one permit at most. */
  function Free(l: Lock): Lock
  {
    if l.queue == [] then l.(value := 1) else l.(queue := l.queue[1..])
  }

  lemma {:induction false} UpsOnEmptyQueue(l: Lock, n: nat)
    requires l.queue == []
    ensures Ups(l, n) == l.(value := l.value + n)
    decreases n
  {
    if n > 0 {
      UpsOnEmptyQueue(Up(l), n - 1);
    }
  }

  lemma {:induction false} UpsAdd(l: Lock, m: nat, n: nat)
    ensures Ups(Ups(l, m), n) == Ups(l, m + n)
    decreases m
  {
    if m > 0 {
      UpsAdd(Up(l), m - 1, n);
    }
  }

  /** Several permits at once wake as many waiting processes as there are permits. */
  lemma {:induction false} UpsWake(l: Lock, n: nat)
    ensures Ups(l, n) ==
            if n <= |l.queue| then l.(queue := l.queue[n..])
            else Lock(l.value + (n - |l.queue|), [])
    decreases n
  {
    if n > 0 && l.queue == [] {
      UpsOnEmptyQueue(l, n);
    } else if n > 0 {
      UpsWake(Up(l), n - 1);
      if n <= |l.queue| {
        assert l.queue[1..][n - 1..] == l.queue[n..];
      }
    }
  }

  // ----- A mutex and the processes that use it -----

  /** Who holds the mutex, and who has waited and been served so far. */
  datatype System = System(lock: Lock, holders: set<nat>, arrived: seq<nat>, granted: seq<nat>)

  datatype Call = Take(p: nat) | Try(p: nat) | Leave(p: nat)

  /** A waiting process makes no call; only a holder leaves. */
  predicate CanCall(s: System, c: Call)
  {
    c.p !in s.lock.queue && (c.Leave? ==> c.p in s.holders)
  }

  function Step(s: System, c: Call): System
  {
    match c
    case Take(p) =>
      if s.lock.value > 0 then s.(lock := Down(s.lock, p), holders := s.holders + {p})
      else s.(lock := Down(s.lock, p), arrived := s.arrived + [p])
    case Try(p) =>
      if s.lock.value > 0 then s.(lock := Down(s.lock, p), holders := s.holders + {p}) else s
    case Leave(p) =>
      if s.lock.queue == [] then s.(lock := Free(s.lock), holders := s.holders - {p})
      else s.(lock := Free(s.lock), holders := s.holders - {p} + {s.lock.queue[0]},
              granted := s.granted + [s.lock.queue[0]])
  }

  /** A mutex that starts with the value `v`: the permit is in one place, and those
      who waited were served in order. */
  ghost predicate Good(s: System, v: nat)
  {
    && v <= 1 && s.lock.value + |s.holders| == v && NoneIdle(s.lock)
    && Distinct(s.lock.queue) && s.arrived == s.granted + s.lock.queue
  }

  function Initial(v: nat): System
  {
    System(Lock(if v > 1 then 1 else v, []), {}, [], [])
  }

  lemma InitialIsGood(v: nat)
    ensures Good(Initial(v), if v > 1 then 1 else v)
  {
  }

  lemma SoleMember(s: set<nat>, p: nat)
    requires |s| <= 1 && p in s
    ensures s == {p}
  {
    assert |s - {p}| == |s| - 1;
  }

  /** Who holds the mutex after a call: a caller that found it free, the first waiter after an
      unlock, or nobody; and one that finds it taken waits last, unless it only tries. */
  lemma CallMeans(s: System, v: nat, c: Call)
    requires Good(s, v) && CanCall(s, c)
    ensures var t, q := Step(s, c), s.lock.queue;
            match c
            case Take(p) => if s.lock.value > 0 then t.holders == {p} && t.lock == Lock(0, [])
                            else t.holders == s.holders && t.lock == Lock(0, q + [p])
            case Try(p) => if s.lock.value > 0 then t.holders == {p} && t.lock == Lock(0, []) else t == s
            case Leave(p) => if q == [] then t.holders == {} && t.lock == Lock(1, [])
                             else t.holders == {q[0]} && t.lock == Lock(0, q[1..])
  {
    if c.Leave? { SoleMember(s.holders, c.p); } else if s.lock.value > 0 { assert s.holders == {}; }
  }

  lemma StepKeepsGood(s: System, v: nat, c: Call)
    requires Good(s, v) && CanCall(s, c)
    ensures Good(Step(s, c), v)
  {
    match c
    case Take(p) => DistinctCons(p, s.lock.queue);
    case Try(p) =>
    case Leave(p) =>
      SoleMember(s.holders, p);
      if s.lock.queue != [] {
        assert s.holders - {p} + {s.lock.queue[0]} == {s.lock.queue[0]};
      }
  }

  ghost predicate IsCallRun(s: System, cs: seq<Call>, s': System)
    decreases |cs|
  {
    if cs == [] then s == s' else CanCall(s, cs[0]) && IsCallRun(Step(s, cs[0]), cs[1..], s')
  }

  lemma {:induction false} CallRunKeepsGood(s: System, v: nat, cs: seq<Call>, s': System)
    requires Good(s, v) && IsCallRun(s, cs, s')
    ensures Good(s', v)
    decreases |cs|
  {
    if cs != [] {
      StepKeepsGood(s, v, cs[0]);
      CallRunKeepsGood(Step(s, cs[0]), v, cs[1..], s');
    }
  }

  /** However the calls of the processes interleave, two processes never hold the mutex. */
  lemma MutualExclusion(v: nat, cs: seq<Call>, s: System, p: nat, q: nat)
    requires IsCallRun(Initial(v), cs, s) && p in s.holders && q in s.holders
    ensures p == q && s.lock.value == 0
  {
    InitialIsGood(v);
    CallRunKeepsGood(Initial(v), if v > 1 then 1 else v, cs, s);
    SoleMember(s.holders, p);
  }

  function Leaves(cs: seq<Call>): nat
  {
    if cs == [] then 0 else (if cs[0].Leave? then 1 else 0) + Leaves(cs[1..])
  }

  lemma {:induction false} GrantsGrow(s: System, cs: seq<Call>, s': System)
    requires IsCallRun(s, cs, s')
    ensures s.granted <= s'.granted
    decreases |cs|
  {
    if cs != [] {
      GrantsGrow(Step(s, cs[0]), cs[1..], s');
    }
  }

  /** A process with `k` others before it holds the mutex after `k + 1` leaves, and
      the `k` before it are served in between. */
  lemma {:induction false} ServedInTurn(s: System, v: nat, cs: seq<Call>, s': System, k: nat)
    requires Good(s, v) && IsCallRun(s, cs, s') && k < |s.lock.queue| && k < Leaves(cs)
    ensures |s.granted| + k < |s'.granted| && s'.granted[|s.granted| + k] == s.lock.queue[k]
    decreases |cs|
  {
    var t := Step(s, cs[0]);
    StepKeepsGood(s, v, cs[0]);
    if !cs[0].Leave? {
      ServedInTurn(t, v, cs[1..], s', k);
    } else if k > 0 {
      ServedInTurn(t, v, cs[1..], s', k - 1);
    } else {
      GrantsGrow(t, cs[1..], s');
    }
  }

  /** Leaving hands the mutex over directly: nobody can slip in before the first waiter. */
  lemma LeaveHandsOver(s: System, v: nat, p: nat)
    requires Good(s, v) && CanCall(s, Leave(p)) && s.lock.queue != []
    ensures Step(s, Leave(p)).holders == {s.lock.queue[0]} && Step(s, Leave(p)).lock.value == 0
  {
    SoleMember(s.holders, p);
  }

  /** While only holders leave, a mutex is a semaphore with one permit. */
  lemma FreeIsUp(s: System, v: nat, p: nat)
    requires Good(s, v) && CanCall(s, Leave(p))
    ensures Free(s.lock) == Up(s.lock)
  {
    SoleMember(s.holders, p);
  }

  /** An unlock by any process keeps the permit in one place exactly if the process
      holds the mutex, or nobody does, or the holder itself is the first to wait. */
  lemma StrayLeave(s: System, p: nat)
    requires Good(s, 1) && p !in s.lock.queue
    ensures Good(Step(s, Leave(p)), 1)
            <==> p in s.holders || s.lock.value == 1 || (s.lock.queue != [] && s.lock.queue[0] in s.holders)
  {
    if p in s.holders {
      StepKeepsGood(s, 1, Leave(p));
    } else {
      assert s.holders - {p} == s.holders;
      if s.lock.queue != [] && s.lock.queue[0] in s.holders {
        assert s.holders + {s.lock.queue[0]} == s.holders;
      }
    }
  }

  /** The first unlock of a mutex that starts taken gives it its permit. */
  lemma FirstLeave(s: System, p: nat)
    requires Good(s, 0)
    ensures Good(Step(s, Leave(p)), 1)
  {
    assert s.holders == {} && s.holders - {p} == {};
    if s.lock.queue != [] {
      assert s.holders - {p} + {s.lock.queue[0]} == {s.lock.queue[0]};
    }
  }

  // ----- A semaphore and the processes that use it -----

  /** How many permits were taken and given so far. */
  datatype Counter = Counter(lock: Lock, taken: nat, given: nat, arrived: seq<nat>, granted: seq<nat>)

  datatype Use = Wait(p: nat) | TryWait(p: nat) | Post | Release(n: nat)

  function PostOnce(s: Counter): Counter
  {
    if s.lock.queue == [] then s.(lock := Up(s.lock), given := s.given + 1)
    else s.(lock := Up(s.lock), given := s.given + 1, taken := s.taken + 1, granted := s.granted + [s.lock.queue[0]])
  }

  function PostMany(s: Counter, n: nat): Counter
    decreases n
  {
    if n == 0 then s else PostMany(PostOnce(s), n - 1)
  }

  function UseStep(s: Counter, u: Use): Counter
  {
    match u
    case Wait(p) =>
      if s.lock.value > 0 then s.(lock := Down(s.lock, p), taken := s.taken + 1)
      else s.(lock := Down(s.lock, p), arrived := s.arrived + [p])
    case TryWait(p) =>
      if s.lock.value > 0 then s.(lock := Down(s.lock, p), taken := s.taken + 1) else s
    case Post => PostOnce(s)
    case Release(n) => PostMany(s, n)
  }

  /** What a call takes and gives: one permit if there is one, else the caller waits last unless
      it only tries; and one permit given, which the first waiter takes. */
  lemma UseMeans(s: Counter, u: Use)
    ensures var t, q := UseStep(s, u), s.lock.queue;
            && (u.Wait? || u.TryWait? ==>
                  if s.lock.value > 0 then t.taken == s.taken + 1 && t.lock == Lock(s.lock.value - 1, q)
                  else t.taken == s.taken && t.lock == Lock(0, if u.Wait? then q + [u.p] else q))
            && (u.Post? ==>
                  && t.given == s.given + 1
                  && if q == [] then t.taken == s.taken && t.lock == Lock(s.lock.value + 1, [])
                     else t.taken == s.taken + 1 && t.lock == Lock(s.lock.value, q[1..]))
  {
  }

  /** Permits neither appear nor vanish, none lies idle, and waiters are served in order. */
  predicate Conserved(s: Counter, v: nat)
  {
    && s.lock.value + s.taken == v + s.given && NoneIdle(s.lock) && s.arrived == s.granted + s.lock.queue
  }

  lemma {:induction false} PostManyConserves(s: Counter, v: nat, n: nat)
    requires Conserved(s, v)
    ensures Conserved(PostMany(s, n), v) && PostMany(s, n).lock == Ups(s.lock, n) && PostMany(s, n).given == s.given + n
    decreases n
  {
    if n > 0 {
      PostManyConserves(PostOnce(s), v, n - 1);
    }
  }

  ghost predicate IsUseRun(s: Counter, us: seq<Use>, s': Counter)
    decreases |us|
  {
    if us == [] then s == s' else IsUseRun(UseStep(s, us[0]), us[1..], s')
  }

  /** Permits are conserved over every interleaving of waits and posts. */
  lemma {:induction false} UseRunConserves(s: Counter, v: nat, us: seq<Use>, s': Counter)
    requires Conserved(s, v) && IsUseRun(s, us, s')
    ensures Conserved(s', v)
    decreases |us|
  {
    if us != [] {
      if us[0].Release? {
        PostManyConserves(s, v, us[0].n);
      }
      UseRunConserves(UseStep(s, us[0]), v, us[1..], s');
    }
  }

  // ----- Waiting and the scheduler -----

  /** Blocked, and left alone by everything but an unblocking. */
  ghost predicate Asleep(s: Sched, i: nat)
  {
    i < |s.pcb| && i != s.idle && s.pcb[i].state.Blocked?
  }

  ghost predicate Sleepers(s: Sched, q: seq<nat>)
  {
    forall i :: i in q ==> Asleep(s, i)
  }

  /** The steps that wake a blocked process: an unblocking of it, and, for the
      collector, the end of any process. */
  ghost predicate Wakes(s: Sched, e: Event, i: nat)
  {
    e == Unblock(i) || e == UnblockHint(i) || (e.Exit? && i == s.gc)
  }

  /** A choice is runnable, so a blocked process stays blocked through a switch. */
  lemma SwitchKeepsAsleep(s: Sched, c: nat, i: nat)
    requires IsChoice(s, c) && i < |s.pcb|
    ensures Asleep(SwitchTo(s, c), i) <==> Asleep(s, i)
  {
  }

  lemma MiddleKeepsAsleep(s: Sched, e: Event, i: nat)
    requires Inv(s) && Asleep(s, i) && !e.Exit?
    ensures Asleep(Middle(s, e), i) && |Middle(s, e).pcb| == |s.pcb|
  {
    assert RunsOnlyIf(s, i);
  }

  lemma TableKeepsAsleep(s: Sched, e: Event, i: nat)
    requires Inv(s) && Enabled(s, e) && Asleep(s, i) && (e.Create? || e.Enqueue? || e.Collect?)
    ensures Asleep(Apply(s, e), i)
  {
    assert SlotOk(s, e.pid);
  }

  lemma StopKeepsAsleep(s: Sched, e: Event, i: nat)
    requires Inv(s) && Enabled(s, e) && Asleep(s, i)
    requires e.Yield? || e.Block? || e.BlockFor? || e.Sleep? || e.Await?
    ensures Asleep(Apply(s, e), i)
  {
    MiddleKeepsAsleep(s, e, i);
    SwitchKeepsAsleep(Middle(s, e), Choice(e), i);
  }

  lemma ExitKeepsAsleep(s: Sched, c: nat, i: nat)
    requires Inv(s) && Enabled(s, Exit(c)) && Asleep(s, i)
    ensures Asleep(Apply(s, Exit(c)), i) <==> i != s.gc
  {
    assert RunsOnlyIf(s, i);
    SwitchKeepsAsleep(Exited(s), c, i);
  }

  lemma TickKeepsAsleep(s: Sched, c: nat, i: nat)
    requires Inv(s) && Enabled(s, Tick(c)) && Asleep(s, i)
    ensures Asleep(Apply(s, Tick(c)), i)
  {
    assert RunsOnlyIf(s, i);
    if Preempts(s) {
      SwitchKeepsAsleep(Middle(s, Tick(c)), c, i);
    }
  }

  /** Exactly these steps wake a blocked process. */
  lemma WakersAreKnown(s: Sched, e: Event, i: nat)
    requires Inv(s) && Enabled(s, e) && Asleep(s, i)
    ensures Asleep(Apply(s, e), i) <==> !Wakes(s, e, i)
  {
    if e.Tick? {
      TickKeepsAsleep(s, e.choice, i);
    } else if e.Exit? {
      ExitKeepsAsleep(s, e.choice, i);
    } else if e.Create? || e.Enqueue? || e.Collect? {
      TableKeepsAsleep(s, e, i);
    } else if !e.Unblock? && !e.UnblockHint? {
      StopKeepsAsleep(s, e, i);
    }
  }

  /** One lock in a running system: its own calls, and every other scheduler step. */
  datatype Machine = Machine(sched: Sched, lock: Lock)

  datatype Move = Acquire(choice: nat) | Attempt | Hand | Other(e: Event)

  /** Waiting processes are blocked, each waits once, and no permit lies idle. */
  ghost predicate MachineOk(m: Machine)
  {
    Inv(m.sched) && Distinct(m.lock.queue) && NoneIdle(m.lock) && Sleepers(m.sched, m.lock.queue)
  }

  /** Other steps leave the waiting processes alone. */
  ghost predicate CanMove(m: Machine, v: Move)
  {
    match v
    case Acquire(c) => m.lock.value == 0 ==> Enabled(m.sched, Block(c))
    case Attempt => true
    case Hand => true
    case Other(e) => Enabled(m.sched, e) && forall i :: i in m.lock.queue ==> !Wakes(m.sched, e, i)
  }

  /** The unblocking that an unlock makes meets its condition. */
  lemma WaiterCanBeWoken(m: Machine)
    requires MachineOk(m) && m.lock.queue != []
    ensures Enabled(m.sched, Unblock(m.lock.queue[0]))
  {
    assert m.lock.queue[0] in m.lock.queue;
  }

  ghost function Moved(m: Machine, v: Move): Machine
    requires MachineOk(m) && CanMove(m, v)
  {
    match v
    case Acquire(c) =>
      Machine(if m.lock.value > 0 then m.sched else Apply(m.sched, Block(c)), Down(m.lock, m.sched.current))
    case Attempt => if m.lock.value > 0 then m.(lock := Down(m.lock, m.sched.current)) else m
    case Hand =>
      Machine(if m.lock.queue == [] then m.sched
              else (WaiterCanBeWoken(m); Apply(m.sched, Unblock(m.lock.queue[0]))),
              Up(m.lock))
    case Other(e) => m.(sched := Apply(m.sched, e))
  }

  lemma OthersStayAsleep(s: Sched, e: Event, q: seq<nat>)
    requires Inv(s) && Enabled(s, e) && Sleepers(s, q) && forall i :: i in q ==> !Wakes(s, e, i)
    ensures Sleepers(Apply(s, e), q)
  {
    forall i | i in q ensures Asleep(Apply(s, e), i) { WakersAreKnown(s, e, i); }
  }

  lemma MoveKeepsOk(m: Machine, v: Move)
    requires MachineOk(m) && CanMove(m, v)
    ensures MachineOk(Moved(m, v))
  {
    match v
    case Acquire(c) =>
      if m.lock.value == 0 {
        StepKeepsInv(m.sched, Block(c));
        OthersStayAsleep(m.sched, Block(c), m.lock.queue);
        BlockedFallsAsleep(m.sched, c);
        AwakeIsNotQueued(m);
        DistinctCons(m.sched.current, m.lock.queue);
      }
    case Attempt =>
    case Hand =>
      if m.lock.queue != [] {
        WaiterCanBeWoken(m);
        StepKeepsInv(m.sched, Unblock(m.lock.queue[0]));
        OthersStayAsleep(m.sched, Unblock(m.lock.queue[0]), m.lock.queue[1..]);
      }
    case Other(e) =>
      StepKeepsInv(m.sched, e);
      OthersStayAsleep(m.sched, e, m.lock.queue);
  }

  lemma AwakeIsNotQueued(m: Machine)
    requires MachineOk(m)
    ensures m.sched.current !in m.lock.queue
  {
    assert RunsOnlyIf(m.sched, m.sched.current);
  }

  lemma BlockedFallsAsleep(s: Sched, c: nat)
    requires Inv(s) && Enabled(s, Block(c))
    ensures Asleep(Apply(s, Block(c)), s.current)
  {
  }

  /** A caller takes a permit and runs on, or waits behind the others, blocked, while another
      process runs. */
  lemma AcquireMeans(m: Machine, c: nat)
    requires MachineOk(m) && CanMove(m, Acquire(c))
    ensures var t, p := Moved(m, Acquire(c)), m.sched.current;
            if m.lock.value > 0 then t == Machine(m.sched, Lock(m.lock.value - 1, m.lock.queue))
            else t.lock == Lock(0, m.lock.queue + [p]) && Asleep(t.sched, p) && t.sched.current != p
  {
    if m.lock.value == 0 { BlockedFallsAsleep(m.sched, c); }
  }

  /** A try takes a permit exactly if there is one, and never waits. */
  lemma AttemptMeans(m: Machine)
    requires MachineOk(m)
    ensures var t := Moved(m, Attempt);
            && t.sched == m.sched && t.lock.queue == m.lock.queue
            && t.lock.value == if m.lock.value > 0 then m.lock.value - 1 else 0
  {
  }

  /** An unlock wakes the first waiter and gives it the permit, or puts the permit back. */
  lemma HandMeans(m: Machine)
    requires MachineOk(m)
    ensures var t, q := Moved(m, Hand), m.lock.queue;
            if q == [] then t == Machine(m.sched, Lock(m.lock.value + 1, []))
            else t.lock == Lock(m.lock.value, q[1..]) && CanRun(t.sched, q[0]) && t.sched.current == m.sched.current
  {
    if m.lock.queue != [] { WaiterCanBeWoken(m); }
  }

  lemma MiddleFallsAsleep(s: Sched, e: Event, i: nat)
    requires Core(s) && Asleep(Middle(s, e), i)
    ensures Asleep(s, i) || (e.Block? && s.current == i)
  {
  }

  /** Only its own call to block puts a process to sleep. */
  lemma FallsAsleepOnlyBy(s: Sched, e: Event, i: nat)
    requires Inv(s) && Enabled(s, e) && Asleep(Apply(s, e), i)
    ensures Asleep(s, i) || (e.Block? && s.current == i)
  {
    if e.Create? || e.Enqueue? || e.Collect? || e.Unblock? || e.UnblockHint? {
      assert SlotOk(s, e.pid);
    } else if !e.Tick? || Preempts(s) {
      assert Asleep(Middle(s, e), i) by { SwitchKeepsAsleep(Middle(s, e), Choice(e), i); }
      MiddleFallsAsleep(s, e, i);
    }
  }

  /** Process `p` blocks for another reason than the lock. */
  predicate BlocksElsewhere(m: Machine, v: Move, p: nat)
  {
    v.Other? && v.e.Block? && m.sched.current == p
  }

  ghost predicate WaitsIfAsleep(m: Machine, p: nat)
  {
    Asleep(m.sched, p) ==> p in m.lock.queue
  }

  lemma MoveForgetsNone(m: Machine, v: Move, p: nat)
    requires MachineOk(m) && CanMove(m, v) && WaitsIfAsleep(m, p) && !BlocksElsewhere(m, v, p)
    ensures WaitsIfAsleep(Moved(m, v), p)
  {
    match v
    case Acquire(c) =>
      AcquireMeans(m, c);
      if m.lock.value == 0 && Asleep(Moved(m, v).sched, p) { FallsAsleepOnlyBy(m.sched, Block(c), p); }
    case Attempt =>
    case Hand =>
      if m.lock.queue != [] {
        WaiterCanBeWoken(m);
        assert m.lock.queue == [m.lock.queue[0]] + m.lock.queue[1..];
        HandMeans(m);
      }
    case Other(e) =>
      if Asleep(Moved(m, v).sched, p) { FallsAsleepOnlyBy(m.sched, e, p); }
  }

  ghost predicate IsMachineRun(m: Machine, vs: seq<Move>, m': Machine)
    decreases |vs|
  {
    if vs == [] then m == m' else MachineOk(m) && CanMove(m, vs[0]) && IsMachineRun(Moved(m, vs[0]), vs[1..], m')
  }

  ghost predicate BlocksElsewhereIn(m: Machine, vs: seq<Move>, m': Machine, p: nat)
    requires IsMachineRun(m, vs, m')
    decreases |vs|
  {
    vs != [] && (BlocksElsewhere(m, vs[0], p) || BlocksElsewhereIn(Moved(m, vs[0]), vs[1..], m', p))
  }

  /** No wake-up is lost: in every run a process that blocks for nothing else is blocked
      exactly while it waits for the lock. */
  lemma {:induction false} BlockedExactlyInQueue(m: Machine, vs: seq<Move>, m': Machine, p: nat)
    requires MachineOk(m) && IsMachineRun(m, vs, m') && WaitsIfAsleep(m, p) && !BlocksElsewhereIn(m, vs, m', p)
    ensures Asleep(m'.sched, p) <==> p in m'.lock.queue
    decreases |vs|
  {
    if vs != [] {
      MoveKeepsOk(m, vs[0]);
      MoveForgetsNone(m, vs[0], p);
      BlockedExactlyInQueue(Moved(m, vs[0]), vs[1..], m', p);
    }
  }

  /** In every reachable state the processes in the queue are blocked, so that every
      unlock may wake the first of them. */
  lemma {:induction false} WaitersSleep(m: Machine, vs: seq<Move>, m': Machine)
    requires MachineOk(m) && IsMachineRun(m, vs, m')
    ensures MachineOk(m') && (m'.lock.queue != [] ==> Enabled(m'.sched, Unblock(m'.lock.queue[0])))
    decreases |vs|
  {
    if vs == [] {
      if m.lock.queue != [] { WaiterCanBeWoken(m); }
    } else {
      MoveKeepsOk(m, vs[0]);
      WaitersSleep(Moved(m, vs[0]), vs[1..], m');
    }
  }
}
