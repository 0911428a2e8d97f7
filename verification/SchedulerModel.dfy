/** The scheduler as a state machine: the process table, one run queue per priority,
    the running process, and the steps that scheduler calls and timer ticks take. */
module SchedulerModel {
  import opened Basics

  const MAX_PROCESS: nat := 128
  const MIN_PRIORITY: nat := 1
  const MAX_PRIORITY: nat := 4
  const DEFAULT_PRIORITY: nat := 3

  datatype State = Empty | New | Ready | Running | Blocked | Sleeping | Waiting | Killed | BlockedTimeout

  datatype Process = Process(pid: nat, ppid: nat, priority: nat, state: State, rounds: nat, sleepTimeout: nat)

  /** `awaited` records, for the proofs, which child each waiting process asked for. */
  datatype Sched = Sched(pcb: seq<Process>, queues: seq<seq<nat>>, current: nat, next: nat,
                         gc: nat, idle: nat, quantum: nat, awaited: map<nat, nat>)

  predicate Runnable(p: Process)
  {
    p.state.Ready? || p.state.Running?
  }

  /** Known to the run queues. */
  predicate Live(p: Process)
  {
    !p.state.Empty? && !p.state.New?
  }

  predicate Timed(st: State)
  {
    st.Sleeping? || st.BlockedTimeout?
  }

  predicate IsPriority(p: nat)
  {
    MIN_PRIORITY <= p <= MAX_PRIORITY
  }

  // ----- The invariant -----

  ghost predicate Sized(s: Sched)
  {
    |s.pcb| == MAX_PROCESS && |s.queues| == MAX_PRIORITY && s.current < MAX_PROCESS && s.next < MAX_PROCESS
    && s.gc < MAX_PROCESS && s.idle < MAX_PROCESS
  }

  function RunQueue(s: Sched, p: nat): seq<nat>
    requires |s.queues| == MAX_PRIORITY && IsPriority(p)
  {
    s.queues[p - MIN_PRIORITY]
  }

  /** The fields of the process in slot `i` agree with each other. */
  predicate FieldsOk(p: Process, i: nat)
  {
    && p.ppid < MAX_PROCESS
    && (p.state.Empty? ==> p.pid == 0 && p.ppid == 0)
    && (!p.state.Empty? ==> p.pid == i && IsPriority(p.priority))
    && (Timed(p.state) ==> p.sleepTimeout > 0)
  }

  /** One slot of the process table. */
  ghost predicate SlotOk(s: Sched, i: nat)
    requires Sized(s) && i < MAX_PROCESS
  {
    FieldsOk(s.pcb[i], i) && (Live(s.pcb[i]) ==> i in RunQueue(s, s.pcb[i].priority))
  }

  /** Entry `k` of the queue of priority `p` is a live process of that priority. */
  ghost predicate EntryOk(s: Sched, p: nat, k: nat)
    requires Sized(s) && IsPriority(p) && k < |RunQueue(s, p)|
  {
    var i := RunQueue(s, p)[k];
    i < MAX_PROCESS && Live(s.pcb[i]) && s.pcb[i].priority == p
  }

  ghost predicate QueueOk(s: Sched, p: nat)
    requires Sized(s) && IsPriority(p)
  {
    && Distinct(RunQueue(s, p))
    && forall k {:trigger EntryOk(s, p, k)} :: 0 <= k < |RunQueue(s, p)| ==> EntryOk(s, p, k)
  }

  /** The process `i` waits for is its own child, and has not ended. */
  ghost predicate WaitOk(s: Sched, i: nat)
    requires Sized(s) && i < MAX_PROCESS
  {
    s.pcb[i].state.Waiting? ==>
      && i in s.awaited && s.awaited[i] < MAX_PROCESS
      && var c := s.pcb[s.awaited[i]];
      && c.ppid == i && !c.state.Killed? && !c.state.Empty?
  }

  /** The process table and the run queues agree. */
  ghost predicate Table(s: Sched)
  {
    && Sized(s)
    && (forall i {:trigger SlotOk(s, i)} :: 0 <= i < MAX_PROCESS ==> SlotOk(s, i))
    && (forall p {:trigger QueueOk(s, p)} :: IsPriority(p) ==> QueueOk(s, p))
    && (forall i {:trigger WaitOk(s, i)} :: 0 <= i < MAX_PROCESS ==> WaitOk(s, i))
  }

  /** Slot `j` is as good in `s'`, and belongs to the same run queue. */
  ghost predicate SameRole(s: Sched, s': Sched, j: nat)
    requires Sized(s) && Sized(s') && j < MAX_PROCESS
  {
    && FieldsOk(s'.pcb[j], j) && (Live(s'.pcb[j]) <==> Live(s.pcb[j]))
    && (Live(s.pcb[j]) ==> s'.pcb[j].priority == s.pcb[j].priority)
  }

  /** A change that leaves the run queues and the role of every slot keeps the table. */
  lemma TableFrame(s: Sched, s': Sched)
    requires Table(s) && Sized(s') && s'.queues == s.queues
    requires forall j {:trigger SameRole(s, s', j)} :: 0 <= j < MAX_PROCESS ==> SameRole(s, s', j)
    requires forall w {:trigger WaitOk(s', w)} :: 0 <= w < MAX_PROCESS ==> WaitOk(s', w)
    ensures Table(s')
  {
    forall j {:trigger SlotOk(s', j)} | 0 <= j < MAX_PROCESS ensures SlotOk(s', j) {
      assert SlotOk(s, j) && SameRole(s, s', j);
    }
    forall p {:trigger QueueOk(s', p)} | IsPriority(p) ensures QueueOk(s', p) {
      assert QueueOk(s, p);
      forall k {:trigger EntryOk(s', p, k)} | 0 <= k < |RunQueue(s', p)| ensures EntryOk(s', p, k) {
        assert EntryOk(s, p, k) && SameRole(s, s', RunQueue(s, p)[k]);
      }
    }
  }

  /** What holds in the middle of a step too, before another process is chosen. */
  ghost predicate Core(s: Sched)
  {
    Table(s) && Runnable(s.pcb[s.idle]) && Live(s.pcb[s.current])
  }

  ghost predicate RunsOnlyIf(s: Sched, i: nat)
    requires Sized(s) && i < MAX_PROCESS
  {
    s.pcb[i].state.Running? <==> i == s.current
  }

  /** Exactly the current process is running. */
  ghost predicate OneRuns(s: Sched)
    requires Sized(s)
  {
    forall i {:trigger RunsOnlyIf(s, i)} :: 0 <= i < MAX_PROCESS ==> RunsOnlyIf(s, i)
  }

  ghost predicate NotRunning(s: Sched, i: nat)
    requires Sized(s) && i < MAX_PROCESS
  {
    !s.pcb[i].state.Running?
  }

  ghost predicate NoneRuns(s: Sched)
    requires Sized(s)
  {
    forall i {:trigger NotRunning(s, i)} :: 0 <= i < MAX_PROCESS ==> NotRunning(s, i)
  }

  ghost predicate Inv(s: Sched)
  {
    Core(s) && OneRuns(s)
  }

  // ----- Building blocks of the steps -----

  function SetState(s: Sched, i: nat, st: State): Sched
    requires i < |s.pcb|
  {
    s.(pcb := s.pcb[i := s.pcb[i].(state := st)])
  }

  function SwitchTo(s: Sched, i: nat): Sched
    requires i < |s.pcb|
  {
    SetState(s, i, Running).(current := i)
  }

  /** Nobody waits for `i`. */
  ghost predicate Unawaited(s: Sched, i: nat)
    requires Sized(s)
  {
    forall w {:trigger WaitOk(s, w)} ::
      0 <= w < MAX_PROCESS && WaitOk(s, w) && s.pcb[w].state.Waiting? ==> s.awaited[w] != i
  }

  /** A live process may move between live states under these conditions. */
  lemma SetStateKeepsCore(s: Sched, i: nat, st: State)
    requires Core(s) && i < MAX_PROCESS && Live(s.pcb[i]) && !st.Empty? && !st.New?
    requires i == s.idle ==> st.Ready? || st.Running?
    requires Timed(st) ==> s.pcb[i].sleepTimeout > 0
    requires st.Waiting? ==> WaitOk(SetState(s, i, st), i)
    requires st.Killed? ==> Unawaited(s, i)
    ensures Core(SetState(s, i, st))
  {
    var s' := SetState(s, i, st);
    forall j {:trigger SameRole(s, s', j)} | 0 <= j < MAX_PROCESS ensures SameRole(s, s', j) { assert SlotOk(s, j); }
    forall w {:trigger WaitOk(s', w)} | 0 <= w < MAX_PROCESS ensures WaitOk(s', w) {
      assert WaitOk(s, w);
    }
    TableFrame(s, s');
  }

  lemma SwitchKeepsInv(s: Sched, i: nat)
    requires Core(s) && NoneRuns(s) && i < MAX_PROCESS && Live(s.pcb[i])
    ensures Inv(SwitchTo(s, i))
  {
    SetStateKeepsCore(s, i, Running);
    var mid, s' := SetState(s, i, Running), SwitchTo(s, i);
    CurrentKeepsCore(mid, i);
    forall j {:trigger RunsOnlyIf(s', j)} | 0 <= j < MAX_PROCESS ensures RunsOnlyIf(s', j) { assert NotRunning(s, j); }
  }

  lemma CurrentKeepsCore(s: Sched, i: nat)
    requires Core(s) && i < MAX_PROCESS && Live(s.pcb[i])
    ensures Core(s.(current := i))
  {
    var s' := s.(current := i);
    forall j {:trigger SameRole(s, s', j)} | 0 <= j < MAX_PROCESS ensures SameRole(s, s', j) { assert SlotOk(s, j); }
    forall w {:trigger WaitOk(s', w)} | 0 <= w < MAX_PROCESS ensures WaitOk(s', w) { assert WaitOk(s, w); }
    TableFrame(s, s');
  }

  // ----- Selection -----

  /** Where a search of the queue `q` starts: behind `x`, or at the front without it. */
  function NextIndex(q: seq<nat>, x: nat): (n: nat)
    ensures q != [] ==> n < |q|
  {
    if q == [] then 0 else NextIndexFrom(q, x, 0)
  }

  function NextIndexFrom(q: seq<nat>, x: nat, k: nat): (n: nat)
    requires q != [] && k <= |q|
    ensures n < |q|
    ensures x !in q[k..] ==> n == 0
    ensures forall i :: k <= i < |q| && q[i] == x && x !in q[k..i] ==> n == (i + 1) % |q|
    decreases |q| - k
  {
    if k == |q| then 0 else if q[k] == x then (k + 1) % |q| else NextIndexFrom(q, x, k + 1)
  }

  /** Position `m` of the search that starts at `start` and wraps around. */
  function Wrapped(q: seq<nat>, start: nat, m: nat): nat
    requires q != []
  {
    q[(start + m) % |q|]
  }

  ghost predicate CanRun(s: Sched, i: nat)
  {
    i < |s.pcb| && Live(s.pcb[i]) && Runnable(s.pcb[i])
  }

  /** Process `i` is met after `m` others that cannot run. */
  ghost predicate FirstReady(s: Sched, q: seq<nat>, start: nat, m: nat, i: nat)
  {
    && m < |q| && Wrapped(q, start, m) == i && CanRun(s, i)
    && forall l :: 0 <= l < m ==> !CanRun(s, Wrapped(q, start, l))
  }

  ghost predicate NotAbove(s: Sched, j: nat, p: nat)
  {
    CanRun(s, j) ==> s.pcb[j].priority <= p
  }

  /** The process the selection picks: runnable, of the highest priority among the
      runnable, and first in its queue; the queue of the current priority is
      searched from behind the current process. */
  ghost predicate IsChoice(s: Sched, i: nat)
  {
    && Sized(s) && CanRun(s, i) && IsPriority(s.pcb[i].priority)
    && (forall j {:trigger NotAbove(s, j, s.pcb[i].priority)} ::
          0 <= j < MAX_PROCESS ==> NotAbove(s, j, s.pcb[i].priority))
    && exists m: nat :: FirstReady(s, RunQueue(s, s.pcb[i].priority), SearchStart(s, s.pcb[i].priority), m, i)
  }

  ghost function SearchStart(s: Sched, p: nat): nat
    requires Sized(s) && IsPriority(p)
  {
    if p == s.pcb[s.current].priority then NextIndex(RunQueue(s, p), s.current) else 0
  }

  /** There is at most one such process. */
  lemma ChoiceIsUnique(s: Sched, i: nat, j: nat)
    requires IsChoice(s, i) && IsChoice(s, j)
    ensures i == j
  {
    var p := s.pcb[i].priority;
    assert NotAbove(s, j, p) && NotAbove(s, i, s.pcb[j].priority);
    var q, start := RunQueue(s, p), SearchStart(s, p);
    var m: nat :| FirstReady(s, q, start, m, i);
    var n: nat :| FirstReady(s, q, start, n, j);
  }

  // ----- The steps -----

  datatype Event =
    | Create(pid: nat)
    | Enqueue(pid: nat)
    | Tick(choice: nat)
    | Yield(choice: nat)
    | Block(choice: nat)
    | BlockFor(ticks: nat, choice: nat)
    | Sleep(ticks: nat, choice: nat)
    | Await(child: nat, choice: nat)
    | Exit(choice: nat)
    | Unblock(pid: nat)
    | UnblockHint(pid: nat)
    | Collect(pid: nat)

  function TickOne(p: Process): Process
  {
    if Timed(p.state) && p.sleepTimeout > 0 then
      var q := p.(sleepTimeout := p.sleepTimeout - 1);
      if q.sleepTimeout == 0 then q.(state := Ready) else q
    else p
  }

  function TickTimers(s: Sched): (s': Sched)
    ensures s' == s.(pcb := s'.pcb) && |s'.pcb| == |s.pcb|
    ensures forall i :: 0 <= i < |s.pcb| ==> s'.pcb[i] == TickOne(s.pcb[i])
  {
    s.(pcb := seq(|s.pcb|, i requires 0 <= i < |s.pcb| => TickOne(s.pcb[i])))
  }

  function SetRounds(s: Sched, i: nat, r: nat): Sched
    requires i < |s.pcb|
  {
    s.(pcb := s.pcb[i := s.pcb[i].(rounds := r)])
  }

  function SetTimeout(s: Sched, i: nat, ticks: nat): Sched
    requires i < |s.pcb|
  {
    s.(pcb := s.pcb[i := s.pcb[i].(sleepTimeout := ticks)])
  }

  /** Wakes process `p` if it waits for a child. */
  function Wake(s: Sched, p: nat): Sched
  {
    if p < |s.pcb| && s.pcb[p].state.Waiting? then SetState(s, p, Ready) else s
  }

  function WakeCollector(s: Sched): Sched
    requires s.gc < |s.pcb|
  {
    if s.pcb[s.gc].state.Blocked? then SetState(s, s.gc, Ready) else s
  }

  function Preempted(s: Sched): Sched
    requires s.current < |s.pcb|
  {
    SetState(SetRounds(s, s.current, 0), s.current, Ready)
  }

  function Exited(s: Sched): Sched
    requires s.current < |s.pcb| && s.gc < |s.pcb|
  {
    WakeCollector(Wake(SetState(s, s.current, Killed), s.pcb[s.current].ppid))
  }

  function Removed(q: seq<nat>, x: nat): seq<nat>
  {
    if q == [] then [] else if q[0] == x then q[1..] else [q[0]] + Removed(q[1..], x)
  }

  /** The slot of an ended process is emptied and its queue entry dropped. */
  function Collected(s: Sched, i: nat): Sched
    requires Sized(s) && i < MAX_PROCESS && IsPriority(s.pcb[i].priority)
  {
    var p := s.pcb[i].priority - MIN_PRIORITY;
    var woken := Wake(s, s.pcb[i].ppid);
    woken.(queues := s.queues[p := Removed(s.queues[p], i)],
           pcb := woken.pcb[i := woken.pcb[i].(pid := 0, ppid := 0, state := Empty)])
  }

  function Created(s: Sched, i: nat): Sched
    requires i < |s.pcb|
  {
    s.(pcb := s.pcb[i := s.pcb[i].(pid := i, ppid := s.current, priority := DEFAULT_PRIORITY, state := New)],
       next := (i + 1) % MAX_PROCESS)
  }

  function Enqueued(s: Sched, i: nat): Sched
    requires Sized(s) && i < MAX_PROCESS && IsPriority(s.pcb[i].priority)
  {
    var p := s.pcb[i].priority - MIN_PRIORITY;
    SetState(s, i, Ready).(queues := s.queues[p := s.queues[p] + [i]])
  }

  /** Slot `i` is the first empty one met from `next` on, going round the table. */
  ghost predicate IsFreePid(s: Sched, i: nat)
    requires Sized(s)
  {
    exists k: nat :: k < MAX_PROCESS && FreeAfter(s, i, k)
  }

  function SlotFrom(s: Sched, k: nat): nat
  {
    (s.next + k) % MAX_PROCESS
  }

  ghost predicate FreeAfter(s: Sched, i: nat, k: nat)
    requires Sized(s)
  {
    && i == SlotFrom(s, k) && s.pcb[i].state.Empty?
    && forall l :: 0 <= l < k ==> !s.pcb[SlotFrom(s, l)].state.Empty?
  }

  predicate Preempts(s: Sched)
    requires s.current < |s.pcb|
  {
    s.pcb[s.current].rounds == s.quantum
  }

  /** The state in which the next process is chosen, for the steps that choose one. */
  function Middle(s: Sched, e: Event): Sched
    requires s.current < |s.pcb| && s.gc < |s.pcb|
  {
    match e
    case Tick(_) => Preempted(TickTimers(s))
    case Yield(_) => SetState(s, s.current, Ready)
    case Block(_) => SetState(s, s.current, Blocked)
    case BlockFor(t, _) => SetState(SetTimeout(s, s.current, t), s.current, BlockedTimeout)
    case Sleep(t, _) => SetState(SetTimeout(s, s.current, t), s.current, Sleeping)
    case Await(c, _) => SetState(s, s.current, Waiting).(awaited := s.awaited[s.current := c])
    case Exit(_) => Exited(s)
    case _ => s
  }

  /** What a tick puts to the selection once the quantum is used up: the current process is
      ready, unless it is blocked. */
  function Offered(s: Sched): Sched
    requires s.current < |s.pcb|
  {
    var t, st := SetRounds(s, s.current, 0), s.pcb[s.current].state;
    if st.Blocked? || st.BlockedTimeout? then t else SetState(t, s.current, Ready)
  }

  ghost predicate CanTick(s: Sched, c: nat)
  {
    Sized(s) && (Preempts(s) ==> IsChoice(Offered(TickTimers(s)), c))
  }

  /** A tick in any state, also in the middle of a call. If the selection picks the current
      process again, it gets its state back. */
  ghost function TickAt(s: Sched, c: nat): Sched
    requires CanTick(s, c)
  {
    var t := TickTimers(s);
    if !Preempts(s) then SetRounds(t, s.current, s.pcb[s.current].rounds + 1)
    else if c == s.current then SetRounds(t, s.current, 0)
    else SwitchTo(Offered(t), c)
  }

  /** What `reschedule` does with its choice: a switch to the current process is none. */
  function Rescheduled(s: Sched, c: nat): Sched
    requires c < |s.pcb|
  {
    if c == s.current then s else SwitchTo(s, c)
  }

  /** When a step can be taken. The idle task only yields; a choice is the one the
      selection makes; a child that is waited for exists and has not ended. */
  ghost predicate Enabled(s: Sched, e: Event)
  {
    && Sized(s)
    && match e
       case Create(i) => i < MAX_PROCESS && IsFreePid(s, i)
       case Enqueue(i) => i < MAX_PROCESS && s.pcb[i].state.New?
       case Tick(c) => Preempts(s) ==> IsChoice(Middle(s, e), c)
       case Unblock(i) =>
         && i < MAX_PROCESS && i != s.idle
         && (s.pcb[i].state.Blocked? || s.pcb[i].state.BlockedTimeout? || s.pcb[i].state.Waiting?)
       case UnblockHint(i) => i < MAX_PROCESS && i != s.idle && Live(s.pcb[i]) && !s.pcb[i].state.Killed?
       case Collect(i) => i < MAX_PROCESS && s.pcb[i].state.Killed?
       case _ => Stops(s, e) && IsChoice(Middle(s, e), Choice(e))
  }

  /** The current process may make a call that gives up the processor. */
  predicate Stops(s: Sched, e: Event)
    requires s.current < |s.pcb|
  {
    match e
    case Yield(_) => true
    case Block(_) => s.current != s.idle
    case BlockFor(t, _) => s.current != s.idle && t > 0
    case Sleep(t, _) => s.current != s.idle && t > 0
    case Await(i, _) => s.current != s.idle && IsLiveChild(s, i)
    case Exit(_) => s.current != s.idle
    case _ => false
  }

  predicate IsLiveChild(s: Sched, i: nat)
    requires s.current < |s.pcb|
  {
    i < |s.pcb| && s.pcb[i].pid == i && s.pcb[i].ppid == s.current && !s.pcb[i].state.Killed? && !s.pcb[i].state.Empty?
  }

  function Choice(e: Event): nat
  {
    match e
    case Tick(c) => c
    case Yield(c) => c
    case Block(c) => c
    case BlockFor(_, c) => c
    case Sleep(_, c) => c
    case Await(_, c) => c
    case Exit(c) => c
    case _ => 0
  }

  /** The effect of a step. */
  ghost function Apply(s: Sched, e: Event): Sched
    requires Core(s) && Enabled(s, e)
  {
    match e
    case Create(i) => Created(s, i)
    case Enqueue(i) => assert SlotOk(s, i); Enqueued(s, i)
    case Tick(c) =>
      if Preempts(s) then SwitchTo(Middle(s, e), c)
      else SetRounds(TickTimers(s), s.current, s.pcb[s.current].rounds + 1)
    case Unblock(i) => SetState(s, i, Ready)
    case UnblockHint(i) => if s.pcb[i].state.Running? then s else SetState(s, i, Ready)
    case Collect(i) => assert SlotOk(s, i); Collected(s, i)
    case _ => SwitchTo(Middle(s, e), Choice(e))
  }

  // ----- Every step keeps the invariant -----

  /** Nothing but rounds and timeouts of live timers may differ. */
  lemma PcbFrame(s: Sched, s': Sched)
    requires Core(s) && s' == s.(pcb := s'.pcb) && |s'.pcb| == MAX_PROCESS
    requires forall i :: 0 <= i < MAX_PROCESS ==>
               && s'.pcb[i] == s.pcb[i].(rounds := s'.pcb[i].rounds, sleepTimeout := s'.pcb[i].sleepTimeout,
                 state := s'.pcb[i].state)
               && (s'.pcb[i].state == s.pcb[i].state || (Timed(s.pcb[i].state) && s'.pcb[i].state.Ready?))
               && (Timed(s'.pcb[i].state) ==> s'.pcb[i].sleepTimeout > 0)
    ensures Core(s')
    ensures NoneRuns(s) ==> NoneRuns(s')
    ensures OneRuns(s) ==> OneRuns(s')
  {
    forall j {:trigger SameRole(s, s', j)} | 0 <= j < MAX_PROCESS ensures SameRole(s, s', j) { assert SlotOk(s, j); }
    forall w {:trigger WaitOk(s', w)} | 0 <= w < MAX_PROCESS ensures WaitOk(s', w) { assert WaitOk(s, w); }
    TableFrame(s, s');
    if NoneRuns(s) {
      forall i {:trigger NotRunning(s', i)} | 0 <= i < MAX_PROCESS
        ensures NotRunning(s', i)
      {
        assert NotRunning(s, i);
      }
    }
    if OneRuns(s) {
      forall i {:trigger RunsOnlyIf(s', i)} | 0 <= i < MAX_PROCESS
        ensures RunsOnlyIf(s', i)
      {
        assert RunsOnlyIf(s, i);
      }
    }
  }

  lemma TimersKeepInv(s: Sched)
    requires Inv(s)
    ensures Inv(TickTimers(s)) && TickTimers(s).pcb[s.current] == s.pcb[s.current]
  {
    var s' := TickTimers(s);
    forall i | 0 <= i < MAX_PROCESS
      ensures Timed(s'.pcb[i].state) ==> s'.pcb[i].sleepTimeout > 0
    {
      assert SlotOk(s, i);
    }
    assert RunsOnlyIf(s, s.current);
    PcbFrame(s, s');
  }

  /** Putting the current process into another state leaves nobody running. */
  lemma StoppedNoneRuns(s: Sched, st: State)
    requires Sized(s) && OneRuns(s) && !st.Running?
    ensures NoneRuns(SetState(s, s.current, st))
  {
    var s' := SetState(s, s.current, st);
    forall i {:trigger NotRunning(s', i)} | 0 <= i < MAX_PROCESS ensures NotRunning(s', i) { assert RunsOnlyIf(s, i); }
  }

  lemma StopKeepsCore(s: Sched, st: State)
    requires Inv(s)
    requires st.Ready? || (s.current != s.idle && (st.Blocked? || (Timed(st) && s.pcb[s.current].sleepTimeout > 0)))
    ensures Core(SetState(s, s.current, st)) && NoneRuns(SetState(s, s.current, st))
  {
    SetStateKeepsCore(s, s.current, st);
    StoppedNoneRuns(s, st);
  }

  lemma TimeoutKeepsInv(s: Sched, ticks: nat)
    requires Inv(s) && ticks > 0
    ensures Inv(SetTimeout(s, s.current, ticks))
  {
    var s' := SetTimeout(s, s.current, ticks);
    forall i | 0 <= i < MAX_PROCESS
      ensures Timed(s'.pcb[i].state) ==> s'.pcb[i].sleepTimeout > 0
    {
      assert SlotOk(s, i);
    }
    PcbFrame(s, s');
  }

  lemma RoundsKeepInv(s: Sched, r: nat)
    requires Inv(s)
    ensures Inv(SetRounds(s, s.current, r))
  {
    var s' := SetRounds(s, s.current, r);
    forall i | 0 <= i < MAX_PROCESS
      ensures Timed(s'.pcb[i].state) ==> s'.pcb[i].sleepTimeout > 0
    {
      assert SlotOk(s, i);
    }
    PcbFrame(s, s');
  }

  lemma WaitingKeepsCore(s: Sched, c: nat)
    requires Inv(s) && s.current != s.idle && IsLiveChild(s, c)
    ensures Core(Middle(s, Await(c, 0))) && NoneRuns(Middle(s, Await(c, 0)))
  {
    var mid := s.(awaited := s.awaited[s.current := c]);
    AwaitedKeepsInv(s, c);
    SetStateKeepsCore(mid, s.current, Waiting);
    StoppedNoneRuns(mid, Waiting);
    assert Middle(s, Await(c, 0)) == SetState(mid, s.current, Waiting);
  }

  /** The record for a process that does not wait is free to change. */
  lemma AwaitedKeepsInv(s: Sched, c: nat)
    requires Inv(s)
    ensures Inv(s.(awaited := s.awaited[s.current := c]))
  {
    var s' := s.(awaited := s.awaited[s.current := c]);
    forall j {:trigger SameRole(s, s', j)} | 0 <= j < MAX_PROCESS ensures SameRole(s, s', j) { assert SlotOk(s, j); }
    forall w {:trigger WaitOk(s', w)} | 0 <= w < MAX_PROCESS ensures WaitOk(s', w) {
      assert WaitOk(s, w) && RunsOnlyIf(s, s.current);
    }
    TableFrame(s, s');
    forall i {:trigger RunsOnlyIf(s', i)} | 0 <= i < MAX_PROCESS ensures RunsOnlyIf(s', i) { assert RunsOnlyIf(s, i); }
  }

  lemma ReadyKeepsInv(s: Sched, i: nat)
    requires Inv(s) && i < MAX_PROCESS && Live(s.pcb[i]) && !s.pcb[i].state.Running?
    ensures Inv(SetState(s, i, Ready))
  {
    var s' := SetState(s, i, Ready);
    SetStateKeepsCore(s, i, Ready);
    forall j {:trigger RunsOnlyIf(s', j)} | 0 <= j < MAX_PROCESS ensures RunsOnlyIf(s', j) { assert RunsOnlyIf(s, j); }
  }

  /** A process that is in no run queue must not be given a live state. */
  lemma LiveNeedsQueue(s: Sched, i: nat, st: State)
    requires Table(s) && i < MAX_PROCESS && !Live(s.pcb[i]) && !st.Empty? && !st.New?
    ensures !Table(SetState(s, i, st))
  {
    var s', p := SetState(s, i, st), s.pcb[i].priority;
    if IsPriority(p) {
      assert QueueOk(s, p);
      QueuedAreLive(s, p);
    }
    assert !SlotOk(s', i);
  }

  /** No process that has ended is given another state. */
  ghost predicate EndedStay(s: Sched, s': Sched)
  {
    |s.pcb| == |s'.pcb| && forall i :: 0 <= i < |s.pcb| && s.pcb[i].state.Killed? ==> s'.pcb[i].state.Killed?
  }

  /** Making a process ready, as a hint does, keeps the invariant and revives nobody
      exactly if the process is in a run queue and has not ended. */
  lemma HintIsSafe(s: Sched, i: nat)
    requires Inv(s) && i < MAX_PROCESS && !s.pcb[i].state.Running?
    ensures Inv(SetState(s, i, Ready)) <==> Live(s.pcb[i])
    ensures Inv(SetState(s, i, Ready)) && EndedStay(s, SetState(s, i, Ready)) <==>
            Live(s.pcb[i]) && !s.pcb[i].state.Killed?
  {
    if Live(s.pcb[i]) { ReadyKeepsInv(s, i); } else { LiveNeedsQueue(s, i, Ready); }
  }

  /** A hint to a process that has ended makes it run again. */
  lemma HintCanRevive(s: Sched, i: nat)
    requires Inv(s) && i < MAX_PROCESS && s.pcb[i].state.Killed?
    ensures Inv(SetState(s, i, Ready)) && CanRun(SetState(s, i, Ready), i)
  {
    assert RunsOnlyIf(s, s.current);
    ReadyKeepsInv(s, i);
  }

  /** Blocking a process other than the current one is safe under the same condition. */
  lemma BlockingAnother(s: Sched, i: nat)
    requires Inv(s) && i < MAX_PROCESS && i != s.current && i != s.idle
    ensures Inv(SetState(s, i, Blocked)) <==> Live(s.pcb[i])
    ensures Inv(SetState(s, i, Blocked)) && EndedStay(s, SetState(s, i, Blocked)) <==>
            Live(s.pcb[i]) && !s.pcb[i].state.Killed?
  {
    var s' := SetState(s, i, Blocked);
    if Live(s.pcb[i]) {
      SetStateKeepsCore(s, i, Blocked);
      forall j {:trigger RunsOnlyIf(s', j)} | 0 <= j < MAX_PROCESS
        ensures RunsOnlyIf(s', j)
      {
        assert RunsOnlyIf(s, j);
      }
    } else {
      LiveNeedsQueue(s, i, Blocked);
    }
  }

  lemma WakeKeepsInv(s: Sched, p: nat)
    requires Inv(s)
    ensures Inv(Wake(s, p)) && Wake(s, p) == s.(pcb := Wake(s, p).pcb)
  {
    if p < MAX_PROCESS && s.pcb[p].state.Waiting? { ReadyKeepsInv(s, p); }
  }

  lemma WakeCollectorKeepsCore(s: Sched)
    requires Core(s) && NoneRuns(s)
    ensures Core(WakeCollector(s)) && NoneRuns(WakeCollector(s))
  {
    if s.pcb[s.gc].state.Blocked? {
      SetStateKeepsCore(s, s.gc, Ready);
      var s' := SetState(s, s.gc, Ready);
      forall i {:trigger NotRunning(s', i)} | 0 <= i < MAX_PROCESS
        ensures NotRunning(s', i)
      {
        assert NotRunning(s, i);
      }
    }
  }

  /** Once its parent is woken, nobody waits for the exiting process. */
  lemma ExitKeepsCore(s: Sched)
    requires Inv(s) && s.current != s.idle
    ensures Core(Exited(s)) && NoneRuns(Exited(s))
  {
    var p := s.pcb[s.current].ppid;
    assert RunsOnlyIf(s, s.current);
    var woken := Wake(s, p);
    WakeKeepsInv(s, p);
    assert Unawaited(woken, s.current) by {
      forall w {:trigger WaitOk(woken, w)} | 0 <= w < MAX_PROCESS && WaitOk(woken, w) && woken.pcb[w].state.Waiting?
        ensures woken.awaited[w] != s.current
      {
        assert WaitOk(s, w);
      }
    }
    SetStateKeepsCore(woken, s.current, Killed);
    StoppedNoneRuns(woken, Killed);
    var killed := SetState(s, s.current, Killed);
    assert Wake(killed, p).pcb == SetState(woken, s.current, Killed).pcb;
    assert Wake(killed, p) == SetState(woken, s.current, Killed);
    WakeCollectorKeepsCore(Wake(killed, p));
  }

  lemma {:induction false} RemovedMembers(q: seq<nat>, x: nat)
    requires Distinct(q)
    ensures Distinct(Removed(q, x)) && forall y :: y in Removed(q, x) <==> y in q && y != x
  {
    if q != [] {
      RemovedMembers(q[1..], x);
      assert q == [q[0]] + q[1..] && q[0] !in q[1..];
      DistinctCons(q[0], Removed(q[1..], x));
    }
  }

  /** Dropping the first occurrence, and only it. */
  lemma {:induction false} RemovedAt(q: seq<nat>, x: nat, k: nat)
    requires k <= |q| && (forall j :: 0 <= j < k ==> q[j] != x) && (k < |q| ==> q[k] == x)
    ensures Removed(q, x) == if k < |q| then q[..k] + q[k + 1..] else q
  {
    if k > 0 {
      var t := q[1..];
      RemovedAt(t, x, k - 1);
      if k < |q| {
        assert [q[0]] + (t[..k - 1] + t[k..]) == q[..k] + q[k + 1..];
      } else {
        assert [q[0]] + t == q;
      }
    }
  }

  lemma DistinctCons(x: nat, q: seq<nat>)
    requires Distinct(q) && x !in q
    ensures Distinct([x] + q) && Distinct(q + [x])
  {
  }

  lemma CreationKeepsTable(s: Sched, i: nat)
    requires Table(s) && i < MAX_PROCESS && s.pcb[i].state.Empty?
    ensures Table(Created(s, i))
  {
    var s' := Created(s, i);
    forall j {:trigger SameRole(s, s', j)} | 0 <= j < MAX_PROCESS ensures SameRole(s, s', j) { assert SlotOk(s, j); }
    forall w {:trigger WaitOk(s', w)} | 0 <= w < MAX_PROCESS ensures WaitOk(s', w) { assert WaitOk(s, w); }
    TableFrame(s, s');
  }

  lemma QueuedAreLive(s: Sched, p: nat)
    requires Sized(s) && IsPriority(p) && QueueOk(s, p)
    ensures forall i :: i in RunQueue(s, p) ==> i < MAX_PROCESS && Live(s.pcb[i]) && s.pcb[i].priority == p
  {
    forall i | i in RunQueue(s, p) ensures i < MAX_PROCESS && Live(s.pcb[i]) && s.pcb[i].priority == p {
      var k :| 0 <= k < |RunQueue(s, p)| && RunQueue(s, p)[k] == i;
      assert EntryOk(s, p, k);
    }
  }

  lemma EnqueueKeepsTable(s: Sched, i: nat)
    requires Table(s) && i < MAX_PROCESS && s.pcb[i].state.New? && SlotOk(s, i)
    ensures Table(Enqueued(s, i))
  {
    var s' := Enqueued(s, i);
    forall j {:trigger SlotOk(s', j)} | 0 <= j < MAX_PROCESS ensures SlotOk(s', j) { assert SlotOk(s, j); }
    forall p {:trigger QueueOk(s', p)} | IsPriority(p) ensures QueueOk(s', p) {
      assert QueueOk(s, p);
      QueuedAreLive(s, p);
      DistinctCons(i, RunQueue(s, p));
      forall k {:trigger EntryOk(s', p, k)} | 0 <= k < |RunQueue(s', p)| ensures EntryOk(s', p, k) {
        assert k < |RunQueue(s, p)| ==> EntryOk(s, p, k);
      }
    }
    forall w {:trigger WaitOk(s', w)} | 0 <= w < MAX_PROCESS ensures WaitOk(s', w) { assert WaitOk(s, w); }
  }

  /** A process that is not queued yet, and not waited for, may be given another priority and parent. */
  lemma RoleKeepsTable(s: Sched, i: nat, priority: nat, ppid: nat)
    requires Table(s) && i < MAX_PROCESS && s.pcb[i].state.New? && IsPriority(priority) && ppid < MAX_PROCESS
    requires Unawaited(s, i)
    ensures Table(s.(pcb := s.pcb[i := s.pcb[i].(priority := priority, ppid := ppid)]))
  {
    var s' := s.(pcb := s.pcb[i := s.pcb[i].(priority := priority, ppid := ppid)]);
    forall j {:trigger SameRole(s, s', j)} | 0 <= j < MAX_PROCESS ensures SameRole(s, s', j) { assert SlotOk(s, j); }
    forall w {:trigger WaitOk(s', w)} | 0 <= w < MAX_PROCESS ensures WaitOk(s', w) { assert WaitOk(s, w); }
    TableFrame(s, s');
  }

  /** Changes to a slot that was not running and does not run keep the running process. */
  lemma SlotKeepsOneRuns(s: Sched, s': Sched, i: nat)
    requires Sized(s) && Sized(s') && OneRuns(s) && i < MAX_PROCESS && s'.current == s.current
    requires !s.pcb[i].state.Running? && !s'.pcb[i].state.Running? && s'.pcb == s.pcb[i := s'.pcb[i]]
    ensures OneRuns(s')
  {
    forall j {:trigger RunsOnlyIf(s', j)} | 0 <= j < MAX_PROCESS ensures RunsOnlyIf(s', j) { assert RunsOnlyIf(s, j); }
  }

  lemma CollectionKeepsInv(s: Sched, i: nat)
    requires Inv(s) && i < MAX_PROCESS && s.pcb[i].state.Killed? && SlotOk(s, i)
    ensures Inv(Collected(s, i))
  {
    var woken := Wake(s, s.pcb[i].ppid);
    WakeKeepsInv(s, s.pcb[i].ppid);
    CleaningKeepsInv(woken, i);
    var p := s.pcb[i].priority - MIN_PRIORITY;
    assert Collected(s, i) == Cleaned(woken, i);
  }

  ghost function Cleaned(s: Sched, i: nat): Sched
    requires Sized(s) && i < MAX_PROCESS && IsPriority(s.pcb[i].priority)
  {
    var p := s.pcb[i].priority - MIN_PRIORITY;
    s.(queues := s.queues[p := Removed(s.queues[p], i)],
       pcb := s.pcb[i := s.pcb[i].(pid := 0, ppid := 0, state := Empty)])
  }

  lemma CleaningKeepsInv(s: Sched, i: nat)
    requires Inv(s) && i < MAX_PROCESS && s.pcb[i].state.Killed? && IsPriority(s.pcb[i].priority)
    ensures Inv(Cleaned(s, i))
  {
    var s', mine := Cleaned(s, i), s.pcb[i].priority;
    assert QueueOk(s, mine) && RunsOnlyIf(s, s.current);
    RemovedMembers(RunQueue(s, mine), i);
    forall j {:trigger SlotOk(s', j)} | 0 <= j < MAX_PROCESS ensures SlotOk(s', j) { assert SlotOk(s, j); }
    forall p {:trigger QueueOk(s', p)} | IsPriority(p) ensures QueueOk(s', p) {
      assert QueueOk(s, p);
      forall k {:trigger EntryOk(s', p, k)} | 0 <= k < |RunQueue(s', p)| ensures EntryOk(s', p, k) {
        CleanedEntry(s, i, p, k);
      }
    }
    forall w {:trigger WaitOk(s', w)} | 0 <= w < MAX_PROCESS ensures WaitOk(s', w) { assert WaitOk(s, w); }
    forall j {:trigger RunsOnlyIf(s', j)} | 0 <= j < MAX_PROCESS ensures RunsOnlyIf(s', j) { assert RunsOnlyIf(s, j); }
  }

  lemma CleanedEntry(s: Sched, i: nat, p: nat, k: nat)
    requires Core(s) && i < MAX_PROCESS && IsPriority(s.pcb[i].priority) && IsPriority(p)
    requires Live(s.pcb[i]) && k < |RunQueue(Cleaned(s, i), p)| && QueueOk(s, p)
    ensures EntryOk(Cleaned(s, i), p, k)
  {
    var q, q' := RunQueue(s, p), RunQueue(Cleaned(s, i), p);
    RemovedMembers(q, i);
    assert q'[k] in q';
    var l :| 0 <= l < |q| && q[l] == q'[k];
    assert EntryOk(s, p, l);
  }

  lemma TickKeepsInv(s: Sched, c: nat)
    requires Inv(s) && Enabled(s, Tick(c))
    ensures Inv(Apply(s, Tick(c)))
  {
    var t := TickTimers(s);
    TimersKeepInv(s);
    if Preempts(s) {
      RoundsKeepInv(t, 0);
      StopKeepsCore(SetRounds(t, t.current, 0), Ready);
      SwitchKeepsInv(Middle(s, Tick(c)), c);
    } else {
      RoundsKeepInv(t, s.pcb[s.current].rounds + 1);
    }
  }

  /** Outside calls it is the step of the scheduler. */
  lemma TickOutside(s: Sched, c: nat)
    requires Inv(s)
    ensures CanTick(s, c) <==> Enabled(s, Tick(c))
    ensures CanTick(s, c) ==> TickAt(s, c) == Apply(s, Tick(c))
  {
    assert RunsOnlyIf(s, s.current);
    assert TickTimers(s).pcb[s.current] == s.pcb[s.current];
    assert Offered(TickTimers(s)) == Preempted(TickTimers(s));
    if CanTick(s, c) && Preempts(s) && c == s.current {
      assert TickAt(s, c).pcb == Apply(s, Tick(c)).pcb;
    }
  }

  lemma OfferedKeepsCore(s: Sched)
    requires Core(s)
    ensures Core(Offered(s))
  {
    var t := SetRounds(s, s.current, 0);
    forall i | 0 <= i < MAX_PROCESS ensures Timed(t.pcb[i].state) ==> t.pcb[i].sleepTimeout > 0 { assert SlotOk(s, i); }
    PcbFrame(s, t);
    SetStateKeepsCore(t, s.current, Ready);
  }

  lemma TimersKeepCore(s: Sched)
    requires Core(s)
    ensures Core(TickTimers(s))
  {
    var t := TickTimers(s);
    forall i | 0 <= i < MAX_PROCESS ensures Timed(t.pcb[i].state) ==> t.pcb[i].sleepTimeout > 0 { assert SlotOk(s, i); }
    PcbFrame(s, t);
  }

  lemma TableStepKeepsInv(s: Sched, e: Event)
    requires Inv(s) && Enabled(s, e) && (e.Create? || e.Enqueue? || e.Collect?)
    ensures Inv(Apply(s, e))
  {
    var i := e.pid;
    assert SlotOk(s, i);
    if e.Create? {
      CreationKeepsTable(s, i);
      SlotKeepsOneRuns(s, Created(s, i), i);
    } else if e.Enqueue? {
      EnqueueKeepsTable(s, i);
      SlotKeepsOneRuns(s, Enqueued(s, i), i);
    } else {
      CollectionKeepsInv(s, i);
    }
  }

  /** In the middle of a step that stops the current process nobody runs. */
  lemma MiddleKeepsCore(s: Sched, e: Event)
    requires Inv(s) && Stops(s, e)
    ensures Core(Middle(s, e)) && NoneRuns(Middle(s, e))
  {
    match e
    case Yield(_) => StopKeepsCore(s, Ready);
    case Block(_) => StopKeepsCore(s, Blocked);
    case BlockFor(t, _) =>
      TimeoutKeepsInv(s, t);
      StopKeepsCore(SetTimeout(s, s.current, t), BlockedTimeout);
    case Sleep(t, _) =>
      TimeoutKeepsInv(s, t);
      StopKeepsCore(SetTimeout(s, s.current, t), Sleeping);
    case Await(i, _) => WaitingKeepsCore(s, i);
    case Exit(_) => ExitKeepsCore(s);
  }

  /** Every step leads from a good state to a good state. */
  lemma StepKeepsInv(s: Sched, e: Event)
    requires Inv(s) && Enabled(s, e)
    ensures Inv(Apply(s, e))
  {
    if e.Tick? {
      TickKeepsInv(s, e.choice);
    } else if e.Create? || e.Enqueue? || e.Collect? {
      TableStepKeepsInv(s, e);
    } else if e.Unblock? || e.UnblockHint? {
      if !s.pcb[e.pid].state.Running? { ReadyKeepsInv(s, e.pid); }
    } else {
      MiddleKeepsCore(s, e);
      SwitchKeepsInv(Middle(s, e), Choice(e));
    }
  }

  // ----- Runs -----

  /** `s'` is reached from `s` by the steps `es`. */
  ghost predicate IsRun(s: Sched, es: seq<Event>, s': Sched)
    decreases |es|
  {
    if es == [] then s == s'
    else Core(s) && Enabled(s, es[0]) && IsRun(Apply(s, es[0]), es[1..], s')
  }

  /** Every state of every run is good. */
  lemma {:induction false} RunKeepsInv(s: Sched, es: seq<Event>, s': Sched)
    requires Inv(s) && IsRun(s, es, s')
    ensures Inv(s')
    decreases |es|
  {
    if es != [] {
      StepKeepsInv(s, es[0]);
      RunKeepsInv(Apply(s, es[0]), es[1..], s');
    }
  }

  lemma {:induction false} RunExtends(s: Sched, es: seq<Event>, mid: Sched, e: Event)
    requires IsRun(s, es, mid) && Core(mid) && Enabled(mid, e)
    ensures IsRun(s, es + [e], Apply(mid, e))
    decreases |es|
  {
    if es != [] {
      RunExtends(Apply(s, es[0]), es[1..], mid, e);
      assert (es + [e])[1..] == es[1..] + [e];
    }
  }

  /** In every reachable state the child a process waits for is still its own and
      has not ended, so its end will wake the process. */
  lemma NoLostWakeUp(s: Sched, es: seq<Event>, s': Sched, w: nat)
    requires Inv(s) && IsRun(s, es, s') && w < MAX_PROCESS && Sized(s') && s'.pcb[w].state.Waiting?
    ensures w in s'.awaited && s'.awaited[w] < MAX_PROCESS
    ensures var c := s'.pcb[s'.awaited[w]]; c.pid == s'.awaited[w] && c.ppid == w && !c.state.Killed? && !c.state.Empty?
  {
    RunKeepsInv(s, es, s');
    assert WaitOk(s', w);
    assert SlotOk(s', s'.awaited[w]);
  }

  /** The step that ends a process makes a parent that waits for it runnable. */
  lemma ExitWakesParent(s: Sched, choice: nat)
    requires Inv(s) && Enabled(s, Exit(choice)) && s.pcb[s.current].ppid < MAX_PROCESS
    requires s.pcb[s.pcb[s.current].ppid].state.Waiting?
    ensures Runnable(Apply(s, Exit(choice)).pcb[s.pcb[s.current].ppid])
    ensures Apply(s, Exit(choice)).pcb[s.current].state.Killed?
  {
    assert RunsOnlyIf(s, s.current);
  }

  // ----- Bounded waiting -----

  /** Process `g` stands `d` places behind the start of the search. */
  ghost predicate StandsBehind(q: seq<nat>, x: nat, g: nat, d: nat)
  {
    d < |q| && Wrapped(q, NextIndex(q, x), d) == g
  }

  lemma IndexBehind(q: seq<nat>, x: nat, k: nat)
    requires Distinct(q) && k < |q| && q[k] == x
    ensures NextIndex(q, x) == (k + 1) % |q|
  {
    assert x !in q[0..k];
  }

  /** A selection at the level of `g` picks `g`, or leaves fewer places before it. */
  lemma SelectionApproaches(s: Sched, q: seq<nat>, p: nat, g: nat, d: nat, i: nat)
    requires Sized(s) && IsPriority(p) && RunQueue(s, p) == q && Distinct(q)
    requires i < MAX_PROCESS && s.pcb[s.current].priority == p && s.pcb[i].priority == p
    requires CanRun(s, g) && StandsBehind(q, s.current, g, d) && IsChoice(s, i)
    ensures i == g || exists d' :: 0 <= d' < d && StandsBehind(q, i, g, d')
  {
    var start, n := NextIndex(q, s.current), |q|;
    var m: nat :| FirstReady(s, q, start, m, i);
    assert m <= d;
    if m < d {
      assert StandsBehind(q, i, g, d - m - 1) by {
        IndexBehind(q, i, (start + m) % n);
        WrapStep(start, m, d, n);
      }
    }
  }

  lemma WrapStep(start: nat, m: nat, d: nat, n: nat)
    requires start < n && m < d < n
    ensures (((start + m) % n + 1) % n + (d - m - 1)) % n == (start + d) % n
  {
    Wrap(start + m, n);
    Wrap(start + d, n);
    var a := (start + m) % n + 1;
    Wrap(a, n);
    Wrap(a % n + (d - m - 1), n);
  }

  lemma Wrap(x: nat, n: nat)
    requires n > 0 && x < 2 * n
    ensures x % n == if x < n then x else x - n
  {
    if x >= n { assert x % n == (x - n) % n; }
  }

  lemma StandsSomewhere(q: seq<nat>, x: nat, g: nat) returns (d: nat)
    requires g in q
    ensures StandsBehind(q, x, g, d)
  {
    d := WrappedTo(q, NextIndex(q, x), g);
  }

  lemma WrappedTo(q: seq<nat>, start: nat, g: nat) returns (d: nat)
    requires g in q && start < |q|
    ensures d < |q| && Wrapped(q, start, d) == g
  {
    var k :| 0 <= k < |q| && q[k] == g;
    d := if k >= start then k - start else k + |q| - start;
    Wrap(start + d, |q|);
  }
}
