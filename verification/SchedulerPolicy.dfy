/** What the scheduler does with its processes: how long one runs, who comes next, in which
    order those of a level are taken, and how long a child can be waited for. */
module SchedulerPolicy {
  import opened Basics
  import opened SchedulerModel
  import opened SchedulerRuns

  // ----- The quantum -----

  /** A tick before the quantum is used up counts and leaves the process running. The one
      after it starts the count again. */
  lemma TickCounts(s: Sched, c: nat)
    requires Inv(s) && Enabled(s, Tick(c))
    ensures var t, i := Apply(s, Tick(c)), s.current;
            && |t.pcb| == MAX_PROCESS && t.quantum == s.quantum
            && (s.pcb[i].rounds != s.quantum ==> t.current == i && t.pcb[i].rounds == s.pcb[i].rounds + 1)
            && (s.pcb[i].rounds == s.quantum ==> t.pcb[i].rounds == 0)
  {
  }

  /** Another process that can run and is at least as important as the current one. */
  ghost predicate Rival(s: Sched, g: nat)
    requires s.current < |s.pcb|
  {
    g != s.current && CanRun(s, g) && s.pcb[g].priority >= s.pcb[s.current].priority
  }

  /** The tick after the quantum takes the processor from the current process exactly if,
      with the timers counted, it has a rival. */
  lemma PreemptedExactly(s: Sched, c: nat)
    requires Inv(s) && Enabled(s, Tick(c)) && s.pcb[s.current].rounds == s.quantum
    ensures Apply(s, Tick(c)).current != s.current <==> exists g :: Rival(TickTimers(s), g)
  {
    var t, m := TickTimers(s), Middle(s, Tick(c));
    assert RunsOnlyIf(s, s.current);
    if c != s.current {
      assert NotAbove(m, s.current, m.pcb[c].priority);
      assert Rival(t, c);
    } else if exists g :: Rival(t, g) {
      var g :| Rival(t, g);
      RivalComesFirst(s, m, g);
    }
  }

  /** A rival is met before the current process. */
  lemma RivalComesFirst(s: Sched, m: Sched, g: nat)
    requires Core(s) && m == s.(pcb := m.pcb) && |m.pcb| == MAX_PROCESS && Rival(m, g) && Live(s.pcb[g])
    requires m.pcb[s.current].priority == s.pcb[s.current].priority && m.pcb[g].priority == s.pcb[g].priority
    ensures !IsChoice(m, s.current)
  {
    var x, p := s.current, s.pcb[s.current].priority;
    if IsChoice(m, x) {
      assert s.pcb[g].priority == p by { assert NotAbove(m, g, p); }
      assert IsPriority(p) && g in RunQueue(s, p) by { assert SlotOk(s, g); }
      assert Distinct(RunQueue(s, p)) by { assert QueueOk(s, p); }
      ChosenAgain(m, g);
    }
  }

  lemma ChosenAgain(s: Sched, g: nat)
    requires IsChoice(s, s.current) && s.current < |s.pcb| && g != s.current
    requires var q := RunQueue(s, s.pcb[s.current].priority); Distinct(q) && g in q
    ensures !CanRun(s, g)
  {
    var q := RunQueue(s, s.pcb[s.current].priority);
    var m: nat :| FirstReady(s, q, NextIndex(q, s.current), m, s.current);
    OthersComeFirst(s, q, s.current, g, m);
  }

  /** The search from behind a process meets every other one before it. */
  lemma OthersComeFirst(s: Sched, q: seq<nat>, x: nat, g: nat, m: nat)
    requires Distinct(q) && g in q && g != x && FirstReady(s, q, NextIndex(q, x), m, x)
    ensures !CanRun(s, g)
  {
    var d := StandsSomewhere(q, x, g);
    CurrentComesLast(q, x, m);
  }

  lemma CurrentComesLast(q: seq<nat>, x: nat, m: nat)
    requires Distinct(q) && m < |q| && Wrapped(q, NextIndex(q, x), m) == x
    ensures m == |q| - 1
  {
    var k, n := (NextIndex(q, x) + m) % |q|, |q|;
    IndexBehind(q, x, k);
    Wrap(k + 1, n);
    Wrap((k + 1) % n + m, n);
  }

  /** A call by which the current process gives up the processor. */
  predicate GivesUp(e: Event)
  {
    e.Yield? || e.Block? || e.BlockFor? || e.Sleep? || e.Await? || e.Exit?
  }

  /** Over every run in which the current process gives nothing up, it runs on until its
      quantum is used up. */
  lemma {:induction false} QuantumLasts(s: Sched, es: seq<Event>, s': Sched)
    requires Inv(s) && IsRun(s, es, s') && forall k :: 0 <= k < |es| ==> !GivesUp(es[k])
    requires s.pcb[s.current].rounds + Ticks(es) <= s.quantum
    ensures Inv(s') && s'.current == s.current && s'.quantum == s.quantum
    ensures s'.pcb[s.current].rounds == s.pcb[s.current].rounds + Ticks(es)
    decreases |es|
  {
    if es != [] {
      var t := Apply(s, es[0]);
      assert t.current == s.current && t.quantum == s.quantum && Inv(t) by { StepKeepsInv(s, es[0]); }
      assert t.pcb[s.current].rounds == s.pcb[s.current].rounds + (if es[0].Tick? then 1 else 0) by {
        StepCounts(s, es[0]);
      }
      QuantumLasts(t, es[1..], s');
    }
  }

  /** And at the next tick it is replaced exactly if it has a rival. */
  lemma QuantumEnds(s: Sched, es: seq<Event>, s': Sched, c: nat)
    requires Inv(s) && IsRun(s, es, s') && forall k :: 0 <= k < |es| ==> !GivesUp(es[k])
    requires s.pcb[s.current].rounds + Ticks(es) == s.quantum && Sized(s') && Enabled(s', Tick(c))
    ensures Core(s') && s'.current == s.current
    ensures Apply(s', Tick(c)).current != s.current <==> exists g :: Rival(TickTimers(s'), g)
  {
    QuantumLasts(s, es, s');
    PreemptedExactly(s', c);
  }

  // ----- Priorities -----

  /** Whenever a process is chosen, none that can run is more important. */
  lemma HighestRuns(s: Sched, e: Event, j: nat)
    requires Inv(s) && Enabled(s, e)
    requires GivesUp(e) || (e.Tick? && s.pcb[s.current].rounds == s.quantum)
    requires CanRun(Apply(s, e), j)
    ensures var t := Apply(s, e); t.current < |t.pcb| && t.pcb[j].priority <= t.pcb[t.current].priority
  {
    var m, c := Middle(s, e), Choice(e);
    assert IsChoice(m, c);
    assert NotAbove(m, j, m.pcb[c].priority);
  }

  // ----- Order within a level -----

  /** `x` stands before `y` in the queue of priority `p`. */
  ghost predicate Before(s: Sched, p: nat, x: nat, y: nat)
  {
    |s.queues| == MAX_PRIORITY && IsPriority(p) && Precedes(RunQueue(s, p), x, y)
  }

  ghost predicate Precedes(q: seq<nat>, x: nat, y: nat)
  {
    exists a, b :: 0 <= a < b < |q| && q[a] == x && q[b] == y
  }

  /** A process is queued behind all of its level, and the other levels stay. */
  lemma QueuedLast(s: Sched, i: nat)
    requires Inv(s) && Enabled(s, Enqueue(i))
    ensures var t, p := Apply(s, Enqueue(i)), s.pcb[i].priority;
            && IsPriority(p) && Sized(t) && t.pcb[i].state.Ready?
            && |RunQueue(t, p)| == |RunQueue(s, p)| + 1 && RunQueue(s, p) <= RunQueue(t, p)
            && RunQueue(t, p)[|RunQueue(s, p)|] == i
            && (forall x :: x in RunQueue(s, p) ==> Before(t, p, x, i))
            && (forall r :: IsPriority(r) && r != p ==> RunQueue(t, r) == RunQueue(s, r))
  {
    assert SlotOk(s, i);
    var t, p := Apply(s, Enqueue(i)), s.pcb[i].priority;
    var q := RunQueue(s, p);
    forall x | x in q ensures Before(t, p, x, i) {
      var a :| 0 <= a < |q| && q[a] == x;
      assert RunQueue(t, p)[a] == x && RunQueue(t, p)[|q|] == i;
    }
  }

  /** At a level other than the current one, a process is not chosen while one that stands
      before it can run. */
  lemma EarlierFirst(s: Sched, p: nat, x: nat, y: nat)
    requires Sized(s) && y < MAX_PROCESS && s.pcb[y].priority == p && s.pcb[s.current].priority != p
    requires Before(s, p, x, y) && Distinct(RunQueue(s, p)) && CanRun(s, x)
    ensures !IsChoice(s, y)
  {
    if IsChoice(s, y) {
      var m: nat :| FirstReady(s, RunQueue(s, p), 0, m, y);
      NoneBeforeFirst(s, RunQueue(s, p), x, y, m);
    }
  }

  lemma FromFront(q: seq<nat>, m: nat)
    requires m < |q|
    ensures Wrapped(q, 0, m) == q[m]
  {
    Wrap(m, |q|);
  }

  lemma NoneBeforeFirst(s: Sched, q: seq<nat>, x: nat, y: nat, m: nat)
    requires Distinct(q) && Precedes(q, x, y) && FirstReady(s, q, 0, m, y)
    ensures !CanRun(s, x)
  {
    var a, b :| 0 <= a < b < |q| && q[a] == x && q[b] == y;
    FromFront(q, m);
    FromFront(q, a);
    if a < m { assert !CanRun(s, Wrapped(q, 0, a)); }
  }

  lemma {:induction false} RemovalKeepsOrder(q: seq<nat>, z: nat, x: nat, y: nat)
    requires Precedes(q, x, y) && z != x && z != y
    ensures Precedes(Removed(q, z), x, y)
  {
    var a, b :| 0 <= a < b < |q| && q[a] == x && q[b] == y;
    if q[0] == z {
      assert Removed(q, z)[a - 1] == x && Removed(q, z)[b - 1] == y;
    } else if a == 0 {
      RemovalKeepsMember(q[1..], z, y, b - 1);
      var k :| 0 <= k < |Removed(q[1..], z)| && Removed(q[1..], z)[k] == y;
      assert Removed(q, z)[0] == x && Removed(q, z)[k + 1] == y;
    } else {
      assert Precedes(q[1..], x, y) by { assert q[1..][a - 1] == x && q[1..][b - 1] == y; }
      RemovalKeepsOrder(q[1..], z, x, y);
      var k, l :| 0 <= k < l < |Removed(q[1..], z)| && Removed(q[1..], z)[k] == x && Removed(q[1..], z)[l] == y;
      assert Removed(q, z)[k + 1] == x && Removed(q, z)[l + 1] == y;
    }
  }

  lemma {:induction false} RemovalKeepsMember(q: seq<nat>, z: nat, y: nat, b: nat)
    requires b < |q| && q[b] == y && z != y
    ensures y in Removed(q, z)
  {
    if q[0] == z {
      assert q[1..][b - 1] == y;
    } else if b > 0 {
      RemovalKeepsMember(q[1..], z, y, b - 1);
    }
  }

  lemma StepKeepsOrder(s: Sched, e: Event, p: nat, x: nat, y: nat)
    requires Inv(s) && Enabled(s, e) && Before(s, p, x, y) && e != Collect(x) && e != Collect(y)
    ensures Before(Apply(s, e), p, x, y)
  {
    var q := RunQueue(s, p);
    if e.Enqueue? {
      assert SlotOk(s, e.pid);
      var a, b :| 0 <= a < b < |q| && q[a] == x && q[b] == y;
      assert q <= RunQueue(Apply(s, e), p);
      assert RunQueue(Apply(s, e), p)[a] == x && RunQueue(Apply(s, e), p)[b] == y;
    } else if e.Collect? {
      assert SlotOk(s, e.pid);
      RemovalKeepsOrder(q, e.pid, x, y);
    } else {
      assert Apply(s, e).queues == s.queues;
    }
  }

  lemma {:induction false} RunKeepsOrder(s: Sched, es: seq<Event>, s': Sched, p: nat, x: nat, y: nat)
    requires Inv(s) && IsRun(s, es, s') && Before(s, p, x, y) && Collect(x) !in es && Collect(y) !in es
    ensures Inv(s') && Before(s', p, x, y)
    decreases |es|
  {
    if es != [] {
      StepKeepsInv(s, es[0]);
      StepKeepsOrder(s, es[0], p, x, y);
      RunKeepsOrder(Apply(s, es[0]), es[1..], s', p, x, y);
    }
  }

  /** First queued, first chosen: from when `y` is queued behind `x`, and while neither is
      collected, no step from another level chooses `y` when `x` can run. */
  lemma FirstQueuedFirst(s: Sched, es: seq<Event>, s': Sched, e: Event, p: nat, x: nat, y: nat)
    requires Inv(s) && Enabled(s, Enqueue(y)) && s.pcb[y].priority == p && IsPriority(p) && x in RunQueue(s, p)
    requires IsRun(Apply(s, Enqueue(y)), es, s') && Collect(x) !in es && Collect(y) !in es
    requires Sized(s') && s'.pcb[s'.current].priority != p && CanRun(s', x)
    requires Enabled(s', e) && (GivesUp(e) || (e.Tick? && s'.pcb[s'.current].rounds == s'.quantum))
    ensures Core(s') && Apply(s', e).current != y
  {
    QueuedLast(s, y);
    StepKeepsInv(s, Enqueue(y));
    RunKeepsOrder(Apply(s, Enqueue(y)), es, s', p, x, y);
    EarlierFirstInStep(s', e, p, x, y);
  }

  lemma EarlierFirstInStep(s: Sched, e: Event, p: nat, x: nat, y: nat)
    requires Inv(s) && Before(s, p, x, y) && CanRun(s, x) && s.pcb[s.current].priority != p
    requires Enabled(s, e) && (GivesUp(e) || (e.Tick? && s.pcb[s.current].rounds == s.quantum))
    ensures Apply(s, e).current != y
  {
    var m, q := Middle(s, e), RunQueue(s, p);
    assert Distinct(q) && x != s.current && y < MAX_PROCESS && s.pcb[y].priority == p by {
      assert QueueOk(s, p);
      var a, b :| 0 <= a < b < |q| && q[a] == x && q[b] == y;
      assert EntryOk(s, p, a) && EntryOk(s, p, b);
    }
    assert CanRun(m, x) by { MiddleKeepsReady(s, e, x); }
    MiddleKeepsQueues(s, e);
    EarlierFirst(m, p, x, y);
    SelectedIsCurrent(s, e);
  }

  // ----- Children -----

  /** A fresh process is a live child of its creator, of priority 3, and not queued. */
  lemma CreatorIsParent(s: Sched, i: nat)
    requires Inv(s) && Enabled(s, Create(i))
    ensures var t := Apply(s, Create(i));
            && t.current == s.current && IsLiveChild(t, i) && t.pcb[i].priority == 3 && t.pcb[i].state.New?
            && t.queues == s.queues && (forall j :: 0 <= j < MAX_PROCESS && j != i ==> t.pcb[j] == s.pcb[j])
  {
  }

  /** It takes the count of rounds that the last owner of the slot left. */
  lemma RoundsAreInherited(s: Sched, i: nat)
    requires Inv(s) && Enabled(s, Create(i))
    ensures Apply(s, Create(i)).pcb[i].rounds == s.pcb[i].rounds
  {
  }

  /** Process `i` is a child of `p` and has not ended. */
  predicate ChildOf(s: Sched, p: nat, i: nat)
  {
    i < |s.pcb| && s.pcb[i].pid == i && s.pcb[i].ppid == p && !s.pcb[i].state.Killed? && !s.pcb[i].state.Empty?
  }

  predicate Gone(s: Sched, i: nat)
  {
    i < |s.pcb| && (s.pcb[i].state.Killed? || s.pcb[i].state.Empty?)
  }

  /** Process `i` ends itself in the run. */
  ghost predicate EndsIn(s: Sched, es: seq<Event>, s': Sched, i: nat)
    requires IsRun(s, es, s')
    decreases |es|
  {
    es != [] && ((es[0].Exit? && s.current == i) || EndsIn(Apply(s, es[0]), es[1..], s', i))
  }

  lemma StepOfChild(s: Sched, e: Event, p: nat, i: nat)
    requires Inv(s) && Enabled(s, e) && ChildOf(s, p, i)
    ensures if e.Exit? && s.current == i then Gone(Apply(s, e), i) else ChildOf(Apply(s, e), p, i)
  {
    if Selects(s, e) {
      MiddleOfChild(s, e, p, i);
      SelectedIsCurrent(s, e);
      SwitchKeepsChild(Middle(s, e), Choice(e), p, i);
    } else if e.Enqueue? || e.Collect? {
      assert SlotOk(s, e.pid);
    }
  }

  lemma MiddleOfChild(s: Sched, e: Event, p: nat, i: nat)
    requires Core(s) && ChildOf(s, p, i)
    ensures if e.Exit? && s.current == i then Gone(Middle(s, e), i) else ChildOf(Middle(s, e), p, i)
  {
  }

  /** The process chosen is none that has ended. */
  lemma SwitchKeepsChild(s: Sched, c: nat, p: nat, i: nat)
    requires Sized(s) && CanRun(s, c)
    ensures ChildOf(s, p, i) ==> ChildOf(SwitchTo(s, c), p, i)
    ensures Gone(s, i) ==> Gone(SwitchTo(s, c), i)
  {
  }

  lemma StepAfterEnd(s: Sched, e: Event, i: nat)
    requires Inv(s) && Enabled(s, e) && Gone(s, i) && e != Create(i)
    ensures Gone(Apply(s, e), i)
  {
    if Selects(s, e) {
      MiddleAfterEnd(s, e, i);
      SelectedIsCurrent(s, e);
      SwitchKeepsChild(Middle(s, e), Choice(e), 0, i);
    } else if e.Enqueue? || e.Collect? {
      assert SlotOk(s, e.pid);
    }
  }

  lemma MiddleAfterEnd(s: Sched, e: Event, i: nat)
    requires Inv(s) && Gone(s, i)
    ensures Gone(Middle(s, e), i)
  {
    assert RunsOnlyIf(s, s.current);
  }

  lemma {:induction false} GoneStaysGone(s: Sched, es: seq<Event>, s': Sched, i: nat)
    requires Inv(s) && IsRun(s, es, s') && Gone(s, i) && Create(i) !in es
    ensures Gone(s', i)
    decreases |es|
  {
    if es != [] {
      StepKeepsInv(s, es[0]);
      StepAfterEnd(s, es[0], i);
      GoneStaysGone(Apply(s, es[0]), es[1..], s', i);
    }
  }

  /** Until its slot is given out again, a process is a live child exactly until it ends. */
  lemma {:induction false} ChildUntilEnd(s: Sched, es: seq<Event>, s': Sched, p: nat, i: nat)
    requires Inv(s) && IsRun(s, es, s') && ChildOf(s, p, i) && Create(i) !in es
    ensures ChildOf(s', p, i) <==> !EndsIn(s, es, s', i)
    decreases |es|
  {
    if es != [] {
      StepKeepsInv(s, es[0]);
      StepOfChild(s, es[0], p, i);
      if es[0].Exit? && s.current == i {
        GoneStaysGone(Apply(s, es[0]), es[1..], s', i);
      } else {
        ChildUntilEnd(Apply(s, es[0]), es[1..], s', p, i);
      }
    }
  }

  /** A creator finds the child to wait for exactly as long as that has not ended, whatever
      happens in between. */
  lemma CreatorCanWait(s: Sched, i: nat, es: seq<Event>, s': Sched)
    requires Inv(s) && Enabled(s, Create(i)) && IsRun(Apply(s, Create(i)), es, s') && Create(i) !in es
    requires Sized(s') && s'.current == s.current
    ensures IsLiveChild(s', i) <==> !EndsIn(Apply(s, Create(i)), es, s', i)
  {
    StepKeepsInv(s, Create(i));
    CreatorIsParent(s, i);
    ChildUntilEnd(Apply(s, Create(i)), es, s', s.current, i);
  }

  // ----- Slots -----

  /** Slot `j` comes before `i` on the way round the table from `next`. */
  predicate Passed(next: nat, i: nat, j: nat)
  {
    if next <= i then next <= j < i else next <= j < 128 || j < i
  }

  /** The slot given out is empty, and those passed on the way are taken. */
  lemma NextFreeSlot(s: Sched, i: nat)
    requires Sized(s) && IsFreePid(s, i)
    ensures i < 128 && s.pcb[i].state.Empty?
    ensures forall j :: 0 <= j < 128 && Passed(s.next, i, j) ==> !s.pcb[j].state.Empty?
  {
    var k: nat :| k < MAX_PROCESS && FreeAfter(s, i, k);
    Wrap(s.next + k, 128);
    forall j | 0 <= j < 128 && Passed(s.next, i, j) ensures !s.pcb[j].state.Empty? {
      var l := if j >= s.next then j - s.next else j + 128 - s.next;
      Wrap(s.next + l, 128);
      assert SlotFrom(s, l) == j;
    }
  }

  /** Collecting a process empties its slot and takes it out of its queue. Nothing else
      changes, but that a parent still waiting for a child is woken. */
  lemma CollectedExactly(s: Sched, i: nat, k: nat)
    requires Inv(s) && Enabled(s, Collect(i)) && IsPriority(s.pcb[i].priority)
    requires k < |RunQueue(s, s.pcb[i].priority)| && RunQueue(s, s.pcb[i].priority)[k] == i
    ensures var t, p := Apply(s, Collect(i)), s.pcb[i].priority;
            && Sized(t) && t.current == s.current && t.pcb[i].state.Empty?
            && (forall j :: 0 <= j < MAX_PROCESS && j != i ==>
                  t.pcb[j] == if j == s.pcb[i].ppid && s.pcb[j].state.Waiting? then s.pcb[j].(state := Ready)
                              else s.pcb[j])
            && RunQueue(t, p) == RunQueue(s, p)[..k] + RunQueue(s, p)[k + 1..]
            && (forall r :: IsPriority(r) && r != p ==> RunQueue(t, r) == RunQueue(s, r))
  {
    assert SlotOk(s, i);
    var q := RunQueue(s, s.pcb[i].priority);
    assert Distinct(q) by { assert QueueOk(s, s.pcb[i].priority); }
    RemovedAt(q, i, k);
  }

  /** The end of a process is noticed by a blocked collector. */
  lemma ExitWakesCollector(s: Sched, choice: nat)
    requires Inv(s) && Enabled(s, Exit(choice)) && s.pcb[s.gc].state.Blocked?
    ensures CanRun(Apply(s, Exit(choice)), s.gc)
  {
    var m := Middle(s, Exit(choice));
    assert CanRun(m, s.gc) by { assert RunsOnlyIf(s, s.current); }
    assert Apply(s, Exit(choice)) == SwitchTo(m, choice);
  }

  /** A process that is woken, or that yields, can run. */
  lemma WokenCanRun(s: Sched, e: Event)
    requires Inv(s) && Enabled(s, e)
    ensures e.Unblock? || e.UnblockHint? ==> CanRun(Apply(s, e), e.pid)
    ensures e.Yield? ==> CanRun(Apply(s, e), s.current)
  {
    assert RunsOnlyIf(s, s.current);
  }
}
