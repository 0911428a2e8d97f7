/** What the scheduler guarantees over whole runs: a ready process waits for a bounded
    number of selections, and of ticks. */
module SchedulerRuns {
  import opened Basics
  import opened SchedulerModel

  // ----- Bounded waiting -----

  /** The step chooses the process that runs next. */
  predicate Selects(s: Sched, e: Event)
    requires s.current < |s.pcb|
  {
    match e
    case Tick(_) => Preempts(s)
    case Create(_) => false
    case Enqueue(_) => false
    case Unblock(_) => false
    case UnblockHint(_) => false
    case Collect(_) => false
    case _ => true
  }

  /** Process `g` can run, the queue of priority `p` is `q`, and a process of that
      priority is current. */
  ghost predicate LevelFixed(s: Sched, q: seq<nat>, p: nat, g: nat)
  {
    Core(s) && IsPriority(p) && RunQueue(s, p) == q && CanRun(s, g) && s.pcb[s.current].priority == p
  }

  /** The steps `es` can be taken from `s`, and the level is fixed in all states. */
  ghost predicate RunsAtLevel(s: Sched, es: seq<Event>, q: seq<nat>, p: nat, g: nat)
    decreases |es|
  {
    LevelFixed(s, q, p, g) && (es == [] || (Enabled(s, es[0]) && RunsAtLevel(Apply(s, es[0]), es[1..], q, p, g)))
  }

  ghost function Selections(s: Sched, es: seq<Event>, q: seq<nat>, p: nat, g: nat): nat
    requires RunsAtLevel(s, es, q, p, g)
    decreases |es|
  {
    if es == [] then 0 else (if Selects(s, es[0]) then 1 else 0) + Selections(Apply(s, es[0]), es[1..], q, p, g)
  }

  /** Process `g` is current in some state of the run. */
  ghost predicate Runs(s: Sched, es: seq<Event>, q: seq<nat>, p: nat, g: nat)
    requires RunsAtLevel(s, es, q, p, g)
    decreases |es|
  {
    s.current == g || (es != [] && Runs(Apply(s, es[0]), es[1..], q, p, g))
  }

  lemma MiddleKeepsReady(s: Sched, e: Event, i: nat)
    requires Core(s) && CanRun(s, i) && i != s.current
    ensures CanRun(Middle(s, e), i)
  {
  }

  lemma MiddleKeepsQueues(s: Sched, e: Event)
    requires Core(s)
    ensures var m := Middle(s, e); Sized(m) && m.queues == s.queues && m.current == s.current
    ensures forall i :: 0 <= i < MAX_PROCESS ==> Middle(s, e).pcb[i].priority == s.pcb[i].priority
  {
  }

  lemma SelectedIsCurrent(s: Sched, e: Event)
    requires Core(s) && Enabled(s, e)
    ensures Selects(s, e) ==> IsChoice(Middle(s, e), Choice(e)) && Apply(s, e).current == Choice(e)
    ensures !Selects(s, e) ==> Apply(s, e).current == s.current
  {
  }

  /** A selecting step picks `g` or brings it nearer. */
  lemma StepApproaches(s: Sched, e: Event, q: seq<nat>, p: nat, g: nat, d: nat)
    requires LevelFixed(s, q, p, g) && Enabled(s, e) && LevelFixed(Apply(s, e), q, p, g)
    requires Selects(s, e) && s.current != g && StandsBehind(q, s.current, g, d)
    ensures Apply(s, e).current == g || exists d' :: 0 <= d' < d && StandsBehind(q, Apply(s, e).current, g, d')
  {
    var m, c := Middle(s, e), Choice(e);
    assert Distinct(q) by { assert QueueOk(s, p); }
    assert CanRun(m, g) by { MiddleKeepsReady(s, e, g); }
    assert Sized(m) && RunQueue(m, p) == q && m.current == s.current && m.pcb[m.current].priority == p by {
      MiddleKeepsQueues(s, e);
    }
    assert IsChoice(m, c) && Apply(s, e).current == c && c < MAX_PROCESS && m.pcb[c].priority == p by {
      SelectedIsCurrent(s, e);
      MiddleKeepsQueues(s, e);
    }
    SelectionApproaches(m, q, p, g, d, c);
  }

  /** In every run that keeps the level, `g` runs after no more selections than there
      are places before it. */
  lemma {:induction false} RunsWithin(s: Sched, es: seq<Event>, q: seq<nat>, p: nat, g: nat, d: nat)
    requires RunsAtLevel(s, es, q, p, g) && StandsBehind(q, s.current, g, d) && Selections(s, es, q, p, g) > d
    ensures Runs(s, es, q, p, g)
    decreases |es|
  {
    if s.current != g {
      var t := Apply(s, es[0]);
      if Selects(s, es[0]) {
        StepApproaches(s, es[0], q, p, g, d);
        if t.current != g {
          var d' :| 0 <= d' < d && StandsBehind(q, t.current, g, d');
          RunsWithin(t, es[1..], q, p, g, d');
        }
      } else {
        SelectedIsCurrent(s, es[0]);
        RunsWithin(t, es[1..], q, p, g, d);
      }
    }
  }

  /** Bounded waiting in runs: as many selections as the queue is long are enough. */
  lemma ReadyRunsSoon(s: Sched, es: seq<Event>, q: seq<nat>, p: nat, g: nat)
    requires RunsAtLevel(s, es, q, p, g) && g in q && Selections(s, es, q, p, g) >= |q|
    ensures Runs(s, es, q, p, g)
  {
    var d := StandsSomewhere(q, s.current, g);
    RunsWithin(s, es, q, p, g, d);
  }

  // ----- In ticks -----

  function Ticks(es: seq<Event>): nat
  {
    if es == [] then 0 else (if es[0].Tick? then 1 else 0) + Ticks(es[1..])
  }

  ghost predicate RoundOk(s: Sched, i: nat)
    requires i < |s.pcb|
  {
    s.pcb[i].rounds <= s.quantum
  }

  /** No process has used more than its quantum. */
  ghost predicate RoundsOk(s: Sched)
  {
    forall i {:trigger RoundOk(s, i)} :: 0 <= i < |s.pcb| ==> RoundOk(s, i)
  }

  lemma StepKeepsRounds(s: Sched, e: Event)
    requires Core(s) && Enabled(s, e) && RoundsOk(s)
    ensures RoundsOk(Apply(s, e)) && Apply(s, e).quantum == s.quantum
  {
    if Selects(s, e) {
      MiddleKeepsRounds(s, e);
      SwitchKeepsRounds(Middle(s, e), Choice(e));
    } else {
      if e.Enqueue? || e.Collect? { assert SlotOk(s, e.pid); }
      var t := Apply(s, e);
      forall i {:trigger RoundOk(t, i)} | 0 <= i < |t.pcb| ensures RoundOk(t, i) { assert RoundOk(s, i); }
    }
  }

  lemma MiddleKeepsRounds(s: Sched, e: Event)
    requires Core(s) && RoundsOk(s)
    ensures RoundsOk(Middle(s, e)) && Middle(s, e).quantum == s.quantum
  {
    var m := Middle(s, e);
    forall i {:trigger RoundOk(m, i)} | 0 <= i < |m.pcb| ensures RoundOk(m, i) { assert RoundOk(s, i); }
  }

  lemma SwitchKeepsRounds(s: Sched, c: nat)
    requires RoundsOk(s) && c < |s.pcb|
    ensures RoundsOk(SwitchTo(s, c)) && SwitchTo(s, c).quantum == s.quantum
  {
    var t := SwitchTo(s, c);
    forall i {:trigger RoundOk(t, i)} | 0 <= i < |t.pcb| ensures RoundOk(t, i) { assert RoundOk(s, i); }
  }

  /** Over every run nobody uses more than its quantum. */
  lemma {:induction false} RunKeepsRounds(s: Sched, es: seq<Event>, s': Sched)
    requires Inv(s) && IsRun(s, es, s') && RoundsOk(s)
    ensures RoundsOk(s') && s'.quantum == s.quantum
    decreases |es|
  {
    if es != [] {
      StepKeepsInv(s, es[0]);
      StepKeepsRounds(s, es[0]);
      RunKeepsRounds(Apply(s, es[0]), es[1..], s');
    }
  }

  /** A step that does not choose leaves the current process and counts the tick. */
  lemma StepCounts(s: Sched, e: Event)
    requires Core(s) && Enabled(s, e) && !Selects(s, e)
    ensures var t := Apply(s, e);
            t.current == s.current && |t.pcb| == MAX_PROCESS &&
            t.pcb[s.current].rounds == s.pcb[s.current].rounds + if e.Tick? then 1 else 0
  {
    if e.Enqueue? || e.Collect? { assert SlotOk(s, e.pid); }
  }

  /** The ticks of `k` quanta of `n` ticks. */
  function Quanta(k: nat, n: nat): nat
  {
    if k == 0 then 0 else n + Quanta(k - 1, n)
  }

  lemma {:induction false} QuantaGrow(a: nat, b: nat, n: nat)
    requires a <= b
    ensures Quanta(a, n) <= Quanta(b, n) && Quanta(b, n) == b * n
    decreases b
  {
    if a < b {
      QuantaGrow(a, b - 1, n);
      assert b * n == (b - 1) * n + n;
    } else if b > 0 {
      QuantaGrow(b - 1, b - 1, n);
      assert b * n == (b - 1) * n + n;
    }
  }

  /** The ticks until `k` more processes have been chosen, at most. */
  ghost function TicksUntil(s: Sched, k: nat): int
    requires s.current < |s.pcb|
  {
    Quanta(k, s.quantum + 1) + s.quantum - s.pcb[s.current].rounds
  }

  /** A step that chooses uses up one of them, and no step takes more than a tick. */
  lemma StepTakesTicks(s: Sched, e: Event, k: nat)
    requires Core(s) && Enabled(s, e) && RoundsOk(s)
    ensures var t := Apply(s, e);
            && RoundsOk(t) && t.current < |t.pcb|
            && TicksUntil(t, k) + (if e.Tick? then 1 else 0) <= TicksUntil(s, k + if Selects(s, e) then 1 else 0)
  {
    var t := Apply(s, e);
    StepKeepsRounds(s, e);
    assert RoundOk(s, s.current);
    if Selects(s, e) {
      assert t.current == Choice(e) && RoundOk(t, t.current);
    } else {
      StepCounts(s, e);
    }
  }

  /** Every quantum and one ticks, at the latest, a process is chosen. */
  lemma {:induction false} TicksMakeSelections(s: Sched, es: seq<Event>, q: seq<nat>, p: nat, g: nat)
    requires RunsAtLevel(s, es, q, p, g) && RoundsOk(s)
    ensures Ticks(es) <= TicksUntil(s, Selections(s, es, q, p, g))
    decreases |es|
  {
    if es == [] {
      assert RoundOk(s, s.current);
    } else {
      StepKeepsRounds(s, es[0]);
      TicksMakeSelections(Apply(s, es[0]), es[1..], q, p, g);
      FirstStepTakesTicks(s, es, q, p, g);
    }
  }

  lemma FirstStepTakesTicks(s: Sched, es: seq<Event>, q: seq<nat>, p: nat, g: nat)
    requires es != [] && RunsAtLevel(s, es, q, p, g) && RoundsOk(s)
    requires var t := Apply(s, es[0]); Ticks(es[1..]) <= TicksUntil(t, Selections(t, es[1..], q, p, g))
    ensures Ticks(es) <= TicksUntil(s, Selections(s, es, q, p, g))
  {
    StepTakesTicks(s, es[0], Selections(Apply(s, es[0]), es[1..], q, p, g));
  }

  /** Bounded waiting in ticks: in a run that keeps the level, a process that stays ready runs
      within as many quanta as its queue is long. */
  lemma ReadyRunsInTime(s: Sched, es: seq<Event>, q: seq<nat>, p: nat, g: nat)
    requires RunsAtLevel(s, es, q, p, g) && RoundsOk(s) && g in q && Ticks(es) >= Quanta(|q|, s.quantum + 1)
    ensures Runs(s, es, q, p, g)
  {
    TicksMakeSelections(s, es, q, p, g);
    EnoughTicks(s, Ticks(es), Selections(s, es, q, p, g), |q|);
    ReadyRunsSoon(s, es, q, p, g);
  }

  lemma EnoughTicks(s: Sched, ticks: nat, k: nat, m: nat)
    requires s.current < |s.pcb| && Quanta(m, s.quantum + 1) <= ticks <= TicksUntil(s, k)
    ensures k >= m
  {
    if k < m { QuantaGrow(k + 1, m, s.quantum + 1); }
  }
}
