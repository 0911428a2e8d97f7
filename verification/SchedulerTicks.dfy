/** Ticks that come inside a call: after the call changed the state of the current process, and
    before another process is chosen. When they do harm, and what holds over every run in which
    they do not: an ended process never runs again, and timers last exactly their ticks. */
module SchedulerTicks {
  import opened Basics
  import opened SchedulerModel

  /** Inside a call nobody runs. */
  ghost predicate Inside(s: Sched)
  {
    Core(s) && NoneRuns(s)
  }

  predicate CurrentRuns(s: Sched)
    requires s.current < |s.pcb|
  {
    s.pcb[s.current].state.Running?
  }

  // ----- One tick -----

  lemma TimersKeepInside(s: Sched, r: nat)
    requires Inside(s)
    ensures Inside(SetRounds(TickTimers(s), s.current, r))
  {
    var s' := SetRounds(TickTimers(s), s.current, r);
    forall i | 0 <= i < MAX_PROCESS
      ensures Timed(s'.pcb[i].state) ==> s'.pcb[i].sleepTimeout > 0
    {
      assert SlotOk(s, i);
    }
    PcbFrame(s, s');
  }

  lemma OfferedIsInside(s: Sched)
    requires Inside(s)
    ensures Inside(Offered(TickTimers(s)))
  {
    var t := SetRounds(TickTimers(s), s.current, 0);
    TimersKeepInside(s, 0);
    var u := SetState(t, s.current, Ready);
    SetStateKeepsCore(t, s.current, Ready);
    forall i {:trigger NotRunning(u, i)} | 0 <= i < MAX_PROCESS ensures NotRunning(u, i) { assert NotRunning(t, i); }
    assert Offered(TickTimers(s)) == t || Offered(TickTimers(s)) == u;
  }

  /** A tick inside a call leaves it there, or ends it with another process running. */
  lemma TickKeepsInside(s: Sched, c: nat)
    requires Inside(s) && CanTick(s, c)
    ensures if Preempts(s) && c != s.current then Inv(TickAt(s, c)) && TickAt(s, c).current == c
            else Inside(TickAt(s, c)) && TickAt(s, c).current == s.current
  {
    if !Preempts(s) {
      TimersKeepInside(s, s.pcb[s.current].rounds + 1);
    } else if c == s.current {
      TimersKeepInside(s, 0);
    } else {
      OfferedIsInside(s);
      SwitchKeepsInv(Offered(TickTimers(s)), c);
    }
  }

  /** The tick makes the current process ready, although it is no timer that ends. */
  predicate Early(s: Sched, c: nat)
    requires s.current < |s.pcb|
  {
    var st := TickTimers(s).pcb[s.current].state;
    Preempts(s) && c != s.current && !st.Ready? && !st.Blocked? && !st.BlockedTimeout?
  }

  /** Exactly then it does more to the current process than to count its timer. */
  lemma EarlyExactly(s: Sched, c: nat)
    requires Inside(s) && CanTick(s, c)
    ensures |TickAt(s, c).pcb| == MAX_PROCESS
    ensures TickAt(s, c).pcb[s.current].state == TickTimers(s).pcb[s.current].state <==> !Early(s, c)
    ensures Early(s, c) ==> CanRun(TickAt(s, c), s.current)
  {
    assert NotRunning(s, s.current);
  }

  /** For each call: never for a blocked process, and otherwise if the quantum is used up and
      another process is chosen. */
  lemma EarlyInCalls(s: Sched, e: Event, c: nat)
    requires Inv(s) && Stops(s, e) && !e.Yield?
    ensures var m := Middle(s, e);
            && |m.pcb| == MAX_PROCESS && m.current == s.current
            && (e.Block? || e.BlockFor? ==> !Early(m, c))
            && (e.Sleep? ==> (Early(m, c) <==> Preempts(s) && c != s.current && e.ticks > 1))
            && (e.Await? || e.Exit? ==> (Early(m, c) <==> Preempts(s) && c != s.current))
  {
    var m := Middle(s, e);
    assert m.current == s.current && |m.pcb| == MAX_PROCESS && m.quantum == s.quantum;
    CurrentInCalls(s, e);
    assert TickTimers(m).pcb[m.current] == TickOne(m.pcb[m.current]);
  }

  /** The current process inside a call. */
  lemma CurrentInCalls(s: Sched, e: Event)
    requires Inv(s) && Stops(s, e) && !e.Yield?
    ensures var p := Middle(s, e).pcb[s.current];
            && p.rounds == s.pcb[s.current].rounds
            && p.state == (match e
                           case Block(_) => Blocked
                           case BlockFor(_, _) => BlockedTimeout
                           case Sleep(_, _) => Sleeping
                           case Await(_, _) => Waiting
                           case _ => Killed)
            && (e.BlockFor? || e.Sleep? ==> p.sleepTimeout == e.ticks)
  {
    assert RunsOnlyIf(s, s.current);
  }

  /** So an ended process can run again exactly if a tick with the quantum used up, which picks
      another process, comes before the switch. */
  lemma RevivedExactly(s: Sched, e: Event, c: nat)
    requires Inv(s) && e.Exit? && Stops(s, e) && CanTick(Middle(s, e), c)
    ensures CanRun(TickAt(Middle(s, e), c), s.current) <==> Preempts(s) && c != s.current
  {
    var m := Middle(s, e);
    assert m.current == s.current && (Early(m, c) <==> Preempts(s) && c != s.current) by { EarlyInCalls(s, e, c); }
    assert Inside(m) by { MiddleKeepsCore(s, e); }
    assert m.pcb[m.current].state.Killed? by { CurrentInCalls(s, e); }
    EndedAfterTick(m, c);
  }

  lemma EndedAfterTick(s: Sched, c: nat)
    requires Inside(s) && CanTick(s, c) && s.pcb[s.current].state.Killed?
    ensures CanRun(TickAt(s, c), s.current) <==> Early(s, c)
  {
    EarlyExactly(s, c);
  }

  /** And a process that goes to sleep for more than one tick sleeps on exactly if none does. */
  lemma WokenEarlyExactly(s: Sched, e: Event, c: nat)
    requires Inv(s) && e.Sleep? && e.ticks > 1 && Stops(s, e) && CanTick(Middle(s, e), c)
    ensures |TickAt(Middle(s, e), c).pcb| == MAX_PROCESS
    ensures TickAt(Middle(s, e), c).pcb[s.current].state.Sleeping? <==> !(Preempts(s) && c != s.current)
  {
    MiddleKeepsCore(s, e);
    EarlyInCalls(s, e, c);
    EarlyExactly(Middle(s, e), c);
  }

  // ----- The end of a call -----

  /** If a timer ended inside the call and its process is chosen again, it goes on without
      running by the table; this is the only case in which the invariant is lost. */
  lemma RescheduleExactly(s: Sched, c: nat)
    requires Inside(s) && IsChoice(s, c)
    ensures Inv(Rescheduled(s, c)) <==> c != s.current
    ensures c == s.current ==> s.pcb[c].state.Ready?
  {
    assert NotRunning(s, s.current);
    if c != s.current {
      SwitchKeepsInv(s, c);
    } else {
      assert !RunsOnlyIf(s, s.current);
    }
  }

  /** A yield that a tick preempted goes on when its process runs again: it chooses once more,
      and leaves the process marked as running. */
  lemma YieldResumed(s: Sched, c: nat)
    requires Inv(s) && IsChoice(s, c)
    ensures Inv(Rescheduled(s, c)) <==> c == s.current
  {
    assert RunsOnlyIf(s, s.current);
    if c != s.current {
      assert !RunsOnlyIf(SwitchTo(s, c), s.current);
    }
  }

  // ----- Runs -----

  /** A whole step, or the parts of a call: its start, ticks inside it, its end. */
  datatype Act = Whole(e: Event) | Begin(e: Event) | TickInside(choice: nat) | Finish(choice: nat)

  ghost predicate CanAct(s: Sched, a: Act)
  {
    && Sized(s)
    && match a
       case Whole(e) => CurrentRuns(s) && Enabled(s, e)
       case Begin(e) => CurrentRuns(s) && Stops(s, e) && !e.Yield?
       case TickInside(c) => !CurrentRuns(s) && CanTick(s, c) && !Early(s, c)
       case Finish(c) => !CurrentRuns(s) && IsChoice(s, c) && c != s.current
  }

  /** Between calls or inside one. */
  ghost predicate Ok(s: Sched)
  {
    Inv(s) || Inside(s)
  }

  lemma OkIsKnown(s: Sched)
    requires Ok(s)
    ensures Core(s) && (Inv(s) <==> CurrentRuns(s)) && (Inside(s) <==> !CurrentRuns(s))
  {
    if Inv(s) {
      assert RunsOnlyIf(s, s.current) && !NotRunning(s, s.current);
    } else {
      assert NotRunning(s, s.current);
    }
  }

  ghost function Acted(s: Sched, a: Act): Sched
    requires Core(s) && CanAct(s, a)
  {
    match a
    case Whole(e) => Apply(s, e)
    case Begin(e) => Middle(s, e)
    case TickInside(c) => TickAt(s, c)
    case Finish(c) => SwitchTo(s, c)
  }

  lemma ActKeepsOk(s: Sched, a: Act)
    requires Ok(s) && Core(s) && CanAct(s, a)
    ensures Ok(Acted(s, a))
  {
    OkIsKnown(s);
    match a
    case Whole(e) => StepKeepsInv(s, e);
    case Begin(e) => MiddleKeepsCore(s, e);
    case TickInside(c) => TickKeepsInside(s, c);
    case Finish(c) => SwitchKeepsInv(s, c);
  }

  /** A call that no tick comes into is one step. */
  lemma WholeIsBeginFinish(s: Sched, e: Event)
    requires Inv(s) && Enabled(s, e) && Stops(s, e) && !e.Yield?
    ensures Core(Middle(s, e)) && CanAct(Middle(s, e), Finish(Choice(e)))
    ensures Acted(Middle(s, e), Finish(Choice(e))) == Apply(s, e)
  {
    MiddleKeepsCore(s, e);
    assert RunsOnlyIf(s, s.current) && NotRunning(Middle(s, e), s.current);
  }

  ghost predicate IsActRun(s: Sched, acts: seq<Act>, s': Sched)
    decreases |acts|
  {
    if acts == [] then s == s'
    else Core(s) && CanAct(s, acts[0]) && IsActRun(Acted(s, acts[0]), acts[1..], s')
  }

  lemma {:induction false} ActRunKeepsOk(s: Sched, acts: seq<Act>, s': Sched)
    requires Ok(s) && IsActRun(s, acts, s')
    ensures Ok(s')
    decreases |acts|
  {
    if acts != [] {
      ActKeepsOk(s, acts[0]);
      ActRunKeepsOk(Acted(s, acts[0]), acts[1..], s');
    }
  }

  // ----- Ended processes -----

  lemma SwitchKeepsEnded(s: Sched, c: nat, i: nat)
    requires IsChoice(s, c) && i < |s.pcb| && s.pcb[i].state.Killed?
    ensures SwitchTo(s, c).pcb[i].state.Killed?
  {
  }

  lemma MiddleKeepsEnded(s: Sched, e: Event, i: nat)
    requires Inv(s) && i < MAX_PROCESS && s.pcb[i].state.Killed?
    ensures |Middle(s, e).pcb| == MAX_PROCESS && Middle(s, e).pcb[i].state.Killed?
  {
    assert RunsOnlyIf(s, i);
  }

  /** No whole step but its collection gives an ended process another state. */
  lemma StepKeepsEnded(s: Sched, e: Event, i: nat)
    requires Inv(s) && Enabled(s, e) && i < MAX_PROCESS && s.pcb[i].state.Killed? && e != Collect(i)
    ensures |Apply(s, e).pcb| == MAX_PROCESS && Apply(s, e).pcb[i].state.Killed?
  {
    assert RunsOnlyIf(s, i);
    if Stops(s, e) || (e.Tick? && Preempts(s)) {
      MiddleKeepsEnded(s, e, i);
      SwitchKeepsEnded(Middle(s, e), Choice(e), i);
    } else if e.Enqueue? || e.Collect? {
      assert SlotOk(s, e.pid);
    }
  }

  lemma TickKeepsEnded(s: Sched, c: nat, i: nat)
    requires Inside(s) && CanTick(s, c) && !Early(s, c) && i < MAX_PROCESS && s.pcb[i].state.Killed?
    ensures |TickAt(s, c).pcb| == MAX_PROCESS && TickAt(s, c).pcb[i].state.Killed?
  {
    if Preempts(s) && c != s.current { SwitchKeepsEnded(Offered(TickTimers(s)), c, i); }
  }

  /** Nothing but its collection gives an ended process another state. */
  lemma EndedStaysEnded(s: Sched, a: Act, i: nat)
    requires Ok(s) && Core(s) && CanAct(s, a) && i < MAX_PROCESS && s.pcb[i].state.Killed? && a != Whole(Collect(i))
    ensures |Acted(s, a).pcb| == MAX_PROCESS && Acted(s, a).pcb[i].state.Killed?
  {
    OkIsKnown(s);
    match a
    case Whole(e) => StepKeepsEnded(s, e, i);
    case Begin(e) => MiddleKeepsEnded(s, e, i);
    case TickInside(c) => TickKeepsEnded(s, c, i);
    case Finish(c) => SwitchKeepsEnded(s, c, i);
  }

  /** In every run an ended process does not run again until it is collected. */
  lemma {:induction false} EndedNeverRuns(s: Sched, acts: seq<Act>, s': Sched, i: nat)
    requires Ok(s) && IsActRun(s, acts, s') && i < MAX_PROCESS && Whole(Collect(i)) !in acts
    requires Core(s) && s.pcb[i].state.Killed?
    ensures Ok(s') && s'.pcb[i].state.Killed? && !CanRun(s', i) && (CurrentRuns(s') ==> s'.current != i)
    decreases |acts|
  {
    OkIsKnown(s);
    if acts != [] {
      ActKeepsOk(s, acts[0]);
      OkIsKnown(Acted(s, acts[0]));
      EndedStaysEnded(s, acts[0], i);
      EndedNeverRuns(Acted(s, acts[0]), acts[1..], s', i);
    }
  }

  // ----- Timers -----

  predicate IsTick(a: Act)
  {
    a.TickInside? || (a.Whole? && a.e.Tick?)
  }

  function TicksIn(acts: seq<Act>): nat
  {
    if acts == [] then 0 else (if IsTick(acts[0]) then 1 else 0) + TicksIn(acts[1..])
  }

  /** Nobody wakes process `i` before its time. */
  predicate LeftAlone(acts: seq<Act>, i: nat)
  {
    forall k :: 0 <= k < |acts| ==> acts[k] != Whole(Unblock(i)) && acts[k] != Whole(UnblockHint(i))
  }

  /** Process `i` is in the state `st` with `t` ticks to go. */
  predicate Waits(s: Sched, i: nat, st: State, t: nat)
  {
    i < |s.pcb| && s.pcb[i].state == st && s.pcb[i].sleepTimeout == t
  }

  lemma SwitchKeepsTimer(s: Sched, c: nat, i: nat, st: State, t: nat)
    requires IsChoice(s, c) && Timed(st) && Waits(s, i, st, t)
    ensures Waits(SwitchTo(s, c), i, st, t)
  {
  }

  lemma MiddleKeepsTimer(s: Sched, e: Event, i: nat, st: State, t: nat)
    requires Inv(s) && Timed(st) && Waits(s, i, st, t) && !e.Tick?
    ensures Waits(Middle(s, e), i, st, t)
  {
    assert RunsOnlyIf(s, s.current);
  }

  /** Of the steps that do not wake the process, only a tick touches its timer. */
  lemma StepKeepsTimer(s: Sched, e: Event, i: nat, st: State, t: nat)
    requires Inv(s) && Enabled(s, e) && Timed(st) && Waits(s, i, st, t)
    requires !e.Tick? && e != Unblock(i) && e != UnblockHint(i)
    ensures Waits(Apply(s, e), i, st, t)
  {
    if Stops(s, e) {
      MiddleKeepsTimer(s, e, i, st, t);
      SwitchKeepsTimer(Middle(s, e), Choice(e), i, st, t);
    } else if e.Enqueue? || e.Collect? {
      assert SlotOk(s, e.pid);
    }
  }

  /** A tick, inside a call or not, counts it down. */
  lemma TickCountsDown(s: Sched, c: nat, i: nat, st: State, t: nat)
    requires Ok(s) && CanTick(s, c) && (CurrentRuns(s) || !Early(s, c)) && Timed(st) && Waits(s, i, st, t) && t > 1
    ensures Waits(TickAt(s, c), i, st, t - 1)
  {
    OkIsKnown(s);
    if Preempts(s) && c != s.current { SwitchKeepsTimer(Offered(TickTimers(s)), c, i, st, t - 1); }
  }

  lemma LastTickWakes(s: Sched, c: nat, i: nat, st: State)
    requires Ok(s) && CanTick(s, c) && Timed(st) && Waits(s, i, st, 1)
    ensures CanRun(TickAt(s, c), i)
  {
    OkIsKnown(s);
  }

  lemma ActKeepsTimer(s: Sched, a: Act, i: nat, st: State, t: nat)
    requires Ok(s) && Core(s) && CanAct(s, a) && Timed(st) && Waits(s, i, st, t)
    requires a != Whole(Unblock(i)) && a != Whole(UnblockHint(i)) && (IsTick(a) ==> t > 1)
    ensures Waits(Acted(s, a), i, st, t - if IsTick(a) then 1 else 0)
  {
    OkIsKnown(s);
    match a
    case Whole(e) =>
      if e.Tick? {
        TickOutside(s, e.choice);
        TickCountsDown(s, e.choice, i, st, t);
      } else {
        StepKeepsTimer(s, e, i, st, t);
      }
    case Begin(e) => MiddleKeepsTimer(s, e, i, st, t);
    case TickInside(c) => TickCountsDown(s, c, i, st, t);
    case Finish(c) => SwitchKeepsTimer(s, c, i, st, t);
  }

  /** In every run, a process that sleeps or blocks for `t` ticks and is not woken by
      another sleeps through the first `t - 1` of them. */
  lemma {:induction false} SleepsOn(s: Sched, acts: seq<Act>, s': Sched, i: nat, st: State, t: nat)
    requires Ok(s) && IsActRun(s, acts, s') && Timed(st) && Waits(s, i, st, t) && LeftAlone(acts, i)
    requires TicksIn(acts) < t
    ensures Ok(s') && Waits(s', i, st, t - TicksIn(acts))
    decreases |acts|
  {
    if acts != [] {
      var a := acts[0];
      assert a == acts[0];
      ActKeepsOk(s, a);
      ActKeepsTimer(s, a, i, st, t);
      SleepsOn(Acted(s, a), acts[1..], s', i, st, t - if IsTick(a) then 1 else 0);
    }
  }

  /** The tick that completes the time wakes it, also inside a call. */
  lemma WakesOnTime(s: Sched, acts: seq<Act>, s': Sched, c: nat, i: nat, st: State, t: nat)
    requires Ok(s) && IsActRun(s, acts, s') && Timed(st) && Waits(s, i, st, t) && LeftAlone(acts, i)
    requires TicksIn(acts) + 1 == t && CanTick(s', c)
    ensures Waits(s', i, st, 1) && CanRun(TickAt(s', c), i)
  {
    SleepsOn(s, acts, s', i, st, t);
    LastTickWakes(s', c, i, st);
  }
}
