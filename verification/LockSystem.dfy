/** Any number of locks over one scheduler. A process that waits for one lock is blocked and
    cannot wait for another, so that the locks do not disturb each other. */
module LockSystem {
  import opened Basics
  import opened SchedulerModel
  import opened LockModel

  datatype Locks = Locks(sched: Sched, locks: seq<Lock>)

  /** A call on one of the locks, or another step of the scheduler. */
  datatype Go = On(j: nat, move: Move) | Elsewhere(e: Event)

  /** One lock with the scheduler. */
  function View(w: Locks, j: nat): Machine
    requires j < |w.locks|
  {
    Machine(w.sched, w.locks[j])
  }

  ghost predicate LockOk(w: Locks, j: nat)
    requires j < |w.locks|
  {
    MachineOk(View(w, j))
  }

  ghost predicate Disjoint(w: Locks, j: nat, k: nat)
    requires j < |w.locks| && k < |w.locks|
  {
    j != k ==> forall i :: i in w.locks[j].queue ==> i !in w.locks[k].queue
  }

  /** For every lock waiting processes are blocked and no permit lies idle, and no process waits
      for two. */
  ghost predicate LocksOk(w: Locks)
  {
    && Inv(w.sched)
    && (forall j {:trigger LockOk(w, j)} :: 0 <= j < |w.locks| ==> LockOk(w, j))
    && (forall j, k {:trigger Disjoint(w, j, k)} :: 0 <= j < |w.locks| && 0 <= k < |w.locks| ==> Disjoint(w, j, k))
  }

  /** A call on a lock asks nothing of the others. */
  ghost predicate CanGo(w: Locks, g: Go)
  {
    match g
    case On(j, move) => j < |w.locks| && !move.Other? && CanMove(View(w, j), move)
    case Elsewhere(e) => Enabled(w.sched, e) && forall j :: 0 <= j < |w.locks| ==> CanMove(View(w, j), Other(e))
  }

  ghost function Gone(w: Locks, g: Go): Locks
    requires LocksOk(w) && CanGo(w, g)
  {
    match g
    case On(j, move) =>
      assert LockOk(w, j);
      var m := Moved(View(w, j), move);
      Locks(m.sched, w.locks[j := m.lock])
    case Elsewhere(e) => w.(sched := Apply(w.sched, e))
  }

  /** What a call on a lock is for the other locks: a step of the scheduler, or nothing. */
  function Seen(m: Machine, move: Move): seq<Move>
  {
    match move
    case Acquire(c) => if m.lock.value > 0 then [] else [Other(Block(c))]
    case Hand => if m.lock.queue == [] then [] else [Other(Unblock(m.lock.queue[0]))]
    case _ => []
  }

  /** It wakes none of their waiting processes. */
  lemma SeenIsHarmless(w: Locks, j: nat, move: Move, k: nat)
    requires LocksOk(w) && j < |w.locks| && k < |w.locks| && j != k && !move.Other? && CanMove(View(w, j), move)
    ensures var seen := Seen(View(w, j), move); var w' := Gone(w, On(j, move));
            && MachineOk(View(w, k)) && View(w', k).lock == w.locks[k]
            && if seen == [] then w'.sched == w.sched
               else CanMove(View(w, k), seen[0]) && View(w', k) == Moved(View(w, k), seen[0])
  {
    assert LockOk(w, j) && LockOk(w, k) && Disjoint(w, j, k);
    if move.Hand? && w.locks[j].queue != [] {
      WaiterCanBeWoken(View(w, j));
      assert w.locks[j].queue[0] in w.locks[j].queue;
    }
  }

  /** The process that goes to wait for a lock waits for no other. */
  lemma CallKeepsDisjoint(w: Locks, j: nat, move: Move, k: nat)
    requires LocksOk(w) && j < |w.locks| && k < |w.locks| && j != k && !move.Other? && CanMove(View(w, j), move)
    ensures Disjoint(Gone(w, On(j, move)), j, k) && Disjoint(Gone(w, On(j, move)), k, j)
  {
    assert LockOk(w, j) && LockOk(w, k) && Disjoint(w, j, k);
    AwakeIsNotQueued(View(w, k));
  }

  lemma CallKeepsOk(w: Locks, j: nat, move: Move)
    requires LocksOk(w) && CanGo(w, On(j, move))
    ensures LocksOk(Gone(w, On(j, move)))
  {
    var w' := Gone(w, On(j, move));
    assert LockOk(w, j);
    MoveKeepsOk(View(w, j), move);
    forall k {:trigger LockOk(w', k)} | 0 <= k < |w'.locks| ensures LockOk(w', k) {
      if k != j {
        SeenIsHarmless(w, j, move, k);
        var seen := Seen(View(w, j), move);
        if seen != [] { MoveKeepsOk(View(w, k), seen[0]); }
      }
    }
    forall a, b {:trigger Disjoint(w', a, b)} | 0 <= a < |w'.locks| && 0 <= b < |w'.locks| ensures Disjoint(w', a, b) {
      assert Disjoint(w, a, b);
      if a == j && b != j { CallKeepsDisjoint(w, j, move, b); }
      if b == j && a != j { CallKeepsDisjoint(w, j, move, a); }
    }
  }

  lemma OtherKeepsOk(w: Locks, e: Event)
    requires LocksOk(w) && CanGo(w, Elsewhere(e))
    ensures LocksOk(Gone(w, Elsewhere(e)))
  {
    var w' := Gone(w, Elsewhere(e));
    StepKeepsInv(w.sched, e);
    forall k {:trigger LockOk(w', k)} | 0 <= k < |w'.locks| ensures LockOk(w', k) {
      assert LockOk(w, k);
      MoveKeepsOk(View(w, k), Other(e));
    }
    forall a, b {:trigger Disjoint(w', a, b)} | 0 <= a < |w'.locks| && 0 <= b < |w'.locks| ensures Disjoint(w', a, b) {
      assert Disjoint(w, a, b);
    }
  }

  lemma GoKeepsOk(w: Locks, g: Go)
    requires LocksOk(w) && CanGo(w, g)
    ensures LocksOk(Gone(w, g))
  {
    match g
    case On(j, move) => CallKeepsOk(w, j, move);
    case Elsewhere(e) => OtherKeepsOk(w, e);
  }

  ghost predicate IsLocksRun(w: Locks, gs: seq<Go>, w': Locks)
    decreases |gs|
  {
    if gs == [] then w == w' else LocksOk(w) && CanGo(w, gs[0]) && IsLocksRun(Gone(w, gs[0]), gs[1..], w')
  }

  /** In every run no process waits for two locks, so that one wait node for each is enough. */
  lemma {:induction false} WaitsForOne(w: Locks, gs: seq<Go>, w': Locks, j: nat, k: nat, i: nat)
    requires LocksOk(w) && IsLocksRun(w, gs, w') && j < |w'.locks| && k < |w'.locks|
    requires i in w'.locks[j].queue && i in w'.locks[k].queue
    ensures j == k
    decreases |gs|
  {
    if gs == [] {
      assert Disjoint(w, j, k);
    } else {
      GoKeepsOk(w, gs[0]);
      WaitsForOne(Gone(w, gs[0]), gs[1..], w', j, k, i);
    }
  }

  /** What one lock sees of a run. */
  function SeenBy(w: Locks, g: Go, k: nat): seq<Move>
  {
    match g
    case On(j, move) => if j == k then [move] else if j < |w.locks| then Seen(View(w, j), move) else []
    case Elsewhere(e) => [Other(e)]
  }

  ghost function SeenInRun(w: Locks, gs: seq<Go>, w': Locks, k: nat): seq<Move>
    requires IsLocksRun(w, gs, w')
    decreases |gs|
  {
    if gs == [] then [] else SeenBy(w, gs[0], k) + SeenInRun(Gone(w, gs[0]), gs[1..], w', k)
  }

  lemma StepIsSeen(w: Locks, g: Go, k: nat)
    requires LocksOk(w) && CanGo(w, g) && k < |w.locks|
    ensures var seen := SeenBy(w, g, k); var w' := Gone(w, g);
            && |w'.locks| == |w.locks| && MachineOk(View(w, k)) && |seen| <= 1
            && if seen == [] then View(w', k) == View(w, k)
               else CanMove(View(w, k), seen[0]) && View(w', k) == Moved(View(w, k), seen[0])
  {
    assert LockOk(w, k);
    if g.On? && g.j != k { SeenIsHarmless(w, g.j, g.move, k); }
  }

  /** For each lock every run of all is a run of that lock alone: what is proved for one lock
      holds of each of many. */
  lemma {:induction false} RunForEach(w: Locks, gs: seq<Go>, w': Locks, k: nat)
    requires LocksOk(w) && IsLocksRun(w, gs, w') && k < |w.locks|
    ensures |w'.locks| == |w.locks| && IsMachineRun(View(w, k), SeenInRun(w, gs, w', k), View(w', k))
    decreases |gs|
  {
    if gs != [] {
      var t, seen := Gone(w, gs[0]), SeenBy(w, gs[0], k);
      GoKeepsOk(w, gs[0]);
      StepIsSeen(w, gs[0], k);
      RunForEach(t, gs[1..], w', k);
      var rest := SeenInRun(t, gs[1..], w', k);
      if seen == [] {
        assert seen + rest == rest;
      } else {
        assert (seen + rest)[0] == seen[0] && (seen + rest)[1..] == rest;
      }
    }
  }
}
