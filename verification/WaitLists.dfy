/** The queue of waiting processes: a linked list through nodes that the processes own. */
module WaitLists {
  import opened SchedulerModel
  import opened Scheduler

  class WaitNode {
    const pid: nat
    var next: WaitNode?

    constructor (pid: nat)
      ensures this.pid == pid && next == null
    {
      this.pid := pid;
      next := null;
    }
  }

  function PidsOf(nodes: seq<WaitNode>): (ps: seq<nat>)
    ensures |ps| == |nodes| && forall i :: 0 <= i < |ps| ==> ps[i] == nodes[i].pid
  {
    seq(|nodes|, i requires 0 <= i < |nodes| => nodes[i].pid)
  }

  /** The sequence without its element `k`. */
  function Without<T>(s: seq<T>, k: nat): seq<T>
    requires k < |s|
  {
    s[..k] + s[k + 1..]
  }

  /** Each node leads to the one behind it, and the last to none. */
  ghost predicate Linked(nodes: seq<WaitNode>)
    reads nodes
  {
    && (forall i :: 0 <= i < |nodes| - 1 ==> nodes[i].next == nodes[i + 1])
    && (nodes != [] ==> nodes[|nodes| - 1].next == null)
    && (forall i, j :: 0 <= i < j < |nodes| ==> nodes[i] != nodes[j])
  }

  class WaitList {
    var head: WaitNode?
    var tail: WaitNode?
    ghost var nodes: seq<WaitNode>

    ghost predicate Valid()
      reads this, nodes
    {
      && Linked(nodes)
      && head == (if nodes == [] then null else nodes[0])
      && tail == (if nodes == [] then null else nodes[|nodes| - 1])
    }

    constructor ()
      ensures Valid() && nodes == []
    {
      head, tail, nodes := null, null, [];
    }

    method IsEmpty() returns (b: bool)
      requires Valid()
      ensures b <==> nodes == []
    {
      b := head == null;
    }

    method Top() returns (pid: nat)
      requires Valid() && nodes != []
      ensures pid == PidsOf(nodes)[0]
    {
      pid := head.pid;
    }

    method Waiting(wait: WaitNode) returns (b: bool)
      requires Valid()
      ensures b <==> wait in nodes
    {
      var node := head;
      ghost var k := 0;
      while node != null
        invariant 0 <= k <= |nodes| && node == (if k < |nodes| then nodes[k] else null)
        invariant wait !in nodes[..k]
        decreases |nodes| - k
      {
        if node == wait {
          return true;
        }
        node := node.next;
        k := k + 1;
      }
      return false;
    }

    /** Appends a node. */
    method Append(wait: WaitNode)
      requires Valid() && wait !in nodes
      modifies this, wait, nodes
      ensures Valid() && nodes == old(nodes) + [wait]
    {
      wait.next := null;
      if tail == null {
        head, tail := wait, wait;
      } else {
        tail.next := wait;
        tail := wait;
      }
      nodes := nodes + [wait];
    }

    /** The current process waits; another is chosen when the caller gives the processor up. */
    method Enqueue(wait: WaitNode, ps: Processes)
      requires Valid() && wait !in nodes && Sized(ps.S()) && wait.pid == ps.currentPid
      modifies this, wait, nodes, ps.pcb
      ensures Valid() && nodes == old(nodes) + [wait]
      ensures ps.S() == SetState(old(ps.S()), wait.pid, Blocked)
    {
      Append(wait);
      ps.SetStateOf(wait.pid, Blocked);
    }

    method EnqueueTimeout(wait: WaitNode, ps: Processes, time: nat, frequency: nat)
      requires Valid() && wait !in nodes && Sized(ps.S()) && wait.pid == ps.currentPid
      modifies this, wait, nodes, ps.pcb
      ensures Valid() && nodes == old(nodes) + [wait]
      ensures ps.S() == SetState(SetTimeout(old(ps.S()), wait.pid, TicksFor(time, frequency)), wait.pid, BlockedTimeout)
    {
      Append(wait);
      ps.SetTimeoutOf(wait.pid, TicksFor(time, frequency), BlockedTimeout);
    }

    /** Drops the first node. */
    method Pop() returns (pid: nat)
      requires Valid() && nodes != []
      modifies this
      ensures Valid() && nodes == old(nodes)[1..] && pid == old(nodes)[0].pid
    {
      pid := head.pid;
      if head == tail {
        head, tail := null, null;
      } else {
        head := head.next;
      }
      nodes := nodes[1..];
    }

    /** The longest waiting process becomes ready. */
    method Dequeue(ps: Processes) returns (pid: nat)
      requires Valid() && nodes != [] && Sized(ps.S()) && Enabled(ps.S(), Unblock(nodes[0].pid))
      modifies this, ps.pcb
      ensures Valid() && nodes == old(nodes)[1..] && pid == old(nodes)[0].pid
      ensures ps.S() == SetState(old(ps.S()), pid, Ready)
      ensures old(ps.Valid()) ==> ps.Valid() && ps.S() == Apply(old(ps.S()), Unblock(pid))
    {
      pid := Pop();
      ps.UnblockProcess(pid);
    }

    /** As Dequeue, for a process that may have left its sleep by itself. */
    method DequeueHint(ps: Processes) returns (pid: nat)
      requires Valid() && nodes != [] && Sized(ps.S()) && nodes[0].pid < MAX_PROCESS && nodes[0].pid != ps.idlePid
      modifies this, ps.pcb
      ensures Valid() && nodes == old(nodes)[1..] && pid == old(nodes)[0].pid && |old(ps.S()).pcb| == MAX_PROCESS
      ensures ps.S() == if old(ps.S()).pcb[pid].state.Running? then old(ps.S()) else SetState(old(ps.S()), pid, Ready)
      ensures old(ps.Valid()) ==> (ps.Valid() <==> Live(old(ps.S()).pcb[pid]))
    {
      pid := Pop();
      ps.UnblockProcessHint(pid);
    }

    /** The node before a given one that is not the first. */
    method FindBefore(wait: WaitNode) returns (node: WaitNode, ghost k: nat)
      requires Valid() && wait in nodes && nodes[0] != wait
      ensures node in nodes && node.next == wait
      ensures k + 1 < |nodes| && nodes[k] == node && nodes[k + 1] == wait
    {
      node, k := head, 0;
      ghost var w :| 0 <= w < |nodes| && nodes[w] == wait;
      while node.next != null
        invariant 0 <= k < w && node == nodes[k] && node.next == nodes[k + 1]
        decreases |nodes| - k
      {
        if node.next == wait {
          return;
        }
        node := node.next;
        k := k + 1;
      }
      assert false;
    }

    /** Takes a node out. The list stays whole exactly if the node is the first or not
        the last: otherwise the end of the list is forgotten. */
    method Remove(wait: WaitNode) returns (ghost k: nat)
      requires Valid() && wait in nodes
      modifies this, nodes
      ensures k < |old(nodes)| && old(nodes)[k] == wait && nodes == Without(old(nodes), k)
      ensures Linked(nodes) && head == (if nodes == [] then null else nodes[0])
      ensures Valid() <==> k == 0 || k + 1 < |old(nodes)|
    {
      if head == wait {
        k := 0;
        RemoveFirst();
        return;
      }
      var node;
      node, k := FindBefore(wait);
      RemoveBehind(node, k);
      k := k + 1;
    }

    method RemoveFirst()
      requires Valid() && nodes != []
      modifies this
      ensures Valid() && nodes == Without(old(nodes), 0)
    {
      if head == tail {
        head, tail := null, null;
      } else {
        head := head.next;
      }
      nodes := Without(nodes, 0);
    }

    /** Takes out the node behind the `k`-th. */
    method RemoveBehind(node: WaitNode, ghost k: nat)
      requires Valid() && k + 1 < |nodes| && nodes[k] == node
      modifies this, node
      ensures nodes == Without(old(nodes), k + 1) && Linked(nodes) && head == nodes[0]
      ensures tail == (if k + 2 < |old(nodes)| then nodes[|nodes| - 1] else null)
    {
      assert node.next == nodes[k + 1];
      assert nodes[k + 1].next == if k + 2 < |nodes| then nodes[k + 2] else null;
      if tail == node.next {
        tail := node.next.next;
      }
      node.next := node.next.next;
      nodes := Without(nodes, k + 1);
    }
  }
}
