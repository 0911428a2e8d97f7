/** The cache of disk blocks: a hash table of chains over a fixed pool of blocks that
    are reused in the order in which they were last filled. */
module BlockCache {
  import opened CacheModel

  class Cache {
    const blocks: nat
    const memory: array<Block>
    const hashTable: array<int>
    var front: int
    var rear: int
    ghost var fifo: seq<nat>
    ghost var missed: seq<nat>

    ghost predicate Valid()
      reads this, memory, hashTable
    {
      && memory as object != hashTable
      && CacheOk(blocks, memory[..], hashTable[..], front, rear, fifo)
      && Keys(memory[..], fifo) == LastN(missed, blocks)
    }

    /** The keys held, oldest first. */
    ghost function Held(): seq<nat>
      requires Valid()
      reads this, memory, hashTable
    {
      LastN(missed, blocks)
    }

    constructor (blocks: nat)
      requires blocks >= 2
      ensures Valid() && this.blocks == blocks && missed == []
      ensures fresh(memory) && fresh(hashTable)
    {
      this.blocks := blocks;
      var mem := new Block[blocks](_ => Block(0, NIL, NIL, NIL, []));
      var table := new int[2 * blocks];
      for i := 0 to 2 * blocks
        invariant forall h :: 0 <= h < i ==> table[h] == NIL
      {
        table[i] := NIL;
      }
      var previous: int := NIL;
      for i := 0 to blocks
        invariant previous == i - 1
        invariant forall h :: 0 <= h < 2 * blocks ==> table[h] == NIL
        invariant forall k :: 0 <= k < i ==>
                    mem[k] == Block(0, NIL, if k < blocks - 1 then k + 1 else NIL, k - 1, [])
      {
        mem[i] := Block(0, NIL, if i < blocks - 1 then i + 1 else NIL, previous, []);
        previous := i;
      }
      memory := mem;
      hashTable := table;
      front := 0;
      rear := previous;
      fifo := seq(blocks, i => i);
      missed := [];
      new;
      FreshCache(memory[..], hashTable[..], fifo, blocks);
    }

    /** The block that holds a key, or NIL. */
    method BlockIfPresent(origKey: nat) returns (b: int)
      requires Valid()
      ensures b == NIL || 0 <= b < blocks
      ensures b != NIL <==> origKey in Held()
      ensures b != NIL ==> memory[b].key == origKey && b in fifo
    {
      var key := origKey % (blocks * 2);
      ghost var c := Chain(memory[..], blocks * 2, fifo, key);
      HeldInChain(memory[..], hashTable[..], fifo, origKey);
      ghost var j: nat;
      b, j := Follow(hashTable[key], origKey, c);
    }

    /** Follows the chain `c` from its head `first` to the block with the key. */
    method Follow(first: int, origKey: nat, ghost c: seq<nat>) returns (b: int, ghost i: nat)
      requires ChainOk(memory[..], first, c)
      ensures b == NIL ==> forall j :: 0 <= j < |c| ==> c[j] < memory.Length && memory[c[j]].key != origKey
      ensures b != NIL ==> i < |c| && b == c[i] && c[i] < memory.Length && memory[b].key == origKey
    {
      ghost var mem := memory[..];
      i := 0;
      if first != NIL {
        var entry := first;
        assert ChainHop(mem, c, 0);
        if memory[entry].key == origKey {
          return entry, 0;
        }
        while memory[entry].hashNext != NIL
          invariant 0 <= i < |c| && entry == c[i] && ChainHop(mem, c, i)
          invariant forall j :: 0 <= j <= i ==> c[j] < |mem| && mem[c[j]].key != origKey
          decreases |c| - i
        {
          entry := memory[entry].hashNext;
          i := i + 1;
          assert ChainHop(mem, c, i);
          if memory[entry].key == origKey {
            return entry, i;
          }
        }
      }
      b := NIL;
    }

    /** Drops the victim `b` from its chain, whose head it is. */
    method Evict(b: nat)
      requires Valid() && b == fifo[0]
      modifies hashTable
      ensures hashTable[..] == Evicted(memory[..], old(hashTable[..]), b)
    {
      VictimHeadsChain(memory[..], hashTable[..], fifo);
      if memory[b].key != 0 {
        var previousKey := memory[b].key % (blocks * 2);
        if hashTable[previousKey] == b {
          hashTable[previousKey] := memory[b].hashNext;
        } else {
          assert false;
        }
      }
    }

    /** Gives block `b` the key and links it at the end of the chain of that key. */
    method Insert(b: nat, origKey: nat)
      requires |hashTable[..]| == 2 * blocks && memory.Length == blocks >= 2 && memory as object != hashTable
      requires |fifo| == blocks && b < blocks && b !in fifo[1..] && forall i :: 0 <= i < blocks ==> fifo[i] < blocks
      requires TableOk(memory[..], hashTable[..], fifo[1..])
      modifies memory, hashTable
      ensures IsInsertion(old(memory[..]), memory[..], old(hashTable[..]), hashTable[..], fifo[1..], b, origKey)
      ensures OnlyChains(old(memory[..]), memory[..], b)
      ensures forall i :: 0 <= i < blocks ==> memory[i].payload == old(memory[i].payload)
    {
      var key := origKey % (blocks * 2);
      ghost var mem, table, s := memory[..], hashTable[..], fifo[1..];
      ghost var c := Chain(mem, blocks * 2, s, key);
      assert BucketOk(mem, table, s, key);
      ChainMembers(mem, blocks * 2, s, key);

      memory[b] := memory[b].(key := origKey);
      if hashTable[key] == NIL {
        memory[b] := memory[b].(hashNext := NIL);
        hashTable[key] := b;
      } else {
        var entry := LastOfChain(key, mem, c, b);
        memory[entry] := memory[entry].(hashNext := b);
        memory[b] := memory[b].(hashNext := NIL);
      }
      assert memory[..] == WithLast(mem, b, origKey, c);
      assert c != [] ==> c[|c| - 1] in c;
      InsertionWrites(mem, table, s, b, origKey, c);
      InsertionKeepsRest(mem, b, origKey, c);
    }

    /** Walks to the last block of a chain. */
    method LastOfChain(key: nat, ghost mem: Blocks, ghost c: seq<nat>, ghost b: nat) returns (entry: nat)
      requires key < hashTable.Length && hashTable[key] != NIL && |mem| == memory.Length
      requires ChainOk(mem, hashTable[key], c) && b !in c
      requires forall i :: 0 <= i < memory.Length && i != b ==> memory[i].hashNext == mem[i].hashNext
      ensures c != [] && entry == c[|c| - 1] && entry < memory.Length
    {
      assert ChainHop(mem, c, 0);
      entry := hashTable[key];
      ghost var i := 0;
      while memory[entry].hashNext != NIL
        invariant 0 <= i < |c| && entry == c[i] && ChainHop(mem, c, i)
        decreases |c| - i
      {
        entry := memory[entry].hashNext;
        i := i + 1;
        assert ChainHop(mem, c, i);
      }
    }

    /** Moves block `b` from the front of the queue to its rear. */
    method Rotate(b: nat)
      requires memory.Length == blocks >= 2 && IsQueue(blocks, fifo) && QueueLinked(memory[..], fifo)
      requires b == fifo[0] == front && rear == fifo[blocks - 1]
      modifies this`front, this`rear, memory
      ensures front == fifo[1] && rear == b && IsRotation(old(memory[..]), memory[..], blocks, fifo)
      ensures forall i :: 0 <= i < blocks ==> memory[i].payload == old(memory[i].payload)
    {
      assert QueueHop(memory[..], fifo, 0);
      front := memory[front].freeNext;
      memory[front] := memory[front].(freePrev := NIL);

      memory[rear] := memory[rear].(freeNext := b);
      memory[b] := memory[b].(freePrev := rear);
      rear := b;
    }

    /** Takes over the oldest block for a key that is not held. */
    method TakeOver(origKey: nat) returns (b: nat)
      requires Valid() && origKey != 0 && origKey !in Held()
      modifies this, memory, hashTable
      ensures Valid() && b < blocks && memory[b].key == origKey
      ensures missed == old(missed) + [origKey] && b == old(fifo[0]) && fifo == old(fifo[1..]) + [b]
      ensures forall i :: 0 <= i < blocks ==> memory[i].payload == old(memory[i].payload)
      ensures forall i :: 0 <= i < blocks && i != b ==> memory[i].key == old(memory[i].key)
    {
      b := front;
      ghost var mem, table := memory[..], hashTable[..];
      Evict(b);
      assert TableOk(mem, hashTable[..], fifo[1..]) by { EvictionKeepsTable(mem, table, fifo); }
      Insert(b, origKey);
      ghost var mid := memory[..];
      assert QueueLinked(mid, fifo) by { MissQueue(mem, mid, fifo); }
      Rotate(b);
      MissKeepsCache(blocks, mem, mid, memory[..], table, hashTable[..], fifo, origKey);
      LastNStep(missed, blocks, origKey);
      fifo := fifo[1..] + [b];
      missed := missed + [origKey];
    }

    /** The block for a key: the one that holds it, or the oldest block, taken over. */
    method GetBlock(origKey: nat) returns (b: nat, valid: bool)
      requires Valid() && origKey != 0
      modifies this, memory, hashTable
      ensures Valid() && b < blocks && memory[b].key == origKey && b in fifo
      ensures (valid <==> origKey in old(Held())) && origKey in Held()
      ensures valid ==> memory[..] == old(memory[..]) && missed == old(missed) && fifo == old(fifo)
      ensures !valid ==> missed == old(missed) + [origKey] && b == old(fifo[0]) && fifo == old(fifo[1..]) + [b]
      ensures forall i :: 0 <= i < blocks ==> memory[i].payload == old(memory[i].payload)
      ensures forall i :: 0 <= i < blocks && i != b ==> memory[i].key == old(memory[i].key)
    {
      var direct := BlockIfPresent(origKey);
      if direct != NIL {
        return direct, true;
      }
      valid := false;
      b := TakeOver(origKey);
      LastNStep(old(missed), blocks, origKey);
    }

    /** Overwrites the payload of a block. */
    method Fill(b: nat, data: Payload)
      requires Valid() && b < blocks
      modifies memory
      ensures Valid() && memory[..] == old(memory[..])[b := old(memory[b]).(payload := data)]
    {
      ghost var mem := memory[..];
      memory[b] := memory[b].(payload := data);
      assert memory[..] == mem[b := mem[b].(payload := data)];
      PayloadsDoNotMatter(blocks, mem, memory[..], hashTable[..], front, rear, fifo);
    }
  }

  lemma PayloadsDoNotMatter(n: nat, mem: Blocks, mem': Blocks, table: seq<int>, front: int, rear: int, fifo: seq<nat>)
    requires CacheOk(n, mem, table, front, rear, fifo) && |mem'| == n
    requires forall i :: 0 <= i < n ==> mem'[i] == mem[i].(payload := mem'[i].payload)
    ensures CacheOk(n, mem', table, front, rear, fifo) && Keys(mem', fifo) == Keys(mem, fifo)
  {
    TableFrame(mem, mem', table, fifo);
    KeysFrame(mem, mem', fifo);
    forall i {:trigger QueueHop(mem', fifo, i)} | 0 <= i < n - 1 ensures QueueHop(mem', fifo, i) {
      assert QueueHop(mem, fifo, i);
    }
    forall i, j {:trigger KeysDiffer(mem', fifo, i, j)} | 0 <= i < n && 0 <= j < n && i != j
      ensures KeysDiffer(mem', fifo, i, j)
    {
      assert KeysDiffer(mem, fifo, i, j);
    }
    forall i, j {:trigger UsedStays(mem', fifo, i, j)} | 0 <= i < j < n ensures UsedStays(mem', fifo, i, j) {
      assert UsedStays(mem, fifo, i, j);
    }
  }

  lemma MissQueue(mem: Blocks, mid: Blocks, fifo: seq<nat>)
    requires QueueLinked(mem, fifo) && OnlyChains(mem, mid, if fifo == [] then 0 else fifo[0])
    ensures QueueLinked(mid, fifo)
  {
    forall i {:trigger QueueHop(mid, fifo, i)} | 0 <= i < |fifo| - 1 ensures QueueHop(mid, fifo, i) {
      assert QueueHop(mem, fifo, i);
    }
  }

  /** A key is held exactly when a block of its chain carries it, and the chain can
      be followed from the table. */
  lemma HeldInChain(mem: Blocks, table: seq<int>, fifo: seq<nat>, k: nat)
    requires |table| > 0 && TableOk(mem, table, fifo) && forall i :: 0 <= i < |fifo| ==> fifo[i] < |mem|
    ensures var c := Chain(mem, |table|, fifo, k % |table|);
            && ChainOk(mem, table[k % |table|], c)
            && (forall j :: 0 <= j < |c| ==> c[j] < |mem| && c[j] in fifo)
            && (k in Keys(mem, fifo) <==> exists j :: 0 <= j < |c| && mem[c[j]].key == k)
  {
    var h := k % |table|;
    assert BucketOk(mem, table, fifo, h);
    var c := Chain(mem, |table|, fifo, h);
    ChainMembers(mem, |table|, fifo, h);
    KeysMembers(mem, fifo, k);
    if k != 0 && exists i :: 0 <= i < |fifo| && mem[fifo[i]].key == k {
      var i :| 0 <= i < |fifo| && mem[fifo[i]].key == k;
      assert fifo[i] in c;
    }
    forall j | 0 <= j < |c| ensures c[j] < |mem| && c[j] in fifo { assert c[j] in c; }
    if exists j :: 0 <= j < |c| && mem[c[j]].key == k {
      var j :| 0 <= j < |c| && mem[c[j]].key == k;
      assert c[j] in c;
      var i :| 0 <= i < |fifo| && fifo[i] == c[j];
    }
  }

  lemma {:induction false} UnusedChain(mem: Blocks, buckets: nat, s: seq<nat>, h: nat)
    requires buckets > 0 && forall i :: 0 <= i < |s| ==> s[i] < |mem| && mem[s[i]].key == 0
    ensures Chain(mem, buckets, s, h) == []
  {
    if s != [] { UnusedChain(mem, buckets, s[1..], h); }
  }

  /** All blocks unused and queued in memory order. */
  lemma FreshCache(mem: Blocks, table: seq<int>, fifo: seq<nat>, n: nat)
    requires n >= 2 && |mem| == n && |table| == 2 * n && fifo == seq(n, i => i)
    requires forall k :: 0 <= k < n ==> mem[k] == Block(0, NIL, if k < n - 1 then k + 1 else NIL, k - 1, [])
    requires forall h :: 0 <= h < 2 * n ==> table[h] == NIL
    ensures CacheOk(n, mem, table, 0, n - 1, fifo) && Keys(mem, fifo) == []
  {
    forall i {:trigger QueueHop(mem, fifo, i)} | 0 <= i < n - 1 ensures QueueHop(mem, fifo, i) {
    }
    forall h {:trigger BucketOk(mem, table, fifo, h)} | 0 <= h < 2 * n ensures BucketOk(mem, table, fifo, h) {
      UnusedChain(mem, 2 * n, fifo, h);
    }
    if Keys(mem, fifo) != [] {
      KeysMembers(mem, fifo, Keys(mem, fifo)[0]);
    }
  }
}
