/** The block cache as values: blocks threaded through hash chains and through one
    eviction queue. Block pointers are indices, NIL is the null pointer. */
module CacheModel {
  import opened Basics

  const NIL: int := -1

  type Payload = seq<Byte>

  datatype Block = Block(key: nat, hashNext: int, freeNext: int, freePrev: int, payload: Payload)

  type Blocks = seq<Block>

  // ----- The eviction queue -----

  /** A queue of all blocks, next victim first. */
  ghost predicate IsQueue(n: nat, fifo: seq<nat>)
  {
    |fifo| == n && Distinct(fifo) && forall i :: 0 <= i < n ==> fifo[i] < n
  }

  ghost predicate QueueHop(mem: Blocks, fifo: seq<nat>, i: nat)
  {
    && i + 1 < |fifo| && fifo[i] < |mem| && fifo[i + 1] < |mem|
    && mem[fifo[i]].freeNext == fifo[i + 1] && mem[fifo[i + 1]].freePrev == fifo[i]
  }

  /** The queue links follow the queue; what the last block points at is not used. */
  ghost predicate QueueLinked(mem: Blocks, fifo: seq<nat>)
  {
    forall i {:trigger QueueHop(mem, fifo, i)} :: 0 <= i < |fifo| - 1 ==> QueueHop(mem, fifo, i)
  }

  // ----- Hash chains -----

  predicate InBucket(b: Block, buckets: nat, h: nat)
    requires buckets > 0
  {
    b.key != 0 && b.key % buckets == h
  }

  /** The blocks of bucket `h` in the order in which they entered the queue. */
  ghost function Chain(mem: Blocks, buckets: nat, s: seq<nat>, h: nat): (c: seq<nat>)
    requires buckets > 0 && forall i :: 0 <= i < |s| ==> s[i] < |mem|
  {
    if s == [] then []
    else if InBucket(mem[s[0]], buckets, h) then [s[0]] + Chain(mem, buckets, s[1..], h)
    else Chain(mem, buckets, s[1..], h)
  }

  ghost predicate ChainHop(mem: Blocks, c: seq<nat>, i: nat)
  {
    i < |c| && c[i] < |mem| && mem[c[i]].hashNext == if i + 1 < |c| then c[i + 1] else NIL
  }

  /** Pointer `p` and the hash links spell out the chain `c`. */
  ghost predicate ChainOk(mem: Blocks, p: int, c: seq<nat>)
  {
    && p == (if c == [] then NIL else c[0])
    && forall i {:trigger ChainHop(mem, c, i)} :: 0 <= i < |c| ==> ChainHop(mem, c, i)
  }

  ghost predicate BucketOk(mem: Blocks, table: seq<int>, s: seq<nat>, h: nat)
  {
    h < |table| && (forall i :: 0 <= i < |s| ==> s[i] < |mem|) && ChainOk(mem, table[h], Chain(mem, |table|, s, h))
  }

  ghost predicate TableOk(mem: Blocks, table: seq<int>, s: seq<nat>)
  {
    forall h {:trigger BucketOk(mem, table, s, h)} :: 0 <= h < |table| ==> BucketOk(mem, table, s, h)
  }

  lemma {:induction false} ChainMembers(mem: Blocks, buckets: nat, s: seq<nat>, h: nat)
    requires buckets > 0 && forall i :: 0 <= i < |s| ==> s[i] < |mem|
    ensures forall x :: x in Chain(mem, buckets, s, h) <==> x in s && InBucket(mem[x], buckets, h)
  {
    if s != [] {
      ChainMembers(mem, buckets, s[1..], h);
      assert s == [s[0]] + s[1..];
    }
  }

  lemma {:induction false} ChainDistinct(mem: Blocks, buckets: nat, s: seq<nat>, h: nat)
    requires buckets > 0 && Distinct(s) && forall i :: 0 <= i < |s| ==> s[i] < |mem|
    ensures Distinct(Chain(mem, buckets, s, h))
  {
    if s != [] {
      ChainDistinct(mem, buckets, s[1..], h);
      ChainMembers(mem, buckets, s[1..], h);
    }
  }

  lemma {:induction false} ChainAppend(mem: Blocks, buckets: nat, s: seq<nat>, x: nat, h: nat)
    requires buckets > 0 && x < |mem| && forall i :: 0 <= i < |s| ==> s[i] < |mem|
    ensures Chain(mem, buckets, s + [x], h) ==
            Chain(mem, buckets, s, h) + if InBucket(mem[x], buckets, h) then [x] else []
  {
    if s == [] {
      assert s + [x] == [x] && [x][1..] == [];
    } else {
      ChainAppend(mem, buckets, s[1..], x, h);
      assert (s + [x])[1..] == s[1..] + [x];
    }
  }

  lemma {:induction false} ChainSameKeys(mem: Blocks, mem': Blocks, buckets: nat, s: seq<nat>, h: nat)
    requires buckets > 0 && |mem| == |mem'| && forall i :: 0 <= i < |s| ==> s[i] < |mem|
    requires forall i :: 0 <= i < |s| ==> mem[s[i]].key == mem'[s[i]].key
    ensures Chain(mem, buckets, s, h) == Chain(mem', buckets, s, h)
  {
    if s != [] { ChainSameKeys(mem, mem', buckets, s[1..], h); }
  }

  lemma ChainTail(mem: Blocks, p: int, c: seq<nat>)
    requires ChainOk(mem, p, c) && c != []
    ensures ChainHop(mem, c, 0) && ChainOk(mem, mem[c[0]].hashNext, c[1..])
  {
    assert ChainHop(mem, c, 0);
    forall i {:trigger ChainHop(mem, c[1..], i)} | 0 <= i < |c[1..]| ensures ChainHop(mem, c[1..], i) {
      assert ChainHop(mem, c, i + 1);
    }
  }

  lemma ChainFrame(mem: Blocks, mem': Blocks, p: int, c: seq<nat>)
    requires ChainOk(mem, p, c) && |mem| == |mem'|
    requires forall i :: 0 <= i < |c| && c[i] < |mem| ==> mem'[c[i]].hashNext == mem[c[i]].hashNext
    ensures ChainOk(mem', p, c)
  {
    forall i {:trigger ChainHop(mem', c, i)} | 0 <= i < |c| ensures ChainHop(mem', c, i) {
      assert ChainHop(mem, c, i);
    }
  }

  /** Linking `b` behind the last block of a chain. */
  lemma ChainExtend(mem: Blocks, mem': Blocks, p: int, c: seq<nat>, b: nat)
    requires ChainOk(mem, p, c) && c != [] && Distinct(c) && b !in c && |mem| == |mem'| && b < |mem|
    requires forall i :: 0 <= i < |c| - 1 && c[i] < |mem| ==> mem'[c[i]].hashNext == mem[c[i]].hashNext
    requires c[|c| - 1] < |mem| && mem'[c[|c| - 1]].hashNext == b && mem'[b].hashNext == NIL
    ensures ChainOk(mem', p, c + [b])
  {
    forall i {:trigger ChainHop(mem', c + [b], i)} | 0 <= i < |c + [b]| ensures ChainHop(mem', c + [b], i) {
      if i < |c| - 1 { assert ChainHop(mem, c, i); }
    }
  }

  // ----- The whole cache -----

  ghost predicate KeysDiffer(mem: Blocks, fifo: seq<nat>, i: nat, j: nat)
  {
    && i < |fifo| && j < |fifo| && fifo[i] < |mem| && fifo[j] < |mem|
    && (mem[fifo[i]].key != 0 ==> mem[fifo[i]].key != mem[fifo[j]].key)
  }

  /** No two blocks hold the same key. */
  ghost predicate KeysUnique(mem: Blocks, fifo: seq<nat>)
  {
    forall i, j {:trigger KeysDiffer(mem, fifo, i, j)} ::
      0 <= i < |fifo| && 0 <= j < |fifo| && i != j ==> KeysDiffer(mem, fifo, i, j)
  }

  ghost predicate UsedStays(mem: Blocks, fifo: seq<nat>, i: nat, j: nat)
  {
    && i < |fifo| && j < |fifo| && fifo[i] < |mem| && fifo[j] < |mem|
    && (mem[fifo[i]].key != 0 ==> mem[fifo[j]].key != 0)
  }

  /** Blocks never used stand before all used ones in the queue. */
  ghost predicate UnusedFirst(mem: Blocks, fifo: seq<nat>)
  {
    forall i, j {:trigger UsedStays(mem, fifo, i, j)} :: 0 <= i < j < |fifo| ==> UsedStays(mem, fifo, i, j)
  }

  ghost predicate CacheOk(n: nat, mem: Blocks, table: seq<int>, front: int, rear: int, fifo: seq<nat>)
  {
    && n >= 2 && |mem| == n && |table| == 2 * n
    && IsQueue(n, fifo) && front == fifo[0] && rear == fifo[n - 1] && mem[fifo[0]].freePrev == NIL
    && QueueLinked(mem, fifo) && TableOk(mem, table, fifo)
    && KeysUnique(mem, fifo) && UnusedFirst(mem, fifo)
  }

  /** The keys held, in the order in which they were missed. */
  ghost function Keys(mem: Blocks, s: seq<nat>): (k: seq<nat>)
    requires forall i :: 0 <= i < |s| ==> s[i] < |mem|
  {
    if s == [] then []
    else if mem[s[0]].key != 0 then [mem[s[0]].key] + Keys(mem, s[1..])
    else Keys(mem, s[1..])
  }

  // ----- First in, first out -----

  function LastN(s: seq<nat>, n: nat): seq<nat>
  {
    if |s| > n then s[|s| - n..] else s
  }

  lemma LastNStep(s: seq<nat>, n: nat, k: nat)
    requires n > 0
    ensures LastN(LastN(s, n) + [k], n) == LastN(s + [k], n)
    ensures k in LastN(s + [k], n)
  {
    var r := LastN(s + [k], n);
    assert r[|r| - 1] == k;
  }

  lemma {:induction false} KeysMembers(mem: Blocks, s: seq<nat>, k: nat)
    requires forall i :: 0 <= i < |s| ==> s[i] < |mem|
    ensures k in Keys(mem, s) <==> k != 0 && exists i :: 0 <= i < |s| && mem[s[i]].key == k
    ensures |Keys(mem, s)| <= |s|
  {
    if s != [] {
      KeysMembers(mem, s[1..], k);
      if i :| 0 <= i < |s| && mem[s[i]].key == k {
        assert i > 0 ==> s[1..][i - 1] == s[i];
      }
    }
  }

  lemma {:induction false} KeysAppend(mem: Blocks, s: seq<nat>, x: nat)
    requires x < |mem| && mem[x].key != 0 && forall i :: 0 <= i < |s| ==> s[i] < |mem|
    ensures Keys(mem, s + [x]) == Keys(mem, s) + [mem[x].key]
  {
    if s == [] {
      assert s + [x] == [x] && [x][1..] == [];
    } else {
      KeysAppend(mem, s[1..], x);
      assert (s + [x])[1..] == s[1..] + [x];
    }
  }

  lemma {:induction false} KeysFrame(mem: Blocks, mem': Blocks, s: seq<nat>)
    requires |mem| == |mem'| && forall i :: 0 <= i < |s| ==> s[i] < |mem| && mem[s[i]].key == mem'[s[i]].key
    ensures Keys(mem, s) == Keys(mem', s)
  {
    if s != [] { KeysFrame(mem, mem', s[1..]); }
  }

  lemma {:induction false} KeysFull(mem: Blocks, s: seq<nat>)
    requires forall i :: 0 <= i < |s| ==> s[i] < |mem| && mem[s[i]].key != 0
    ensures |Keys(mem, s)| == |s|
  {
    if s != [] { KeysFull(mem, s[1..]); }
  }

  /** A miss forgets the oldest key once the cache is full, and remembers the new one. */
  lemma MissIsFifo(mem: Blocks, mem': Blocks, fifo: seq<nat>, k: nat)
    requires fifo != [] && |mem| == |mem'| && k != 0 && Distinct(fifo) && UnusedFirst(mem, fifo)
    requires forall i :: 0 <= i < |fifo| ==> fifo[i] < |mem|
    requires mem'[fifo[0]].key == k
    requires forall i :: 1 <= i < |fifo| ==> mem'[fifo[i]].key == mem[fifo[i]].key
    ensures Keys(mem', fifo[1..] + [fifo[0]]) == LastN(Keys(mem, fifo) + [k], |fifo|)
  {
    var s, old' := fifo[1..], Keys(mem, fifo[1..]);
    assert Keys(mem', s + [fifo[0]]) == old' + [k] by {
      KeysAppend(mem', s, fifo[0]);
      KeysFrame(mem, mem', s);
    }
    if mem[fifo[0]].key == 0 {
      assert |old'| <= |s| by { KeysMembers(mem, s, k); }
      assert Keys(mem, fifo) == old';
    } else {
      assert |old'| == |s| by { KeysFullBehind(mem, fifo); }
      assert Keys(mem, fifo) == [mem[fifo[0]].key] + old';
      ForgetOldest(mem[fifo[0]].key, old', k);
    }
  }

  lemma ForgetOldest(x: nat, s: seq<nat>, k: nat)
    ensures LastN([x] + s + [k], |s| + 1) == s + [k]
  {
  }

  lemma KeysFullBehind(mem: Blocks, fifo: seq<nat>)
    requires fifo != [] && UnusedFirst(mem, fifo) && forall i :: 0 <= i < |fifo| ==> fifo[i] < |mem|
    requires mem[fifo[0]].key != 0
    ensures |Keys(mem, fifo[1..])| == |fifo| - 1
  {
    var s := fifo[1..];
    forall i | 0 <= i < |s| ensures mem[s[i]].key != 0 { assert UsedStays(mem, fifo, 0, i + 1); }
    KeysFull(mem, s);
  }

  // ----- What a miss does to the chains -----

  /** The table after the victim at the head of the queue has been dropped from it. */
  ghost function Evicted(mem: Blocks, table: seq<int>, b: nat): seq<int>
    requires b < |mem| && |table| > 0
  {
    if mem[b].key == 0 then table else table[mem[b].key % |table| := mem[b].hashNext]
  }

  /** The victim is always the head of its chain. */
  lemma VictimHeadsChain(mem: Blocks, table: seq<int>, fifo: seq<nat>)
    requires |table| > 0 && fifo != [] && TableOk(mem, table, fifo) && fifo[0] < |mem|
    ensures mem[fifo[0]].key != 0 ==> table[mem[fifo[0]].key % |table|] == fifo[0]
  {
    assert BucketOk(mem, table, fifo, mem[fifo[0]].key % |table|);
  }

  lemma EvictionKeepsTable(mem: Blocks, table: seq<int>, fifo: seq<nat>)
    requires |table| > 0 && fifo != [] && TableOk(mem, table, fifo) && fifo[0] < |mem|
    ensures TableOk(mem, Evicted(mem, table, fifo[0]), fifo[1..])
  {
    var b := fifo[0];
    var table' := Evicted(mem, table, b);
    forall h {:trigger BucketOk(mem, table', fifo[1..], h)} | 0 <= h < |table'|
      ensures BucketOk(mem, table', fifo[1..], h)
    {
      assert BucketOk(mem, table, fifo, h);
      if InBucket(mem[b], |table|, h) {
        var c := Chain(mem, |table|, fifo, h);
        ChainTail(mem, table[h], c);
        assert c[1..] == Chain(mem, |table|, fifo[1..], h);
      }
    }
  }

  /** `b` with key `k` is linked at the end of its chain. */
  ghost predicate IsInsertion(mem: Blocks, mem': Blocks, table: seq<int>, table': seq<int>, s: seq<nat>, b: nat, k: nat)
    requires |table| > 0 && |mem| == |mem'| && b < |mem| && forall i :: 0 <= i < |s| ==> s[i] < |mem|
  {
    LinkedAtEnd(mem, mem', table, table', s, b, k, Chain(mem, |table|, s, k % |table|))
  }

  /** `b` with key `k` is linked behind the last block of `c`. */
  ghost predicate LinkedAtEnd(mem: Blocks, mem': Blocks, table: seq<int>, table': seq<int>, s: seq<nat>, b: nat,
      k: nat, c: seq<nat>)
    requires |table| > 0 && |mem| == |mem'| && b < |mem| && forall i :: 0 <= i < |s| ==> s[i] < |mem|
  {
    && mem'[b].key == k && mem'[b].hashNext == NIL
    && (forall i :: 0 <= i < |s| ==> mem'[s[i]].key == mem[s[i]].key)
    && table' == (if c == [] then table[k % |table| := b] else table)
    && (c != [] ==> c[|c| - 1] < |mem| && mem'[c[|c| - 1]].hashNext == b)
    && (forall i :: 0 <= i < |s| && (c == [] || s[i] != c[|c| - 1]) ==> mem'[s[i]].hashNext == mem[s[i]].hashNext)
  }

  /** The writes of an insertion: the key of `b`, its link and that of the last of the chain `c`. */
  ghost function WithLast(mem: Blocks, b: nat, k: nat, c: seq<nat>): Blocks
    requires b < |mem| && (c != [] ==> c[|c| - 1] < |mem|)
  {
    var linked := if c == [] then mem else mem[c[|c| - 1] := mem[c[|c| - 1]].(hashNext := b)];
    linked[b := linked[b].(key := k, hashNext := NIL)]
  }

  lemma InsertionWrites(mem: Blocks, table: seq<int>, s: seq<nat>, b: nat, k: nat, c: seq<nat>)
    requires |table| > 0 && b < |mem| && b !in s && forall i :: 0 <= i < |s| ==> s[i] < |mem|
    requires c != [] ==> c[|c| - 1] in s && c[|c| - 1] < |mem|
    ensures var table' := if c == [] then table[k % |table| := b] else table;
            LinkedAtEnd(mem, WithLast(mem, b, k, c), table, table', s, b, k, c)
  {
    forall i | 0 <= i < |s|
      ensures WithLast(mem, b, k, c)[s[i]].key == mem[s[i]].key
      ensures c == [] || s[i] != c[|c| - 1] ==> WithLast(mem, b, k, c)[s[i]].hashNext == mem[s[i]].hashNext
    {
      assert s[i] in s && s[i] != b;
    }
  }

  lemma InsertionKeepsRest(mem: Blocks, b: nat, k: nat, c: seq<nat>)
    requires b < |mem| && (c != [] ==> c[|c| - 1] < |mem|)
    ensures OnlyChains(mem, WithLast(mem, b, k, c), b)
    ensures forall i :: 0 <= i < |mem| ==> WithLast(mem, b, k, c)[i].payload == mem[i].payload
  {
  }

  lemma InsertionKeepsTable(mem: Blocks, mem': Blocks, table: seq<int>, table': seq<int>, s: seq<nat>, b: nat, k: nat)
    requires |table| > 0 && |mem| == |mem'| && b < |mem| && forall i :: 0 <= i < |s| ==> s[i] < |mem|
    requires TableOk(mem, table, s) && Distinct(s) && b !in s && k != 0
    requires IsInsertion(mem, mem', table, table', s, b, k)
    ensures TableOk(mem', table', s + [b])
  {
    forall h {:trigger BucketOk(mem', table', s + [b], h)} | 0 <= h < |table'|
      ensures BucketOk(mem', table', s + [b], h)
    {
      assert BucketOk(mem, table, s, h);
      if h == k % |table| {
        InsertionHere(mem, mem', table, table', s, b, k);
      } else {
        InsertionElsewhere(mem, mem', table, table', s, b, k, h);
      }
    }
  }

  lemma InsertionElsewhere(mem: Blocks, mem': Blocks, table: seq<int>, table': seq<int>, s: seq<nat>, b: nat, k: nat,
      h: nat)
    requires |table| > 0 && |mem| == |mem'| && b < |mem| && forall i :: 0 <= i < |s| ==> s[i] < |mem|
    requires BucketOk(mem, table, s, h) && h != k % |table|
    requires IsInsertion(mem, mem', table, table', s, b, k)
    ensures BucketOk(mem', table', s + [b], h)
  {
    var n := |table|;
    var c := Chain(mem, n, s, h);
    ChainSameKeys(mem, mem', n, s, h);
    ChainAppend(mem', n, s, b, h);
    assert c + [] == c;
    ChainMembers(mem, n, s, h);
    ChainMembers(mem, n, s, k % n);
    ChainFrame(mem, mem', table[h], c);
  }

  lemma InsertionHere(mem: Blocks, mem': Blocks, table: seq<int>, table': seq<int>, s: seq<nat>, b: nat, k: nat)
    requires |table| > 0 && |mem| == |mem'| && b < |mem| && forall i :: 0 <= i < |s| ==> s[i] < |mem|
    requires BucketOk(mem, table, s, k % |table|) && Distinct(s) && b !in s && k != 0
    requires IsInsertion(mem, mem', table, table', s, b, k)
    ensures BucketOk(mem', table', s + [b], k % |table|)
  {
    var n, h := |table|, k % |table|;
    var c := Chain(mem, n, s, h);
    assert Chain(mem', n, s + [b], h) == c + [b] by {
      ChainSameKeys(mem, mem', n, s, h);
      ChainAppend(mem', n, s, b, h);
    }
    assert ChainOk(mem', table'[h], c + [b]) by {
      if c == [] {
        assert c + [b] == [b] && ChainHop(mem', [b], 0);
      } else {
        ChainMembers(mem, n, s, h);
        ChainDistinct(mem, n, s, h);
        ChainExtend(mem, mem', table[h], c, b);
      }
    }
  }

  /** Queue links and payloads play no part in the chains. */
  lemma TableFrame(mem: Blocks, mem': Blocks, table: seq<int>, s: seq<nat>)
    requires |table| > 0 && TableOk(mem, table, s) && |mem| == |mem'|
    requires forall i :: 0 <= i < |mem| ==> mem'[i].key == mem[i].key && mem'[i].hashNext == mem[i].hashNext
    ensures TableOk(mem', table, s)
  {
    forall h {:trigger BucketOk(mem', table, s, h)} | 0 <= h < |table| ensures BucketOk(mem', table, s, h) {
      assert BucketOk(mem, table, s, h);
      ChainSameKeys(mem, mem', |table|, s, h);
      ChainFrame(mem, mem', table[h], Chain(mem, |table|, s, h));
    }
  }

  /** Moving the head of the queue to its end. */
  lemma RotationKeepsQueue(mem: Blocks, mem': Blocks, n: nat, fifo: seq<nat>)
    requires n >= 2 && |mem| == n == |mem'| && IsQueue(n, fifo) && QueueLinked(mem, fifo)
    requires mem'[fifo[n - 1]].freeNext == fifo[0] && mem'[fifo[0]].freePrev == fifo[n - 1]
    requires forall i :: 0 <= i < n && i != fifo[n - 1] ==> mem'[i].freeNext == mem[i].freeNext
    requires forall i :: 0 <= i < n && i != fifo[0] && i != fifo[1] ==> mem'[i].freePrev == mem[i].freePrev
    ensures IsQueue(n, fifo[1..] + [fifo[0]]) && QueueLinked(mem', fifo[1..] + [fifo[0]])
  {
    var fifo' := fifo[1..] + [fifo[0]];
    forall i {:trigger QueueHop(mem', fifo', i)} | 0 <= i < n - 1 ensures QueueHop(mem', fifo', i) {
      if i < n - 2 { assert QueueHop(mem, fifo, i + 1); }
    }
  }

  // ----- A whole miss -----

  /** The queue writes of a miss: `b` moves from the front to the rear. */
  ghost predicate IsRotation(mem: Blocks, mem': Blocks, n: nat, fifo: seq<nat>)
    requires n >= 2 && |mem| == n == |mem'| && IsQueue(n, fifo)
  {
    && mem'[fifo[n - 1]].freeNext == fifo[0] && mem'[fifo[0]].freePrev == fifo[n - 1] && mem'[fifo[1]].freePrev == NIL
    && (forall i :: 0 <= i < n && i != fifo[n - 1] ==> mem'[i].freeNext == mem[i].freeNext)
    && (forall i :: 0 <= i < n && i != fifo[0] && i != fifo[1] ==> mem'[i].freePrev == mem[i].freePrev)
    && (forall i :: 0 <= i < n ==> mem'[i].key == mem[i].key && mem'[i].hashNext == mem[i].hashNext)
  }

  /** The insertion touches no queue link, and no key but that of `b`. */
  ghost predicate OnlyChains(mem: Blocks, mem': Blocks, b: nat)
  {
    && |mem| == |mem'|
    && (forall i :: 0 <= i < |mem| ==> mem'[i].freeNext == mem[i].freeNext && mem'[i].freePrev == mem[i].freePrev)
    && (forall i :: 0 <= i < |mem| && i != b ==> mem'[i].key == mem[i].key)
  }

  lemma MissKeepsCache(n: nat, mem: Blocks, mid: Blocks, mem': Blocks, table: seq<int>, table': seq<int>,
      fifo: seq<nat>, k: nat)
    requires n >= 2 && |fifo| == n && CacheOk(n, mem, table, fifo[0], fifo[n - 1], fifo) && k != 0
    requires k !in Keys(mem, fifo)
    requires OnlyChains(mem, mid, fifo[0]) && |mem'| == n
    requires IsInsertion(mem, mid, Evicted(mem, table, fifo[0]), table', fifo[1..], fifo[0], k)
    requires IsRotation(mid, mem', n, fifo)
    ensures CacheOk(n, mem', table', fifo[1], fifo[0], fifo[1..] + [fifo[0]])
    ensures Keys(mem', fifo[1..] + [fifo[0]]) == LastN(Keys(mem, fifo) + [k], n)
  {
    var fifo' := fifo[1..] + [fifo[0]];
    assert TableOk(mem', table', fifo') by {
      EvictionKeepsTable(mem, table, fifo);
      InsertionKeepsTable(mem, mid, Evicted(mem, table, fifo[0]), table', fifo[1..], fifo[0], k);
      TableFrame(mid, mem', table', fifo');
    }
    assert IsQueue(n, fifo') && QueueLinked(mem', fifo') by { MissKeepsQueue(n, mem, mid, mem', fifo); }
    assert KeysUnique(mem', fifo') && UnusedFirst(mem', fifo') by { MissKeepsKeys(n, mem, mem', fifo, k); }
    MissIsFifo(mem, mem', fifo, k);
  }

  lemma MissKeepsQueue(n: nat, mem: Blocks, mid: Blocks, mem': Blocks, fifo: seq<nat>)
    requires n >= 2 && |mem| == n == |mem'| && IsQueue(n, fifo) && QueueLinked(mem, fifo)
    requires OnlyChains(mem, mid, fifo[0]) && IsRotation(mid, mem', n, fifo)
    ensures IsQueue(n, fifo[1..] + [fifo[0]]) && QueueLinked(mem', fifo[1..] + [fifo[0]])
  {
    RotationKeepsQueue(mem, mem', n, fifo);
  }

  lemma MissKeepsKeys(n: nat, mem: Blocks, mem': Blocks, fifo: seq<nat>, k: nat)
    requires n >= 2 && |mem| == n == |mem'| && IsQueue(n, fifo) && KeysUnique(mem, fifo) && UnusedFirst(mem, fifo)
    requires k != 0 && k !in Keys(mem, fifo) && mem'[fifo[0]].key == k
    requires forall i :: 0 <= i < n && i != fifo[0] ==> mem'[i].key == mem[i].key
    ensures KeysUnique(mem', fifo[1..] + [fifo[0]]) && UnusedFirst(mem', fifo[1..] + [fifo[0]])
  {
    var fifo' := fifo[1..] + [fifo[0]];
    KeysMembers(mem, fifo, k);
    forall i, j {:trigger KeysDiffer(mem', fifo', i, j)} | 0 <= i < n && 0 <= j < n && i != j
      ensures KeysDiffer(mem', fifo', i, j)
    {
      assert i < n - 1 && j < n - 1 ==> KeysDiffer(mem, fifo, i + 1, j + 1);
    }
    forall i, j {:trigger UsedStays(mem', fifo', i, j)} | 0 <= i < j < n ensures UsedStays(mem', fifo', i, j) {
      assert j < n - 1 ==> UsedStays(mem, fifo, i + 1, j + 1);
    }
  }
}
