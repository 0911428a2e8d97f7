/** The kernel heap: boundary-tagged chunks, a circular list of the free ones,
    first fit, splitting, coalescing with both neighbours, growth on demand. */
module Heap {
  import opened HeapModel
  import opened HeapSteps

  predicate Aligned(value: nat)
  {
    value % ALIGNMENT == 0
  }

  /** The size actually searched for, computed on 64-bit words. */
  function RoundRequest(bytes: nat): (r: nat)
    requires bytes < WORD
    ensures r < WORD
  {
    var atLeast := if bytes < MIN_SPLIT then MIN_SPLIT else bytes;
    var sizeToAlign := (atLeast + FOOTER_SIZE) % WORD;
    if Aligned(sizeToAlign) then atLeast
    else ((sizeToAlign / ALIGNMENT + 1) * ALIGNMENT + WORD - FOOTER_SIZE) % WORD
  }

  /** Pages asked of the page allocator for a request of `bytes`, on 64-bit words. */
  function BlocksFor(bytes: nat): (blocks: nat)
    requires bytes < WORD
  {
    if bytes == 0 then MIN_BLOCKS
    else
      var necessary := (bytes + META_SIZE) % WORD / BLOCK_SIZE + 1;
      if necessary > MIN_BLOCKS then necessary else MIN_BLOCKS
  }

  /** Bytes one expansion adds, on 64-bit words. */
  function GrowthFor(bytes: nat): nat
    requires bytes < WORD
  {
    BlocksFor(bytes) * BLOCK_SIZE % WORD
  }

  /** A chunk larger than this is split for a request of `bytes`, on 64-bit words. */
  function SplitLimit(bytes: nat): nat
  {
    ((bytes + META_SIZE) % WORD + MIN_SPLIT + META_SIZE) % WORD
  }

  /** Rounding keeps the tag alignment, and never shrinks a request unless
      the word overflows: the requests it fails are the top seven. */
  lemma RoundingExact(bytes: nat)
    requires bytes < WORD
    ensures RoundRequest(bytes) % ALIGNMENT == 8 && RoundRequest(bytes) >= 8
    ensures RoundRequest(bytes) >= bytes <==> bytes <= WORD - FOOTER_SIZE
  {
    var atLeast := if bytes < MIN_SPLIT then MIN_SPLIT else bytes;
    var s := (atLeast + FOOTER_SIZE) % WORD;
    assert s == if atLeast + FOOTER_SIZE < WORD then atLeast + FOOTER_SIZE else atLeast + FOOTER_SIZE - WORD;
    if Aligned(s) {
      FooterOff(atLeast, s);
    } else {
      NextMultiple(s);
      BelowWord((s / ALIGNMENT + 1) * ALIGNMENT);
    }
  }

  /** A size that a chunk for `bytes` may have: no less than the request and the smallest
      payload, with a footer that keeps the next chunk aligned. */
  predicate Serves(m: nat, bytes: nat)
  {
    m % 16 == 8 && m >= 24 && m >= bytes
  }

  /** The rounded request is the least of them, unless the word overflows. */
  lemma RoundingIsLeast(bytes: nat, m: nat)
    requires bytes < WORD
    ensures Serves(RoundRequest(bytes), bytes) <==> bytes <= WORD - 8
    ensures bytes <= WORD - 8 && Serves(m, bytes) ==> RoundRequest(bytes) <= m
  {
    RoundingExact(bytes);
    var s := (if bytes < MIN_SPLIT then MIN_SPLIT else bytes) + FOOTER_SIZE;
    if s < WORD {
      assert s % WORD == s;
      NextMultiple(s);
      BelowWord((s / ALIGNMENT + 1) * ALIGNMENT);
      assert Serves(m, bytes) ==> (m + 8) % ALIGNMENT == 0 && m + 8 >= s;
    }
  }

  lemma FooterOff(n: nat, s: nat)
    requires s == n + FOOTER_SIZE || s + WORD == n + FOOTER_SIZE
    requires s % ALIGNMENT == 0
    ensures n % ALIGNMENT == 8
  {
    assert s == ALIGNMENT * (s / ALIGNMENT) && WORD == ALIGNMENT * 0x1000_0000_0000_0000;
  }

  lemma NextMultiple(s: nat)
    ensures var up := (s / ALIGNMENT + 1) * ALIGNMENT; s < up <= s + ALIGNMENT && up % ALIGNMENT == 0
  {
  }

  /** Taking the footer off a multiple of the alignment. */
  lemma BelowWord(up: nat)
    requires 0 < up <= WORD && up % ALIGNMENT == 0
    ensures (up + WORD - FOOTER_SIZE) % WORD == up - FOOTER_SIZE && (up - FOOTER_SIZE) % ALIGNMENT == 8
  {
  }

  /** One expansion is enough for the request that caused it, exactly when its pages
      do not overflow the word. */
  lemma ExpansionFits(bytes: nat)
    requires bytes < WORD
    ensures GrowthFor(bytes) >= bytes + META_SIZE <==> bytes + META_SIZE < WORD - BLOCK_SIZE
    ensures bytes + META_SIZE < WORD - BLOCK_SIZE ==> GrowthFor(bytes) == BlocksFor(bytes) * BLOCK_SIZE
  {
    if bytes + META_SIZE < WORD {
      assert (bytes + META_SIZE) % WORD == bytes + META_SIZE;
      PagesOnWords((bytes + META_SIZE) / BLOCK_SIZE + 1);
    } else {
      assert (bytes + META_SIZE) % WORD == bytes + META_SIZE - WORD;
    }
  }

  /** One expansion asks for the fewest pages that hold the request and its tags with room
      to spare, and for four at least. */
  lemma GrowthIsLeast(bytes: nat, pages: nat)
    requires bytes + META_SIZE < WORD - BLOCK_SIZE
    ensures GrowthFor(bytes) % 4096 == 0 && GrowthFor(bytes) >= 16384 && GrowthFor(bytes) > bytes + 40
    ensures pages >= 4 && pages * 4096 > bytes + 40 ==> GrowthFor(bytes) <= pages * 4096
  {
    ExpansionFits(bytes);
    assert (bytes + META_SIZE) % WORD == bytes + META_SIZE;
  }

  lemma PagesOnWords(blocks: nat)
    requires 0 < blocks <= WORD / BLOCK_SIZE
    ensures blocks * BLOCK_SIZE % WORD == if blocks == WORD / BLOCK_SIZE then 0 else blocks * BLOCK_SIZE
  {
  }

  /** The split test is the one intended exactly when it does not overflow. */
  lemma SplitLimitExact(bytes: nat)
    requires bytes < WORD
    ensures SplitLimit(bytes) == bytes + MIN_SPLIT + 2 * META_SIZE <==> bytes + MIN_SPLIT + 2 * META_SIZE < WORD
  {
  }

  /** The largest request for which no step overflows the word. */
  const MAX_REQUEST: nat := WORD - 4152

  /** A request is rounded up, met by a single expansion and split as intended exactly
      up to there. */
  lemma RequestIsServable(bytes: nat)
    requires bytes < WORD
    ensures var n := RoundRequest(bytes);
            n >= bytes && GrowthFor(n) >= n + META_SIZE && SplitLimit(n) == n + MIN_SPLIT + 2 * META_SIZE
            <==> bytes <= MAX_REQUEST
    ensures bytes <= MAX_REQUEST ==> RoundRequest(bytes) + META_SIZE < WORD - BLOCK_SIZE
  {
    var n := RoundRequest(bytes);
    assert n % ALIGNMENT == 8 && (n >= bytes <==> bytes <= WORD - FOOTER_SIZE) by { RoundingExact(bytes); }
    assert GrowthFor(n) >= n + META_SIZE <==> n <= MAX_REQUEST by {
      ExpansionFits(n);
      AtLimit(n);
    }
    SplitLimitExact(n);
    if bytes <= MAX_REQUEST { RoundingStaysBelow(bytes); }
  }

  /** The limit is itself a rounded request, so none falls between. */
  lemma AtLimit(n: nat)
    requires n % ALIGNMENT == 8
    ensures n + META_SIZE < WORD - BLOCK_SIZE <==> n <= MAX_REQUEST
  {
  }

  lemma RoundingStaysBelow(bytes: nat)
    requires bytes <= MAX_REQUEST
    ensures RoundRequest(bytes) <= MAX_REQUEST
  {
    var s := (if bytes < MIN_SPLIT then MIN_SPLIT else bytes) + FOOTER_SIZE;
    assert s % WORD == s;
    NextMultiple(s);
    BelowWord((s / ALIGNMENT + 1) * ALIGNMENT);
  }

  /** `n` is the least size that serves `bytes`. */
  ghost predicate Least(n: nat, bytes: nat)
  {
    Serves(n, bytes) && forall m :: Serves(m, bytes) ==> n <= m
  }

  lemma RoundedIsLeast(bytes: nat)
    requires bytes <= MAX_REQUEST
    ensures Least(RoundRequest(bytes), bytes) && RoundRequest(bytes) + META_SIZE < WORD - BLOCK_SIZE
  {
    RoundingIsLeast(bytes, 0);
    forall m | Serves(m, bytes) ensures RoundRequest(bytes) <= m { RoundingIsLeast(bytes, m); }
    RequestIsServable(bytes);
  }

  /** The first request beyond it asks for a region of no pages at all... */
  lemma FirstUnservable()
    ensures RoundRequest(MAX_REQUEST + 1) == WORD - 4136 && GrowthFor(WORD - 4136) == 0
  {
    var s := MAX_REQUEST + 1 + FOOTER_SIZE;
    assert s % WORD == s && s / ALIGNMENT == (WORD - 4144) / ALIGNMENT && !Aligned(s);
    BelowWord(WORD - 4128);
    PagesOnWords(WORD / BLOCK_SIZE);
  }

  /** ...further on, a chunk that just fits would be split... */
  lemma SplitCanWrap()
    ensures RoundRequest(WORD - 56) == WORD - 56 && SplitLimit(WORD - 56) == 48
  {
  }

  /** ...and at the end a request comes back with fewer bytes than it asked for. */
  lemma RoundingCanShrink()
    ensures RoundRequest(WORD - 1) == 8
  {
    assert (WORD - 1 + FOOTER_SIZE) % WORD == 7;
    assert (7 / ALIGNMENT + 1) * ALIGNMENT == 16;
  }

  // ----- Neighbours -----

  function LeftBlock(t: Tags, b: Addr): (a: Addr)
    requires b in t.left ==>
               b >= FOOTER_SIZE && b - FOOTER_SIZE in t.footer && b >= META_SIZE + t.footer[b - FOOTER_SIZE]
  {
    if b in t.left then b - FOOTER_SIZE - t.footer[b - FOOTER_SIZE] - HEADER_SIZE else NULL
  }

  function RightBlock(t: Tags, b: Addr): (c: Addr)
    requires b in t.size
  {
    if b in t.right then b + META_SIZE + t.size[b] else NULL
  }

  /** Going right and then left, or left and then right, comes back. */
  lemma NeighboursInverse(t: Tags, g: Layout, b: Addr)
    requires Tiled(t, g) && b in g.chunks
    ensures ChunkOk(t, g, b)
    ensures (b in t.right <==> RightBlock(t, b) != NULL) && (b in t.left <==> LeftBlock(t, b) != NULL)
    ensures b in t.right ==>
              var c := RightBlock(t, b);
              c in g.chunks && ChunkOk(t, g, c) && c in t.left && LeftBlock(t, c) == b
    ensures b in t.left ==>
              var a := LeftBlock(t, b);
              a in g.chunks && ChunkOk(t, g, a) && a in t.right && RightBlock(t, a) == b
  {
    assert ChunkOk(t, g, b);
    if b in t.right {
      assert ChunkOk(t, g, End(t, b));
    }
    if b in t.left {
      var a := LeftBlock(t, b);
      assert ChunkOk(t, g, a);
      assert RegionOk(g, g.home[a]);
    }
  }

  /** Where the chunk starts that the used chunk `start` becomes part of when it is freed. */
  ghost function MergedStart(t: Tags, free: set<Addr>, start: Addr): Addr
    requires start in t.left ==> start >= FOOTER_SIZE && start - FOOTER_SIZE in t.footer
    requires start in t.left ==> start >= META_SIZE + t.footer[start - FOOTER_SIZE]
  {
    if start in t.left && LeftBlock(t, start) in free then LeftBlock(t, start) else start
  }

  /** Chunk `b` is now the first on the list, and those that stayed follow in their old order. */
  ghost predicate AtFront(s: State, s': State, b: Addr)
  {
    |s.ring| > 0 && |s'.ring| > 1 && s'.ring[1] == b && s'.ring[2..] == Kept(s.ring[1..], s'.free - {b})
  }

  lemma FrontOfList(s: State, m: State, b: Addr)
    requires |s.ring| > 0 && OnRing(m, 0) && b !in m.free && m.ring[1..] == Kept(s.ring[1..], m.free)
    ensures AtFront(s, Listed(m, 0, b), b)
  {
    assert m.free + {b} - {b} == m.free;
  }

  /** Some free chunk is large enough. */
  ghost predicate SomeFit(t: Tags, ring: seq<Addr>, bytes: nat)
    requires forall i :: 0 <= i < |ring| ==> ring[i] in t.size
  {
    exists i :: 1 <= i < |ring| && t.size[ring[i]] >= bytes
  }

  /** The chunk at place `k` of the list is the first that is large enough. */
  ghost predicate FirstAt(size: map<Addr, nat>, ring: seq<Addr>, n: nat, k: nat)
    requires forall i :: 0 <= i < |ring| ==> ring[i] in size
  {
    1 <= k < |ring| && size[ring[k]] >= n && forall i :: 1 <= i < k ==> size[ring[i]] < n
  }

  /** The chunk at place `k` of the list is handed out for `n` bytes: with more than 104 to
      spare it is cut, and the rest takes its place; otherwise it leaves the list whole. */
  ghost predicate Carved(size: map<Addr, nat>, ring: seq<Addr>, n: nat, k: nat,
                         size': map<Addr, nat>, ring': seq<Addr>)
    requires 1 <= k < |ring| && ring[k] in size
  {
    && ring[k] in size'
    && if size[ring[k]] > n + 104 then size'[ring[k]] == n && ring' == ring[k := ring[k] + n + 40]
       else size'[ring[k]] == size[ring[k]] && ring' == ring[..k] + ring[k + 1..]
  }

  /** The first chunk that is large enough is handed out. */
  ghost predicate Served(size: map<Addr, nat>, ring: seq<Addr>, n: nat, c: Addr,
                         size': map<Addr, nat>, ring': seq<Addr>)
    requires forall i :: 0 <= i < |ring| ==> ring[i] in size
  {
    exists k: nat :: FirstAt(size, ring, n, k) && ring[k] == c && Carved(size, ring, n, k, size', ring')
  }

  /** A request is served from the list, or from a new region at its front when nothing fits. */
  ghost predicate ServedFrom(t: Tags, ring: seq<Addr>, region: Addr, n: nat, c: Addr, t': Tags, ring': seq<Addr>)
    requires |ring| > 0 && n < WORD && forall i :: 0 <= i < |ring| ==> ring[i] in t.size
  {
    if SomeFit(t, ring, n) then Served(t.size, ring, n, c, t'.size, ring')
    else
      && c == region && GrowthFor(n) >= META_SIZE
      && Served(t.size[c := GrowthFor(n) - META_SIZE], [ring[0], c] + ring[1..], n, c, t'.size, ring')
  }

  lemma ServedFromRegion(s: State, head: Addr, region: Addr, n: nat, t': Tags, ring': seq<Addr>)
    requires Shaped(s, head) && OnRing(s, 0) && n < WORD && GrowthFor(n) >= META_SIZE && !SomeFit(s.t, s.ring, n)
    requires var m := Expanded(s, region, GrowthFor(n));
             (forall i :: 0 <= i < |m.ring| ==> m.ring[i] in m.t.size) &&
             Served(m.t.size, m.ring, n, region, t'.size, ring')
    ensures ServedFrom(s.t, s.ring, region, n, region, t', ring')
  {
    ExpandedAtFront(s, head, region, GrowthFor(n));
  }

  /** The chunk at the front of the list serves every request that it fits. */
  lemma FrontServes(size: map<Addr, nat>, ring: seq<Addr>, n: nat, c: Addr,
                    size': map<Addr, nat>, ring': seq<Addr>)
    requires |ring| > 1 && forall i :: 0 <= i < |ring| ==> ring[i] in size
    requires Served(size, ring, n, c, size', ring')
    ensures size[ring[1]] >= n <==> c == ring[1]
  {
    var k: nat :| FirstAt(size, ring, n, k) && ring[k] == c && Carved(size, ring, n, k, size', ring');
  }

  class KernelHeap {
    const head: Addr
    var tags: Tags
    var links: Links
    var free: set<Addr>
    var usedMemory: nat
    var allocations: nat
    var allocatedMemory: nat
    ghost var lay: Layout
    ghost var ring: seq<Addr>

    ghost function S(): State
      reads this
    {
      State(tags, links, free, lay, ring)
    }

    ghost predicate Valid()
      reads this
    {
      && Good(S(), head)
      && usedMemory == LiveBytes(LiveChunks())
      && usedMemory + FreeBytes(S()) == allocatedMemory
    }

    ghost function LiveChunks(): map<Addr, nat>
      reads this
    {
      LiveOf(S())
    }

    /** Links `newBlock` behind `current`, the `k`-th of the ring. */
    method InsertAfter(current: Addr, newBlock: Addr, ghost k: nat)
      requires OnRing(S(), k) && ring[k] == current
      modifies this`links, this`free, this`ring
      ensures S() == Listed(old(S()), k, newBlock)
    {
      links := links.(next := links.next[newBlock := links.next[current]]);
      links := links.(prev := links.prev[newBlock := current]);

      links := links.(prev := links.prev[links.next[current] := newBlock]);
      links := links.(next := links.next[current := newBlock]);

      free := free + {newBlock};
      ring := Inserted(ring, k, newBlock);
    }

    /** Unlinks `current`, the `k`-th of the ring. */
    method Remove(current: Addr, ghost k: nat)
      requires OnRing(S(), k) && ring[k] == current
      modifies this`links, this`free, this`ring
      ensures S() == Unlinked(old(S()), k)
    {
      links := links.(next := links.next[links.prev[current] := links.next[current]]);
      links := links.(prev := links.prev[links.next[current] := links.prev[current]]);

      links := links.(prev := links.prev[current := NULL]);
      links := links.(next := links.next[current := NULL]);

      free := free - {current};
      ring := Dropped(ring, k);
    }

    /** Asks the page allocator for room for `bytes` and lists it as one free chunk.
        `region` is its answer. */
    method ExpandHeap(bytes: nat, region: Addr)
      requires OnRing(S(), 0) && ring[0] == head && bytes < WORD && GrowthFor(bytes) > META_SIZE
      modifies this`tags, this`links, this`free, this`lay, this`ring, this`allocatedMemory
      ensures S() == Expanded(old(S()), region, GrowthFor(bytes))
      ensures allocatedMemory == old(allocatedMemory) + GrowthFor(bytes)
    {
      var blocks := MIN_BLOCKS;
      if bytes != 0 {
        var necessaryBlocks := (bytes + META_SIZE) % WORD / BLOCK_SIZE + 1;
        if necessaryBlocks > blocks {
          blocks := necessaryBlocks;
        }
      }
      var growth := blocks * BLOCK_SIZE % WORD;
      assert growth == GrowthFor(bytes);
      allocatedMemory := allocatedMemory + growth;

      var size := growth - META_SIZE;
      tags := SetSize(tags, region, size);
      tags := SetSides(tags, region, false, false);
      lay := WithRegion(lay, region, growth);

      InsertAfter(head, region, 0);
    }

    /** Merges the neighbours `a` and `b`, of which `x` is on the free list. */
    method Absorb(a: Addr, b: Addr, x: Addr, ghost k: nat)
      requires CanMerge(S(), k, a, b) && ring[k] == x
      modifies this`tags, this`links, this`free, this`lay, this`ring
      ensures S() == Merged(old(S()), k, a, b)
    {
      var newSize := tags.size[a] + tags.size[b] + META_SIZE;
      var blockLeft, blockRight := a in tags.left, b in tags.right;

      Remove(x, k);

      tags := SetSize(tags, a, newSize);
      tags := SetSides(tags, a, blockLeft, blockRight);
      lay := WithoutChunk(lay, b);
    }

    /** Merges the used chunk `start` with its free neighbours, which leave the list. */
    method Coalesce(start: Addr) returns (b: Addr)
      requires Good(S(), head) && start in lay.chunks && start !in free
      modifies this`tags, this`links, this`free, this`lay, this`ring
      ensures Good(S(), head) && lay.regions == old(lay.regions)
      ensures b in lay.chunks && b !in free && b in tags.size && start in old(tags).size && Lonely(S(), b)
      ensures ChunkOk(old(tags), old(lay), start) && b == MergedStart(old(tags), old(free), start)
      ensures tags.size[b] >= old(tags).size[start]
      ensures free <= old(free) && |ring| > 0 && ring[1..] == Kept(old(ring)[1..], free)
      ensures LiveChunks() - {b} == old(LiveChunks()) - {start}
      ensures FreeBytes(S()) + tags.size[b] == old(FreeBytes(S())) + old(tags).size[start]
    {
      NeighboursInverse(tags, lay, start);
      var a := LeftBlock(tags, start);
      var c := RightBlock(tags, start);
      b := AbsorbLeft(start, a);
      if c != NULL && c in free {
        assert c in lay.chunks by { assert ChunkOk(tags, lay, b); }
        ghost var listed := free;
        AbsorbRight(b, c);
        KeptTwice(old(ring)[1..], listed, free);
      }
    }

    /** Merges the used chunk `b` with its left neighbour `a`, if that is free. */
    method AbsorbLeft(b: Addr, a: Addr) returns (r: Addr)
      requires Good(S(), head) && b in lay.chunks && b !in free && ChunkOk(tags, lay, b)
      requires a == LeftBlock(tags, b) && (b in tags.left <==> a != NULL) && (a != NULL ==> Neighbours(tags, lay, a, b))
      modifies this`tags, this`links, this`free, this`lay, this`ring
      ensures Good(S(), head) && lay.regions == old(lay.regions)
      ensures r in lay.chunks && r !in free && r in tags.size && LeftClear(tags, free, lay, r)
      ensures r == (if a != NULL && a in old(free) then a else b) && tags.size[r] >= old(tags).size[b]
      ensures free <= old(free) && |ring| > 0 && ring[1..] == Kept(old(ring)[1..], free)
      ensures End(tags, r) == End(old(tags), b) && (r in tags.right <==> b in old(tags).right)
      ensures forall c :: c > b ==> (c in free <==> c in old(free)) && (c in tags.size <==> c in old(tags).size)
      ensures LiveChunks() - {r} == old(LiveChunks()) - {b}
      ensures FreeBytes(S()) + tags.size[r] == old(FreeBytes(S())) + old(tags).size[b]
    {
      r := b;
      if a != NULL && a in free {
        ghost var s := S();
        ghost var k := ListedAt(s, head, a);
        MergedIsGood(s, head, k, a, b);
        MergedSides(s, head, k, a, b);
        NotLive(LiveOf(s), a, b);
        OthersKeepOrder(s, head, k);
        Absorb(a, b, a, k);
        r := a;
      } else {
        KeptAll(ring[1..], free);
        UsedLeftIsClear(tags, free, lay, b);
      }
    }

    /** Merges the used chunk `b` with its free right neighbour `c`. */
    method AbsorbRight(b: Addr, c: Addr)
      requires Good(S(), head) && Neighbours(tags, lay, b, c) && b !in free && c in free && c in lay.chunks
      requires LeftClear(tags, free, lay, b)
      modifies this`tags, this`links, this`free, this`lay, this`ring
      ensures Good(S(), head) && lay.regions == old(lay.regions)
      ensures b in lay.chunks && b !in free && b in tags.size && Lonely(S(), b) && tags.size[b] >= old(tags.size[b])
      ensures free <= old(free) && |ring| > 0 && ring[1..] == Kept(old(ring)[1..], free)
      ensures LiveChunks() - {b} == old(LiveChunks()) - {b}
      ensures FreeBytes(S()) + tags.size[b] == old(FreeBytes(S()) + tags.size[b])
    {
      ghost var s := S();
      ghost var k := ListedAt(s, head, c);
      MergedIsGood(s, head, k, b, c);
      MergedSides(s, head, k, b, c);
      NotLive(LiveOf(s), c, b);
      OthersKeepOrder(s, head, k);
      Absorb(b, c, c, k);
    }

    /** Takes `current` off the free list, cut down to `bytes` when the rest
        is worth keeping. */
    method Carve(current: Addr, bytes: nat, ghost k: nat)
      requires Good(S(), head) && bytes % ALIGNMENT == 8 && bytes + MIN_SPLIT + 2 * META_SIZE < WORD
      requires 1 <= k < |ring| && ring[k] == current && tags.size[current] >= bytes
      modifies this`tags, this`links, this`free, this`lay, this`ring
      ensures Good(S(), head) && lay.regions == old(lay.regions)
      ensures Carved(old(tags).size, old(ring), bytes, k, tags.size, ring)
      ensures LiveChunks() == old(LiveChunks())[current := tags.size[current]]
      ensures FreeBytes(S()) + tags.size[current] + META_SIZE == old(FreeBytes(S()))
    {
      SplitLimitExact(bytes);
      var necessarySpace := (bytes + META_SIZE) % WORD;
      if tags.size[current] > (necessarySpace + MIN_SPLIT + META_SIZE) % WORD {
        CarvePart(current, bytes, k);
      } else {
        WholeIsGood(S(), head, k);
        Remove(current, k);
      }
    }

    /** The first part of a chunk is used and the second put on the list. */
    method CarvePart(current: Addr, bytes: nat, ghost k: nat)
      requires Good(S(), head) && bytes % ALIGNMENT == 8 && bytes + META_SIZE < WORD
      requires 1 <= k < |ring| && ring[k] == current && tags.size[current] >= bytes + META_SIZE
      modifies this`tags, this`links, this`free, this`lay, this`ring
      ensures Good(S(), head) && lay.regions == old(lay.regions)
      ensures current in tags.size && tags.size[current] == bytes && LiveChunks() == old(LiveChunks())[current := bytes]
      ensures ring == old(ring)[k := current + bytes + META_SIZE]
      ensures FreeBytes(S()) + bytes + META_SIZE == old(FreeBytes(S()))
    {
      ghost var s := S();
      assert CanSplit(s, k, bytes) by { RingHoldsChunks(s, head, k); }
      ghost var h := Halved(s, k, bytes);
      var newBlock := Split(current, bytes, k);
      InsertAfter(current, newBlock, k);
      assert S() == h;
      assert h.ring[k] == current && OnRing(h, k) by { CarvedIsGood(s, head, k, bytes); }
      Remove(current, k);
      assert S() == Unlinked(h, k);
      assert ring == old(ring)[k := current + bytes + META_SIZE] by { CarvedInPlace(s, k, bytes); }
      CarvedIsGood(s, head, k, bytes);
    }

    /** Writes the tags of the two parts of a chunk. */
    method Split(current: Addr, bytes: nat, ghost k: nat) returns (newBlock: Addr)
      requires CanSplit(S(), k, bytes) && ring[k] == current && bytes + META_SIZE < WORD
      modifies this`tags, this`lay
      ensures newBlock == current + bytes + META_SIZE && S() == Cut(old(S()), k, bytes)
    {
      var necessarySpace := (bytes + META_SIZE) % WORD;
      var newBlockSize := tags.size[current] - necessarySpace;
      var blockLeft, blockRight := current in tags.left, current in tags.right;

      tags := SetSize(tags, current, bytes);
      tags := SetSides(tags, current, blockLeft, true);

      newBlock := current + bytes + META_SIZE;
      tags := SetSize(tags, newBlock, newBlockSize);
      tags := SetSides(tags, newBlock, true, blockRight);
      lay := WithChunk(lay, newBlock, lay.home[current]);
    }

    /** Sets up an empty list and a first region. */
    constructor (head: Addr, region: Addr)
      requires head != NULL && FreshRegion(Layout({}, map[], map[]), head, region, GrowthFor(0))
      ensures Valid() && this.head == head
      ensures LiveChunks() == map[] && allocations == 0 && lay.regions == map[region := GrowthFor(0)]
    {
      this.head := head;
      usedMemory, allocations, allocatedMemory := 0, 0, 0;
      tags := Tags(map[head := 0], map[head + HEADER_SIZE := 0], {}, {});
      links := Links(map[head := head], map[head := head]);
      free := {};
      lay := Layout({}, map[], map[]);
      ring := [head];
      new;
      EmptyIsGood(S(), head);
      ExpandedIsGood(S(), head, region, GrowthFor(0));
      ExpandHeap(0, region);
    }

    /** The search for room: first fit, and one region from the page allocator
        when nothing fits. `region` is what the page allocator would answer, NULL
        when it is exhausted. */
    method Search(n: nat, region: Addr) returns (current: Addr, ghost k: nat)
      requires Good(S(), head) && n + META_SIZE < WORD - BLOCK_SIZE && region != head
      modifies this`tags, this`links, this`free, this`lay, this`ring, this`allocatedMemory
      ensures old(SomeFit(tags, ring, n)) ==>
                S() == old(S()) && FirstAt(tags.size, ring, n, k) && current == ring[k] != NULL
      ensures !old(SomeFit(tags, ring, n)) && region != NULL ==>
                && OnRing(old(S()), 0) && S() == Expanded(old(S()), region, GrowthFor(n))
                && k == 1 < |ring| && current == ring[1] == region
      ensures !old(SomeFit(tags, ring, n)) && region == NULL ==> S() == old(S()) && current == NULL
      ensures allocatedMemory == old(allocatedMemory) +
                if !old(SomeFit(tags, ring, n)) && region != NULL then GrowthFor(n) else 0
    {
      ghost var s := S();
      RingIsLinked(s, head, 0);
      ExpansionFits(n);
      current := links.next[head];
      k := 1;
      ghost var expanded := false;

      while true
        invariant !expanded ==> S() == s && allocatedMemory == old(allocatedMemory) && 1 <= k <= |ring|
        invariant !expanded ==> current == if k < |ring| then ring[k] else head
        invariant !expanded ==> forall i :: 1 <= i < k ==> tags.size[ring[i]] < n
        invariant expanded ==>
                    && !old(SomeFit(tags, ring, n)) && k == 1 < |ring|
                    && current == ring[1] == region != NULL && region != head
        invariant expanded ==>
                    S() == Expanded(s, region, GrowthFor(n)) && allocatedMemory == old(allocatedMemory) + GrowthFor(n)
        decreases !expanded, |ring| - k
      {
        if current == head {
          if region == NULL {
            return NULL, 0;
          }
          ExpandHeap(n, region);
          expanded := true;
          k := 0;
        } else if tags.size[current] >= n {
          assert !expanded ==> current != NULL by {
            if !expanded { ListedChunk(tags, links, free, lay, ring, head, k); }
          }
          return;
        } else {
          RingIsLinked(s, head, k);
        }
        current := links.next[current];
        k := k + 1;
      }
    }

    /** What a search leaves behind. */
    method Find(n: nat, region: Addr) returns (current: Addr, ghost k: nat)
      requires Valid() && n + META_SIZE < WORD - BLOCK_SIZE
      requires region == NULL || FreshRegion(lay, head, region, GrowthFor(n))
      modifies this`tags, this`links, this`free, this`lay, this`ring, this`allocatedMemory
      ensures Valid() && LiveChunks() == old(LiveChunks())
      ensures current == NULL <==> region == NULL && !old(SomeFit(tags, ring, n))
      ensures current == NULL ==> S() == old(S())
      ensures current != NULL ==> FirstAt(tags.size, ring, n, k) && ring[k] == current
      ensures old(SomeFit(tags, ring, n)) ==> S() == old(S())
      ensures !old(SomeFit(tags, ring, n)) && region != NULL ==>
                && current == region && lay.regions == old(lay.regions)[region := GrowthFor(n)]
                && OnRing(old(S()), 0) && S() == Expanded(old(S()), region, GrowthFor(n))
    {
      ghost var s := S();
      ExpansionFits(n);
      if region != NULL { ExpandedIsGood(s, head, region, GrowthFor(n)); }
      current, k := Search(n, region);
    }

    /** Finds a chunk for `n` bytes and hands it out. */
    method Take(n: nat, region: Addr) returns (current: Addr)
      requires Valid() && n % ALIGNMENT == 8 && n + META_SIZE < WORD - BLOCK_SIZE
      requires region == NULL || FreshRegion(lay, head, region, GrowthFor(n))
      modifies this
      ensures Valid()
      ensures current == NULL <==> region == NULL && !old(SomeFit(tags, ring, n))
      ensures current == NULL ==> S() == old(S()) && allocations == old(allocations)
      ensures current != NULL ==>
                && (current + HEADER_SIZE) % ALIGNMENT == 0
                && current in tags.size && n <= tags.size[current] <= n + 104
                && allocations == old(allocations) + 1
                && current !in old(LiveChunks()) && LiveChunks() == old(LiveChunks())[current := tags.size[current]]
                && ServedFrom(old(tags), old(ring), region, n, current, tags, ring)
      ensures current != NULL ==>
                lay.regions == if old(SomeFit(tags, ring, n)) then old(lay.regions)
                               else old(lay.regions)[region := GrowthFor(n)]
    {
      ghost var s, fits := S(), SomeFit(tags, ring, n);
      ghost var k: nat;
      current, k := Find(n, region);
      if current != NULL {
        HandOut(current, n, k);
        assert ServedFrom(s.t, s.ring, region, n, current, tags, ring) by {
          if !fits { ServedFromRegion(s, head, region, n, tags, ring); }
        }
      }
    }

    /** Hands a listed chunk out, and counts it. */
    method HandOut(current: Addr, n: nat, ghost k: nat)
      requires Valid() && n % ALIGNMENT == 8 && n + MIN_SPLIT + 2 * META_SIZE < WORD
      requires FirstAt(tags.size, ring, n, k) && ring[k] == current
      modifies this
      ensures Valid() && lay.regions == old(lay.regions) && allocations == old(allocations) + 1
      ensures Served(old(tags).size, old(ring), n, current, tags.size, ring)
      ensures (current + HEADER_SIZE) % ALIGNMENT == 0 && current in tags.size && n <= tags.size[current] <= n + 104
      ensures current !in old(LiveChunks()) && LiveChunks() == old(LiveChunks())[current := tags.size[current]]
    {
      assert current !in LiveChunks() && (current + HEADER_SIZE) % ALIGNMENT == 0 by {
        ListedChunk(tags, links, free, lay, ring, head, k);
      }
      Carve(current, n, k);
      LiveBytesAdded(old(LiveChunks()), current, tags.size[current]);
      usedMemory := usedMemory + tags.size[current] + META_SIZE;
      allocations := allocations + 1;
    }

    method Malloc(bytes: nat, region: Addr) returns (payload: Addr)
      requires Valid() && bytes <= MAX_REQUEST
      requires region == NULL || FreshRegion(lay, head, region, GrowthFor(RoundRequest(bytes)))
      modifies this
      ensures Valid()
      ensures payload == NULL <==> region == NULL && !old(SomeFit(tags, ring, RoundRequest(bytes)))
      ensures payload == NULL ==> S() == old(S()) && allocations == old(allocations)
      ensures payload != NULL ==>
                && payload % 16 == 0 && payload >= 32 && allocations == old(allocations) + 1
                && var c := payload - 32;
                && c in tags.size && tags.size[c] >= 24 && tags.size[c] >= bytes && c !in old(LiveChunks())
                && (forall m :: Serves(m, bytes) ==> tags.size[c] <= m + 104)
                && LiveChunks() == old(LiveChunks())[c := tags.size[c]]
                && ServedFrom(old(tags), old(ring), region, RoundRequest(bytes), c, tags, ring)
      ensures payload != NULL ==>
                lay.regions == if old(SomeFit(tags, ring, RoundRequest(bytes))) then old(lay.regions)
                               else old(lay.regions)[region := GrowthFor(RoundRequest(bytes))]
    {
      var n := RoundRequest(bytes);
      assert Least(n, bytes) && n + META_SIZE < WORD - BLOCK_SIZE by { RoundedIsLeast(bytes); }
      var current := Take(n, region);
      if current == NULL {
        return NULL;
      }
      payload := current + HEADER_SIZE;
    }

    /** Puts a used chunk, merged with its free neighbours, at the front of the free list. */
    method Release(start: Addr)
      requires Good(S(), head) && start in lay.chunks && start !in free
      modifies this`tags, this`links, this`free, this`lay, this`ring
      ensures Good(S(), head) && lay.regions == old(lay.regions) && start in old(tags).size
      ensures LiveChunks() == old(LiveChunks()) - {start}
      ensures FreeBytes(S()) == old(FreeBytes(S())) + old(tags).size[start] + META_SIZE
      ensures ChunkOk(old(tags), old(lay), start) && AtFront(old(S()), S(), MergedStart(old(tags), old(free), start))
      ensures ring[1] in tags.size && tags.size[ring[1]] >= old(tags).size[start]
    {
      var freeHeader := Coalesce(start);
      ghost var s := S();
      ListedIsGood(s, head, freeHeader);
      InsertAfter(head, freeHeader, 0);
      FrontOfList(old(S()), s, freeHeader);
    }

    /** Gives a payload back. Returns false, with nothing changed, where the kernel
        stops because the chunk is already free. */
    method Free(payload: Addr) returns (ok: bool)
      requires Valid() && payload >= HEADER_SIZE && payload - HEADER_SIZE in lay.chunks
      modifies this
      ensures Valid()
      ensures ok <==> payload - HEADER_SIZE in old(LiveChunks())
      ensures LiveChunks() == old(LiveChunks()) - {payload - HEADER_SIZE}
      ensures lay.regions == old(lay.regions) && allocatedMemory == old(allocatedMemory)
      ensures allocations == old(allocations)
      ensures !ok ==> S() == old(S())
      ensures ok ==>
                && ChunkOk(old(tags), old(lay), payload - 32)
                && AtFront(old(S()), S(), MergedStart(old(tags), old(free), payload - 32))
                && ring[1] in tags.size && tags.size[ring[1]] >= old(tags).size[payload - 32]
    {
      var freeHeader: Addr := payload - HEADER_SIZE;
      assert ChunkOk(tags, lay, freeHeader);
      if freeHeader in free {
        return false;
      }
      LiveBytesAt(LiveChunks(), freeHeader);
      usedMemory := usedMemory - (tags.size[freeHeader] + META_SIZE);
      Release(freeHeader);
      return true;
    }

    /** The sum of the sizes on the free list, found by going round it once. */
    method FreeMemory() returns (memoryFree: nat)
      requires Valid()
      ensures memoryFree + META_SIZE * (|ring| - 1) + usedMemory == allocatedMemory
    {
      memoryFree := tags.size[head];
      RingIsLinked(S(), head, 0);
      var it: Addr := links.next[head];
      ghost var k := 1;
      while it != head
        invariant 1 <= k <= |ring| && it == if k < |ring| then ring[k] else head
        invariant memoryFree + META_SIZE * (k - 1) == Bytes(tags, ring[1..k])
        decreases |ring| - k
      {
        memoryFree := memoryFree + tags.size[it];
        BytesAppend(tags, ring[1..k], [it]);
        assert Bytes(tags, [it]) == tags.size[it] + META_SIZE;
        assert ring[1..k + 1] == ring[1..k] + [it];
        RingIsLinked(S(), head, k);
        it := links.next[it];
        k := k + 1;
      }
      assert ring[1..k] == ring[1..];
    }
  }
}
