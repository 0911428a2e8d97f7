/** The chunks handed out decide how the whole heap is cut, whatever calls led there. */
module HeapUniqueness {
  import opened HeapModel
  import opened Heap

  /** Tiled, and no two neighbours free. */
  ghost predicate Tidy(t: Tags, free: set<Addr>, g: Layout)
  {
    Tiled(t, g) && Coalesced(t, free, g)
  }

  /** Two heaps over the same regions with the same chunks handed out. */
  ghost predicate Alike(t: Tags, free: set<Addr>, g: Layout, t': Tags, free': set<Addr>, g': Layout)
  {
    Tidy(t, free, g) && Tidy(t', free', g') && g.regions == g'.regions && Live(t, free, g) == Live(t', free', g')
  }

  /** A chunk lies in the same region in both. */
  lemma SameHome(t: Tags, g: Layout, t': Tags, g': Layout, c: Addr)
    requires Tiled(t, g) && Tiled(t', g') && g.regions == g'.regions && c in g.chunks && c in g'.chunks
    ensures ChunkOk(t, g, c) && ChunkOk(t', g', c) && g.home[c] == g'.home[c]
  {
    assert ChunkOk(t, g, c) && ChunkOk(t', g', c);
    var r, s := g.home[c], g'.home[c];
    assert r < s ==> RegionBelow(g, r, s);
    assert s < r ==> RegionBelow(g, s, r);
  }

  /** A free chunk starts its region or stands behind a chunk handed out. */
  lemma FreeStart(t: Tags, free: set<Addr>, g: Layout, c: Addr) returns (a: Addr)
    requires Tidy(t, free, g) && c in g.chunks && c in free && ChunkOk(t, g, c) && c != g.home[c]
    ensures a in Live(t, free, g) && a in g.chunks && ChunkOk(t, g, a) && End(t, a) == c && g.home[a] == g.home[c]
  {
    a := c - META_SIZE - t.footer[c - FOOTER_SIZE];
    assert ChunkOk(t, g, a) && NoFreeNeighbour(t, free, a);
  }

  /** Chunks start at the same places. */
  lemma SameStarts(t: Tags, free: set<Addr>, g: Layout, t': Tags, free': set<Addr>, g': Layout, c: Addr)
    requires Alike(t, free, g, t', free', g') && c in g.chunks
    ensures c in g'.chunks
  {
    assert ChunkOk(t, g, c);
    if c !in free {
      assert c in Live(t, free, g) && c in Live(t', free', g');
    } else if c == g.home[c] {
      assert RegionOk(g', c);
    } else {
      var a := FreeStart(t, free, g, c);
      assert a in Live(t', free', g') && Live(t, free, g)[a] == Live(t', free', g')[a];
      SameHome(t, g, t', g', a);
      assert End(t', a) == c;
    }
  }

  /** No chunk is shorter in one than in the other. */
  lemma NotShorter(t: Tags, free: set<Addr>, g: Layout, t': Tags, free': set<Addr>, g': Layout, c: Addr)
    requires Alike(t, free, g, t', free', g') && c in g.chunks && c in g'.chunks
    ensures ChunkOk(t, g, c) && ChunkOk(t', g', c) && End(t', c) <= End(t, c)
  {
    SameHome(t, g, t', g', c);
    var d := End(t, c);
    if d != RegionEnd(g, c) {
      SameStarts(t, free, g, t', free', g', d);
      assert Below(t', c, d);
    }
  }

  /** The chunks handed out decide all chunks, their sizes and which are free. */
  lemma LiveDecidesLayout(t: Tags, free: set<Addr>, g: Layout, t': Tags, free': set<Addr>, g': Layout)
    requires Alike(t, free, g, t', free', g')
    ensures g.chunks == g'.chunks
    ensures forall c :: c in g.chunks ==>
            c in t.size && c in t'.size && t.size[c] == t'.size[c] && (c in free <==> c in free')
  {
    forall c | c in g.chunks ensures c in g'.chunks { SameStarts(t, free, g, t', free', g', c); }
    forall c | c in g'.chunks ensures c in g.chunks { SameStarts(t', free', g', t, free, g, c); }
    forall c | c in g.chunks
      ensures c in t.size && c in t'.size && t.size[c] == t'.size[c] && (c in free <==> c in free')
    {
      NotShorter(t, free, g, t', free', g', c);
      NotShorter(t', free', g', t, free, g, c);
      assert c in Live(t, free, g) <==> c in Live(t', free', g');
    }
  }

  /** A request that fits and its release leave the heap cut as it was. */
  method RoundTrip(heap: KernelHeap, bytes: nat)
    requires heap.Valid() && bytes <= MAX_REQUEST && SomeFit(heap.tags, heap.ring, RoundRequest(bytes))
    modifies heap
    ensures heap.Valid() && heap.LiveChunks() == old(heap.LiveChunks()) && heap.lay.chunks == old(heap.lay.chunks)
    ensures forall c :: c in heap.lay.chunks ==>
              && c in heap.tags.size && c in old(heap.tags).size && heap.tags.size[c] == old(heap.tags).size[c]
              && (c in heap.free <==> c in old(heap.free))
  {
    var payload := heap.Malloc(bytes, NULL);
    assert payload - HEADER_SIZE in heap.LiveChunks();
    var ok := heap.Free(payload);
    assert heap.LiveChunks() == old(heap.LiveChunks());
    LiveDecidesLayout(old(heap.tags), old(heap.free), old(heap.lay), heap.tags, heap.free, heap.lay);
  }

  /** Memory just given back serves the next request that fits it: at the same address, or
      lower down when the chunk grew to the left. */
  method Reuse(heap: KernelHeap, payload: Addr, bytes: nat) returns (again: Addr)
    requires heap.Valid() && bytes <= MAX_REQUEST && payload >= 32 && payload - 32 in heap.LiveChunks()
    requires RoundRequest(bytes) <= heap.LiveChunks()[payload - 32]
    modifies heap
    ensures heap.Valid() && ChunkOk(old(heap.tags), old(heap.lay), payload - 32)
    ensures again == MergedStart(old(heap.tags), old(heap.free), payload - 32) + 32
    ensures heap.lay.regions == old(heap.lay.regions)
  {
    var ok := heap.Free(payload);
    ghost var t, ring := heap.tags, heap.ring;
    assert SomeFit(t, ring, RoundRequest(bytes)) by { assert t.size[ring[1]] >= RoundRequest(bytes); }
    again := heap.Malloc(bytes, NULL);
    FrontServes(t.size, ring, RoundRequest(bytes), again - 32, heap.tags.size, heap.ring);
  }
}
