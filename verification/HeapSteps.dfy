/** The steps of the kernel heap on its whole state, and what each keeps: tiling, ring,
    full coalescing, the chunks handed out and the bytes. */
module HeapSteps {
  import opened HeapModel

  datatype State = State(t: Tags, l: Links, free: set<Addr>, g: Layout, ring: seq<Addr>)

  ghost predicate Shaped(s: State, head: Addr)
  {
    Structured(s.t, s.l, s.free, s.g, s.ring, head)
  }

  ghost predicate Good(s: State, head: Addr)
  {
    Shaped(s, head) && Coalesced(s.t, s.free, s.g)
  }

  ghost function LiveOf(s: State): map<Addr, nat>
  {
    Live(s.t, s.free, s.g)
  }

  /** Bytes on the free list, tags included. */
  ghost function FreeBytes(s: State): nat
  {
    if s.ring != [] && (forall i :: 0 <= i < |s.ring| ==> s.ring[i] in s.t.size) then Bytes(s.t, s.ring[1..]) else 0
  }

  /** Nothing but the head of the list. */
  lemma EmptyIsGood(s: State, head: Addr)
    requires head != NULL && s.ring == [head] && s.free == {} && s.g == Layout({}, map[], map[])
    requires s.t.size == map[head := 0] && s.l == Links(map[head := head], map[head := head])
    ensures Good(s, head) && LiveOf(s) == map[] && FreeBytes(s) == 0
  {
    assert Linked(s.l, s.ring, 0);
  }

  // ----- List steps -----

  /** Block `b` is linked behind the `k`-th of the ring. */
  ghost function Listed(s: State, k: nat, b: Addr): State
    requires k < |s.ring| && s.ring[k] in s.l.next
  {
    s.(l := LinkAfter(s.l, s.ring[k], b), free := s.free + {b}, ring := Inserted(s.ring, k, b))
  }

  /** The `k`-th block of the ring is unlinked. */
  ghost function Unlinked(s: State, k: nat): State
    requires k < |s.ring| && s.ring[k] in s.l.next && s.ring[k] in s.l.prev
  {
    s.(l := Unlink(s.l, s.ring[k]), free := s.free - {s.ring[k]}, ring := Dropped(s.ring, k))
  }

  ghost predicate OnRing(s: State, k: nat)
  {
    k < |s.ring| && s.ring[k] in s.l.next && s.ring[k] in s.l.prev
  }

  lemma RingIsLinked(s: State, head: Addr, k: nat)
    requires Shaped(s, head) && k < |s.ring|
    ensures OnRing(s, k) && s.ring[k] in s.t.size && s.ring[0] == head
    ensures s.l.next[s.ring[k]] == s.ring[if k + 1 < |s.ring| then k + 1 else 0]
  {
    assert Linked(s.l, s.ring, k);
    assert Linked(s.l, s.ring, if k == 0 then |s.ring| - 1 else k - 1);
  }

  /** A free chunk is somewhere on the ring. */
  lemma ListedAt(s: State, head: Addr, c: Addr) returns (k: nat)
    requires Shaped(s, head) && c in s.g.chunks && c in s.free
    ensures 1 <= k < |s.ring| && s.ring[k] == c && OnRing(s, k)
  {
    var j :| 0 <= j < |s.ring| && s.ring[j] == c;
    RingIsLinked(s, head, j);
    k := j;
  }

  /** A block that leaves the ring leaves the order of the others. */
  lemma OthersKeepOrder(s: State, head: Addr, k: nat)
    requires Shaped(s, head) && 1 <= k < |s.ring|
    ensures Dropped(s.ring, k)[1..] == Kept(s.ring[1..], s.free - {s.ring[k]})
  {
    var list := s.ring[1..];
    assert forall i :: 0 <= i < |list| ==> list[i] == s.ring[i + 1];
    KeptDropped(list, k - 1, s.free - {s.ring[k]});
    assert Dropped(s.ring, k)[1..] == list[..k - 1] + list[k..];
  }

  lemma RingHoldsChunks(s: State, head: Addr, k: nat)
    requires Shaped(s, head) && 1 <= k < |s.ring|
    ensures OnRing(s, k) && s.ring[k] in s.g.chunks && s.ring[k] in s.t.size && s.ring[k] in s.g.home
  {
    RingIsLinked(s, head, k);
    assert ChunkOk(s.t, s.g, s.ring[k]);
  }

  // ----- Growth -----

  ghost function Expanded(s: State, r: Addr, len: nat): State
    requires OnRing(s, 0) && len >= META_SIZE
  {
    Listed(s.(t := RegionTags(s.t, r, len), g := WithRegion(s.g, r, len)), 0, r)
  }

  /** The new region is the first on the list. */
  lemma ExpandedAtFront(s: State, head: Addr, r: Addr, len: nat)
    requires OnRing(s, 0) && s.ring[0] == head && len >= META_SIZE
    ensures Expanded(s, r, len).t.size == s.t.size[r := len - META_SIZE]
    ensures Expanded(s, r, len).ring == [head, r] + s.ring[1..]
  {
    assert s.ring[..1] == [head];
  }

  lemma ExpandedIsGood(s: State, head: Addr, r: Addr, len: nat)
    requires Good(s, head) && FreshRegion(s.g, head, r, len)
    ensures OnRing(s, 0) && r !in s.g.chunks && Good(Expanded(s, r, len), head)
    ensures LiveOf(Expanded(s, r, len)) == LiveOf(s) && FreeBytes(Expanded(s, r, len)) == FreeBytes(s) + len
  {
    RingIsLinked(s, head, 0);
    var t, g := RegionTags(s.t, r, len), WithRegion(s.g, r, len);
    ExpansionKeepsStructure(s.t, s.l, s.free, s.g, s.ring, head, r, len);
    InsertionKeepsStructure(t, s.l, s.free, g, s.ring, head, 0, r);
    ExpansionKeepsCoalesced(s.t, s.free, s.g, head, r, len);
    ExpansionLive(s.t, s.free, s.g, r, len);
  }

  // ----- Handing out -----

  /** The chunk is used whole. */
  lemma WholeIsGood(s: State, head: Addr, k: nat)
    requires Good(s, head) && 1 <= k < |s.ring|
    ensures OnRing(s, k) && Good(Unlinked(s, k), head)
    ensures s.ring[k] in s.t.size && LiveOf(Unlinked(s, k)) == LiveOf(s)[s.ring[k] := s.t.size[s.ring[k]]]
    ensures FreeBytes(Unlinked(s, k)) + s.t.size[s.ring[k]] + META_SIZE == FreeBytes(s)
  {
    UnlinkedIsShaped(s, head, k);
    RemovalKeepsCoalesced(s.t, s.free, s.g, s.ring[k]);
    RemovalLive(s.t, s.free, s.g, s.ring[k]);
  }

  ghost predicate CanSplit(s: State, k: nat, bytes: nat)
  {
    OnRing(s, k) && s.ring[k] in s.t.size && s.ring[k] in s.g.home && s.t.size[s.ring[k]] >= bytes + META_SIZE
  }

  /** The tags of the two parts. */
  ghost function Cut(s: State, k: nat, bytes: nat): State
    requires CanSplit(s, k, bytes)
  {
    var c := s.ring[k];
    s.(t := SplitTags(s.t, c, bytes), g := WithChunk(s.g, c + bytes + META_SIZE, s.g.home[c]))
  }

  /** The second part is put on the list behind the first. */
  ghost function Halved(s: State, k: nat, bytes: nat): State
    requires CanSplit(s, k, bytes)
  {
    Listed(Cut(s, k, bytes), k, s.ring[k] + bytes + META_SIZE)
  }

  lemma HalvedIsShaped(s: State, head: Addr, k: nat, bytes: nat)
    requires Shaped(s, head) && 1 <= k < |s.ring| && bytes % ALIGNMENT == 8 && CanSplit(s, k, bytes)
    ensures Shaped(Halved(s, k, bytes), head) && FreeBytes(Halved(s, k, bytes)) == FreeBytes(s)
    ensures s.ring[k] + bytes + META_SIZE !in s.g.chunks
  {
    var b, cut := s.ring[k] + bytes + META_SIZE, Cut(s, k, bytes);
    SplitKeepsStructure(s.t, s.l, s.free, s.g, s.ring, head, k, bytes);
    InsertionKeepsStructure(cut.t, s.l, s.free, cut.g, s.ring, head, k, b);
  }

  lemma UnlinkedIsShaped(s: State, head: Addr, k: nat)
    requires Shaped(s, head) && 1 <= k < |s.ring|
    ensures OnRing(s, k) && s.ring[k] in s.t.size && Shaped(Unlinked(s, k), head)
    ensures FreeBytes(Unlinked(s, k)) + s.t.size[s.ring[k]] + META_SIZE == FreeBytes(s)
  {
    RingIsLinked(s, head, k);
    RemovalKeepsStructure(s.t, s.l, s.free, s.g, s.ring, head, k);
  }

  /** The first part of the chunk is used. */
  lemma CarvedIsGood(s: State, head: Addr, k: nat, bytes: nat)
    requires Good(s, head) && 1 <= k < |s.ring| && bytes % ALIGNMENT == 8 && CanSplit(s, k, bytes)
    ensures var h := Halved(s, k, bytes);
            && k < |h.ring| && h.ring[k] == s.ring[k] && OnRing(h, k) && Good(Unlinked(h, k), head)
            && LiveOf(Unlinked(h, k)) == LiveOf(s)[s.ring[k] := bytes]
            && FreeBytes(Unlinked(h, k)) + bytes + META_SIZE == FreeBytes(s)
  {
    var c, h := s.ring[k], Halved(s, k, bytes);
    assert c in s.g.chunks && c in s.free by { ListedChunk(s.t, s.l, s.free, s.g, s.ring, head, k); }
    HalvedIsShaped(s, head, k, bytes);
    CarvedIsTidy(s, k, bytes);
    UnlinkedIsShaped(h, head, k);
  }

  /** The second part takes the place of the whole on the list. */
  lemma CarvedInPlace(s: State, k: nat, bytes: nat)
    requires CanSplit(s, k, bytes)
    ensures Dropped(Halved(s, k, bytes).ring, k) == s.ring[k := s.ring[k] + bytes + META_SIZE]
  {
  }

  lemma CarvedIsTidy(s: State, k: nat, bytes: nat)
    requires Tiled(s.t, s.g) && Coalesced(s.t, s.free, s.g) && CanSplit(s, k, bytes) && s.ring[k] in s.g.chunks
    requires s.ring[k] in s.free
    requires s.ring[k] + bytes + META_SIZE !in s.g.chunks
    ensures var h := Halved(s, k, bytes);
            && k < |h.ring| && h.ring[k] == s.ring[k] && s.ring[k] in h.t.size && h.t.size[s.ring[k]] == bytes
            && Coalesced(h.t, h.free - {s.ring[k]}, h.g)
            && Live(h.t, h.free - {s.ring[k]}, h.g) == LiveOf(s)[s.ring[k] := bytes]
  {
    SplitKeepsCoalesced(s.t, s.free, s.g, s.ring[k], bytes);
    SplitLive(s.t, s.free, s.g, s.ring[k], bytes);
  }

  // ----- Merging -----

  ghost predicate CanMerge(s: State, k: nat, a: Addr, b: Addr)
  {
    && OnRing(s, k) && Neighbours(s.t, s.g, a, b)
    && ((s.ring[k] == a && b !in s.free) || (s.ring[k] == b && a !in s.free))
  }

  /** The free one of two neighbours leaves the list, and they become one chunk. */
  ghost function Merged(s: State, k: nat, a: Addr, b: Addr): State
    requires CanMerge(s, k, a, b)
  {
    Unlinked(s, k).(t := MergeTags(s.t, a, b), g := WithoutChunk(s.g, b))
  }

  lemma MergedIsGood(s: State, head: Addr, k: nat, a: Addr, b: Addr)
    requires Good(s, head) && 1 <= k < |s.ring| && CanMerge(s, k, a, b)
    ensures Good(Merged(s, k, a, b), head)
    ensures LiveOf(Merged(s, k, a, b)) - {a} == LiveOf(s) - {a, b}
    ensures var m := Merged(s, k, a, b);
            FreeBytes(m) + m.t.size[a] == FreeBytes(s) + s.t.size[if s.ring[k] == a then b else a]
  {
    var m, u := Merged(s, k, a, b), Unlinked(s, k);
    var x := s.ring[k];
    assert Shaped(u, head) && FreeBytes(u) + s.t.size[x] + META_SIZE == FreeBytes(s) by {
      UnlinkedIsShaped(s, head, k);
    }
    assert Shaped(m, head) && FreeBytes(m) == FreeBytes(u) by {
      MergeKeepsStructure(u.t, u.l, u.free, u.g, u.ring, head, a, b);
    }
    MergeKeepsCoalesced(s.t, s.free, s.g, a, b, x);
    MergeLive(s.t, s.free, s.g, a, b, x);
  }

  /** No free neighbour on either side. */
  ghost predicate Lonely(s: State, b: Addr)
  {
    LeftClear(s.t, s.free, s.g, b) && RightClear(s.t, s.free, b)
  }

  lemma MergedSides(s: State, head: Addr, k: nat, a: Addr, b: Addr)
    requires Good(s, head) && 1 <= k < |s.ring| && CanMerge(s, k, a, b)
    ensures var m := Merged(s, k, a, b); a in m.g.chunks && a !in m.free && m.g.regions == s.g.regions
    ensures var m := Merged(s, k, a, b);
            s.ring[k] == a || LeftClear(s.t, s.free, s.g, a) ==> LeftClear(m.t, m.free, m.g, a)
    ensures var m := Merged(s, k, a, b); s.ring[k] == b ==> RightClear(m.t, m.free, a)
  {
    ListedChunk(s.t, s.l, s.free, s.g, s.ring, head, k);
    assert ChunkOk(s.t, s.g, a);
    MergeKeepsCoalesced(s.t, s.free, s.g, a, b, s.ring[k]);
  }

  // ----- Giving back -----

  lemma ListedIsGood(s: State, head: Addr, b: Addr)
    requires Good(s, head) && b in s.g.chunks && b !in s.free && Lonely(s, b)
    ensures OnRing(s, 0) && Good(Listed(s, 0, b), head) && LiveOf(Listed(s, 0, b)) == LiveOf(s) - {b}
    ensures b in s.t.size && FreeBytes(Listed(s, 0, b)) == FreeBytes(s) + s.t.size[b] + META_SIZE
  {
    RingIsLinked(s, head, 0);
    assert s.free - {b} == s.free;
    InsertionKeepsStructure(s.t, s.l, s.free, s.g, s.ring, head, 0, b);
    InsertionKeepsCoalesced(s.t, s.free, s.g, b);
    InsertionLive(s.t, s.free, s.g, b);
  }
}
