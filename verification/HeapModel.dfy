/** The kernel heap as values: the tags and links kept in the chunk headers and
    footers, the layout of the expanded regions into chunks, the ring of free
    chunks, and what a well formed heap is. */
module HeapModel {
  import opened Basics

  const ALIGNMENT: nat := 16
  const HEADER_SIZE: nat := 32
  const FOOTER_SIZE: nat := 8
  const META_SIZE: nat := 40
  const BLOCK_SIZE: nat := 4096
  const MIN_BLOCKS: nat := 4
  const MIN_SPLIT: nat := 24
  const WORD: nat := 0x1_0000_0000_0000_0000

  type Addr = nat

  const NULL: Addr := 0

  /** The boundary tags, each by the address of its header or footer: the two
      sizes, and the headers whose left and right flags are set. */
  datatype Tags = Tags(size: map<Addr, nat>, footer: map<Addr, nat>, left: set<Addr>, right: set<Addr>)

  /** The list links of the headers. */
  datatype Links = Links(next: map<Addr, Addr>, prev: map<Addr, Addr>)

  /** Which addresses start a chunk, the regions obtained from the page
      allocator (start and length), and the region each chunk lies in. */
  datatype Layout = Layout(chunks: set<Addr>, regions: map<Addr, nat>, home: map<Addr, Addr>)

  function End(t: Tags, c: Addr): Addr
    requires c in t.size
  {
    c + META_SIZE + t.size[c]
  }

  ghost function RegionEnd(g: Layout, c: Addr): Addr
    requires c in g.home && g.home[c] in g.regions
  {
    g.home[c] + g.regions[g.home[c]]
  }

  // ----- Tiling -----

  /** The footer just below `c` leads to a chunk that ends at `c`. */
  ghost predicate LeftLink(t: Tags, g: Layout, c: Addr)
  {
    && c >= FOOTER_SIZE
    && c - FOOTER_SIZE in t.footer
    && var s := t.footer[c - FOOTER_SIZE];
    && c >= META_SIZE + s
    && var p := c - META_SIZE - s;
    && p in g.chunks && p in t.size && p in g.home && c in g.home
    && t.size[p] == s && g.home[p] == g.home[c]
  }

  ghost predicate RightLink(t: Tags, g: Layout, c: Addr)
    requires c in t.size
  {
    End(t, c) in g.chunks && End(t, c) in g.home && c in g.home && g.home[End(t, c)] == g.home[c]
  }

  ghost predicate ChunkOk(t: Tags, g: Layout, c: Addr)
  {
    && c in t.size && c in g.home && g.home[c] in g.regions
    && g.home[c] <= c && End(t, c) <= RegionEnd(g, c)
    && c % ALIGNMENT == 0 && t.size[c] % ALIGNMENT == 8
    && End(t, c) - FOOTER_SIZE in t.footer && t.footer[End(t, c) - FOOTER_SIZE] == t.size[c]
    && (c in t.left <==> c != g.home[c])
    && (c in t.right <==> End(t, c) != RegionEnd(g, c))
    && (c in t.left ==> LeftLink(t, g, c))
    && (c in t.right ==> RightLink(t, g, c))
  }

  ghost predicate Below(t: Tags, c: Addr, d: Addr)
  {
    c in t.size && End(t, c) <= d
  }

  ghost predicate RegionOk(g: Layout, r: Addr)
  {
    && r != NULL && r in g.regions && r in g.chunks && r in g.home && g.home[r] == r
    && r % BLOCK_SIZE == 0
  }

  ghost predicate RegionBelow(g: Layout, r: Addr, s: Addr)
  {
    r in g.regions && r + g.regions[r] <= s
  }

  ghost predicate ChunksOk(t: Tags, g: Layout)
  {
    forall c {:trigger ChunkOk(t, g, c)} :: c in g.chunks ==> ChunkOk(t, g, c)
  }

  ghost predicate ChunksOrdered(t: Tags, g: Layout)
  {
    forall c, d {:trigger Below(t, c, d)} :: c in g.chunks && d in g.chunks && c < d ==> Below(t, c, d)
  }

  ghost predicate RegionsOk(g: Layout)
  {
    && (forall r {:trigger RegionOk(g, r)} :: r in g.regions ==> RegionOk(g, r))
    && (forall r, s {:trigger RegionBelow(g, r, s)} ::
          r in g.regions && s in g.regions && r < s ==> RegionBelow(g, r, s))
  }

  /** Every region is cut into chunks whose tags agree with their neighbours. */
  ghost predicate Tiled(t: Tags, g: Layout)
  {
    ChunksOk(t, g) && ChunksOrdered(t, g) && RegionsOk(g)
  }

  // ----- The ring of free chunks -----

  /** Node `i` and its successor point at each other; the last node closes the ring. */
  ghost predicate Linked(l: Links, ring: seq<Addr>, i: nat)
    requires i < |ring|
  {
    && var b := ring[if i + 1 < |ring| then i + 1 else 0];
    && ring[i] in l.next && b in l.prev && l.next[ring[i]] == b && l.prev[b] == ring[i]
  }

  /** `ring[0]` is the list head; `ring[1..]` are the free chunks in list order. */
  ghost predicate RingOk(l: Links, ring: seq<Addr>)
  {
    && |ring| > 0 && Distinct(ring)
    && forall i {:trigger Linked(l, ring, i)} :: 0 <= i < |ring| ==> Linked(l, ring, i)
  }

  /** Chunks flagged free and ring members are the same. */
  ghost predicate FreeExact(free: set<Addr>, g: Layout, ring: seq<Addr>)
  {
    && (forall i :: 1 <= i < |ring| ==> ring[i] in g.chunks)
    && (forall c :: c in g.chunks ==> (c in free <==> c in ring))
  }

  ghost predicate HeadOutside(g: Layout, head: Addr)
  {
    head != NULL && head !in g.chunks && forall r :: r in g.regions ==> !(r <= head < r + g.regions[r])
  }

  /** Everything but full coalescing and the counters. */
  ghost predicate Structured(t: Tags, l: Links, free: set<Addr>, g: Layout, ring: seq<Addr>, head: Addr)
  {
    && Tiled(t, g) && RingOk(l, ring) && FreeExact(free, g, ring)
    && ring[0] == head && HeadOutside(g, head)
    && (forall i :: 0 <= i < |ring| ==> ring[i] in t.size)
    && t.size[head] == 0
  }

  ghost predicate NoFreeNeighbour(t: Tags, free: set<Addr>, c: Addr)
  {
    c in t.size && (c in free && c in t.right ==> End(t, c) !in free)
  }

  /** No two neighbours are both free. */
  ghost predicate Coalesced(t: Tags, free: set<Addr>, g: Layout)
  {
    forall c {:trigger NoFreeNeighbour(t, free, c)} :: c in g.chunks ==> NoFreeNeighbour(t, free, c)
  }

  /** Bytes of the chunks listed, tags included. */
  ghost function Bytes(t: Tags, s: seq<Addr>): nat
    requires forall i :: 0 <= i < |s| ==> s[i] in t.size
  {
    if s == [] then 0 else t.size[s[0]] + META_SIZE + Bytes(t, s[1..])
  }

  /** The chunks handed out, with their payload sizes. */
  ghost function Live(t: Tags, free: set<Addr>, g: Layout): map<Addr, nat>
  {
    map c | c in g.chunks && c in t.size && c !in free :: t.size[c]
  }

  /** Bytes of the chunks handed out, tags included. */
  ghost function LiveBytes(live: map<Addr, nat>): nat
    decreases |live|
  {
    if live == map[] then 0 else
      var c :| c in live;
      live[c] + META_SIZE + LiveBytes(live - {c})
  }

  /** The sum does not depend on the order in which chunks are taken. */
  lemma {:induction false} LiveBytesAt(live: map<Addr, nat>, c: Addr)
    requires c in live
    ensures LiveBytes(live) == live[c] + META_SIZE + LiveBytes(live - {c})
    decreases |live|
  {
    var d :| d in live && LiveBytes(live) == live[d] + META_SIZE + LiveBytes(live - {d});
    if d != c {
      LiveBytesAt(live - {d}, c);
      LiveBytesAt(live - {c}, d);
      assert live - {d} - {c} == live - {c} - {d};
    }
  }

  lemma LiveBytesAdded(live: map<Addr, nat>, c: Addr, size: nat)
    requires c !in live
    ensures LiveBytes(live[c := size]) == LiveBytes(live) + size + META_SIZE
  {
    LiveBytesAt(live[c := size], c);
    assert live[c := size] - {c} == live;
  }

  lemma NotLive(live: map<Addr, nat>, x: Addr, y: Addr)
    requires x !in live
    ensures live - {x, y} == live - {y}
  {
  }

  // ----- What the tiling means -----

  /** Byte `x` lies in chunk `c`. */
  ghost predicate Holds(t: Tags, c: Addr, x: Addr)
  {
    c in t.size && c <= x < End(t, c)
  }

  /** Walking right from a chunk reaches the chunk that holds a given byte. */
  lemma {:induction false} WalkRight(t: Tags, g: Layout, c: Addr, x: Addr) returns (d: Addr)
    requires Tiled(t, g)
    requires c in g.chunks && ChunkOk(t, g, c) && c <= x < RegionEnd(g, c)
    ensures d in g.chunks && ChunkOk(t, g, d) && Holds(t, d, x) && g.home[d] == g.home[c]
    decreases RegionEnd(g, c) - c
  {
    if x < End(t, c) {
      d := c;
    } else {
      d := WalkRight(t, g, End(t, c), x);
    }
  }

  /** The chunks of a region cover each of its bytes exactly once. */
  lemma TilingIsExact(t: Tags, g: Layout, r: Addr, x: Addr)
    requires Tiled(t, g)
    requires r in g.regions && r <= x < r + g.regions[r]
    ensures exists c :: c in g.chunks && Holds(t, c, x) && c in g.home && g.home[c] == r
    ensures forall c, d :: c in g.chunks && d in g.chunks && Holds(t, c, x) && Holds(t, d, x) ==> c == d
  {
    assert RegionOk(g, r);
    var c := WalkRight(t, g, r, x);
    forall c, d | c in g.chunks && d in g.chunks && Holds(t, c, x) && Holds(t, d, x)
      ensures c == d
    {
      assert c < d ==> Below(t, c, d);
      assert d < c ==> Below(t, d, c);
    }
  }

  /** When nothing is handed out, full coalescing leaves one chunk per region. */
  lemma AllFreeIsOneChunkPerRegion(t: Tags, free: set<Addr>, g: Layout)
    requires Tiled(t, g) && Coalesced(t, free, g)
    requires Live(t, free, g) == map[]
    ensures g.chunks == g.regions.Keys
    ensures forall r :: r in g.regions ==> r in t.size && End(t, r) == r + g.regions[r]
  {
    forall c | c in g.chunks
      ensures ChunkOk(t, g, c) && End(t, c) == RegionEnd(g, c)
    {
      assert ChunkOk(t, g, c) && NoFreeNeighbour(t, free, c);
      assert c !in Live(t, free, g) && End(t, c) !in Live(t, free, g);
      assert End(t, c) in g.chunks ==> ChunkOk(t, g, End(t, c));
    }
    forall r | r in g.regions ensures r in g.chunks && r in t.size && End(t, r) == r + g.regions[r] {
      assert RegionOk(g, r);
    }
    forall c | c in g.chunks ensures c in g.regions {
      assert ChunkOk(t, g, c);
      var r := g.home[c];
      assert RegionOk(g, r);
      assert c != r ==> Below(t, r, c);
    }
  }

  /** Payloads handed out never share a byte, and each is aligned. */
  lemma LivePayloadsDisjoint(t: Tags, free: set<Addr>, g: Layout, c: Addr, d: Addr)
    requires Tiled(t, g)
    requires c in Live(t, free, g) && d in Live(t, free, g) && c != d
    ensures (c + HEADER_SIZE) % ALIGNMENT == 0
    ensures var live := Live(t, free, g);
            c + HEADER_SIZE + live[c] <= d || d + HEADER_SIZE + live[d] <= c
  {
    assert ChunkOk(t, g, c);
    if c < d { assert Below(t, c, d); } else { assert Below(t, d, c); }
  }

  // ----- Sums over the ring -----

  lemma {:induction false} BytesFrame(t: Tags, t': Tags, s: seq<Addr>)
    requires forall i :: 0 <= i < |s| ==> s[i] in t.size && s[i] in t'.size && t.size[s[i]] == t'.size[s[i]]
    ensures Bytes(t, s) == Bytes(t', s)
  {
    if s != [] { BytesFrame(t, t', s[1..]); }
  }

  lemma {:induction false} BytesAppend(t: Tags, s: seq<Addr>, u: seq<Addr>)
    requires forall i :: 0 <= i < |s| ==> s[i] in t.size
    requires forall i :: 0 <= i < |u| ==> u[i] in t.size
    ensures Bytes(t, s + u) == Bytes(t, s) + Bytes(t, u)
  {
    if s == [] {
      assert s + u == u;
    } else {
      BytesAppend(t, s[1..], u);
      assert (s + u)[1..] == s[1..] + u;
    }
  }

  /** The share of one list member in the sum. */
  lemma BytesAt(t: Tags, s: seq<Addr>, k: nat)
    requires k < |s|
    requires forall i :: 0 <= i < |s| ==> s[i] in t.size
    ensures Bytes(t, s) == Bytes(t, s[..k]) + t.size[s[k]] + META_SIZE + Bytes(t, s[k + 1..])
  {
    BytesAppend(t, s[..k], s[k..]);
    assert s == s[..k] + s[k..];
    assert s[k..][1..] == s[k + 1..];
  }

  // ----- Ring surgery -----

  ghost function Inserted(ring: seq<Addr>, k: nat, b: Addr): seq<Addr>
    requires k < |ring|
  {
    ring[..k + 1] + [b] + ring[k + 1..]
  }

  ghost function Dropped(ring: seq<Addr>, k: nat): seq<Addr>
    requires k < |ring|
  {
    ring[..k] + ring[k + 1..]
  }

  /** The members of a list that are in `on`, in list order. */
  ghost function Kept(list: seq<Addr>, on: set<Addr>): seq<Addr>
  {
    if list == [] then []
    else if list[0] in on then [list[0]] + Kept(list[1..], on)
    else Kept(list[1..], on)
  }

  lemma {:induction false} KeptAll(list: seq<Addr>, on: set<Addr>)
    requires forall i :: 0 <= i < |list| ==> list[i] in on
    ensures Kept(list, on) == list
  {
    if list != [] {
      KeptAll(list[1..], on);
    }
  }

  lemma {:induction false} KeptDropped(list: seq<Addr>, k: nat, on: set<Addr>)
    requires k < |list| && list[k] !in on && forall i :: 0 <= i < |list| && i != k ==> list[i] in on
    ensures Kept(list, on) == list[..k] + list[k + 1..]
  {
    if k == 0 {
      KeptAll(list[1..], on);
    } else {
      KeptDropped(list[1..], k - 1, on);
    }
  }

  lemma {:induction false} KeptTwice(list: seq<Addr>, on: set<Addr>, still: set<Addr>)
    requires still <= on
    ensures Kept(Kept(list, on), still) == Kept(list, still)
  {
    if list != [] {
      KeptTwice(list[1..], on, still);
      assert list[0] in on ==> Kept(list, on)[1..] == Kept(list[1..], on);
    }
  }

  lemma InsertedMembers(ring: seq<Addr>, k: nat, b: Addr)
    requires k < |ring|
    ensures forall c :: c in Inserted(ring, k, b) <==> c in ring || c == b
  {
    assert ring == ring[..k + 1] + ring[k + 1..];
  }

  lemma DroppedMembers(ring: seq<Addr>, k: nat)
    requires k < |ring| && Distinct(ring)
    ensures forall c :: c in Dropped(ring, k) <==> c in ring && c != ring[k]
  {
    var ring' := Dropped(ring, k);
    forall c | c in ring && c != ring[k] ensures c in ring' {
      var i :| 0 <= i < |ring| && ring[i] == c;
      assert ring'[if i < k then i else i - 1] == c;
    }
    forall c | c in ring' ensures c in ring && c != ring[k] {
      var i :| 0 <= i < |ring'| && ring'[i] == c;
      assert ring[if i < k then i else i + 1] == c;
    }
  }

  lemma BytesInserted(t: Tags, ring: seq<Addr>, k: nat, b: Addr)
    requires k < |ring| && b in t.size
    requires forall i :: 0 <= i < |ring| ==> ring[i] in t.size
    ensures Bytes(t, Inserted(ring, k, b)[1..]) == Bytes(t, ring[1..]) + t.size[b] + META_SIZE
  {
    var s := Inserted(ring, k, b)[1..];
    BytesAt(t, s, k);
    assert s[..k] == ring[1..k + 1] && s[k + 1..] == ring[k + 1..];
    BytesAppend(t, ring[1..k + 1], ring[k + 1..]);
    assert ring[1..] == ring[1..k + 1] + ring[k + 1..];
  }

  lemma BytesDropped(t: Tags, ring: seq<Addr>, k: nat)
    requires 1 <= k < |ring|
    requires forall i :: 0 <= i < |ring| ==> ring[i] in t.size
    ensures Bytes(t, ring[1..]) == Bytes(t, Dropped(ring, k)[1..]) + t.size[ring[k]] + META_SIZE
  {
    var s := ring[1..];
    BytesAt(t, s, k - 1);
    assert s[..k - 1] == ring[1..k] && s[k..] == ring[k + 1..];
    BytesAppend(t, ring[1..k], ring[k + 1..]);
    assert Dropped(ring, k)[1..] == ring[1..k] + ring[k + 1..];
  }

  /** The four link writes that put `b` behind `a`. */
  function LinkAfter(l: Links, a: Addr, b: Addr): Links
    requires a in l.next
  {
    Links(l.next[b := l.next[a]][a := b], l.prev[b := a][l.next[a] := b])
  }

  /** The link writes that take `b` out and clear its own links. */
  function Unlink(l: Links, b: Addr): Links
    requires b in l.next && b in l.prev
  {
    Links(l.next[l.prev[b] := l.next[b]][b := NULL], l.prev[l.next[b] := l.prev[b]][b := NULL])
  }

  lemma InsertionKeepsRing(l: Links, ring: seq<Addr>, k: nat, b: Addr)
    requires RingOk(l, ring) && k < |ring| && b !in ring
    ensures Linked(l, ring, k) && RingOk(LinkAfter(l, ring[k], b), Inserted(ring, k, b))
  {
    assert Linked(l, ring, k);
    var l', ring' := LinkAfter(l, ring[k], b), Inserted(ring, k, b);
    forall i {:trigger Linked(l', ring', i)} | 0 <= i < |ring'| ensures Linked(l', ring', i) {
      if i < k {
        assert Linked(l, ring, i);
      } else if i > k + 1 {
        assert Linked(l, ring, i - 1);
      }
    }
  }

  lemma RemovalKeepsRing(l: Links, ring: seq<Addr>, k: nat)
    requires RingOk(l, ring) && 1 <= k < |ring|
    ensures Linked(l, ring, k - 1) && Linked(l, ring, k) && RingOk(Unlink(l, ring[k]), Dropped(ring, k))
  {
    assert Linked(l, ring, k - 1) && Linked(l, ring, k);
    var l', ring' := Unlink(l, ring[k]), Dropped(ring, k);
    forall i {:trigger Linked(l', ring', i)} | 0 <= i < |ring'| ensures Linked(l', ring', i) {
      if i + 1 < k {
        assert Linked(l, ring, i);
      } else if i >= k {
        assert Linked(l, ring, i + 1);
      }
    }
  }

  /** Putting a chunk on the free list. */
  lemma InsertionKeepsStructure(t: Tags, l: Links, free: set<Addr>, g: Layout, ring: seq<Addr>, head: Addr,
                                k: nat, b: Addr)
    requires Structured(t, l, free - {b}, g, ring, head) && k < |ring|
    requires b in g.chunks
    ensures b in t.size && Linked(l, ring, k)
    ensures Structured(t, LinkAfter(l, ring[k], b), free + {b}, g, Inserted(ring, k, b), head)
    ensures Bytes(t, Inserted(ring, k, b)[1..]) == Bytes(t, ring[1..]) + t.size[b] + META_SIZE
  {
    assert b in t.size by { assert ChunkOk(t, g, b); }
    InsertedSized(t, ring, k, b);
    assert Linked(l, ring, k) && RingOk(LinkAfter(l, ring[k], b), Inserted(ring, k, b)) by {
      InsertionKeepsRing(l, ring, k, b);
    }
    assert FreeExact(free + {b}, g, Inserted(ring, k, b)) by {
      assert free - {b} + {b} == free + {b};
      InsertionKeepsFree(free - {b}, g, ring, k, b);
    }
    BytesInserted(t, ring, k, b);
  }

  lemma InsertedSized(t: Tags, ring: seq<Addr>, k: nat, b: Addr)
    requires k < |ring| && b in t.size && forall i :: 0 <= i < |ring| ==> ring[i] in t.size
    ensures Inserted(ring, k, b)[0] == ring[0]
    ensures forall i :: 0 <= i < |Inserted(ring, k, b)| ==> Inserted(ring, k, b)[i] in t.size
  {
  }

  lemma InsertionKeepsFree(free: set<Addr>, g: Layout, ring: seq<Addr>, k: nat, b: Addr)
    requires FreeExact(free, g, ring) && k < |ring| && b in g.chunks
    ensures FreeExact(free + {b}, g, Inserted(ring, k, b))
  {
    InsertedMembers(ring, k, b);
  }

  /** Taking a chunk off the free list. */
  lemma RemovalKeepsStructure(t: Tags, l: Links, free: set<Addr>, g: Layout, ring: seq<Addr>, head: Addr, k: nat)
    requires Structured(t, l, free, g, ring, head) && 1 <= k < |ring|
    ensures Linked(l, ring, k - 1) && Linked(l, ring, k)
    ensures Structured(t, Unlink(l, ring[k]), free - {ring[k]}, g, Dropped(ring, k), head)
    ensures Bytes(t, Dropped(ring, k)[1..]) + t.size[ring[k]] + META_SIZE == Bytes(t, ring[1..])
  {
    RemovalKeepsRing(l, ring, k);
    RemovalKeepsFree(free, g, ring, k);
    BytesDropped(t, ring, k);
  }

  lemma RemovalKeepsFree(free: set<Addr>, g: Layout, ring: seq<Addr>, k: nat)
    requires FreeExact(free, g, ring) && 1 <= k < |ring| && Distinct(ring)
    ensures FreeExact(free - {ring[k]}, g, Dropped(ring, k))
  {
    DroppedMembers(ring, k);
  }

  /** What being on the list says about an address. */
  lemma ListedChunk(t: Tags, l: Links, free: set<Addr>, g: Layout, ring: seq<Addr>, head: Addr, k: nat)
    requires Structured(t, l, free, g, ring, head) && 1 <= k < |ring|
    ensures ring[k] in g.chunks && ring[k] in free && ring[k] !in Live(t, free, g)
    ensures ring[k] != NULL && ring[k] != head && (ring[k] + HEADER_SIZE) % ALIGNMENT == 0
  {
    assert ring[k] in g.chunks;
    ChunkIsAligned(t, g, ring[k]);
  }

  lemma ChunkIsAligned(t: Tags, g: Layout, c: Addr)
    requires Tiled(t, g) && c in g.chunks
    ensures c != NULL && (c + HEADER_SIZE) % ALIGNMENT == 0
  {
    assert ChunkOk(t, g, c);
    assert RegionOk(g, g.home[c]);
  }

  // ----- Splitting a chunk -----

  ghost function WithChunk(g: Layout, c: Addr, r: Addr): Layout
  {
    g.(chunks := g.chunks + {c}, home := g.home[c := r])
  }

  function SetSides(t: Tags, c: Addr, left: bool, right: bool): Tags
  {
    t.(left := if left then t.left + {c} else t.left - {c},
       right := if right then t.right + {c} else t.right - {c})
  }

  function SetSize(t: Tags, c: Addr, size: nat): Tags
  {
    t.(size := t.size[c := size], footer := t.footer[c + HEADER_SIZE + size := size])
  }

  /** Chunk `c` cut into `c` of `bytes` bytes and a new chunk with the rest. */
  function SplitTags(t: Tags, c: Addr, bytes: nat): Tags
    requires c in t.size && t.size[c] >= bytes + META_SIZE
  {
    var b := c + bytes + META_SIZE;
    var first := SetSides(SetSize(t, c, bytes), c, c in t.left, true);
    SetSides(SetSize(first, b, t.size[c] - (bytes + META_SIZE)), b, true, c in t.right)
  }

  lemma SplitKeepsTiling(t: Tags, g: Layout, c: Addr, bytes: nat)
    requires Tiled(t, g) && c in g.chunks && bytes % ALIGNMENT == 8
    requires c in t.size && t.size[c] >= bytes + META_SIZE
    ensures c in g.home && c + bytes + META_SIZE !in g.chunks
    ensures Tiled(SplitTags(t, c, bytes), WithChunk(g, c + bytes + META_SIZE, g.home[c]))
  {
    assert ChunkOk(t, g, c);
    var b := c + bytes + META_SIZE;
    var t', g' := SplitTags(t, c, bytes), WithChunk(g, b, g.home[c]);
    assert b in g.chunks ==> Below(t, c, b);
    forall d {:trigger ChunkOk(t', g', d)} | d in g'.chunks ensures ChunkOk(t', g', d) {
      if d == b { SplitSecondOk(t, g, c, bytes); } else { SplitChunkOk(t, g, c, bytes, d); }
    }
    forall d, e {:trigger Below(t', d, e)} | d in g'.chunks && e in g'.chunks && d < e ensures Below(t', d, e) {
      SplitBelow(t, g, c, bytes, d, e);
    }
    forall r {:trigger RegionOk(g', r)} | r in g'.regions ensures RegionOk(g', r) { assert RegionOk(g, r); }
    forall r, s {:trigger RegionBelow(g', r, s)} | r in g'.regions && s in g'.regions && r < s
      ensures RegionBelow(g', r, s)
    {
      assert RegionBelow(g, r, s);
    }
  }

  lemma SplitSecondOk(t: Tags, g: Layout, c: Addr, bytes: nat)
    requires ChunkOk(t, g, c) && c in g.chunks && bytes % ALIGNMENT == 8 && t.size[c] >= bytes + META_SIZE
    ensures ChunkOk(SplitTags(t, c, bytes), WithChunk(g, c + bytes + META_SIZE, g.home[c]), c + bytes + META_SIZE)
  {
    var b, t' := c + bytes + META_SIZE, SplitTags(t, c, bytes);
    assert t'.footer[b - FOOTER_SIZE] == bytes && t'.size[b] == t.size[c] - bytes - META_SIZE
           && End(t', b) == End(t, c);
    SecondIsAligned(c, t.size[c], bytes);
  }

  lemma SecondIsAligned(c: Addr, size: nat, bytes: nat)
    requires c % ALIGNMENT == 0 && size % ALIGNMENT == 8 && bytes % ALIGNMENT == 8 && size >= bytes + META_SIZE
    ensures (c + bytes + META_SIZE) % ALIGNMENT == 0 && (size - bytes - META_SIZE) % ALIGNMENT == 8
  {
  }

  lemma SplitBelow(t: Tags, g: Layout, c: Addr, bytes: nat, d: Addr, e: Addr)
    requires Tiled(t, g) && c in g.chunks && c in t.size && t.size[c] >= bytes + META_SIZE
    requires d in g.chunks || d == c + bytes + META_SIZE
    requires e in g.chunks || e == c + bytes + META_SIZE
    requires d < e
    ensures Below(SplitTags(t, c, bytes), d, e)
  {
    var b := c + bytes + META_SIZE;
    if d == b {
      assert Below(t, c, e);
    } else if e == b {
      assert d > c ==> Below(t, c, d);
      assert d < c ==> Below(t, d, c);
    } else {
      assert Below(t, d, e);
    }
  }

  lemma SplitChunkOk(t: Tags, g: Layout, c: Addr, bytes: nat, d: Addr)
    requires Tiled(t, g) && c in g.chunks && d in g.chunks && bytes % ALIGNMENT == 8
    requires c in t.size && t.size[c] >= bytes + META_SIZE
    requires c in g.home && c + bytes + META_SIZE !in g.chunks
    ensures ChunkOk(SplitTags(t, c, bytes), WithChunk(g, c + bytes + META_SIZE, g.home[c]), d)
  {
    assert ChunkOk(t, g, c) && ChunkOk(t, g, d);
    if d == c {
      SplitFirstOk(t, g, c, bytes);
    } else {
      assert End(t, d) <= c || End(t, c) <= d by {
        if d < c { assert Below(t, d, c); } else { assert Below(t, c, d); }
      }
      if d in t.left { SplitLeftLink(t, g, c, bytes, d); }
      SplitOtherOk(t, g, c, bytes, d);
    }
  }

  lemma SplitFirstOk(t: Tags, g: Layout, c: Addr, bytes: nat)
    requires ChunkOk(t, g, c) && c in g.chunks && bytes % ALIGNMENT == 8 && t.size[c] >= bytes + META_SIZE
    ensures ChunkOk(SplitTags(t, c, bytes), WithChunk(g, c + bytes + META_SIZE, g.home[c]), c)
  {
  }

  lemma SplitOtherOk(t: Tags, g: Layout, c: Addr, bytes: nat, d: Addr)
    requires ChunkOk(t, g, c) && ChunkOk(t, g, d) && c in g.chunks && d in g.chunks && c != d
    requires t.size[c] >= bytes + META_SIZE && c + bytes + META_SIZE !in g.chunks && (End(t, d) <= c || End(t, c) <= d)
    requires d in t.left ==> LeftLink(SplitTags(t, c, bytes), WithChunk(g, c + bytes + META_SIZE, g.home[c]), d)
    ensures ChunkOk(SplitTags(t, c, bytes), WithChunk(g, c + bytes + META_SIZE, g.home[c]), d)
  {
  }

  lemma SplitLeftLink(t: Tags, g: Layout, c: Addr, bytes: nat, d: Addr)
    requires Tiled(t, g) && c in g.chunks && d in g.chunks && c != d && d in t.left
    requires c in t.size && t.size[c] >= bytes + META_SIZE
    requires c in g.home && c + bytes + META_SIZE !in g.chunks
    ensures LeftLink(SplitTags(t, c, bytes), WithChunk(g, c + bytes + META_SIZE, g.home[c]), d)
  {
    assert ChunkOk(t, g, c) && ChunkOk(t, g, d);
    var p := d - META_SIZE - t.footer[d - FOOTER_SIZE];
    assert d < c || End(t, c) <= d by { assert d > c ==> Below(t, c, d); }
    assert End(t, p) <= c || p == c || End(t, c) <= p by {
      assert ChunkOk(t, g, p);
      assert p < c ==> Below(t, p, c);
      assert p > c ==> Below(t, c, p);
    }
    SplitKeepsFooter(t, g, c, bytes, d, p);
  }

  /** The footer below `d` leads to `p` or, if `p` was split, to its second part. */
  lemma SplitKeepsFooter(t: Tags, g: Layout, c: Addr, bytes: nat, d: Addr, p: Addr)
    requires ChunkOk(t, g, c) && c in g.chunks && LeftLink(t, g, d) && p == d - META_SIZE - t.footer[d - FOOTER_SIZE]
    requires t.size[c] >= bytes + META_SIZE && c + bytes + META_SIZE !in g.chunks && c != d && d in g.chunks
    requires (d < c || End(t, c) <= d) && (End(t, p) <= c || p == c || End(t, c) <= p)
    ensures LeftLink(SplitTags(t, c, bytes), WithChunk(g, c + bytes + META_SIZE, g.home[c]), d)
  {
  }

  // ----- Merging two neighbours -----

  ghost function WithoutChunk(g: Layout, c: Addr): Layout
  {
    g.(chunks := g.chunks - {c})
  }

  /** The right neighbour `b` of `a` absorbed into `a`. */
  function MergeTags(t: Tags, a: Addr, b: Addr): Tags
    requires a in t.size && b in t.size
  {
    SetSides(SetSize(t, a, t.size[a] + t.size[b] + META_SIZE), a, a in t.left, b in t.right)
  }

  ghost predicate Neighbours(t: Tags, g: Layout, a: Addr, b: Addr)
  {
    a in g.chunks && a in t.size && b in t.size && a in t.right && b == End(t, a)
  }

  lemma MergeKeepsTiling(t: Tags, g: Layout, a: Addr, b: Addr)
    requires Tiled(t, g) && Neighbours(t, g, a, b)
    ensures Tiled(MergeTags(t, a, b), WithoutChunk(g, b))
    ensures a != b && b in g.chunks
  {
    assert ChunkOk(t, g, a) && ChunkOk(t, g, b);
    var t', g' := MergeTags(t, a, b), WithoutChunk(g, b);
    forall d {:trigger ChunkOk(t', g', d)} | d in g'.chunks ensures ChunkOk(t', g', d) {
      MergeChunkOk(t, g, a, b, d);
    }
    forall d, e {:trigger Below(t', d, e)} | d in g'.chunks && e in g'.chunks && d < e ensures Below(t', d, e) {
      assert Below(t, d, e);
      assert d == a && b < e ==> Below(t, b, e);
    }
    forall r {:trigger RegionOk(g', r)} | r in g'.regions ensures RegionOk(g', r) { assert RegionOk(g, r); }
    forall r, s {:trigger RegionBelow(g', r, s)} | r in g'.regions && s in g'.regions && r < s
      ensures RegionBelow(g', r, s)
    {
      assert RegionBelow(g, r, s);
    }
  }

  lemma MergeChunkOk(t: Tags, g: Layout, a: Addr, b: Addr, d: Addr)
    requires Tiled(t, g) && Neighbours(t, g, a, b)
    requires d in g.chunks && d != b
    ensures ChunkOk(MergeTags(t, a, b), WithoutChunk(g, b), d)
  {
    if d == a {
      MergedChunkOk(t, g, a, b);
    } else {
      assert ChunkOk(t, g, a) && ChunkOk(t, g, b) && ChunkOk(t, g, d);
      if d in t.left { MergeLeftLink(t, g, a, b, d); }
      assert End(t, d) <= a || End(t, b) <= d by {
        assert d < a ==> Below(t, d, a);
        assert d > a ==> Below(t, a, d);
        assert d > b ==> Below(t, b, d);
      }
      MergeOtherOk(t, g, a, b, d);
    }
  }

  lemma MergeOtherOk(t: Tags, g: Layout, a: Addr, b: Addr, d: Addr)
    requires ChunkOk(t, g, a) && ChunkOk(t, g, b) && ChunkOk(t, g, d) && Neighbours(t, g, a, b)
    requires d in g.chunks && d != a && d != b && (End(t, d) <= a || End(t, b) <= d)
    requires d in t.left ==> LeftLink(MergeTags(t, a, b), WithoutChunk(g, b), d)
    ensures ChunkOk(MergeTags(t, a, b), WithoutChunk(g, b), d)
  {
  }

  lemma MergedChunkOk(t: Tags, g: Layout, a: Addr, b: Addr)
    requires Tiled(t, g) && Neighbours(t, g, a, b)
    ensures ChunkOk(MergeTags(t, a, b), WithoutChunk(g, b), a)
  {
    assert ChunkOk(t, g, a) && ChunkOk(t, g, b);
    if a in t.left { MergeLeftLink(t, g, a, b, a); }
    assert (t.size[a] + t.size[b] + META_SIZE) % ALIGNMENT == 8;
  }

  lemma MergeLeftLink(t: Tags, g: Layout, a: Addr, b: Addr, d: Addr)
    requires Tiled(t, g) && Neighbours(t, g, a, b)
    requires d in g.chunks && d != b && d in t.left
    ensures LeftLink(MergeTags(t, a, b), WithoutChunk(g, b), d)
  {
    assert ChunkOk(t, g, a) && ChunkOk(t, g, b) && ChunkOk(t, g, d);
    var p := d - META_SIZE - t.footer[d - FOOTER_SIZE];
    assert End(t, d) <= b || End(t, b) <= d by {
      assert d < b ==> Below(t, d, b);
      assert d > b ==> Below(t, b, d);
    }
    assert End(t, p) <= b || p == b || End(t, b) <= p by {
      assert ChunkOk(t, g, p);
      assert p < b ==> Below(t, p, b);
      assert p > b ==> Below(t, b, p);
    }
    MergeKeepsFooter(t, g, a, b, d, p);
  }

  /** The footer below `d` leads to `p` or, if `p` was absorbed, to what absorbed it. */
  lemma MergeKeepsFooter(t: Tags, g: Layout, a: Addr, b: Addr, d: Addr, p: Addr)
    requires ChunkOk(t, g, a) && ChunkOk(t, g, b) && ChunkOk(t, g, d) && Neighbours(t, g, a, b)
    requires d in g.chunks && d != b && d in t.left && p == d - META_SIZE - t.footer[d - FOOTER_SIZE]
    requires (End(t, d) <= b || End(t, b) <= d) && (End(t, p) <= b || p == b || End(t, b) <= p)
    ensures LeftLink(MergeTags(t, a, b), WithoutChunk(g, b), d)
  {
  }

  // ----- Adding a region -----

  ghost function WithRegion(g: Layout, r: Addr, len: nat): Layout
  {
    Layout(g.chunks + {r}, g.regions[r := len], g.home[r := r])
  }

  /** What the page allocator promises: a page-aligned range nobody else uses. */
  ghost predicate FreshRegion(g: Layout, head: Addr, r: Addr, len: nat)
  {
    && r != NULL && r % BLOCK_SIZE == 0 && len > META_SIZE && len % BLOCK_SIZE == 0
    && !(r <= head < r + len)
    && forall s :: s in g.regions ==> r + len <= s || s + g.regions[s] <= r
  }

  /** One chunk written over the whole range. */
  function RegionTags(t: Tags, r: Addr, len: nat): Tags
    requires len >= META_SIZE
  {
    SetSides(SetSize(t, r, len - META_SIZE), r, false, false)
  }

  lemma ExpansionKeepsTiling(t: Tags, g: Layout, head: Addr, r: Addr, len: nat)
    requires Tiled(t, g) && FreshRegion(g, head, r, len)
    ensures r !in g.chunks && r !in g.regions
    ensures Tiled(RegionTags(t, r, len), WithRegion(g, r, len))
  {
    var t', g' := RegionTags(t, r, len), WithRegion(g, r, len);
    PagesAreAligned(r, len);
    ExpansionApart(t, g, head, r, len);
    forall d {:trigger ChunkOk(t', g', d)} | d in g'.chunks ensures ChunkOk(t', g', d) {
      if d != r { ExpansionChunkOk(t, g, head, r, len, d); }
    }
    forall d, e {:trigger Below(t', d, e)} | d in g'.chunks && e in g'.chunks && d < e ensures Below(t', d, e) {
      assert d != r ==> ChunkOk(t, g, d);
      assert d != r && e != r ==> Below(t, d, e);
    }
    forall s {:trigger RegionOk(g', s)} | s in g'.regions ensures RegionOk(g', s) {
      assert s != r ==> RegionOk(g, s);
    }
    forall s, u {:trigger RegionBelow(g', s, u)} | s in g'.regions && u in g'.regions && s < u
      ensures RegionBelow(g', s, u)
    {
      assert s != r && u != r ==> RegionBelow(g, s, u);
      assert s != r ==> RegionOk(g, s) && ChunkOk(t, g, s);
      assert u != r ==> RegionOk(g, u) && ChunkOk(t, g, u);
    }
  }

  lemma PagesAreAligned(r: Addr, len: nat)
    requires r % BLOCK_SIZE == 0 && len % BLOCK_SIZE == 0 && len > META_SIZE
    ensures r % ALIGNMENT == 0 && (len - META_SIZE) % ALIGNMENT == 8
  {
    assert r == BLOCK_SIZE * (r / BLOCK_SIZE) && len == BLOCK_SIZE * (len / BLOCK_SIZE);
    Multiples(r, r / BLOCK_SIZE);
    Multiples(len, len / BLOCK_SIZE);
  }

  lemma Multiples(x: nat, q: nat)
    requires x == BLOCK_SIZE * q
    ensures x % ALIGNMENT == 0
  {
    assert x == ALIGNMENT * (256 * q);
  }

  /** A fresh region touches no chunk. */
  lemma ExpansionApart(t: Tags, g: Layout, head: Addr, r: Addr, len: nat)
    requires Tiled(t, g) && FreshRegion(g, head, r, len)
    ensures forall d :: d in g.chunks ==> d in t.size && (End(t, d) <= r || r + len <= d)
    ensures r !in g.chunks && r !in g.regions
  {
    forall d | d in g.chunks ensures d in t.size && (End(t, d) <= r || r + len <= d) {
      assert ChunkOk(t, g, d);
    }
    assert r in g.regions ==> RegionOk(g, r);
  }

  lemma ExpansionChunkOk(t: Tags, g: Layout, head: Addr, r: Addr, len: nat, d: Addr)
    requires Tiled(t, g) && FreshRegion(g, head, r, len) && d in g.chunks
    ensures ChunkOk(RegionTags(t, r, len), WithRegion(g, r, len), d)
  {
    ExpansionApart(t, g, head, r, len);
    assert ChunkOk(t, g, d);
  }

  // ----- Splits, merges and growth under the free list -----

  lemma BytesResized(t: Tags, t': Tags, ring: seq<Addr>, k: nat)
    requires 1 <= k < |ring|
    requires forall i :: 0 <= i < |ring| ==> ring[i] in t.size && ring[i] in t'.size
    requires forall i :: 0 <= i < |ring| && i != k ==> t.size[ring[i]] == t'.size[ring[i]]
    ensures Bytes(t', ring[1..]) + t.size[ring[k]] == Bytes(t, ring[1..]) + t'.size[ring[k]]
  {
    var s := ring[1..];
    BytesAt(t, s, k - 1);
    BytesAt(t', s, k - 1);
    BytesFrame(t, t', s[..k - 1]);
    BytesFrame(t, t', s[k..]);
  }

  lemma SplitKeepsStructure(t: Tags, l: Links, free: set<Addr>, g: Layout, ring: seq<Addr>, head: Addr,
                            k: nat, bytes: nat)
    requires Structured(t, l, free, g, ring, head) && 1 <= k < |ring| && bytes % ALIGNMENT == 8
    requires t.size[ring[k]] >= bytes + META_SIZE
    ensures var c := ring[k]; var b := c + bytes + META_SIZE; var t' := SplitTags(t, c, bytes);
            && c in g.home && b !in g.chunks
            && Structured(t', l, free - {b}, WithChunk(g, b, g.home[c]), ring, head)
            && Bytes(t', ring[1..]) + t.size[c] == Bytes(t, ring[1..]) + bytes
  {
    var c := ring[k];
    var b := c + bytes + META_SIZE;
    SplitKeepsTiling(t, g, c, bytes);
    assert ChunkOk(t, g, c);
    assert b !in ring;
    BytesResized(t, SplitTags(t, c, bytes), ring, k);
  }

  lemma MergeKeepsStructure(t: Tags, l: Links, free: set<Addr>, g: Layout, ring: seq<Addr>, head: Addr, a: Addr,
      b: Addr)
    requires Structured(t, l, free, g, ring, head) && Neighbours(t, g, a, b)
    requires a !in free && b !in free
    ensures Structured(MergeTags(t, a, b), l, free, WithoutChunk(g, b), ring, head)
    ensures Bytes(MergeTags(t, a, b), ring[1..]) == Bytes(t, ring[1..])
  {
    MergeKeepsTiling(t, g, a, b);
    BytesFrame(t, MergeTags(t, a, b), ring[1..]);
  }

  lemma ExpansionKeepsStructure(t: Tags, l: Links, free: set<Addr>, g: Layout, ring: seq<Addr>, head: Addr,
                                r: Addr, len: nat)
    requires Structured(t, l, free, g, ring, head) && FreshRegion(g, head, r, len)
    ensures r !in g.chunks
    ensures Structured(RegionTags(t, r, len), l, free - {r}, WithRegion(g, r, len), ring, head)
    ensures Bytes(RegionTags(t, r, len), ring[1..]) == Bytes(t, ring[1..])
  {
    ExpansionKeepsTiling(t, g, head, r, len);
    assert r !in ring;
    BytesFrame(t, RegionTags(t, r, len), ring[1..]);
  }

  // ----- Full coalescing -----

  ghost predicate ClearBefore(t: Tags, free: set<Addr>, d: Addr, r: Addr)
  {
    d in t.size && (d in t.right && End(t, d) == r ==> d !in free)
  }

  /** The left neighbour of `r`, if any, is in use. */
  ghost predicate LeftClear(t: Tags, free: set<Addr>, g: Layout, r: Addr)
  {
    forall d {:trigger ClearBefore(t, free, d, r)} :: d in g.chunks ==> ClearBefore(t, free, d, r)
  }

  /** The right neighbour of `r`, if any, is in use. */
  ghost predicate RightClear(t: Tags, free: set<Addr>, r: Addr)
  {
    r in t.size && (r in t.right ==> End(t, r) !in free)
  }

  lemma InsertionKeepsCoalesced(t: Tags, free: set<Addr>, g: Layout, r: Addr)
    requires Coalesced(t, free, g) && LeftClear(t, free, g, r) && RightClear(t, free, r)
    ensures Coalesced(t, free + {r}, g)
  {
    forall c {:trigger NoFreeNeighbour(t, free + {r}, c)} | c in g.chunks ensures NoFreeNeighbour(t, free + {r}, c) {
      assert NoFreeNeighbour(t, free, c) && ClearBefore(t, free, c, r);
    }
  }

  /** A chunk whose left neighbour is in use, or that has none. */
  lemma UsedLeftIsClear(t: Tags, free: set<Addr>, g: Layout, b: Addr)
    requires Tiled(t, g) && b in g.chunks && ChunkOk(t, g, b)
    requires b in t.left ==> b - META_SIZE - t.footer[b - FOOTER_SIZE] !in free
    ensures LeftClear(t, free, g, b)
  {
    forall d {:trigger ClearBefore(t, free, d, b)} | d in g.chunks ensures ClearBefore(t, free, d, b) {
      assert ChunkOk(t, g, d);
      if b in t.left {
        var p := b - META_SIZE - t.footer[b - FOOTER_SIZE];
        assert d < p ==> Below(t, d, p);
        assert p < d ==> Below(t, p, d);
      }
    }
  }

  /** Absorbing keeps full coalescing, and the merged chunk inherits the
      outer neighbours of the two. `x` is the one that was free. */
  lemma MergeKeepsCoalesced(t: Tags, free: set<Addr>, g: Layout, a: Addr, b: Addr, x: Addr)
    requires Tiled(t, g) && Coalesced(t, free, g) && Neighbours(t, g, a, b)
    requires (x == a && b !in free) || (x == b && a !in free)
    ensures Coalesced(MergeTags(t, a, b), free - {x}, WithoutChunk(g, b))
    ensures x in free && x == a ==> LeftClear(MergeTags(t, a, b), free - {x}, WithoutChunk(g, b), a)
    ensures x == b && LeftClear(t, free, g, a) ==> LeftClear(MergeTags(t, a, b), free - {x}, WithoutChunk(g, b), a)
    ensures x in free && x == b ==> RightClear(MergeTags(t, a, b), free - {x}, a)
  {
    assert ChunkOk(t, g, a) && ChunkOk(t, g, b) && NoFreeNeighbour(t, free, b);
    var t', free', g' := MergeTags(t, a, b), free - {x}, WithoutChunk(g, b);
    forall c {:trigger NoFreeNeighbour(t', free', c)} | c in g'.chunks ensures NoFreeNeighbour(t', free', c) {
      assert NoFreeNeighbour(t, free, c);
    }
    if (x in free && x == a) || (x == b && LeftClear(t, free, g, a)) {
      forall d {:trigger ClearBefore(t', free', d, a)} | d in g'.chunks ensures ClearBefore(t', free', d, a) {
        assert NoFreeNeighbour(t, free, d);
        assert x == b ==> ClearBefore(t, free, d, a);
      }
    }
  }

  lemma RemovalKeepsCoalesced(t: Tags, free: set<Addr>, g: Layout, r: Addr)
    requires Coalesced(t, free, g)
    ensures Coalesced(t, free - {r}, g)
  {
    forall c {:trigger NoFreeNeighbour(t, free - {r}, c)} | c in g.chunks ensures NoFreeNeighbour(t, free - {r}, c) {
      assert NoFreeNeighbour(t, free, c);
    }
  }

  lemma SplitKeepsCoalesced(t: Tags, free: set<Addr>, g: Layout, c: Addr, bytes: nat)
    requires Tiled(t, g) && Coalesced(t, free, g) && c in g.chunks && c in free && c in g.home
    requires c in t.size && t.size[c] >= bytes + META_SIZE
    ensures var b := c + bytes + META_SIZE;
            Coalesced(SplitTags(t, c, bytes), free + {b} - {c}, WithChunk(g, b, g.home[c]))
  {
    var b := c + bytes + META_SIZE;
    var t', free', g' := SplitTags(t, c, bytes), free + {b} - {c}, WithChunk(g, b, g.home[c]);
    assert ChunkOk(t, g, c) && NoFreeNeighbour(t, free, c);
    assert b in g.chunks ==> Below(t, c, b);
    forall d {:trigger NoFreeNeighbour(t', free', d)} | d in g'.chunks ensures NoFreeNeighbour(t', free', d) {
      assert d != b ==> NoFreeNeighbour(t, free, d) && ChunkOk(t, g, d);
    }
  }

  lemma ExpansionKeepsCoalesced(t: Tags, free: set<Addr>, g: Layout, head: Addr, r: Addr, len: nat)
    requires Tiled(t, g) && Coalesced(t, free, g) && FreshRegion(g, head, r, len)
    ensures Coalesced(RegionTags(t, r, len), free + {r}, WithRegion(g, r, len))
  {
    ExpansionApart(t, g, head, r, len);
    var t', free', g' := RegionTags(t, r, len), free + {r}, WithRegion(g, r, len);
    forall d {:trigger NoFreeNeighbour(t', free', d)} | d in g'.chunks ensures NoFreeNeighbour(t', free', d) {
      assert d != r ==> NoFreeNeighbour(t, free, d) && ChunkOk(t, g, d);
    }
  }

  // ----- What each operation does to the chunks handed out -----

  lemma InsertionLive(t: Tags, free: set<Addr>, g: Layout, b: Addr)
    ensures Live(t, free + {b}, g) == Live(t, free, g) - {b}
  {
  }

  lemma RemovalLive(t: Tags, free: set<Addr>, g: Layout, c: Addr)
    requires c in g.chunks && c in t.size
    ensures Live(t, free - {c}, g) == Live(t, free, g)[c := t.size[c]]
  {
  }

  lemma MergeLive(t: Tags, free: set<Addr>, g: Layout, a: Addr, b: Addr, x: Addr)
    requires a in t.size && b in t.size && (x == a || x == b)
    ensures Live(MergeTags(t, a, b), free - {x}, WithoutChunk(g, b)) - {a} == Live(t, free, g) - {a, b}
  {
  }

  lemma ExpansionLive(t: Tags, free: set<Addr>, g: Layout, r: Addr, len: nat)
    requires r !in g.chunks && len >= META_SIZE
    ensures Live(RegionTags(t, r, len), free + {r}, WithRegion(g, r, len)) == Live(t, free, g)
  {
  }

  lemma SplitLive(t: Tags, free: set<Addr>, g: Layout, c: Addr, bytes: nat)
    requires c in g.chunks && c in g.home && c in free && c in t.size && t.size[c] >= bytes + META_SIZE
    requires c + bytes + META_SIZE !in g.chunks
    ensures var b := c + bytes + META_SIZE;
            Live(SplitTags(t, c, bytes), free + {b} - {c}, WithChunk(g, b, g.home[c])) == Live(t, free, g)[c := bytes]
  {
  }
}
