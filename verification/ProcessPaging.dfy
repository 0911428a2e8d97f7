/** The address space of a new process, which shares the kernel's tables. */
module ProcessPaging {
  import opened Basics
  import opened PagingModel
  import opened PagingRights
  import opened Paging

  /** The top entry that leads to the kernel's tables. */
  function KernelEntry(pdpt: nat): nat
  {
    Or(Or(pdpt, USER), PRESENT)
  }

  /** The kernel's tables, those below the kernel's entries of the top table. */
  function KernelTables(k: Space): map<nat, seq<nat>>
  {
    map f | f in k.mem && f in k.owner && k.owner[f] != [] && k.owner[f][0] < KERNEL_ENTRIES :: k.mem[f]
  }

  /** A top table of its own over the kernel's tables. */
  function Shared(k: Space, root: nat, pdpt: nat): Space
  {
    var tables := KernelTables(k);
    var top: seq<nat> := Zeros()[0 := KernelEntry(pdpt)];
    Space(tables[root := top],
          (map f | f in tables && f in k.owner :: k.owner[f])[root := []],
          (map f | f in tables && f in k.owner :: if |k.owner[f]| > 1 && f in k.parent then k.parent[f] else root),
          root)
  }

  /** The kernel's tables start at `pdpt`, and `root` is none of them. */
  ghost predicate CanShare(k: Space, root: nat, pdpt: nat)
  {
    && TreeOk(k) && TableOk(k, k.root) && Present(k.mem[k.root][0]) && Frame(k.mem[k.root][0]) == pdpt
    && root % PAGE_SIZE == 0 && root != 0 && root !in KernelTables(k)
  }

  lemma EntryLeadsToKernel(k: Space, root: nat, pdpt: nat)
    requires CanShare(k, root, pdpt)
    ensures Present(KernelEntry(pdpt)) && Frame(KernelEntry(pdpt)) == pdpt
    ensures pdpt in k.owner && k.owner[pdpt] == [0] && pdpt in KernelTables(k)
  {
    FlagsKeepPage(pdpt, USER);
    FlagsKeepPage(Or(pdpt, USER), PRESENT);
    assert LinkOk(k, k.root, 0) && [] + [0] == [0];
    assert TableOk(k, pdpt);
  }

  lemma SharedLinks(k: Space, root: nat, pdpt: nat, f: nat, i: nat)
    requires CanShare(k, root, pdpt)
    ensures LinkOk(Shared(k, root, pdpt), f, i)
  {
    EntryLeadsToKernel(k, root, pdpt);
    assert LinkOk(k, f, i) && (f in k.owner ==> TableOk(k, f));
    if f in KernelTables(k) && i < ENTRIES && |k.owner[f]| < 3 && Present(k.mem[f][i]) {
      var c := Frame(k.mem[f][i]);
      assert TableOk(k, c) && k.owner[c][0] == k.owner[f][0];
    }
  }

  lemma SharedHangs(k: Space, root: nat, pdpt: nat, g: nat)
    requires CanShare(k, root, pdpt)
    ensures Hangs(Shared(k, root, pdpt), g)
  {
    EntryLeadsToKernel(k, root, pdpt);
    if g in KernelTables(k) {
      assert Hangs(k, g) && TableOk(k, g);
      if |k.owner[g]| == 1 {
        assert k.owner[g] == [0] && Apart(k, g, pdpt);
      } else {
        var p := k.parent[g];
        assert k.owner[g][0] == k.owner[p][0];
      }
    }
  }

  lemma SharedIsTree(k: Space, root: nat, pdpt: nat)
    requires CanShare(k, root, pdpt)
    ensures TreeOk(Shared(k, root, pdpt))
  {
    var t := Shared(k, root, pdpt);
    forall f {:trigger TableOk(t, f)} | f in t.owner ensures TableOk(t, f) { assert f != root ==> TableOk(k, f); }
    forall f, i {:trigger LinkOk(t, f, i)} ensures LinkOk(t, f, i) { SharedLinks(k, root, pdpt, f, i); }
    forall f, g {:trigger Apart(t, f, g)} ensures Apart(t, f, g) { assert Apart(k, f, g); }
    forall g {:trigger Hangs(t, g)} ensures Hangs(t, g) { SharedHangs(k, root, pdpt, g); }
  }

  /** Below the kernel's entries both spaces walk the same tables. */
  lemma {:induction false} SharedDescends(k: Space, root: nat, pdpt: nat, f: nat, p: seq<nat>)
    requires CanShare(k, root, pdpt) && f in KernelTables(k) && |k.owner[f]| + |p| <= 4 && IsIndexes(p)
    ensures Descend(Shared(k, root, pdpt).mem, f, p) == Descend(k.mem, f, p)
    decreases |p|
  {
    var t := Shared(k, root, pdpt);
    if p != [] {
      assert TableOk(k, f) && LinkOk(k, f, p[0]);
      if Present(k.mem[f][p[0]]) && |k.owner[f]| < 3 {
        var c := Frame(k.mem[f][p[0]]);
        assert TableOk(k, c) && k.owner[c][0] == k.owner[f][0];
        SharedDescends(k, root, pdpt, c, p[1..]);
      }
    }
  }

  /** A new process translates kernel addresses as the kernel does, and nothing else. */
  lemma SharedWalk(k: Space, root: nat, pdpt: nat, q: seq<nat>)
    requires CanShare(k, root, pdpt) && IsPath(q)
    ensures Walk(Shared(k, root, pdpt), q) == if IsKernel(q) then Walk(k, q) else None
  {
    EntryLeadsToKernel(k, root, pdpt);
    if IsKernel(q) {
      SharedDescends(k, root, pdpt, pdpt, q[1..]);
    }
  }

  /** It has no user page yet, so none that user code could not reach. */
  lemma SharedIsOpen(k: Space, root: nat, pdpt: nat)
    requires CanShare(k, root, pdpt)
    ensures Open(Shared(k, root, pdpt))
  {
    var t := Shared(k, root, pdpt);
    forall f: nat, i: nat {:trigger EntryOpen(t, f, i)} ensures EntryOpen(t, f, i) {
      if f in KernelTables(k) && f != root {
        assert t.owner[f] == k.owner[f] && (k.owner[f] + [i])[0] < KERNEL_ENTRIES;
      }
    }
  }

  /** The kernel's entry of a user's top table is present and for user code, bits 0 and 2, but not
      for writing, bit 1. */
  lemma KernelEntryRights(pdpt: nat)
    requires pdpt % 4096 == 0
    ensures KernelEntry(pdpt) == pdpt + 5 && !Allows(KernelEntry(pdpt))
  {
    var m := pdpt / 8;
    assert pdpt == 8 * m && m % 2 == 0;
    OrUser(m);
    OrPresent(4 * m + 2);
  }

  lemma OrPresent(m: nat)
    ensures Or(2 * m, PRESENT) == 2 * m + 1
  {
    EvenOr(m, 1);
  }

  lemma OrUser(m: nat)
    ensures Or(8 * m, USER) == 8 * m + 4
  {
    EvenOr(4 * m, 4);
    EvenOr(2 * m, 2);
    EvenOr(m, 1);
  }

  lemma EvenOr(m: nat, b: nat)
    ensures Or(2 * m, b) == 2 * Or(m, b / 2) + b % 2
  {
  }

  /** User code writes to no page of the kernel, in a new space and while its kernel entries stay. */
  lemma KernelIsClosed(k: Space, root: nat, pdpt: nat, t: Space, q: seq<nat>)
    requires CanShare(k, root, pdpt) && KernelSame(Shared(k, root, pdpt), t) && IsPath(q) && IsKernel(q)
    ensures UserWalk(t, q) == None
  {
    KernelEntryRights(pdpt);
    assert t.mem[t.root][0] == KernelEntry(pdpt);
    ClosedTop(t, q);
  }

  lemma ClosedTop(t: Space, q: seq<nat>)
    requires t.root in t.mem && |t.mem[t.root]| == ENTRIES && IsPath(q) && IsKernel(q) && !Allows(t.mem[t.root][0])
    ensures UserWalk(t, q) == None
  {
  }

  /** Clears the top table and links the kernel's entries. */
  method MapKernelInsideUser(root: nat, pdpt: nat, tables: map<nat, seq<nat>>, ghost k: Space)
    returns (mem: map<nat, seq<nat>>)
    requires CanShare(k, root, pdpt) && tables == KernelTables(k)
    ensures mem == Shared(k, root, pdpt).mem
  {
    var top: seq<nat> := Zeros();
    for i := 0 to KERNEL_ENTRIES
      invariant |top| == ENTRIES
      invariant forall j :: 0 <= j < ENTRIES ==> top[j] == if j < i then KernelEntry(pdpt + j * PAGE_SIZE) else 0
    {
      top := top[i := KernelEntry(pdpt + i * PAGE_SIZE)];
    }
    assert top == Zeros()[0 := KernelEntry(pdpt)];
    mem := tables[root := top];
  }

  /** The address space of a new process. */
  method CreateSpace(root: nat, pdpt: nat, data: nat -> PageData, tables: map<nat, seq<nat>>, free: seq<nat>,
      ghost k: Space)
    returns (a: AddressSpace)
    requires CanShare(k, root, pdpt) && tables == KernelTables(k) && FreeOk(Shared(k, root, pdpt), free)
    ensures fresh(a) && a.Valid() && a.free == free && a.S() == Shared(k, root, pdpt) && Open(a.S())
    ensures forall q {:trigger Walk(a.S(), q)} :: IsPath(q) ==>
            Walk(a.S(), q) == if IsKernel(q) then Walk(k, q) else None
  {
    var mem := MapKernelInsideUser(root, pdpt, tables, k);
    SharedIsTree(k, root, pdpt);
    SharedIsOpen(k, root, pdpt);
    a := new AddressSpace(root, data, mem, free, Shared(k, root, pdpt));
    forall q | IsPath(q) ensures Walk(a.S(), q) == if IsKernel(q) then Walk(k, q) else None {
      SharedWalk(k, root, pdpt, q);
    }
  }

  // ----- What a process records -----

  /** The same frame `n` times. */
  function Repeated(f: nat, n: nat): (r: seq<nat>)
    ensures |r| == n && forall i :: 0 <= i < n ==> r[i] == f
  {
    seq(n, _ => f)
  }

  /** A record of the first table for each one that is made is right only if it alone is made, or
      nothing. */
  lemma RecordExactly(before: seq<nat>, pdpt: nat, made: seq<nat>)
    requires Distinct(made)
    ensures multiset(before + Repeated(pdpt, |made|)) == multiset(before) + multiset(made) <==>
            made == [] || made == [pdpt]
  {
    var r := Repeated(pdpt, |made|);
    if made == [] || made == [pdpt] {
      assert r == made;
    } else {
      var f := if made[0] != pdpt then made[0] else made[1];
      assert f in made && f != pdpt;
      Differs(before, r, made, f);
    }
  }

  lemma Differs(before: seq<nat>, r: seq<nat>, made: seq<nat>, f: nat)
    requires f in made && f !in r
    ensures multiset(before + r) != multiset(before) + multiset(made)
  {
    var a, b := multiset(before), multiset(made);
    assert multiset(before + r) == a + multiset(r);
    assert (a + multiset(r))[f] == a[f] && (a + b)[f] == a[f] + b[f] && b[f] > 0;
  }

  /** If a call makes tables on the way to `q` and gets there, the last table is among them, so that
      the first is not the only one. */
  lemma NotOnlyFirst(s: Space, t: Space, q: seq<nat>, frames: seq<nat>, made: seq<nat>, free: seq<nat>)
    requires TreeOk(s) && IsPath(q) && FreeOk(s, frames) && FramesTaken(s, t, frames, made, free) && TopStays(s, t)
    requires |made| == |Missing(s, Above(q))|
    ensures Distinct(made) && made != [Frame(t.mem[t.root][q[0]])]
  {
    assert forall i :: 0 <= i < |made| ==> made[i] == frames[i];
    if |made| == 1 {
      assert Walk(s, q[..1]).Some? by { OneMissing(s, q); }
      assert Present(s.mem[s.root][q[0]]);
      assert LinkOk(s, s.root, q[0]) && TableOk(s, s.root);
      assert made[0] == frames[0] && Fresh(s, frames[0]);
    }
  }

  lemma OneMissing(s: Space, q: seq<nat>)
    requires IsPath(q) && |Missing(s, Above(q))| == 1
    ensures Walk(s, q[..1]).Some?
  {
    PrefixReached(s, q, 1, 2);
    var m := Missing(s, Above(q));
    if Walk(s, q[..1]).None? {
      assert {q[..1], q[..2]} <= m && q[..1] != q[..2];
      assert |{q[..1], q[..2]}| == 2;
      SubsetSize({q[..1], q[..2]}, m);
    }
  }

  lemma SubsetSize(a: set<seq<nat>>, b: set<seq<nat>>)
    requires a <= b
    ensures |a| <= |b|
  {
    assert b == a + (b - a);
  }

  /** The pages of a process, with the bookkeeping of what it holds. */
  class ProcessPages {
    const space: AddressSpace
    var pagingSize: nat
    var segments: seq<nat>

    constructor (space: AddressSpace)
      ensures this.space == space && pagingSize == 0 && segments == []
    {
      this.space, pagingSize, segments := space, 0, [];
    }

    /** What the top entry for an address leads to. */
    function TopTable(virt: nat): nat
      reads this, space
    {
      var e := space.Page(space.root);
      if PathOf(virt)[0] < |e| then Frame(e[PathOf(virt)[0]]) else 0
    }

    /** Counts tables, and records the first of them for each. */
    method Record(top: nat, tables: nat)
      modifies this
      ensures pagingSize == old(pagingSize) + tables * PAGE_SIZE && segments == old(segments) + Repeated(top, tables)
    {
      pagingSize := pagingSize + tables * PAGE_SIZE;
      segments := segments + Repeated(top, tables);
    }

    /** Maps a page. For each table made its size is counted, and the first of the three tables on
        the way is recorded as held. The record is right exactly if that is the only one made, which
        it is not if the call succeeds, or if none was. */
    method UserMap(virt: nat, physical: nat, seen: seq<bool>) returns (ok: bool, ghost made: seq<nat>)
      requires space.Valid() && |seen| == 4 && |space.free| >= |Missing(space.S(), Above(PathOf(virt)))|
      modifies this, space
      ensures space.Valid() && MapsOne(old(space.S()), space.S(), PathOf(virt), Frame(physical), ok)
      ensures FramesTaken(old(space.S()), space.S(), old(space.free), made, space.free)
      ensures pagingSize == old(pagingSize) + |made| * 4096
      ensures multiset(segments) == multiset(old(segments)) + multiset(made) <==> made == [] || made == [TopTable(virt)]
      ensures ok ==> |made| == |old(Missing(space.S(), Above(PathOf(virt))))| && made != [TopTable(virt)]
      ensures old(Open(space.S())) ==> Open(space.S())
    {
      ghost var s, frames := space.S(), space.free;
      space.ValidIsSized();
      var before := |space.free|;
      ok, made := space.UserMap(virt, physical, seen, Above(PathOf(virt)));
      var top, tables := TopTable(virt), before - |space.free|;
      Record(top, tables);
      assert tables == |made| && top == TopTable(virt);
      assert multiset(segments) == multiset(old(segments)) + multiset(made) <==> made == [] || made == [top] by {
        FramesAreDistinct(s, frames, made, space.free);
        RecordExactly(old(segments), top, made);
      }
      assert ok ==> made != [TopTable(virt)] by {
        if ok { NotOnlyFirst(s, space.S(), PathOf(virt), frames, made, space.free); }
      }
    }
  }

  lemma FramesAreDistinct(s: Space, frames: seq<nat>, made: seq<nat>, free: seq<nat>)
    requires FreeOk(s, frames) && frames == made + free
    ensures Distinct(made)
  {
    assert forall i :: 0 <= i < |made| ==> made[i] == frames[i];
  }
}
