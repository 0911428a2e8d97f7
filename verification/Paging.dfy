/** Mapping pages: the operations on the tables of one address space. */
module Paging {
  import opened PagingModel
  import opened PagingRights

  /** Every page is translated as before. */
  ghost predicate SameWalks(s: Space, t: Space)
  {
    forall q {:trigger Walk(t, q)} :: IsPath(q) ==> Walk(t, q) == Walk(s, q)
  }

  /** Every page but one is translated as before. */
  ghost predicate SameWalksBut(s: Space, t: Space, p: seq<nat>)
  {
    forall q {:trigger Walk(t, q)} :: IsPath(q) && q != p ==> Walk(t, q) == Walk(s, q)
  }

  /** Every last-level entry but one is as before. */
  ghost predicate SameEntriesBut(s: Space, t: Space, p: seq<nat>)
  {
    forall q {:trigger EntryOf(t, q)} :: IsPath(q) && q != p ==> EntryOf(t, q) == EntryOf(s, q)
  }

  /** The tables above the last level are where they were. */
  ghost predicate SameUpper(s: Space, t: Space)
  {
    forall q {:trigger Walk(t, q)} :: |q| <= 3 && IsIndexes(q) ==> Walk(t, q) == Walk(s, q)
  }

  ghost predicate KernelTableSame(s: Space, t: Space, f: nat)
  {
    f in s.owner && f in s.mem && IsKernel(s.owner[f]) ==>
      f in t.owner && f in t.mem && t.owner[f] == s.owner[f] && t.mem[f] == s.mem[f]
  }

  /** The kernel's entries of the top table and every table below them are untouched. */
  ghost predicate KernelSame(s: Space, t: Space)
  {
    && s.root == t.root && s.root in s.mem && s.root in t.mem && |s.mem[s.root]| == ENTRIES == |t.mem[s.root]|
    && (forall j :: 0 <= j < KERNEL_ENTRIES ==> t.mem[s.root][j] == s.mem[s.root][j])
    && (forall f {:trigger KernelTableSame(s, t, f)} :: KernelTableSame(s, t, f))
  }

  lemma KernelSameTrans(s: Space, t: Space, u: Space)
    requires KernelSame(s, t) && KernelSame(t, u)
    ensures KernelSame(s, u)
  {
    forall f {:trigger KernelTableSame(s, u, f)} ensures KernelTableSame(s, u, f) {
      assert KernelTableSame(s, t, f) && KernelTableSame(t, u, f);
    }
  }

  /** A change at indexes outside the kernel does not reach the kernel. */
  lemma GrowKeepsKernel(s: Space, f: nat, i: nat, n: nat)
    requires CanGrow(s, f, i, n) && !IsKernel(s.owner[f] + [i])
    ensures KernelSame(s, Grow(s, f, i, n))
  {
    assert TableOk(s, s.root);
    assert s.owner[f] != [] ==> (s.owner[f] + [i])[0] == s.owner[f][0];
    assert s.owner[f] == [] ==> f == s.root;
  }

  lemma LeafKeepsKernel(s: Space, f: nat, i: nat, e: nat)
    requires IsLeaf(s, f, i) && !IsKernel(s.owner[f] + [i])
    ensures KernelSame(s, Write(s, f, i, e))
  {
    assert TableOk(s, s.root);
    assert (s.owner[f] + [i])[0] == s.owner[f][0];
  }

  predicate AllSeen(seen: seq<bool>)
  {
    |seen| == 4 && seen[0] && seen[1] && seen[2] && seen[3]
  }

  ghost predicate SeenUpTo(seen: seq<seq<bool>>, n: nat)
  {
    n <= |seen| && forall i :: 0 <= i < n ==> AllSeen(seen[i])
  }

  lemma OneMoreSeen(seen: seq<seq<bool>>, n: nat)
    requires SeenUpTo(seen, n) && n < |seen| && AllSeen(seen[n])
    ensures SeenUpTo(seen, n + 1)
  {
  }

  /** The present entries of the top table stay. */
  ghost predicate TopStays(s: Space, t: Space)
  {
    && s.root == t.root && s.root in s.mem && s.root in t.mem && |s.mem[s.root]| == ENTRIES == |t.mem[s.root]|
    && forall j :: 0 <= j < ENTRIES && Present(s.mem[s.root][j]) ==> t.mem[s.root][j] == s.mem[s.root][j]
  }

  /** Tables may be added on the way to `q`, but no page is translated differently. */
  ghost predicate Extends(s: Space, t: Space, q: seq<nat>)
  {
    SameWalks(s, t) && TopStays(s, t) && (!IsKernel(q) ==> KernelSame(s, t))
  }

  lemma ExtendsFurther(s: Space, t: Space, u: Space, p: seq<nat>, q: seq<nat>)
    requires Extends(s, t, q) && SameWalks(t, u) && TopStays(t, u) && (!IsKernel(p) ==> KernelSame(t, u)) && [] < p <= q
    ensures Extends(s, u, q)
  {
    if !IsKernel(q) { KernelSameTrans(s, t, u); }
  }

  /** The table for the last index exists. */
  ghost predicate Tabled(s: Space, p: seq<nat>)
    requires IsPath(p)
  {
    Walk(s, p[..3]).Some?
  }

  /** What `physical_address` computes. */
  ghost function LowThirteen(s: Space, virt: nat): nat
  {
    match Walk(s, PathOf(virt))
    case None => 0
    case Some(f) => virt % 0x2000 + f
  }

  /** It is the translation of exactly the addresses in even pages. */
  lemma LowThirteenIsTranslation(s: Space, virt: nat)
    requires Walk(s, PathOf(virt)).Some?
    ensures LowThirteen(s, virt) == Walk(s, PathOf(virt)).value + virt % PAGE_SIZE <==> virt / PAGE_SIZE % 2 == 0
  {
    ThirteenBits(virt);
  }

  lemma ThirteenBits(virt: nat)
    ensures virt % 0x2000 == virt % PAGE_SIZE + PAGE_SIZE * (virt / PAGE_SIZE % 2)
  {
  }

  ghost predicate FreeOrSet(s: Space, virt: nat, physical: nat)
  {
    Walk(s, PathOf(virt)).None? || LowThirteen(s, virt) == physical
  }

  ghost predicate FreeOrSetAt(s: Space, virt: nat, physical: nat, k: nat)
  {
    FreeOrSet(s, virt + k * PAGE_SIZE, physical + k * PAGE_SIZE)
  }

  /** The indexes of the three tables above the last level on the way to `q`. */
  ghost function Above(q: seq<nat>): set<seq<nat>>
    requires IsPath(q)
  {
    {q[..1], q[..2], q[..3]}
  }

  // ----- Ranges of pages -----

  /** The indexes of the `k`-th page from `virt` on. */
  function PageAt(virt: nat, k: nat): seq<nat>
  {
    PathOf(virt + k * PAGE_SIZE)
  }

  /** The indexes of the tables that a range of pages needs. */
  ghost function AllAbove(virt: nat, pages: nat): set<seq<nat>>
  {
    if pages == 0 then {} else AllAbove(virt, pages - 1) + Above(PageAt(virt, pages - 1))
  }

  /** `w` has the tables that a page needs. */
  ghost predicate Covered(w: set<seq<nat>>, virt: nat, k: nat)
  {
    Above(PageAt(virt, k)) <= w
  }

  lemma {:induction false} AboveAreTables(virt: nat, pages: nat)
    ensures AreTables(AllAbove(virt, pages))
  {
    if pages > 0 {
      AboveAreTables(virt, pages - 1);
    }
  }

  lemma {:induction false} AboveInRange(virt: nat, pages: nat, k: nat)
    requires k < pages
    ensures Covered(AllAbove(virt, pages), virt, k)
  {
    if k < pages - 1 {
      AboveInRange(virt, pages - 1, k);
      StillCovered(AllAbove(virt, pages - 1), Above(PageAt(virt, pages - 1)), virt, k);
    }
  }

  lemma StillCovered(w: set<seq<nat>>, x: set<seq<nat>>, virt: nat, k: nat)
    requires Covered(w, virt, k)
    ensures Covered(w + x, virt, k)
  {
  }

  /** Where the last table is reached, so are those before it. */
  lemma NoneMissing(s: Space, q: seq<nat>)
    requires IsPath(q) && Walk(s, q[..3]).Some?
    ensures Missing(s, Above(q)) == {}
  {
    assert q[..1] + q[1..3] == q[..3] && q[..2] + q[2..3] == q[..3];
    DescendSplits(s.mem, s.root, q[..1], q[1..3]);
    DescendSplits(s.mem, s.root, q[..2], q[2..3]);
  }

  /** From the table where `q` ends on, all are absent. */
  lemma AbsentBelow(t: Space, q: seq<nat>, k: nat, h: nat)
    requires EndsAt(t, q, k, h)
    ensures q[..k + 1] in Missing(t, Above(q)) && |Missing(t, Above(q))| == 3 - k
  {
    assert q[..k] + [q[k]] == q[..k + 1];
    DescendSplits(t.mem, t.root, q[..k], [q[k]]);
    if k > 0 { PrefixReached(t, q, 1, k); }
    if k > 1 { PrefixReached(t, q, 2, k); }
    if k < 1 { PrefixReached(t, q, k + 1, 2); }
    if k < 2 { PrefixReached(t, q, k + 1, 3); }
    var m := Missing(t, Above(q));
    assert |q[..1]| == 1 && |q[..2]| == 2 && |q[..3]| == 3;
    if k == 0 {
      assert m == {q[..1], q[..2], q[..3]};
    } else if k == 1 {
      assert m == {q[..2], q[..3]};
    } else {
      assert m == {q[..3]};
    }
  }

  lemma PrefixReached(s: Space, q: seq<nat>, j: nat, k: nat)
    requires j <= k <= |q|
    ensures Walk(s, q[..k]).Some? ==> Walk(s, q[..j]).Some?
  {
    assert q[..j] + q[j..k] == q[..k];
    DescendSplits(s.mem, s.root, q[..j], q[j..k]);
  }

  /** One page now leads to `frame`, with its tables there, or nothing is translated differently. */
  ghost predicate MapsOne(s: Space, t: Space, p: seq<nat>, frame: nat, ok: bool)
    requires IsPath(p)
  {
    && TopStays(s, t) && (!IsKernel(p) ==> KernelSame(s, t))
    && if ok then Walk(t, p) == Some(frame) && SameWalksBut(s, t, p) && Missing(t, Above(p)) == {} else SameWalks(s, t)
  }

  /** What a call for `p` that sees all tables does with `frames` frames: page zero becomes a table exactly
      if they are too few. For one table it serves; for more, the page is not translated, unless the
      indexes happen to agree. */
  ghost predicate AsFramesLast(s: Space, t: Space, p: seq<nat>, frame: nat, frames: int)
    requires IsPath(p)
  {
    var lack := |Missing(s, Above(p))| - frames;
    && (0 in t.mem <==> lack > 0)
    && (lack <= 1 ==> Walk(t, p) == Some(frame))
    && (lack == 2 && p[2] != p[3] ==> Walk(t, p) == None)
    && (lack == 3 && p[1] != p[3] ==> Walk(t, p) == None)
  }

  /** What a call that maps `q` starts from: the space, tables of interest, and the frames;
      `Spare` says how many there are beyond one for each of those tables that is absent. */
  datatype Goal = Goal(s: Space, q: seq<nat>, w: set<seq<nat>>, frames: seq<nat>)
  {
    ghost function Spare(): int
    {
      |frames| - |Missing(s, w)|
    }
  }

  /** How far it got: to the table `f`, after `k` indexes, with the tables `made` that led to the
      space `t`; or there was no frame for the table behind `h`, in the space `t`; or the space
      was no tree to begin with. */
  datatype Trace =
    | Fine(t: Space, made: seq<nat>, k: nat, f: nat)
    | Lost(t: Space, k: nat, h: nat)
    | Broken(zero: bool)

  /** It got to the page `f` after `k` indexes. */
  predicate GotTo(x: Trace, k: nat, f: nat)
  {
    match x
    case Fine(_, _, k', f') => k' == k && f' == f
    case Lost(_, _, _) => f == 0
    case Broken(_) => true
  }

  /** The tables made are the first of the frames there were; the others are still free. */
  ghost predicate FramesTaken(s: Space, t: Space, frames: seq<nat>, made: seq<nat>, free: seq<nat>)
  {
    frames == made + free && forall f :: f in t.mem <==> f in s.mem || f in made
  }

  ghost predicate GoalOk(g: Goal)
  {
    IsPath(g.q) && Above(g.q) <= g.w && AreTables(g.w)
  }

  ghost predicate LostAt(g: Goal, t: Space, k: nat, h: nat)
  {
    EndsAt(t, g.q, k, h) && t.root == g.s.root && g.Spare() + |Missing(t, g.w)| == 0
  }

  /** Then there were too few. */
  lemma LostMeansFew(g: Goal, t: Space, k: nat, h: nat)
    requires GoalOk(g) && LostAt(g, t, k, h)
    ensures g.Spare() < 0 && (g.w == Above(g.q) ==> g.Spare() == k - 3)
  {
    AbsentBelow(t, g.q, k, h);
    assert g.q[..k + 1] in Missing(t, g.w);
  }

  lemma NoZeroTable(s: Space)
    requires TreeOk(s)
    ensures 0 !in s.mem
  {
    assert !TableOk(s, 0);
  }

  /** The table `f` is reached on the way, with frames as they are. */
  /** The call got to the space `t` with the tables `made`. */
  ghost predicate FineSoFar(g: Goal, t: Space, made: seq<nat>, free: seq<nat>)
  {
    && TreeOk(t) && FreeOk(t, free) && Extends(g.s, t, g.q)
    && |free| == g.Spare() + |Missing(t, g.w)| && FramesTaken(g.s, t, g.frames, made, free)
  }

  ghost predicate CanDescend(g: Goal, k: nat, f: nat, t: Space, made: seq<nat>, frames: seq<nat>)
    requires GoalOk(g)
  {
    && k < 3 && TableOk(t, f) && t.owner[f] == g.q[..k] && Walk(t, g.q[..k]) == Some(f)
    && FineSoFar(g, t, made, frames)
  }

  lemma DescendIsFine(g: Goal, t: Space, k: nat, f: nat, made: seq<nat>, frames: seq<nat>)
    requires GoalOk(g) && CanDescend(g, k, f, t, made, frames) && Present(t.mem[f][g.q[k]])
    ensures Walk(t, g.q[..k + 1]) == Some(Frame(t.mem[f][g.q[k]]))
  {
    assert g.q[..k] + [g.q[k]] == g.q[..k + 1];
    DescendSplits(t.mem, t.root, g.q[..k], [g.q[k]]);
  }

  /** A frame for the next table on the way. */
  lemma NextIsFine(g: Goal, t: Space, k: nat, f: nat, made: seq<nat>, frames: seq<nat>)
    requires GoalOk(g) && CanDescend(g, k, f, t, made, frames) && !Present(t.mem[f][g.q[k]]) && frames != []
    ensures var u := Grow(t, f, g.q[k], frames[0]);
            && Walk(u, g.q[..k + 1]) == Some(Frame(u.mem[f][g.q[k]]))
            && FineSoFar(g, u, made + [frames[0]], frames[1..])
  {
    var i, n := g.q[k], frames[0];
    var u := Grow(t, f, i, n);
    NextIsReached(t, g.q, k, f, n);
    assert FreeOk(u, frames[1..]) by { FreeStays(t, f, i, frames); }
    assert FramesTaken(g.s, u, g.frames, made + [frames[0]], frames[1..]) by {
      TakenStays(g, t, f, i, made, frames);
    }
    assert |Missing(u, g.w)| == |Missing(t, g.w)| - 1 by {
      NextIsWanted(g, k);
      GrowFills(t, f, i, n, g.w);
    }
    assert Extends(g.s, u, g.q) by { ExtendsFurther(g.s, t, u, g.q[..k + 1], g.q); }
  }

  lemma NextIsWanted(g: Goal, k: nat)
    requires GoalOk(g) && k < 3
    ensures g.q[..k] + [g.q[k]] == g.q[..k + 1] && g.q[..k] + [g.q[k]] in g.w && IsIndexes(g.q[..k])
  {
    assert g.q[..k] + [g.q[k]] == g.q[..k + 1];
    assert k == 0 || k == 1 || k == 2;
  }

  lemma NextIsReached(t: Space, q: seq<nat>, k: nat, f: nat, n: nat)
    requires IsPath(q) && k < 3 && CanGrow(t, f, q[k], n) && t.owner[f] == q[..k] && Walk(t, q[..k]) == Some(f)
    ensures var u := Grow(t, f, q[k], n);
            && TreeOk(u) && SameWalks(t, u) && TopStays(t, u) && Walk(u, q[..k + 1]) == Some(Frame(u.mem[f][q[k]]))
            && (!IsKernel(q[..k + 1]) ==> KernelSame(t, u))
  {
    assert q[..k] + [q[k]] == q[..k + 1];
    Grown(t, f, q[k], n);
    assert Frame(Grow(t, f, q[k], n).mem[f][q[k]]) == n by { NewTableEntry(n); }
  }

  lemma TakenStays(g: Goal, t: Space, f: nat, i: nat, made: seq<nat>, free: seq<nat>)
    requires free != [] && FramesTaken(g.s, t, g.frames, made, free) && f in t.mem && i < |t.mem[f]| && f in t.owner
    ensures FramesTaken(g.s, Grow(t, f, i, free[0]), g.frames, made + [free[0]], free[1..])
  {
    assert made + free == made + [free[0]] + free[1..];
  }

  /** Clearing page zero again changes nothing. */
  lemma EmptiedTwice(mem: map<nat, seq<nat>>, f: nat, i: nat, j: nat)
    requires f in mem && i < |mem[f]| && j < ENTRIES
    ensures Emptied(Emptied(mem, f, i), 0, j) == Emptied(mem, f, i)
  {
  }

  /** The entry behind the last table. */
  lemma LeafOnTheWay(g: Goal, t: Space, f: nat, physical: nat)
    requires GoalOk(g) && TreeOk(t) && TableOk(t, f) && t.owner[f] == g.q[..3] && Walk(t, g.q[..3]) == Some(f)
    requires Extends(g.s, t, g.q)
    ensures var u := Write(t, f, g.q[3], Or(physical, USER_PAGE));
            TreeOk(u) && MapsOne(g.s, u, g.q, Frame(physical), true) && Missing(u, g.w) == Missing(t, g.w)
  {
    var u := Write(t, f, g.q[3], Or(physical, USER_PAGE));
    assert g.q[..3] + [g.q[3]] == g.q;
    FlagsKeepPage(physical, USER_PAGE);
    Written(t, f, g.q[3], Or(physical, USER_PAGE));
    assert Missing(u, g.w) == Missing(t, g.w);
    assert TopStays(g.s, u) by { assert TableOk(t, t.root) && t.root != f; }
    assert Missing(u, Above(g.q)) == {} by { NoneMissing(u, g.q); }
    assert !IsKernel(g.q) ==> KernelSame(g.s, u) by { if !IsKernel(g.q) { KernelSameTrans(g.s, t, u); } }
  }

  /** The entry in page zero, where frames were too few. */
  lemma LostPage(g: Goal, t: Space, k: nat, h: nat, u: Space, physical: nat)
    requires GoalOk(g) && LostAt(g, t, k, h) && u.root == t.root
    requires u.mem == Put(Emptied(t.mem, h, g.q[k]), 0, g.q[3], Or(physical, USER_PAGE))
    ensures g.Spare() < 0 && 0 in u.mem
    ensures g.w == Above(g.q) ==> AsFramesLast(g.s, u, g.q, Frame(physical), |g.frames|)
  {
    LostMeansFew(g, t, k, h);
    FlagsKeepPage(physical, USER_PAGE);
    LostWalk(t, g.q, k, h, Or(physical, USER_PAGE));
  }

  lemma AtMostThree(s: Space, q: seq<nat>)
    requires IsPath(q)
    ensures |Missing(s, Above(q))| <= 3
  {
    var m := Missing(s, Above(q));
    assert m <= {q[..1], q[..2], q[..3]};
    assert |m - {q[..1]}| <= 2 by {
      assert |m - {q[..1]} - {q[..2]}| <= 1 by { assert m - {q[..1]} - {q[..2]} - {q[..3]} == {}; }
    }
  }

  /** A range of pages, as `Goal` is for one; `user` if it is outside the kernel. */
  datatype Range = Range(s: Space, virt: nat, physical: nat, w: set<seq<nat>>, spare: int, user: bool)

  ghost predicate OutsideKernel(virt: nat, pages: nat)
  {
    forall k :: 0 <= k < pages ==> !IsKernel(PageAt(virt, k))
  }

  /** Where `q` leads once `n` pages from `virt` on lead to those from `physical` on. */
  ghost function Lookup(s: Space, virt: nat, physical: nat, n: nat, q: seq<nat>): Option<nat>
    decreases n
  {
    if n == 0 then Walk(s, q)
    else if q == PageAt(virt, n - 1) then Some(Frame(physical + (n - 1) * PAGE_SIZE))
    else Lookup(s, virt, physical, n - 1, q)
  }

  ghost predicate IsMapped(s: Space, t: Space, virt: nat, physical: nat, n: nat)
  {
    forall q {:trigger Lookup(s, virt, physical, n, q)} :: IsPath(q) ==> Walk(t, q) == Lookup(s, virt, physical, n, q)
  }

  /** Different pages of one address space have different indexes. */
  lemma PagesApart(virt: nat, j: nat, k: nat)
    requires j < k < j + 0x10_0000_0000
    ensures PageAt(virt, j) != PageAt(virt, k)
  {
    PathsIdentifyPages(virt + j * PAGE_SIZE, virt + k * PAGE_SIZE);
    var n := virt / PAGE_SIZE + j;
    assert (virt + j * PAGE_SIZE) / PAGE_SIZE == n && (virt + k * PAGE_SIZE) / PAGE_SIZE == n + (k - j);
    ShiftedRemainder(n, k - j);
  }

  lemma ShiftedRemainder(n: nat, d: nat)
    requires 0 < d < 0x10_0000_0000
    ensures n % 0x10_0000_0000 != (n + d) % 0x10_0000_0000
  {
  }

  lemma {:induction false} LookupInside(s: Space, virt: nat, physical: nat, n: nat, k: nat)
    requires k < n <= 0x10_0000_0000
    ensures Lookup(s, virt, physical, n, PageAt(virt, k)) == Some(Frame(physical + k * PAGE_SIZE))
    decreases n
  {
    if k < n - 1 {
      PagesApart(virt, k, n - 1);
      LookupInside(s, virt, physical, n - 1, k);
    }
  }

  lemma {:induction false} LookupOutside(s: Space, virt: nat, physical: nat, n: nat, q: seq<nat>)
    requires forall k :: 0 <= k < n ==> q != PageAt(virt, k)
    ensures Lookup(s, virt, physical, n, q) == Walk(s, q)
    decreases n
  {
    if n > 0 {
      LookupOutside(s, virt, physical, n - 1, q);
    }
  }

  lemma {:induction false} LookupFinds(s: Space, virt: nat, physical: nat, n: nat, k: nat)
    requires k < n
    ensures Lookup(s, virt, physical, n, PageAt(virt, k)).Some?
    decreases n
  {
    if k < n - 1 { LookupFinds(s, virt, physical, n - 1, k); }
  }

  /** A range that is mapped has its tables. */
  lemma {:induction false} MappedHasTables(s: Space, t: Space, virt: nat, physical: nat, n: nat, m: nat)
    requires IsMapped(s, t, virt, physical, n) && m <= n
    ensures Missing(t, AllAbove(virt, m)) == {}
    decreases m
  {
    if m > 0 {
      MappedHasTables(s, t, virt, physical, n, m - 1);
      var q := PageAt(virt, m - 1);
      assert Walk(t, q).Some? by { LookupFinds(s, virt, physical, n, m - 1); }
      assert Walk(t, q[..3]).Some? by {
        assert q[..4] == q;
        PrefixReached(t, q, 3, 4);
      }
      assert Missing(t, Above(q)) == {} by { NoneMissing(t, q); }
      JoinedTables(t, AllAbove(virt, m - 1), Above(q));
    }
  }

  lemma JoinedTables(t: Space, w: set<seq<nat>>, x: set<seq<nat>>)
    ensures Missing(t, w + x) == Missing(t, w) + Missing(t, x)
  {
  }

  lemma PagesAreAligned(virt: nat, k: nat)
    ensures (virt + k * PAGE_SIZE) % PAGE_SIZE == virt % PAGE_SIZE
  {
  }

  ghost predicate InRange(virt: nat, n: nat, q: seq<nat>)
  {
    exists k :: 0 <= k < n && q == PageAt(virt, k)
  }

  /** The pages of the range are absent, the others as before. */
  ghost predicate Cleared(s: Space, t: Space, virt: nat, n: nat)
  {
    forall q {:trigger Walk(t, q)} :: IsPath(q) ==> Walk(t, q) == if InRange(virt, n, q) then None else Walk(s, q)
  }

  ghost predicate SameOutside(s: Space, t: Space, virt: nat, n: nat)
  {
    forall q {:trigger Walk(t, q)} :: IsPath(q) && !InRange(virt, n, q) ==> Walk(t, q) == Walk(s, q)
  }

  ghost predicate TabledAt(s: Space, virt: nat, k: nat)
  {
    Tabled(s, PageAt(virt, k))
  }

  ghost predicate AllTabled(s: Space, virt: nat, n: nat)
  {
    forall k :: 0 <= k < n ==> TabledAt(s, virt, k)
  }

  /** The first pages of a range are mapped. */
  ghost predicate RangeMapped(r: Range, t: Space, page: nat)
  {
    IsMapped(r.s, t, r.virt, r.physical, page) && (r.user ==> KernelSame(r.s, t))
  }

  /** One more page of a range. */
  lemma RangeStep(r: Range, t: Space, u: Space, page: nat, ok: bool, p: seq<nat>, frame: nat)
    requires RangeMapped(r, t, page) && IsPath(p) && MapsOne(t, u, p, frame, ok) && (r.user ==> !IsKernel(p))
    requires p == PageAt(r.virt, page) && frame == Frame(r.physical + page * PAGE_SIZE)
    ensures RangeMapped(r, u, if ok then page + 1 else page)
  {
    assert r.user ==> KernelSame(r.s, u) by {
      if r.user { KernelSameTrans(r.s, t, u); }
    }
    if ok {
      OneMoreMapped(r.s, t, u, r.virt, r.physical, page);
    } else {
      StillMapped(r.s, t, u, r.virt, r.physical, page);
    }
  }

  ghost predicate AllAbsent(s: Space, virt: nat, n: nat)
  {
    forall k {:trigger PageAt(virt, k)} :: 0 <= k < n ==> Walk(s, PageAt(virt, k)) == None
  }

  /** The entry of `q` once those of `n` pages from `virt` on are set. */
  ghost function Entry(s: Space, virt: nat, physical: nat, flags: nat, n: nat, q: seq<nat>): nat
    requires IsPath(q)
    decreases n
  {
    if n == 0 then EntryOf(s, q)
    else if q == PageAt(virt, n - 1) then Or(physical + (n - 1) * PAGE_SIZE, flags)
    else Entry(s, virt, physical, flags, n - 1, q)
  }

  ghost predicate EntriesSet(s: Space, t: Space, virt: nat, physical: nat, flags: nat, n: nat)
  {
    forall q {:trigger Entry(s, virt, physical, flags, n, q)} ::
      IsPath(q) ==> EntryOf(t, q) == Entry(s, virt, physical, flags, n, q)
  }

  /** The entry is absent, or it is the one to be set. */
  ghost predicate EntryFits(e: nat, physical: nat, flags: nat)
  {
    Present(e) ==> e == Or(physical, flags)
  }

  ghost predicate Fits(s: Space, virt: nat, physical: nat, flags: nat, k: nat)
  {
    EntryFits(EntryOf(s, PageAt(virt, k)), physical + k * PAGE_SIZE, flags)
  }

  ghost predicate AllFit(s: Space, virt: nat, physical: nat, flags: nat, n: nat)
  {
    forall k :: 0 <= k < n ==> Fits(s, virt, physical, flags, k)
  }

  lemma OneMoreEntry(s: Space, t: Space, u: Space, virt: nat, physical: nat, flags: nat, n: nat)
    requires EntriesSet(s, t, virt, physical, flags, n) && SameEntriesBut(t, u, PageAt(virt, n))
    requires EntryOf(u, PageAt(virt, n)) == Or(physical + n * PAGE_SIZE, flags)
    ensures EntriesSet(s, u, virt, physical, flags, n + 1)
  {
    forall q {:trigger Entry(s, virt, physical, flags, n + 1, q)} | IsPath(q)
      ensures EntryOf(u, q) == Entry(s, virt, physical, flags, n + 1, q)
    {
      assert EntryOf(t, q) == Entry(s, virt, physical, flags, n, q);
    }
  }

  lemma MapStep(s: Space, t: Space, u: Space, virt: nat, physical: nat, flags: nat, k: nat, n: nat)
    requires EntriesSet(s, t, virt, physical, flags, k) && SameEntriesBut(t, u, PageAt(virt, k)) && SameUpper(t, u)
    requires AllTabled(t, virt, n)
    requires EntryOf(u, PageAt(virt, k)) == Or(physical + k * PAGE_SIZE, flags)
    requires n <= 0x10_0000_0000 ==> AllFit(s, virt, physical, flags, k) && Fits(s, virt, physical, flags, k)
    ensures EntriesSet(s, u, virt, physical, flags, k + 1) && AllTabled(u, virt, n)
    ensures n <= 0x10_0000_0000 ==> AllFit(s, virt, physical, flags, k + 1)
  {
    assert AllTabled(u, virt, n) by { TablesStay(t, u, virt, n); }
    assert EntriesSet(s, u, virt, physical, flags, k + 1) by { OneMoreEntry(s, t, u, virt, physical, flags, k); }
  }

  lemma {:induction false} EntryOutside(s: Space, virt: nat, physical: nat, flags: nat, n: nat, q: seq<nat>)
    requires IsPath(q) && forall k :: 0 <= k < n ==> q != PageAt(virt, k)
    ensures Entry(s, virt, physical, flags, n, q) == EntryOf(s, q)
    decreases n
  {
    if n > 0 {
      EntryOutside(s, virt, physical, flags, n - 1, q);
    }
  }

  /** The entries that are still to be set are as they were. */
  lemma RestIsSame(s: Space, t: Space, virt: nat, physical: nat, flags: nat, k: nat)
    requires k < 0x10_0000_0000 && EntriesSet(s, t, virt, physical, flags, k)
    ensures EntryOf(t, PageAt(virt, k)) == EntryOf(s, PageAt(virt, k))
  {
    forall j | 0 <= j < k ensures PageAt(virt, k) != PageAt(virt, j) { PagesApart(virt, j, k); }
    EntryOutside(s, virt, physical, flags, k, PageAt(virt, k));
  }

  /** What an entry leads to. */
  ghost function Target(e: nat): Option<nat>
  {
    if Present(e) then Some(Frame(e)) else None
  }

  lemma {:induction false} EntryIsLookup(s: Space, virt: nat, physical: nat, flags: nat, n: nat, q: seq<nat>)
    requires IsPath(q) && flags < PAGE_SIZE && Present(flags)
    ensures Target(Entry(s, virt, physical, flags, n, q)) == Lookup(s, virt, physical, n, q)
    decreases n
  {
    if n == 0 {
      WalkIsEntry(s, q);
    } else {
      FlagsKeepPage(physical + (n - 1) * PAGE_SIZE, flags);
      EntryIsLookup(s, virt, physical, flags, n - 1, q);
    }
  }

  /** Pages whose entries are set are mapped. */
  lemma EntriesAreMapped(s: Space, t: Space, virt: nat, physical: nat, flags: nat, n: nat)
    requires EntriesSet(s, t, virt, physical, flags, n) && flags < PAGE_SIZE && Present(flags)
    ensures IsMapped(s, t, virt, physical, n)
  {
    forall q {:trigger Lookup(s, virt, physical, n, q)} | IsPath(q)
      ensures Walk(t, q) == Lookup(s, virt, physical, n, q)
    {
      EntryIsLookup(s, virt, physical, flags, n, q);
      WalkIsEntry(t, q);
    }
  }

  lemma EntriesOutside(s: Space, t: Space, virt: nat, physical: nat, flags: nat, n: nat, m: nat)
    requires EntriesSet(s, t, virt, physical, flags, n) && n <= m
    ensures SameOutside(s, t, virt, m)
  {
    forall q {:trigger Walk(t, q)} | IsPath(q) && !InRange(virt, m, q) ensures Walk(t, q) == Walk(s, q) {
      EntryOutside(s, virt, physical, flags, n, q);
      WalkIsEntry(s, q);
      WalkIsEntry(t, q);
    }
  }

  /** An absent range fits. */
  lemma AbsentFits(s: Space, virt: nat, physical: nat, flags: nat, n: nat)
    requires AllAbsent(s, virt, n)
    ensures AllFit(s, virt, physical, flags, n) && forall k :: 0 <= k < n ==> FreeOrSetAt(s, virt, physical, k)
  {
    forall k | 0 <= k < n ensures Fits(s, virt, physical, flags, k) && FreeOrSetAt(s, virt, physical, k) {
      assert Walk(s, PageAt(virt, k)) == None;
      WalkIsEntry(s, PageAt(virt, k));
    }
  }

  /** Unmapping a range undoes mapping it, for every page of the address space. */
  lemma UnmapUndoesMap(s: Space, t: Space, u: Space, virt: nat, physical: nat, n: nat)
    requires AllAbsent(s, virt, n) && IsMapped(s, t, virt, physical, n) && Cleared(t, u, virt, n)
    ensures SameWalks(s, u)
  {
    forall q {:trigger Walk(u, q)} | IsPath(q) ensures Walk(u, q) == Walk(s, q) {
      assert Walk(t, q) == Lookup(s, virt, physical, n, q);
      if InRange(virt, n, q) {
        var k :| 0 <= k < n && q == PageAt(virt, k);
      } else {
        LookupOutside(s, virt, physical, n, q);
      }
    }
  }

  lemma TablesStay(s: Space, t: Space, virt: nat, n: nat)
    requires AllTabled(s, virt, n) && SameUpper(s, t)
    ensures AllTabled(t, virt, n)
  {
    forall k | 0 <= k < n ensures TabledAt(t, virt, k) {
      assert TabledAt(s, virt, k);
      assert Walk(t, PageAt(virt, k)[..3]) == Walk(s, PageAt(virt, k)[..3]);
    }
  }

  lemma OneMoreCleared(s: Space, t: Space, u: Space, virt: nat, k: nat)
    requires Cleared(s, t, virt, k) && SameWalksBut(t, u, PageAt(virt, k)) && Walk(u, PageAt(virt, k)) == None
    ensures Cleared(s, u, virt, k + 1)
  {
    forall q {:trigger Walk(u, q)} | IsPath(q)
      ensures Walk(u, q) == if InRange(virt, k + 1, q) then None else Walk(s, q)
    {
      assert InRange(virt, k + 1, q) <==> InRange(virt, k, q) || q == PageAt(virt, k);
    }
  }

  /** Frames that the physical allocator has to give: distinct, and no tables. */
  ghost predicate FreeOk(s: Space, free: seq<nat>)
  {
    && (forall i :: 0 <= i < |free| ==> Fresh(s, free[i]))
    && (forall i, j :: 0 <= i < j < |free| ==> free[i] != free[j])
  }

  lemma FreeStays(s: Space, f: nat, i: nat, free: seq<nat>)
    requires free != [] && FreeOk(s, free) && f in s.mem && i < |s.mem[f]| && f in s.owner
    ensures FreeOk(Grow(s, f, i, free[0]), free[1..])
  {
  }

  /** What a page holds. */
  type PageData = s: seq<nat> | |s| == ENTRIES witness Zeros()

  class AddressSpace {
    const root: nat
    /** What is in the pages that are no tables. */
    const data: nat -> PageData
    var mem: map<nat, seq<nat>>
    var free: seq<nat>
    ghost var owner: map<nat, seq<nat>>
    ghost var parent: map<nat, nat>

    ghost function S(): Space
      reads this
    {
      Space(mem, owner, parent, root)
    }

    /** Every page has its size. */
    ghost predicate Sized()
      reads this
    {
      forall f :: f in mem ==> |mem[f]| == ENTRIES
    }

    ghost predicate Valid()
      reads this
    {
      TreeOk(S()) && FreeOk(S(), free)
    }

    constructor (root: nat, data: nat -> PageData, mem: map<nat, seq<nat>>, free: seq<nat>, ghost s: Space)
      requires s.root == root && s.mem == mem && TreeOk(s) && FreeOk(s, free)
      ensures Valid() && S() == s && this.free == free
    {
      this.root, this.data, this.mem, this.free := root, data, mem, free;
      owner, parent := s.owner, s.parent;
    }

    /** The table `f` is reached by the indexes `p`. */
    ghost predicate At(p: seq<nat>, f: nat)
      reads this
    {
      IsIndexes(p) && Walk(S(), p) == Some(f)
    }

    function Page(f: nat): seq<nat>
      reads this
    {
      if f in mem then mem[f] else data(f)
    }

    method SetEntry(f: nat, i: nat, e: nat)
      requires i < |Page(f)|
      modifies `mem
      ensures forall g :: g in mem <==> g in old(mem) || g == f
      ensures forall g :: g in mem ==> |mem[g]| == |old(Page(g))|
      ensures f in old(mem) ==> S() == Write(old(S()), f, i, e) && mem == Put(old(mem), f, i, e)
    {
      var table: seq<nat> := Page(f)[i := e];
      mem := mem[f := table];
    }

    /** The next free frame, or zero. */
    method AllocateFrame() returns (n: nat)
      modifies `free
      ensures if old(free) == [] then n == 0 && free == [] else n == old(free[0]) && free == old(free[1..])
    {
      if free == [] {
        return 0;
      }
      n := free[0];
      free := free[1..];
    }

    /** The page that entry `i` of the page `f` leads to. If it leads to none, the next frame
        is entered, and then cleared. */
    method NextTable(f: nat, i: nat) returns (c: nat)
      requires Sized() && i < ENTRIES
      modifies this
      ensures Sized() && c == Frame(Page(f)[i]) && (0 in old(mem) ==> 0 in mem)
      ensures Present(old(Page(f))[i]) ==> S() == old(S()) && free == old(free)
      ensures !Present(old(Page(f))[i]) && f in old(mem) && f in old(owner) && old(free) != [] ==>
                S() == Grow(old(S()), f, i, old(free[0])) && free == old(free[1..])
      ensures !Present(old(Page(f))[i]) && f in old(mem) && old(free) == [] ==>
                free == [] && S() == old(S()).(mem := Emptied(old(mem), f, i))
    {
      if !Present(Page(f)[i]) {
        ghost var full := free != [];
        var n := AllocateFrame();
        SetEntry(f, i, Or(n, USER_PAGE));
        mem := mem[n := Zeros()];
        if full && f in owner {
          owner, parent := owner[n := owner[f] + [i]], parent[n := f];
        }
      }
      c := Frame(Page(f)[i]);
    }

    /** What holds on the way to the goal. */
    ghost predicate OnTheWay(g: Goal, x: Trace)
      requires GoalOk(g)
      reads this
    {
      match x
      case Fine(t, made, k, f) => S() == t && k <= 3 && Walk(t, g.q[..k]) == Some(f) && FineSoFar(g, t, made, free)
      case Lost(t, l, h) => free == [] && LostAt(g, t, l, h) && mem == Emptied(t.mem, h, g.q[l])
      case Broken(zero) => Sized() && (zero ==> 0 in mem)
    }

    /** The table below an entry, which is made if it is absent. */
    method Ensure(f: nat, i: nat, ghost g: Goal, ghost k: nat, ghost x: Trace) returns (c: nat, ghost y: Trace)
      requires GoalOk(g) && g.s.root == root && k < 3 && i == g.q[k] && OnTheWay(g, x) && GotTo(x, k, f)
      requires Granting(g, x)
      modifies this
      ensures OnTheWay(g, y) && GotTo(y, k + 1, c) && if x.Broken? then y == x else !y.Broken?
      ensures Granting(g, y)
    {
      ghost var t, frames := S(), free;
      assert Sized() by { LeftOnTheWay(g, x); }
      assert x.Fine? ==> CanDescend(g, k, f, t, x.made, frames) by { if x.Fine? { Located(t, g.q[..k], f); } }
      c := NextTable(f, i);
      if x.Fine? {
        y := NextFromFine(g, t, k, f, x.made, frames);
      } else {
        y := x;
        if x.Lost? { EmptiedTwice(x.t.mem, x.h, g.q[x.k], i); }
      }
      assert Granting(g, y) by { if !x.Broken? { NextGrants(g, t, f, i, frames); } }
    }

    /** Every entry made so far grants user access, unless the space was no tree. */
    ghost predicate Granting(g: Goal, x: Trace)
      reads this
    {
      !x.Broken? ==> TreeOk(g.s) && Grants(g.s, S()) && 0 !in owner
    }

    lemma NextGrants(g: Goal, t: Space, f: nat, i: nat, frames: seq<nat>)
      requires Grants(g.s, t) && f in t.mem && i < |t.mem[f]| && 0 !in t.owner
      requires Present(t.mem[f][i]) ==> S() == t
      requires !Present(t.mem[f][i]) && frames != [] ==>
                 f in t.owner && frames[0] !in t.owner && frames[0] != 0 && S() == Grow(t, f, i, frames[0])
      requires !Present(t.mem[f][i]) && frames == [] ==> S() == t.(mem := Emptied(t.mem, f, i))
      ensures Grants(g.s, S()) && 0 !in owner
    {
      if !Present(t.mem[f][i]) {
        if frames == [] { EmptiedGrants(t, f, i); } else { GrowGrants(t, f, i, frames[0]); }
        GrantsTrans(g.s, t, S());
      }
    }

    /** The step from the table `f`: down, or to a new table, or to page zero. */
    lemma NextFromFine(g: Goal, t: Space, k: nat, f: nat, made: seq<nat>, frames: seq<nat>) returns (y: Trace)
      requires GoalOk(g) && CanDescend(g, k, f, t, made, frames) && t.root == root == g.s.root
      requires Present(t.mem[f][g.q[k]]) ==> S() == t && free == frames
      requires !Present(t.mem[f][g.q[k]]) && frames != [] ==>
                 S() == Grow(t, f, g.q[k], frames[0]) && free == frames[1..]
      requires !Present(t.mem[f][g.q[k]]) && frames == [] ==> free == [] && mem == Emptied(t.mem, f, g.q[k])
      ensures g.q[k] < |Page(f)| && OnTheWay(g, y) && GotTo(y, k + 1, Frame(Page(f)[g.q[k]])) && !y.Broken?
    {
      if Present(t.mem[f][g.q[k]]) {
        DescendIsFine(g, t, k, f, made, frames);
        y := Fine(t, made, k + 1, Frame(Page(f)[g.q[k]]));
      } else if frames == [] {
        NewTableEntry(0);
        y := Lost(t, k, f);
      } else {
        NextIsFine(g, t, k, f, made, frames);
        y := Fine(S(), made + [frames[0]], k + 1, Frame(Page(f)[g.q[k]]));
      }
    }

    lemma ValidIsSized()
      requires Valid()
      ensures Sized() && 0 !in mem
    {
      forall h | h in mem ensures |mem[h]| == ENTRIES { assert TableOk(S(), h); }
      NoZeroTable(S());
    }

    lemma StartsOnTheWay(g: Goal, x: Trace)
      requires GoalOk(g) && Sized() && g.s == S() && g.frames == free
      requires x == if Valid() then Fine(S(), [], 0, root) else Broken(0 in mem)
      ensures OnTheWay(g, x) && (x.Fine? ==> 0 !in mem)
    {
      if Valid() {
        assert TableOk(S(), root);
        NoZeroTable(S());
      }
    }

    /** What is left of a call that stops on the way. */
    ghost predicate Left(g: Goal, x: Trace)
      reads this
    {
      && Sized()
      && match x
         case Fine(t, made, _, _) => S() == t && 0 !in mem && FineSoFar(g, t, made, free)
         case Lost(_, _, _) => 0 in mem && g.Spare() < 0
         case Broken(zero) => zero ==> 0 in mem
    }

    lemma LeftOnTheWay(g: Goal, x: Trace)
      requires GoalOk(g) && OnTheWay(g, x)
      ensures Left(g, x)
    {
      if x.Fine? {
        ValidIsSized();
      } else if x.Lost? {
        forall h | h in mem ensures |mem[h]| == ENTRIES { assert h in x.t.mem ==> TableOk(x.t, h); }
        LostMeansFew(g, x.t, x.k, x.h);
      }
    }

    /** The three tables on the way, each of which is first brought into view. */
    method Reach(p: seq<nat>, seen: seq<bool>, ghost g: Goal, ghost x: Trace) returns (pt: nat, ghost y: Trace)
      requires GoalOk(g) && p == g.q && g.s.root == root && |seen| == 4 && OnTheWay(g, x) && GotTo(x, 0, root)
      requires Granting(g, x)
      modifies this
      ensures Granting(g, y)
      ensures OnTheWay(g, y) && if x.Broken? then y == x else !y.Broken?
      ensures seen[0] && seen[1] && seen[2] ==> GotTo(y, 3, pt)
    {
      pt, y := root, x;
      if !seen[0] {
        return;
      }
      pt, y := Ensure(pt, p[0], g, 0, y);
      if !seen[1] {
        return;
      }
      pt, y := Ensure(pt, p[1], g, 1, y);
      if !seen[2] {
        return;
      }
      pt, y := Ensure(pt, p[2], g, 2, y);
    }

    /** What a call for the page of `physical` that sees all tables has done. */
    ghost predicate Done(g: Goal, x: Trace, frame: nat)
      requires GoalOk(g)
      reads this
    {
      && Sized()
      && match x
         case Fine(_, made, _, _) =>
           && Valid() && 0 !in mem && MapsOne(g.s, S(), g.q, frame, true)
           && |free| == g.Spare() + |Missing(S(), g.w)| && FramesTaken(g.s, S(), g.frames, made, free)
         case Lost(_, _, _) =>
           && 0 in mem && g.Spare() < 0
           && (g.w == Above(g.q) ==> AsFramesLast(g.s, S(), g.q, frame, |g.frames|))
         case Broken(zero) => zero ==> 0 in mem
    }

    /** The last step: the entry itself. */
    method SetUserPage(pt: nat, physical: nat, p: seq<nat>, ghost g: Goal, ghost x: Trace)
      requires GoalOk(g) && p == g.q && g.s.root == root && OnTheWay(g, x) && GotTo(x, 3, pt) && Granting(g, x)
      modifies `mem
      ensures Done(g, x, Frame(physical)) && Granting(g, x) && (x.Fine? ==> Allows(EntryOf(S(), p)))
    {
      ghost var t := S();
      assert Sized() by { LeftOnTheWay(g, x); }
      assert x.Fine? ==> pt in mem by { if x.Fine? { Located(t, p[..3], pt); } }
      SetEntry(pt, p[3], Or(physical, USER_PAGE));
      if x.Fine? {
        FineIsDone(g, t, pt, physical, x.made);
        assert Allows(EntryOf(S(), p)) by { UserEntryWritten(t, pt, p, physical); }
      } else if x.Lost? {
        LostPage(g, x.t, x.k, x.h, S(), physical);
      }
      assert Granting(g, x) by {
        if !x.Broken? {
          WriteGrants(t, pt, p[3], physical);
          GrantsTrans(g.s, t, S());
        }
      }
    }

    lemma FineIsDone(g: Goal, t: Space, pt: nat, physical: nat, made: seq<nat>)
      requires GoalOk(g) && Walk(t, g.q[..3]) == Some(pt) && FineSoFar(g, t, made, free)
      requires pt in t.mem && g.q[3] < |t.mem[pt]| && S() == Write(t, pt, g.q[3], Or(physical, USER_PAGE))
      ensures Done(g, Fine(t, made, 3, pt), Frame(physical))
    {
      Located(t, g.q[..3], pt);
      LeafOnTheWay(g, t, pt, physical);
      assert Valid();
      ValidIsSized();
    }

    /** Maps the page of `virt` to the page of `physical`, making tables on the way. If a table cannot
        be seen nothing is translated differently. A frame is taken for each table of `w` that is made,
        and for nothing else. Page zero becomes a table only if they are too few. */
    method UserMap(virt: nat, physical: nat, seen: seq<bool>, ghost w: set<seq<nat>>)
      returns (ok: bool, ghost made: seq<nat>)
      requires Sized() && |seen| == 4 && Above(PathOf(virt)) <= w && AreTables(w)
      modifies this
      ensures Sized() && (ok <==> AllSeen(seen)) && (0 in old(mem) ==> 0 in mem)
      ensures old(Valid()) && 0 in mem ==> |old(free)| < |old(Missing(S(), w))|
      ensures old(Valid()) && 0 !in mem ==>
                && Valid() && MapsOne(old(S()), S(), PathOf(virt), Frame(physical), ok)
                && |old(free)| - |free| == |old(Missing(S(), w))| - |Missing(S(), w)|
                && FramesTaken(old(S()), S(), old(free), made, free)
      ensures old(Valid()) ==> Grants(old(S()), S()) && (old(Open(S())) ==> Open(S()))
      ensures old(Valid()) && ok && 0 !in mem ==> Allows(EntryOf(S(), PathOf(virt)))
      ensures old(Valid()) && ok && w == Above(PathOf(virt)) ==>
                AsFramesLast(old(S()), S(), PathOf(virt), Frame(physical), |old(free)|)
    {
      var p := PathOf(virt);
      ghost var g := Goal(S(), p, w, free);
      ghost var x := if Valid() then Fine(S(), [], 0, root) else Broken(0 in mem);
      assert OnTheWay(g, x) && (x.Fine? ==> 0 !in mem) by { StartsOnTheWay(g, x); }
      assert Granting(g, x) by { if x.Fine? { GrantsSelf(S()); } }
      var pt;
      pt, x := Reach(p, seen, g, x);
      ok := AllSeen(seen);
      if ok {
        SetUserPage(pt, physical, p, g, x);
      } else {
        LeftOnTheWay(g, x);
      }
      assert old(Valid()) && old(Open(S())) ==> Open(S()) by {
        if old(Valid()) && old(Open(S())) { GrantsOpen(g.s, S()); }
      }
      made := if x.Fine? then x.made else [];
    }

    /** With no frame, a call that needs two tables or more says that it succeeded, and leaves the
        page untranslated. */
    method MapWithoutFrames(virt: nat, physical: nat) returns (ok: bool)
      requires Valid() && free == [] && |Missing(S(), Above(PathOf(virt)))| >= 2
      requires PathOf(virt)[3] != PathOf(virt)[1] && PathOf(virt)[3] != PathOf(virt)[2]
      modifies this
      ensures ok && Walk(S(), PathOf(virt)) == None && 0 in mem && !Valid()
    {
      ghost var s := S();
      ValidIsSized();
      AtMostThree(s, PathOf(virt));
      ghost var made;
      ok, made := UserMap(virt, physical, [true, true, true, true], Above(PathOf(virt)));
      if Valid() { ValidIsSized(); }
    }

    /** After `page` pages of a range: they are mapped, or frames were too few. */
    ghost predicate UserProgress(r: Range, page: nat)
      reads this
    {
      && Sized()
      && if 0 in mem then r.spare < 0
         else Valid() && |free| == r.spare + |Missing(S(), r.w)| && RangeMapped(r, S(), page) && Grants(r.s, S())
    }

    /** One page of a range. */
    method UserMapNext(virt: nat, physical: nat, page: nat, seen: seq<bool>, ghost r: Range) returns (ok: bool)
      requires |seen| == 4 && r.virt == virt && r.physical == physical && UserProgress(r, page)
      requires AreTables(r.w) && Covered(r.w, virt, page) && (r.user ==> !IsKernel(PageAt(virt, page)))
      modifies this
      ensures (ok <==> AllSeen(seen)) && UserProgress(r, if ok then page + 1 else page)
    {
      ghost var t := S();
      var virtAddr, physAddr := virt + page * PAGE_SIZE, physical + page * PAGE_SIZE;
      ghost var p := PathOf(virtAddr);
      assert p == PageAt(virt, page);
      ghost var made;
      ok, made := UserMap(virtAddr, physAddr, seen, r.w);
      assert 0 !in mem ==> MapsOne(t, S(), p, Frame(physAddr), ok);
      assert 0 !in mem ==> RangeMapped(r, S(), if ok then page + 1 else page) by {
        if 0 !in mem { RangeStep(r, t, S(), page, ok, p, Frame(physAddr)); }
      }
      assert 0 !in mem ==> Grants(r.s, S()) by { if 0 !in mem { GrantsTrans(r.s, t, S()); } }
    }

    /** Maps page after page, until all are mapped or a table cannot be seen. The frames taken
        are as many as tables were absent and are there now. If all tables are seen, page zero
        becomes one exactly if the frames are too few. */
    method UserMapPages(virt: nat, physical: nat, pages: nat, seen: seq<seq<bool>>) returns (ok: bool, ghost count: nat)
      requires Valid() && |seen| == pages && forall i :: 0 <= i < pages ==> |seen[i]| == 4
      modifies this
      ensures count <= pages && (ok <==> count == pages) && (ok <==> forall i :: 0 <= i < pages ==> AllSeen(seen[i]))
      ensures 0 in mem ==> |old(free)| < |old(Missing(S(), AllAbove(virt, pages)))|
      ensures ok ==> (0 in mem <==> |old(free)| < |old(Missing(S(), AllAbove(virt, pages)))|)
      ensures 0 !in mem ==>
                && Valid() && IsMapped(old(S()), S(), virt, physical, count)
                && |old(free)| - |free| ==
                   |old(Missing(S(), AllAbove(virt, pages)))| - |Missing(S(), AllAbove(virt, pages))|
                && (OutsideKernel(virt, pages) ==> KernelSame(old(S()), S()))
                && Grants(old(S()), S()) && (old(Open(S())) ==> Open(S()))
    {
      ghost var s := S();
      GrantsSelf(s);
      ghost var w := AllAbove(virt, pages);
      assert TableOk(s, root);
      ValidIsSized();
      AboveAreTables(virt, pages);
      forall k | 0 <= k < pages ensures Covered(w, virt, k) { AboveInRange(virt, pages, k); }
      ghost var r := Range(s, virt, physical, w, |free| - |Missing(s, w)|, OutsideKernel(virt, pages));
      ok, count := UserMapEach(virt, physical, pages, seen, r);
      if ok && 0 !in mem { MappedHasTables(s, S(), virt, physical, pages, pages); }
      if 0 !in mem && Open(s) { GrantsOpen(s, S()); }
    }

    method UserMapEach(virt: nat, physical: nat, pages: nat, seen: seq<seq<bool>>, ghost r: Range)
      returns (ok: bool, ghost count: nat)
      requires |seen| == pages && forall i :: 0 <= i < pages ==> |seen[i]| == 4
      requires r.virt == virt && r.physical == physical && UserProgress(r, 0) && AreTables(r.w)
      requires (forall k :: 0 <= k < pages ==> Covered(r.w, virt, k)) && (r.user ==> OutsideKernel(virt, pages))
      modifies this
      ensures count <= pages && UserProgress(r, count) && (ok <==> count == pages) && (ok <==> SeenUpTo(seen, pages))
    {
      for page := 0 to pages
        invariant UserProgress(r, page)
        invariant SeenUpTo(seen, page)
      {
        ok := UserMapNext(virt, physical, page, seen[page], r);
        assert ok ==> SeenUpTo(seen, page + 1) by { if ok { OneMoreSeen(seen, page); } }
        if !ok {
          return false, page;
        }
      }
      return true, pages;
    }

    /** The last-level table for an address, if there is one. */
    method FindTable(virt: nat) returns (found: bool, pt: nat)
      requires Valid()
      ensures found <==> Walk(S(), PathOf(virt)[..3]).Some?
      ensures found ==> At(PathOf(virt)[..3], pt)
    {
      ghost var s := S();
      var p := PathOf(virt);
      DescendThree(mem, root, p[..3]);
      assert TableOk(s, root);
      if !Present(mem[root][p[0]]) {
        return false, 0;
      }
      var pdpt := Frame(mem[root][p[0]]);
      assert LinkOk(s, root, p[0]) && TableOk(s, pdpt);
      if !Present(mem[pdpt][p[1]]) {
        return false, 0;
      }
      var pd := Frame(mem[pdpt][p[1]]);
      assert LinkOk(s, pdpt, p[1]) && TableOk(s, pd);
      if !Present(mem[pd][p[2]]) {
        return false, 0;
      }
      return true, Frame(mem[pd][p[2]]);
    }

    /** The last-level entry of a table that is reached. */
    method ReadLeaf(pt: nat, virt: nat) returns (e: nat)
      requires Valid() && At(PathOf(virt)[..3], pt)
      ensures e == EntryOf(S(), PathOf(virt))
    {
      Located(S(), PathOf(virt)[..3], pt);
      e := mem[pt][PathOf(virt)[3]];
    }

    method PagePresent(virt: nat) returns (b: bool)
      requires Valid()
      ensures b <==> Walk(S(), PathOf(virt)).Some?
    {
      WalkIsEntry(S(), PathOf(virt));
      var found, pt := FindTable(virt);
      if !found {
        return false;
      }
      var e := ReadLeaf(pt, virt);
      b := Present(e);
    }

    /** The page of an address, plus its low thirteen bits. */
    method PhysicalAddress(virt: nat) returns (a: nat)
      requires Valid()
      ensures a == LowThirteen(S(), virt)
    {
      var present := PagePresent(virt);
      if !present {
        return 0;
      }
      WalkIsEntry(S(), PathOf(virt));
      var found, pt := FindTable(virt);
      var e := ReadLeaf(pt, virt);
      a := virt % 0x2000 + Frame(e);
    }

    method PageFreeOrSet(virt: nat, physical: nat) returns (b: bool)
      requires Valid()
      ensures b <==> Walk(S(), PathOf(virt)).None? || LowThirteen(S(), virt) == physical
    {
      var present := PagePresent(virt);
      if !present {
        return true;
      }
      var a := PhysicalAddress(virt);
      b := a == physical;
    }

    /** Maps one page whose tables exist; a page that is mapped already is left alone. */
    method Map(virt: nat, physical: nat, flags: nat) returns (ok: bool)
      requires Valid() && flags < 256 && (virt % PAGE_SIZE == 0 ==> Tabled(S(), PathOf(virt)))
      modifies `mem
      ensures Valid()
      ensures ok <==> virt % 4096 == 0 &&
                      var e := old(EntryOf(S(), PathOf(virt))); e % 2 == 0 || e == Or(physical, flags)
      ensures S() == if ok && !Present(old(EntryOf(S(), PathOf(virt))))
                     then LeafWrite(old(S()), PathOf(virt), Or(physical, flags)) else old(S())
      ensures ok ==> EntryOf(S(), PathOf(virt)) == Or(physical, flags)
      ensures SameEntriesBut(old(S()), S(), PathOf(virt)) && SameUpper(old(S()), S())
    {
      if virt % PAGE_SIZE != 0 {
        return false;
      }
      var found, pt := FindTable(virt);
      var e := ReadLeaf(pt, virt);
      if Present(e) {
        return e == Or(physical, flags);
      }
      var p := PathOf(virt);
      assert p[..3] + [p[3]] == p;
      Located(S(), p[..3], pt);
      WriteLeaf(pt, p[3], Or(physical, flags), p[..3]);
      ok := true;
    }

    /** The first of two passes over a range: is every page free, or set already? */
    method AllFreeOrSet(virt: nat, physical: nat, pages: nat) returns (b: bool)
      requires Valid()
      ensures b <==> forall k :: 0 <= k < pages ==> FreeOrSetAt(S(), virt, physical, k)
    {
      for page := 0 to pages
        invariant forall k :: 0 <= k < page ==> FreeOrSetAt(S(), virt, physical, k)
      {
        var virtAddr, physAddr := virt + page * PAGE_SIZE, physical + page * PAGE_SIZE;
        b := PageFreeOrSet(virtAddr, physAddr);
        assert b <==> FreeOrSetAt(S(), virt, physical, page);
        if !b {
          return;
        }
      }
      b := true;
    }

    /** After `page` pages of the second pass. */
    ghost predicate Progress(s: Space, virt: nat, physical: nat, flags: nat, page: nat, pages: nat)
      reads this
    {
      && Valid() && AllTabled(S(), virt, pages) && EntriesSet(s, S(), virt, physical, flags, page)
      && (pages <= 0x10_0000_0000 ==> AllFit(s, virt, physical, flags, page))
    }

    /** One page of the second pass. */
    method MapOne(virt: nat, physical: nat, page: nat, flags: nat, ghost s: Space, ghost pages: nat) returns (ok: bool)
      requires flags < 256 && virt % PAGE_SIZE == 0 && page < pages && Progress(s, virt, physical, flags, page, pages)
      modifies `mem
      ensures if ok then Progress(s, virt, physical, flags, page + 1, pages)
              else Progress(s, virt, physical, flags, page, pages)
      ensures ok || pages > 0x10_0000_0000 || !Fits(s, virt, physical, flags, page)
    {
      ghost var t := S();
      var virtAddr, physAddr := virt + page * PAGE_SIZE, physical + page * PAGE_SIZE;
      assert TabledAt(t, virt, page) && PageAt(virt, page) == PathOf(virtAddr);
      PagesAreAligned(virt, page);
      ghost var p := PageAt(virt, page);
      ghost var fits := EntryFits(EntryOf(t, p), physAddr, flags);
      assert pages <= 0x10_0000_0000 ==> (Fits(s, virt, physical, flags, page) <==> fits) by {
        if pages <= 0x10_0000_0000 { RestIsSame(s, t, virt, physical, flags, page); }
      }
      ok := Map(virtAddr, physAddr, flags);
      assert ok <==> fits;
      if ok {
        MapStep(s, t, S(), virt, physical, flags, page, pages);
      }
    }

    /** The second pass, which stops at the first page that does not fit. */
    method MapEach(virt: nat, physical: nat, pages: nat, flags: nat, ghost s: Space)
      returns (ok: bool, ghost count: nat)
      requires flags < 256 && virt % PAGE_SIZE == 0 && Progress(s, virt, physical, flags, 0, pages)
      modifies `mem
      ensures count <= pages && Progress(s, virt, physical, flags, count, pages) && (ok <==> count == pages)
      ensures ok || pages > 0x10_0000_0000 || !Fits(s, virt, physical, flags, count)
    {
      for page := 0 to pages
        invariant Progress(s, virt, physical, flags, page, pages)
      {
        ok := MapOne(virt, physical, page, flags, s, pages);
        if !ok {
          return false, page;
        }
      }
      return true, pages;
    }

    /** Maps a range whose tables exist. It succeeds exactly if no page leads elsewhere and
        every present page has the wanted entry. If a page leads elsewhere nothing changes;
        if a present page only has other flags, the pages before the first such are mapped. */
    method MapPages(virt: nat, physical: nat, pages: nat, flags: nat) returns (ok: bool, ghost count: nat)
      requires Valid() && flags < 256 && (virt % PAGE_SIZE == 0 ==> AllTabled(S(), virt, pages))
      modifies `mem
      ensures Valid() && count <= pages && SameOutside(old(S()), S(), virt, pages)
      ensures EntriesSet(old(S()), S(), virt, physical, flags, count)
      ensures Present(flags) ==> IsMapped(old(S()), S(), virt, physical, count)
      ensures virt % PAGE_SIZE != 0 || !old(forall k :: 0 <= k < pages ==> FreeOrSetAt(S(), virt, physical, k)) ==>
                !ok && S() == old(S())
      ensures virt % PAGE_SIZE == 0 && old(forall k :: 0 <= k < pages ==> FreeOrSetAt(S(), virt, physical, k)) ==>
                (ok <==> count == pages)
      ensures virt % PAGE_SIZE == 0 && pages <= 0x10_0000_0000 &&
              old(forall k :: 0 <= k < pages ==> FreeOrSetAt(S(), virt, physical, k)) ==>
                AllFit(old(S()), virt, physical, flags, count) && (ok || !Fits(old(S()), virt, physical, flags, count))
      ensures virt % PAGE_SIZE == 0 && pages <= 0x10_0000_0000 ==>
                (ok <==> old(&& (forall k :: 0 <= k < pages ==> FreeOrSetAt(S(), virt, physical, k))
                             && AllFit(S(), virt, physical, flags, pages)))
    {
      ghost var s := S();
      ok, count := false, 0;
      var free := false;
      if virt % PAGE_SIZE == 0 {
        free := AllFreeOrSet(virt, physical, pages);
      }
      if free {
        ok, count := MapEach(virt, physical, pages, flags, s);
      }
      EntriesOutside(s, S(), virt, physical, flags, count, pages);
      if Present(flags) { EntriesAreMapped(s, S(), virt, physical, flags, count); }
    }

    /** The page is absent afterwards. */
    method Unmap(virt: nat) returns (ok: bool)
      requires Valid()
      modifies `mem
      ensures Valid() && (ok <==> virt % PAGE_SIZE == 0)
      ensures !ok ==> S() == old(S())
      ensures ok ==> Walk(S(), PathOf(virt)) == None
      ensures SameWalksBut(old(S()), S(), PathOf(virt)) && SameUpper(old(S()), S())
    {
      if virt % PAGE_SIZE != 0 {
        return false;
      }
      WalkIsEntry(S(), PathOf(virt));
      var found, pt := FindTable(virt);
      if !found {
        return true;
      }
      var p := PathOf(virt);
      assert p[..3] + [p[3]] == p;
      WriteLeaf(pt, p[3], 0, p[..3]);
      ok := true;
    }

    method UnmapPages(virt: nat, pages: nat) returns (ok: bool)
      requires Valid()
      modifies `mem
      ensures Valid() && (ok <==> virt % PAGE_SIZE == 0)
      ensures if ok then Cleared(old(S()), S(), virt, pages) else S() == old(S())
    {
      ghost var s := S();
      if virt % PAGE_SIZE != 0 {
        return false;
      }
      for page := 0 to pages
        invariant Valid() && Cleared(s, S(), virt, page)
      {
        ghost var t := S();
        var virtAddr := virt + page * PAGE_SIZE;
        assert PageAt(virt, page) == PathOf(virtAddr);
        PagesAreAligned(virt, page);
        ok := Unmap(virtAddr);
        OneMoreCleared(s, t, S(), virt, page);
      }
      ok := true;
    }

    /** Mapping an absent range and unmapping it again translates every page as before. */
    method MapAndUnmap(virt: nat, physical: nat, pages: nat, flags: nat)
      requires Valid() && virt % PAGE_SIZE == 0 && flags < 256 && Present(flags) && pages <= 0x10_0000_0000
      requires AllTabled(S(), virt, pages) && AllAbsent(S(), virt, pages)
      modifies `mem
      ensures Valid() && SameWalks(old(S()), S())
    {
      ghost var s := S();
      AbsentFits(s, virt, physical, flags, pages);
      ghost var count;
      var ok: bool;
      ok, count := MapPages(virt, physical, pages, flags);
      ghost var t := S();
      ok := UnmapPages(virt, pages);
      UnmapUndoesMap(s, t, S(), virt, physical, pages);
    }

    method WriteLeaf(pt: nat, i: nat, e: nat, ghost upper: seq<nat>)
      requires Valid() && At(upper, pt) && |upper| == 3 && i < ENTRIES
      modifies `mem
      ensures Valid() && At(upper, pt) && SameWalksBut(old(S()), S(), upper + [i]) && SameUpper(old(S()), S())
      ensures IsPath(upper + [i]) && S() == LeafWrite(old(S()), upper + [i], e)
      ensures EntryOf(S(), upper + [i]) == e && SameEntriesBut(old(S()), S(), upper + [i])
      ensures Walk(S(), upper + [i]) == if Present(e) then Some(Frame(e)) else None
      ensures !IsKernel(upper + [i]) ==> KernelSame(old(S()), S())
    {
      ghost var s := S();
      Located(s, upper, pt);
      SetEntry(pt, i, e);
      Written(s, pt, i, e);
      assert SameEntriesBut(s, S(), upper + [i]) by {
        forall q | IsPath(q) && q != upper + [i]
          ensures EntryOf(S(), q) == EntryOf(s, q)
        {
          LeafKeepsEntry(s, pt, i, e, q);
        }
      }
      assert (upper + [i])[..3] == upper;
    }
  }

  lemma StillMapped(s: Space, t: Space, u: Space, virt: nat, physical: nat, n: nat)
    requires IsMapped(s, t, virt, physical, n) && SameWalks(t, u)
    ensures IsMapped(s, u, virt, physical, n)
  {
  }

  lemma OneMoreMapped(s: Space, t: Space, u: Space, virt: nat, physical: nat, n: nat)
    requires IsMapped(s, t, virt, physical, n) && SameWalksBut(t, u, PageAt(virt, n))
    requires Walk(u, PageAt(virt, n)) == Some(Frame(physical + n * PAGE_SIZE))
    ensures IsMapped(s, u, virt, physical, n + 1)
  {
    forall q {:trigger Lookup(s, virt, physical, n + 1, q)} | IsPath(q)
      ensures Walk(u, q) == Lookup(s, virt, physical, n + 1, q)
    {
      assert Walk(t, q) == Lookup(s, virt, physical, n, q);
    }
  }

  lemma Written(s: Space, f: nat, i: nat, e: nat)
    requires IsLeaf(s, f, i) && Walk(s, s.owner[f]) == Some(f) && IsIndexes(s.owner[f])
    ensures var t, p := Write(s, f, i, e), s.owner[f];
            TreeOk(t) && SameWalksBut(s, t, p + [i]) && SameUpper(s, t) && Walk(t, p) == Some(f)
    ensures Walk(Write(s, f, i, e), s.owner[f] + [i]) == if Present(e) then Some(Frame(e)) else None
    ensures !IsKernel(s.owner[f] + [i]) ==> KernelSame(s, Write(s, f, i, e))
  {
    LeafKeepsTree(s, f, i, e);
    LeafSetsWalk(s, f, i, e);
    forall q {:trigger Walk(Write(s, f, i, e), q)} | IsPath(q) && q != s.owner[f] + [i]
      ensures Walk(Write(s, f, i, e), q) == Walk(s, q)
    {
      LeafKeepsWalk(s, f, i, e, q);
    }
    forall q {:trigger Walk(Write(s, f, i, e), q)} | |q| <= 3 && IsIndexes(q)
      ensures Walk(Write(s, f, i, e), q) == Walk(s, q)
    {
      LeafKeepsUpper(s, f, i, e, q);
    }
    if !IsKernel(s.owner[f] + [i]) { LeafKeepsKernel(s, f, i, e); }
  }

  lemma UserEntryWritten(s: Space, f: nat, q: seq<nat>, physical: nat)
    requires TreeOk(s) && IsPath(q) && Walk(s, q[..3]) == Some(f) && f in s.mem && q[3] < |s.mem[f]|
    ensures Allows(EntryOf(Write(s, f, q[3], Or(physical, USER_PAGE)), q))
  {
    Located(s, q[..3], f);
    LeafKeepsUpper(s, f, q[3], Or(physical, USER_PAGE), q[..3]);
    UserPageAllows(physical);
  }

  lemma Located(s: Space, p: seq<nat>, f: nat)
    requires TreeOk(s) && |p| <= 3 && Walk(s, p) == Some(f)
    ensures TableOk(s, f) && s.owner[f] == p && TableOk(s, s.root)
  {
    ReachedIsOwned(s, s.root, p);
    assert [] + p == p;
  }

  lemma Grown(s: Space, f: nat, i: nat, n: nat)
    requires CanGrow(s, f, i, n) && Walk(s, s.owner[f]) == Some(f) && IsIndexes(s.owner[f])
    ensures var t := Grow(s, f, i, n);
            && TreeOk(t) && SameWalks(s, t) && TopStays(s, t) && Walk(t, s.owner[f] + [i]) == Some(n)
            && (!IsKernel(s.owner[f] + [i]) ==> KernelSame(s, t))
  {
    GrowKeepsTree(s, f, i, n);
    GrowReaches(s, f, i, n);
    assert TopStays(s, Grow(s, f, i, n)) by { assert TableOk(s, s.root); }
    forall q {:trigger Walk(Grow(s, f, i, n), q)} | IsPath(q) ensures Walk(Grow(s, f, i, n), q) == Walk(s, q) {
      GrowKeepsWalk(s, f, i, n, q);
    }
    if !IsKernel(s.owner[f] + [i]) { GrowKeepsKernel(s, f, i, n); }
  }
}
