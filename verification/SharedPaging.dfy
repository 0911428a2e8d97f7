/** Many address spaces over one memory: the kernel's, and those of processes, which share the
    kernel's tables. Whatever is mapped, all translate kernel addresses alike. */
module SharedPaging {
  import opened PagingModel
  import opened PagingRights
  import opened Paging
  import opened ProcessPaging

  /** The memory with all tables, the kernel's space and the spaces of processes. */
  datatype World = World(mem: map<nat, seq<nat>>, kernel: Space, users: seq<Space>)

  /** The tables of `s` are as they are in memory. */
  ghost predicate InMemory(s: Space, mem: map<nat, seq<nat>>)
  {
    forall f {:trigger f in s.mem} :: f in s.mem ==> f in mem && mem[f] == s.mem[f]
  }

  /** The space `u` leads to the kernel's tables where the kernel does, and has them all. */
  ghost predicate SharesKernel(k: Space, u: Space)
  {
    && TreeOk(u) && TableOk(u, u.root) && TableOk(k, k.root)
    && Present(u.mem[u.root][0]) && Present(k.mem[k.root][0]) && Frame(u.mem[u.root][0]) == Frame(k.mem[k.root][0])
    && forall f {:trigger f in KernelTables(k)} ::
         f in KernelTables(k) ==> f in u.mem && f in u.owner && u.owner[f] == k.owner[f]
  }

  /** What two spaces have in common is the kernel's. */
  ghost predicate OnlyKernelCommon(k: Space, s: Space, u: Space)
  {
    forall f {:trigger f in s.mem, f in u.mem} :: f in s.mem && f in u.mem ==> f in KernelTables(k)
  }

  ghost predicate UserOk(w: World, i: nat)
    requires i < |w.users|
  {
    && InMemory(w.users[i], w.mem) && SharesKernel(w.kernel, w.users[i])
    && OnlyKernelCommon(w.kernel, w.users[i], w.kernel)
  }

  ghost predicate Separate(w: World, i: nat, j: nat)
    requires i < |w.users| && j < |w.users|
  {
    i != j ==> OnlyKernelCommon(w.kernel, w.users[i], w.users[j])
  }

  ghost predicate WorldOk(w: World)
  {
    && TreeOk(w.kernel) && InMemory(w.kernel, w.mem)
    && (forall i {:trigger UserOk(w, i)} :: 0 <= i < |w.users| ==> UserOk(w, i))
    && (forall i, j {:trigger Separate(w, i, j)} :: 0 <= i < |w.users| && 0 <= j < |w.users| ==> Separate(w, i, j))
  }

  // ----- Kernel addresses -----

  /** Below the kernel's entries both spaces walk the same tables. */
  lemma {:induction false} SameBelow(k: Space, u: Space, mem: map<nat, seq<nat>>, f: nat, p: seq<nat>)
    requires TreeOk(k) && InMemory(k, mem) && InMemory(u, mem) && SharesKernel(k, u)
    requires f in KernelTables(k) && |k.owner[f]| + |p| <= 4 && IsIndexes(p)
    ensures Descend(u.mem, f, p) == Descend(k.mem, f, p)
    decreases |p|
  {
    if p != [] {
      assert f in k.mem && f in u.mem && u.mem[f] == k.mem[f];
      assert TableOk(k, f) && LinkOk(k, f, p[0]);
      if Present(k.mem[f][p[0]]) && |k.owner[f]| < 3 {
        var c := Frame(k.mem[f][p[0]]);
        assert TableOk(k, c) && k.owner[c][0] == k.owner[f][0];
        SameBelow(k, u, mem, c, p[1..]);
      }
    }
  }

  /** Every process translates kernel addresses as the kernel does. */
  lemma KernelAddressesAlike(w: World, i: nat, q: seq<nat>)
    requires WorldOk(w) && i < |w.users| && IsPath(q) && IsKernel(q)
    ensures Walk(w.users[i], q) == Walk(w.kernel, q)
  {
    var k, u := w.kernel, w.users[i];
    assert UserOk(w, i) && LinkOk(k, k.root, 0) && [] + [0] == [0];
    var pdpt := Frame(k.mem[k.root][0]);
    assert TableOk(k, pdpt) && pdpt in KernelTables(k);
    SameBelow(k, u, w.mem, pdpt, q[1..]);
  }

  // ----- Steps -----

  /** A process joins with a top table of its own, or a user page is mapped in one, or a page
      is mapped or unmapped in the kernel. */
  datatype WorldStep = Join(root: nat) | UserMapped(i: nat, u: Space) | KernelMapped(f: nat, j: nat, e: nat)

  ghost predicate CanTake(w: World, st: WorldStep)
    requires WorldOk(w)
  {
    match st
    case Join(root) =>
      && TableOk(w.kernel, w.kernel.root) && Present(w.kernel.mem[w.kernel.root][0])
      && root % PAGE_SIZE == 0 && root != 0 && root !in w.mem
    case UserMapped(i, u) =>
      && i < |w.users| && TreeOk(u) && KernelSame(w.users[i], u)
      && forall f {:trigger f in u.mem} :: f in u.mem ==> f in w.users[i].mem || f !in w.mem
    case KernelMapped(f, j, e) => IsLeaf(w.kernel, f, j) && IsKernel(w.kernel.owner[f])
  }

  /** Memory after the tables of `u` are written. */
  function Updated(mem: map<nat, seq<nat>>, u: Space): map<nat, seq<nat>>
  {
    mem + u.mem
  }

  function WriteIfThere(s: Space, f: nat, j: nat, e: nat): Space
  {
    if f in s.mem && j < |s.mem[f]| then Write(s, f, j, e) else s
  }

  ghost function After(w: World, st: WorldStep): World
    requires WorldOk(w) && CanTake(w, st)
  {
    match st
    case Join(root) =>
      var u := Shared(w.kernel, root, Frame(w.kernel.mem[w.kernel.root][0]));
      World(Updated(w.mem, u), w.kernel, w.users + [u])
    case UserMapped(i, u) => World(Updated(w.mem, u), w.kernel, w.users[i := u])
    case KernelMapped(f, j, e) =>
      World(Put(w.mem, f, j, e), Write(w.kernel, f, j, e),
            seq(|w.users|, i requires 0 <= i < |w.users| => WriteIfThere(w.users[i], f, j, e)))
  }

  /** The kernel's tables in `u` are untouched, so the other spaces do not notice. */
  lemma OthersStayInMemory(k: Space, s: Space, u: Space, u': Space, mem: map<nat, seq<nat>>)
    requires InMemory(s, mem) && InMemory(u, mem) && SharesKernel(k, u) && KernelSame(u, u')
    requires OnlyKernelCommon(k, u, s)
    requires forall f {:trigger f in u'.mem} :: f in u'.mem ==> f in u.mem || f !in mem
    ensures InMemory(s, Updated(mem, u')) && OnlyKernelCommon(k, u', s)
  {
    forall f {:trigger f in s.mem} | f in s.mem ensures f in Updated(mem, u') && Updated(mem, u')[f] == s.mem[f] {
      assert KernelTableSame(u, u', f);
    }
  }

  lemma StillShares(k: Space, u: Space, u': Space)
    requires SharesKernel(k, u) && TreeOk(u') && KernelSame(u, u')
    ensures SharesKernel(k, u')
  {
    assert TableOk(u', u'.root);
    forall f {:trigger f in KernelTables(k)} | f in KernelTables(k)
      ensures f in u'.mem && f in u'.owner && u'.owner[f] == k.owner[f]
    {
      assert KernelTableSame(u, u', f);
    }
  }

  lemma UserMappedIsOk(w: World, i: nat, u': Space)
    requires WorldOk(w) && CanTake(w, UserMapped(i, u'))
    ensures WorldOk(After(w, UserMapped(i, u')))
  {
    var k, u, w' := w.kernel, w.users[i], After(w, UserMapped(i, u'));
    assert UserOk(w, i);
    assert OnlyKernelCommon(k, u, k);
    OthersStayInMemory(k, k, u, u', w.mem);
    StillShares(k, u, u');
    forall j {:trigger UserOk(w', j)} | 0 <= j < |w'.users| ensures UserOk(w', j) {
      assert UserOk(w, j) && Separate(w, i, j);
      if j != i { OthersStayInMemory(k, w.users[j], u, u', w.mem); }
    }
    forall a, b {:trigger Separate(w', a, b)} | 0 <= a < |w'.users| && 0 <= b < |w'.users| ensures Separate(w', a, b) {
      assert UserOk(w, a) && UserOk(w, b) && Separate(w, a, b) && Separate(w, i, a) && Separate(w, i, b);
      if a != i { OthersStayInMemory(k, w.users[a], u, u', w.mem); }
      if b != i { OthersStayInMemory(k, w.users[b], u, u', w.mem); }
    }
  }

  /** The space of a new process fits in. */
  lemma JoinedShares(k: Space, root: nat, mem: map<nat, seq<nat>>)
    requires TreeOk(k) && InMemory(k, mem) && TableOk(k, k.root) && Present(k.mem[k.root][0])
    requires root % PAGE_SIZE == 0 && root != 0 && root !in mem
    ensures var u := Shared(k, root, Frame(k.mem[k.root][0]));
            && SharesKernel(k, u) && InMemory(u, Updated(mem, u)) && OnlyKernelCommon(k, u, k)
            && forall f {:trigger f in u.mem} :: f in u.mem ==> f in KernelTables(k) || f !in mem
  {
    var pdpt := Frame(k.mem[k.root][0]);
    var u := Shared(k, root, pdpt);
    assert root !in k.mem;
    SharedIsTree(k, root, pdpt);
    EntryLeadsToKernel(k, root, pdpt);
    assert TableOk(u, u.root);
  }

  lemma JoinIsOk(w: World, root: nat)
    requires WorldOk(w) && CanTake(w, Join(root))
    ensures WorldOk(After(w, Join(root)))
  {
    var k, w', n := w.kernel, After(w, Join(root)), |w.users|;
    var u := w'.users[n];
    JoinedShares(k, root, w.mem);
    assert InMemory(k, w'.mem) by { JoinKeepsMemory(k, k, u, w.mem); }
    forall j {:trigger UserOk(w', j)} | 0 <= j < |w'.users| ensures UserOk(w', j) {
      if j < n {
        assert UserOk(w, j);
        JoinKeepsMemory(k, w.users[j], u, w.mem);
      }
    }
    forall a, b {:trigger Separate(w', a, b)} | 0 <= a < |w'.users| && 0 <= b < |w'.users| ensures Separate(w', a, b) {
      JoinKeepsApart(w, u, a, b, w');
    }
  }

  lemma JoinKeepsApart(w: World, u: Space, a: nat, b: nat, w': World)
    requires WorldOk(w) && w'.kernel == w.kernel && w'.users == w.users + [u] && a < |w'.users| && b < |w'.users|
    requires forall f {:trigger f in u.mem} :: f in u.mem ==> f in KernelTables(w.kernel) || f !in w.mem
    ensures Separate(w', a, b)
  {
    if a < |w.users| { assert UserOk(w, a); }
    if b < |w.users| { assert UserOk(w, b); }
    if a < |w.users| && b < |w.users| { assert Separate(w, a, b); }
  }

  lemma JoinKeepsMemory(k: Space, s: Space, u: Space, mem: map<nat, seq<nat>>)
    requires InMemory(s, mem) && InMemory(k, mem)
    requires forall f {:trigger f in u.mem} :: f in u.mem ==>
             (f in KernelTables(k) && u.mem[f] == k.mem[f]) || f !in mem
    ensures InMemory(s, Updated(mem, u))
  {
  }

  /** An entry of a shared table is written for all. */
  lemma WriteIsShared(k: Space, u: Space, mem: map<nat, seq<nat>>, f: nat, j: nat, e: nat)
    requires TreeOk(k) && InMemory(k, mem) && InMemory(u, mem) && SharesKernel(k, u) && OnlyKernelCommon(k, u, k)
    requires IsLeaf(k, f, j) && IsKernel(k.owner[f])
    ensures f in u.mem && j < |u.mem[f]| && SharesKernel(Write(k, f, j, e), Write(u, f, j, e))
    ensures InMemory(Write(u, f, j, e), Put(mem, f, j, e))
    ensures OnlyKernelCommon(Write(k, f, j, e), Write(u, f, j, e), Write(k, f, j, e))
  {
    assert f in KernelTables(k) && TableOk(u, f);
    LeafKeepsTree(u, f, j, e);
    var k', u' := Write(k, f, j, e), Write(u, f, j, e);
    assert KernelTables(k').Keys == KernelTables(k).Keys;
    assert TableOk(k', k'.root) && TableOk(u', u'.root);
    assert k.root != f && u.root != f;
  }

  lemma KernelMappedIsOk(w: World, f: nat, j: nat, e: nat)
    requires WorldOk(w) && CanTake(w, KernelMapped(f, j, e))
    ensures WorldOk(After(w, KernelMapped(f, j, e)))
  {
    var k, w' := w.kernel, After(w, KernelMapped(f, j, e));
    assert TreeOk(w'.kernel) by { LeafKeepsTree(k, f, j, e); }
    forall i {:trigger UserOk(w', i)} | 0 <= i < |w'.users| ensures UserOk(w', i) {
      assert UserOk(w, i);
      WriteIsShared(k, w.users[i], w.mem, f, j, e);
    }
    forall a, b {:trigger Separate(w', a, b)} | 0 <= a < |w'.users| && 0 <= b < |w'.users| ensures Separate(w', a, b) {
      assert Separate(w, a, b);
      if a != b { WriteKeepsApart(k, w.users[a], w.users[b], f, j, e); }
    }
  }

  lemma WriteKeepsApart(k: Space, s: Space, u: Space, f: nat, j: nat, e: nat)
    requires f in k.mem && j < |k.mem[f]| && OnlyKernelCommon(k, s, u)
    ensures OnlyKernelCommon(Write(k, f, j, e), WriteIfThere(s, f, j, e), WriteIfThere(u, f, j, e))
  {
    assert KernelTables(Write(k, f, j, e)).Keys == KernelTables(k).Keys;
  }

  lemma StepIsOk(w: World, st: WorldStep)
    requires WorldOk(w) && CanTake(w, st)
    ensures WorldOk(After(w, st))
  {
    match st
    case Join(root) => JoinIsOk(w, root);
    case UserMapped(i, u) => UserMappedIsOk(w, i, u);
    case KernelMapped(f, j, e) => KernelMappedIsOk(w, f, j, e);
  }

  ghost predicate IsWorldRun(w: World, sts: seq<WorldStep>, w': World)
    decreases |sts|
  {
    if sts == [] then w == w'
    else WorldOk(w) && CanTake(w, sts[0]) && IsWorldRun(After(w, sts[0]), sts[1..], w')
  }

  /** In every run of processes that join, map user pages, and kernel mappings, every process
      translates every kernel address as the kernel does. */
  lemma {:induction false} AlikeInRuns(w: World, sts: seq<WorldStep>, w': World, i: nat, q: seq<nat>)
    requires WorldOk(w) && IsWorldRun(w, sts, w') && i < |w'.users| && IsPath(q) && IsKernel(q)
    ensures Walk(w'.users[i], q) == Walk(w'.kernel, q)
    decreases |sts|
  {
    if sts == [] {
      KernelAddressesAlike(w, i, q);
    } else {
      StepIsOk(w, sts[0]);
      AlikeInRuns(After(w, sts[0]), sts[1..], w', i, q);
    }
  }

  // ----- Rights -----

  /** User code reaches its own pages for writing, and none of the kernel's. */
  ghost predicate RightsOk(u: Space)
  {
    Open(u) && u.root in u.mem && |u.mem[u.root]| == ENTRIES && !Allows(u.mem[u.root][0])
  }

  ghost predicate UserRights(w: World, i: nat)
    requires i < |w.users|
  {
    RightsOk(w.users[i])
  }

  ghost predicate AllRights(w: World)
  {
    forall i {:trigger UserRights(w, i)} :: 0 <= i < |w.users| ==> UserRights(w, i)
  }

  /** User pages are mapped with the rights of user code. */
  ghost predicate ForUsers(w: World, st: WorldStep)
    requires WorldOk(w) && CanTake(w, st)
  {
    st.UserMapped? ==> Grants(w.users[st.i], st.u)
  }

  lemma WriteKeepsRights(k: Space, u: Space, f: nat, j: nat, e: nat)
    requires TreeOk(u) && SharesKernel(k, u) && f in KernelTables(k) && j < ENTRIES && RightsOk(u)
    ensures RightsOk(WriteIfThere(u, f, j, e))
  {
    assert TableOk(u, f);
    var t := Write(u, f, j, e);
    forall g: nat, i: nat {:trigger EntryOpen(t, g, i)} ensures EntryOpen(t, g, i) {
      assert EntryOpen(u, g, i);
      if g == f { assert (u.owner[f] + [i])[0] < KERNEL_ENTRIES; }
    }
  }

  lemma StepKeepsRights(w: World, st: WorldStep)
    requires WorldOk(w) && CanTake(w, st) && ForUsers(w, st) && AllRights(w)
    ensures AllRights(After(w, st))
  {
    var w', k := After(w, st), w.kernel;
    forall i {:trigger UserRights(w', i)} | 0 <= i < |w'.users| ensures UserRights(w', i) {
      if i < |w.users| { assert UserRights(w, i) && UserOk(w, i); }
      match st
      case Join(root) =>
        if i == |w.users| { JoinedRights(k, root); }
      case UserMapped(j, u) =>
        if i == j { GrantsOpen(w.users[j], u); }
      case KernelMapped(f, j, e) =>
        WriteKeepsRights(k, w.users[i], f, j, e);
    }
  }

  lemma JoinedRights(k: Space, root: nat)
    requires TreeOk(k) && TableOk(k, k.root) && Present(k.mem[k.root][0])
    requires root % PAGE_SIZE == 0 && root != 0 && root !in k.mem
    ensures RightsOk(Shared(k, root, Frame(k.mem[k.root][0])))
  {
    var pdpt := Frame(k.mem[k.root][0]);
    SharedIsOpen(k, root, pdpt);
    KernelEntryRights(pdpt);
  }

  ghost predicate RunForUsers(w: World, sts: seq<WorldStep>, w': World)
    requires IsWorldRun(w, sts, w')
    decreases |sts|
  {
    sts == [] || (ForUsers(w, sts[0]) && RunForUsers(After(w, sts[0]), sts[1..], w'))
  }

  /** In every run user code reaches for writing exactly the pages outside the kernel that are
      translated. */
  lemma {:induction false} RightsInRuns(w: World, sts: seq<WorldStep>, w': World, i: nat, q: seq<nat>)
    requires WorldOk(w) && IsWorldRun(w, sts, w') && RunForUsers(w, sts, w') && AllRights(w)
    requires i < |w'.users| && IsPath(q)
    ensures UserWalk(w'.users[i], q) == if IsKernel(q) then None else Walk(w'.users[i], q)
    decreases |sts|
  {
    if sts == [] {
      assert UserOk(w, i) && UserRights(w, i);
      if IsKernel(q) { ClosedTop(w.users[i], q); } else { OpenWalks(w.users[i], q); }
    } else {
      StepIsOk(w, sts[0]);
      StepKeepsRights(w, sts[0]);
      RightsInRuns(After(w, sts[0]), sts[1..], w', i, q);
    }
  }

  /** Mapping a user page in one space of many. */
  method UserMapIn(a: AddressSpace, virt: nat, physical: nat, seen: seq<bool>, ghost w: World, ghost i: nat)
    returns (ok: bool, ghost w': World)
    requires WorldOk(w) && i < |w.users| && a.Valid() && a.S() == w.users[i] && |seen| == 4
    requires !IsKernel(PathOf(virt)) && |a.free| >= |Missing(a.S(), Above(PathOf(virt)))|
    requires forall f :: f in a.free ==> f !in w.mem
    modifies a
    ensures a.Valid() && (ok <==> AllSeen(seen))
    ensures CanTake(w, UserMapped(i, a.S())) && w' == After(w, UserMapped(i, a.S())) && WorldOk(w')
    ensures ForUsers(w, UserMapped(i, a.S()))
  {
    a.ValidIsSized();
    AreAllTables(PathOf(virt));
    ghost var made;
    ok, made := a.UserMap(virt, physical, seen, Above(PathOf(virt)));
    w' := After(w, UserMapped(i, a.S()));
    UserMappedIsOk(w, i, a.S());
  }

  /** Mapping a page in the kernel. */
  method MapInKernel(a: AddressSpace, virt: nat, physical: nat, flags: nat, ghost w: World)
    returns (ok: bool, ghost w': World)
    requires WorldOk(w) && a.Valid() && a.S() == w.kernel && IsKernel(PathOf(virt)) && flags < 256
    requires virt % PAGE_SIZE == 0 ==> Tabled(a.S(), PathOf(virt))
    modifies a`mem
    ensures a.Valid() && WorldOk(w') && w'.kernel == a.S() && |w'.users| == |w.users|
    ensures ok ==> forall i :: 0 <= i < |w'.users| ==> KernelPage(w'.users[i], PathOf(virt), Or(physical, flags))
  {
    w' := w;
    ghost var p, e := PathOf(virt), Or(physical, flags);
    ghost var absent := !Present(EntryOf(a.S(), p));
    ok := a.Map(virt, physical, flags);
    if ok && absent {
      ghost var f := Walk(w.kernel, p[..3]).value;
      Located(w.kernel, p[..3], f);
      w' := After(w, KernelMapped(f, p[3], e));
      KernelMappedIsOk(w, f, p[3], e);
    }
    if ok {
      WalkIsEntry(a.S(), p);
      forall i | 0 <= i < |w'.users| ensures KernelPage(w'.users[i], p, e) { KernelAddressesAlike(w', i, p); }
    }
  }

  /** The page is translated as the entry says. */
  ghost predicate KernelPage(u: Space, p: seq<nat>, e: nat)
  {
    Walk(u, p) == Target(e)
  }

  lemma AreAllTables(q: seq<nat>)
    requires IsPath(q)
    ensures AreTables(Above(q))
  {
  }
}
