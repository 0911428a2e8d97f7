/** Four-level page tables over values: the tables of one address space, the walk that
    translates an address, and what writing one entry does to every walk. */
module PagingModel {
  import opened Basics

  const PAGE_SIZE: nat := 4096
  const ENTRIES: nat := 512
  /** The first entries of the top table, which lead to the kernel. */
  const KERNEL_ENTRIES: nat := 1
  const PRESENT: nat := 1
  const USER: nat := 4
  /** PRESENT, WRITE and USER. */
  const USER_PAGE: nat := 7

  datatype Option<T> = None | Some(value: T)

  // ----- Entries -----

  /** The bitwise or of two numbers. */
  function Or(a: nat, b: nat): nat
    decreases a + b
  {
    if a == 0 then b else if b == 0 then a
    else 2 * Or(a / 2, b / 2) + (if a % 2 == 1 || b % 2 == 1 then 1 else 0)
  }

  predicate Present(e: nat)
  {
    e % 2 == 1
  }

  /** The page an entry points to: the entry without its low twelve bits. */
  function Frame(e: nat): nat
  {
    e / PAGE_SIZE * PAGE_SIZE
  }

  lemma OrHalves(a: nat, b: nat)
    ensures Or(a, b) / 2 == Or(a / 2, b / 2) && (Or(a, b) % 2 == 1 <==> a % 2 == 1 || b % 2 == 1)
  {
  }

  lemma {:induction false} OrKeepsHigh(a: nat, b: nat, k: nat)
    requires b < Pow2(k)
    ensures Pow2(k) > 0 && Or(a, b) / Pow2(k) == a / Pow2(k)
    decreases k
  {
    Pow2Positive(k);
    if k > 0 {
      Pow2Positive(k - 1);
      OrHalves(a, b);
      OrKeepsHigh(a / 2, b / 2, k - 1);
      HalfFirst(Or(a, b), Pow2(k - 1));
      HalfFirst(a, Pow2(k - 1));
    }
  }

  lemma HalfFirst(x: nat, m: nat)
    requires m > 0
    ensures x / (2 * m) == x / 2 / m
  {
    var q := x / 2 / m;
    var r := x / 2 - q * m;
    assert x == (2 * m) * q + (2 * r + x % 2);
    assert 0 <= 2 * r + x % 2 < 2 * m;
    QuotientIs(x, 2 * m, q, 2 * r + x % 2);
  }

  lemma QuotientIs(x: nat, d: nat, q: nat, r: nat)
    requires d > 0 && r < d && x == d * q + r
    ensures x / d == q
  {
    OneQuotient(d, q, r, x / d, x % d);
  }

  lemma OneQuotient(d: nat, q: nat, r: nat, y: nat, t: nat)
    requires r < d && t < d && d * q + r == d * y + t
    ensures q == y
  {
    assert q > y ==> d * q >= d * (y + 1);
    assert q < y ==> d * y >= d * (q + 1);
  }

  /** Flags change neither the page of an entry nor, if PRESENT is among them, leave it absent. */
  lemma FlagsKeepPage(physical: nat, flags: nat)
    requires flags < PAGE_SIZE
    ensures Frame(Or(physical, flags)) == Frame(physical)
    ensures Present(Or(physical, flags)) <==> Present(physical) || Present(flags)
  {
    assert Pow2(12) == PAGE_SIZE by {
      assert Pow2(4) == 16 && Pow2(8) == 16 * Pow2(4) && Pow2(12) == 16 * Pow2(8);
    }
    OrKeepsHigh(physical, flags, 12);
    OrHalves(physical, flags);
  }

  // ----- Addresses -----

  /** The indexes into the four tables. */
  function PathOf(virt: nat): (p: seq<nat>)
    ensures IsPath(p)
  {
    [virt / 0x80_0000_0000 % ENTRIES, virt / 0x4000_0000 % ENTRIES, virt / 0x20_0000 % ENTRIES, virt / 0x1000 % ENTRIES]
  }

  predicate IsIndexes(p: seq<nat>)
  {
    forall i :: 0 <= i < |p| ==> p[i] < ENTRIES
  }

  predicate IsPath(p: seq<nat>)
  {
    |p| == 4 && IsIndexes(p)
  }

  /** The indexes lead into the part of the address space that is the kernel's. */
  ghost predicate IsKernel(p: seq<nat>)
  {
    p != [] && p[0] < KERNEL_ENTRIES
  }

  /** The four indexes are the digits of the page number modulo two to the thirty-sixth, the top
      table's first, so two addresses share them exactly if they share that number. */
  lemma PathsIdentifyPages(v: nat, w: nat)
    ensures var p := PathOf(v); v / 4096 % 0x10_0000_0000 == ((p[0] * 512 + p[1]) * 512 + p[2]) * 512 + p[3]
    ensures PathOf(v) == PathOf(w) <==> v / PAGE_SIZE % 0x10_0000_0000 == w / PAGE_SIZE % 0x10_0000_0000
  {
    PageDigits(v);
    PageDigits(w);
    NumberIsDigits(PathOf(v), PathOf(w));
  }

  function Number(p: seq<nat>): nat
    requires |p| == 4
  {
    p[3] + ENTRIES * (p[2] + ENTRIES * (p[1] + ENTRIES * p[0]))
  }

  lemma NumberIsDigits(p: seq<nat>, q: seq<nat>)
    requires IsPath(p) && IsPath(q)
    ensures Number(p) == Number(q) <==> p == q
  {
    if Number(p) == Number(q) {
      SameDigit(p[3], q[3], p[2] + ENTRIES * (p[1] + ENTRIES * p[0]), q[2] + ENTRIES * (q[1] + ENTRIES * q[0]));
      SameDigit(p[2], q[2], p[1] + ENTRIES * p[0], q[1] + ENTRIES * q[0]);
      SameDigit(p[1], q[1], p[0], q[0]);
    }
  }

  lemma SameDigit(d: nat, e: nat, x: nat, y: nat)
    requires d < ENTRIES && e < ENTRIES && d + ENTRIES * x == e + ENTRIES * y
    ensures d == e && x == y
  {
  }

  lemma DigitStep(n: nat, m: nat)
    requires m > 0
    ensures n % (ENTRIES * m) == n % ENTRIES + ENTRIES * (n / ENTRIES % m)
  {
    var a := n / ENTRIES;
    var q, t := a / m, a % m;
    var r := n % ENTRIES + ENTRIES * t;
    assert n == (ENTRIES * m) * q + r;
    QuotientIs(n, ENTRIES * m, q, r);
  }

  lemma PageDigits(v: nat)
    ensures v / PAGE_SIZE % 0x10_0000_0000 == Number(PathOf(v))
  {
    var n := v / PAGE_SIZE;
    Shift(v);
    DigitStep(n, 0x800_0000);
    DigitStep(n / ENTRIES, 0x4_0000);
    DigitStep(n / ENTRIES / ENTRIES, ENTRIES);
  }

  lemma Shift(v: nat)
    ensures v / 0x20_0000 == v / PAGE_SIZE / ENTRIES && v / 0x4000_0000 == v / PAGE_SIZE / ENTRIES / ENTRIES
    ensures v / 0x80_0000_0000 == v / PAGE_SIZE / ENTRIES / ENTRIES / ENTRIES
  {
  }

  // ----- Tables -----

  /** The tables of an address space by address. For the proofs, `owner` records the
      indexes that lead to each table, and `parent` the table above it. */
  datatype Space = Space(mem: map<nat, seq<nat>>, owner: map<nat, seq<nat>>, parent: map<nat, nat>, root: nat)

  ghost predicate TableOk(s: Space, f: nat)
  {
    && f in s.owner && f in s.mem && |s.mem[f]| == ENTRIES && f % PAGE_SIZE == 0 && f != 0
    && |s.owner[f]| <= 3 && (s.owner[f] == [] ==> f == s.root)
  }

  /** A present entry above the last level leads to a table of its own. */
  ghost predicate LinkOk(s: Space, f: nat, i: nat)
  {
    TableOk(s, f) && i < ENTRIES && |s.owner[f]| < 3 && Present(s.mem[f][i]) ==>
      Frame(s.mem[f][i]) in s.owner && s.owner[Frame(s.mem[f][i])] == s.owner[f] + [i]
  }

  ghost predicate Apart(s: Space, f: nat, g: nat)
  {
    f in s.owner && g in s.owner && s.owner[f] == s.owner[g] ==> f == g
  }

  /** A table below the top one hangs on an entry of its parent. */
  ghost predicate HangsOn(s: Space, g: nat, p: nat, i: nat)
  {
    && TableOk(s, p) && |s.owner[p]| < 3 && i < ENTRIES && Present(s.mem[p][i]) && Frame(s.mem[p][i]) == g
    && g in s.owner && s.owner[g] == s.owner[p] + [i]
  }

  ghost predicate Hangs(s: Space, g: nat)
  {
    g in s.owner && g != s.root ==>
      g in s.parent && s.owner[g] != [] && HangsOn(s, g, s.parent[g], s.owner[g][|s.owner[g]| - 1])
  }

  /** The tables form a tree. */
  ghost predicate TreeOk(s: Space)
  {
    && s.root in s.owner && s.owner[s.root] == [] && s.mem.Keys == s.owner.Keys
    && (forall f {:trigger TableOk(s, f)} :: f in s.owner ==> TableOk(s, f))
    && (forall f, i {:trigger LinkOk(s, f, i)} :: LinkOk(s, f, i))
    && (forall f, g {:trigger Apart(s, f, g)} :: Apart(s, f, g))
    && (forall f {:trigger Hangs(s, f)} :: Hangs(s, f))
  }

  /** No table is shared: two entries that lead to one table are the same entry. */
  lemma OneEntryPerTable(s: Space, f: nat, i: nat, g: nat, j: nat)
    requires TreeOk(s) && f in s.owner && g in s.owner && i < ENTRIES && j < ENTRIES
    requires TableOk(s, f) && TableOk(s, g) && |s.owner[f]| < 3 && |s.owner[g]| < 3
    requires Present(s.mem[f][i]) && Present(s.mem[g][j]) && Frame(s.mem[f][i]) == Frame(s.mem[g][j])
    ensures f == g && i == j
  {
    assert LinkOk(s, f, i) && LinkOk(s, g, j) && Apart(s, f, g);
    var p, q := s.owner[f], s.owner[g];
    assert (p + [i])[..|p|] == p && (q + [j])[..|q|] == q && (p + [i])[|p|] == i && (q + [j])[|q|] == j;
  }

  /** Where the indexes `p` lead from the table `f`. */
  function Descend(mem: map<nat, seq<nat>>, f: nat, p: seq<nat>): Option<nat>
    decreases |p|
  {
    if p == [] then Some(f)
    else if f in mem && p[0] < |mem[f]| && Present(mem[f][p[0]]) then Descend(mem, Frame(mem[f][p[0]]), p[1..])
    else None
  }

  /** The page that an address is translated to. */
  function Walk(s: Space, p: seq<nat>): Option<nat>
  {
    Descend(s.mem, s.root, p)
  }

  lemma {:induction false} DescendSplits(mem: map<nat, seq<nat>>, f: nat, p: seq<nat>, q: seq<nat>)
    ensures Descend(mem, f, p + q) == match Descend(mem, f, p) case None => None case Some(t) => Descend(mem, t, q)
    decreases |p|
  {
    if p == [] {
      assert p + q == q;
    } else {
      assert (p + q)[1..] == p[1..] + q;
      if f in mem && p[0] < |mem[f]| && Present(mem[f][p[0]]) {
        DescendSplits(mem, Frame(mem[f][p[0]]), p[1..], q);
      }
    }
  }

  /** A table that is reached is the one its indexes belong to. */
  lemma {:induction false} ReachedIsOwned(s: Space, f: nat, p: seq<nat>)
    requires TreeOk(s) && f in s.owner && |s.owner[f]| + |p| <= 3 && Descend(s.mem, f, p).Some?
    ensures var t := Descend(s.mem, f, p).value; t in s.owner && s.owner[t] == s.owner[f] + p
    decreases |p|
  {
    if p != [] {
      assert TableOk(s, f) && LinkOk(s, f, p[0]);
      ReachedIsOwned(s, Frame(s.mem[f][p[0]]), p[1..]);
      assert s.owner[f] + [p[0]] + p[1..] == s.owner[f] + p;
    } else {
      assert s.owner[f] + p == s.owner[f];
    }
  }

  /** The tables of `s` are those of `t` but for the entry `i` of `g`. */
  ghost predicate SameBut(s: Space, t: Space, g: nat, i: nat)
  {
    && s.root == t.root
    && forall f {:trigger TableOk(s, f)} :: TableOk(s, f) ==>
         && f in t.mem && |t.mem[f]| == ENTRIES
         && forall j :: 0 <= j < ENTRIES && !(f == g && j == i) ==> t.mem[f][j] == s.mem[f][j]
  }

  /** Only walks through the entry are affected. */
  lemma {:induction false} OtherWalksSame(s: Space, t: Space, g: nat, i: nat, f: nat, p: seq<nat>)
    requires TreeOk(s) && SameBut(s, t, g, i) && f in s.owner && g in s.owner && |s.owner[f]| + |p| <= 4 && IsIndexes(p)
    requires !(s.owner[g] + [i] <= s.owner[f] + p)
    ensures Descend(t.mem, f, p) == Descend(s.mem, f, p)
    decreases |p|
  {
    if p != [] {
      assert TableOk(s, f) && LinkOk(s, f, p[0]);
      assert s.owner[f] + [p[0]] <= s.owner[f] + p;
      var c := Frame(s.mem[f][p[0]]);
      if Present(s.mem[f][p[0]]) && |s.owner[f]| < 3 {
        assert s.owner[c] + p[1..] == s.owner[f] + p;
        OtherWalksSame(s, t, g, i, c, p[1..]);
      }
    }
  }

  // ----- Writing entries -----

  function Write(s: Space, f: nat, i: nat, e: nat): Space
    requires f in s.mem && i < |s.mem[f]|
  {
    var table: seq<nat> := s.mem[f][i := e];
    s.(mem := s.mem[f := table])
  }

  function Zeros(): (z: seq<nat>)
    ensures |z| == ENTRIES && forall i :: 0 <= i < ENTRIES ==> z[i] == 0
  {
    seq(ENTRIES, _ => 0)
  }

  /** The entry leads to the new, empty table `n`. */
  function Grow(s: Space, f: nat, i: nat, n: nat): Space
    requires f in s.mem && i < |s.mem[f]| && f in s.owner
  {
    var w := Write(s, f, i, Or(n, USER_PAGE));
    w.(mem := w.mem[n := Zeros()], owner := s.owner[n := s.owner[f] + [i]], parent := s.parent[n := f])
  }

  /** A frame that is no table yet. */
  predicate Fresh(s: Space, n: nat)
  {
    n % PAGE_SIZE == 0 && n != 0 && n !in s.mem
  }

  /** The entry may be given a table. */
  ghost predicate CanGrow(s: Space, f: nat, i: nat, n: nat)
  {
    TreeOk(s) && TableOk(s, f) && |s.owner[f]| < 3 && i < ENTRIES && !Present(s.mem[f][i]) && Fresh(s, n)
  }

  lemma NewTableEntry(n: nat)
    requires n % PAGE_SIZE == 0
    ensures Frame(Or(n, USER_PAGE)) == n && Present(Or(n, USER_PAGE))
  {
    FlagsKeepPage(n, USER_PAGE);
  }

  /** No table has the indexes of an absent entry. */
  lemma AbsentIsUnowned(s: Space, f: nat, i: nat, n: nat, g: nat)
    requires CanGrow(s, f, i, n) && g in s.owner
    ensures s.owner[g] != s.owner[f] + [i]
  {
    assert Hangs(s, g);
    if g != s.root {
      var p, j := s.parent[g], s.owner[g][|s.owner[g]| - 1];
      assert Apart(s, p, f);
      if s.owner[p] + [j] == s.owner[f] + [i] {
        SameLast(s.owner[p], j, s.owner[f], i);
        assert false;
      }
    }
  }

  lemma SameLast(p: seq<nat>, i: nat, q: seq<nat>, j: nat)
    requires p + [i] == q + [j]
    ensures p == q && i == j
  {
    assert p == (p + [i])[..|p|] && q == (q + [j])[..|q|];
    assert i == (p + [i])[|p|] && j == (q + [j])[|q|];
  }

  lemma GrowKeepsTables(s: Space, f: nat, i: nat, n: nat)
    requires CanGrow(s, f, i, n)
    ensures var t := Grow(s, f, i, n);
            && (forall g {:trigger TableOk(t, g)} :: g in t.owner ==> TableOk(t, g))
            && (forall g {:trigger Hangs(t, g)} :: Hangs(t, g))
  {
    var t := Grow(s, f, i, n);
    NewTableEntry(n);
    forall g {:trigger TableOk(t, g)} | g in t.owner ensures TableOk(t, g) {
      assert g != n ==> TableOk(s, g);
    }
    forall g {:trigger Hangs(t, g)} ensures Hangs(t, g) {
      if g != n { HangsStill(s, f, i, n, g); }
    }
  }

  lemma HangsStill(s: Space, f: nat, i: nat, n: nat, g: nat)
    requires CanGrow(s, f, i, n) && g != n
    ensures Hangs(Grow(s, f, i, n), g)
  {
    assert Hangs(s, g);
  }

  lemma GrowKeepsTree(s: Space, f: nat, i: nat, n: nat)
    requires CanGrow(s, f, i, n)
    ensures TreeOk(Grow(s, f, i, n))
  {
    var t := Grow(s, f, i, n);
    GrowKeepsTables(s, f, i, n);
    NewTableEntry(n);
    forall g, j {:trigger LinkOk(t, g, j)} ensures LinkOk(t, g, j) {
      assert LinkOk(s, g, j) && (g in s.owner ==> TableOk(s, g));
    }
    forall g, h {:trigger Apart(t, g, h)} ensures Apart(t, g, h) {
      assert Apart(s, g, h);
      if g in s.owner { AbsentIsUnowned(s, f, i, n, g); }
      if h in s.owner { AbsentIsUnowned(s, f, i, n, h); }
    }
  }

  lemma GrowIsLocal(s: Space, f: nat, i: nat, n: nat)
    requires CanGrow(s, f, i, n)
    ensures SameBut(s, Grow(s, f, i, n), f, i)
  {
  }

  /** A walk to the table of an absent entry, and the way on from there. */
  lemma WalkThrough(s: Space, f: nat, q: seq<nat>)
    requires TreeOk(s) && f in s.owner && s.owner[f] <= q && |s.owner[f]| <= 3
    ensures Walk(s, q) == if Walk(s, s.owner[f]) == Some(f) then Descend(s.mem, f, q[|s.owner[f]|..]) else None
  {
    var p := s.owner[f];
    assert p + q[|p|..] == q;
    DescendSplits(s.mem, s.root, p, q[|p|..]);
    if Walk(s, p).Some? {
      ReachedIsOwned(s, s.root, p);
      assert Apart(s, Walk(s, p).value, f) && [] + p == p;
    }
  }

  /** An empty table changes no translation. */
  lemma GrowKeepsWalk(s: Space, f: nat, i: nat, n: nat, q: seq<nat>)
    requires CanGrow(s, f, i, n) && |q| <= 4 && IsIndexes(q) && q != s.owner[f] + [i]
    ensures Walk(Grow(s, f, i, n), q) == Walk(s, q)
  {
    var t, p := Grow(s, f, i, n), s.owner[f];
    GrowKeepsTree(s, f, i, n);
    GrowIsLocal(s, f, i, n);
    assert TableOk(t, f);
    if p + [i] <= q {
      assert q[..|p| + 1] == p + [i];
      NewTableEntry(n);
      WalkThrough(s, f, q);
      WalkThrough(t, f, q);
      assert q[|p|..][0] == q[|p|] == i;
      assert Descend(s.mem, f, q[|p|..]) == None;
      assert Descend(t.mem, f, q[|p|..]) == None by { EmptyTableEnds(t.mem, n, q[|p|..][1..]); }
    } else {
      assert [] + q == q;
      OtherWalksSame(s, t, f, i, s.root, q);
    }
  }

  lemma EmptyTableEnds(mem: map<nat, seq<nat>>, n: nat, p: seq<nat>)
    requires n in mem && mem[n] == Zeros() && p != []
    ensures Descend(mem, n, p) == None
  {
  }

  /** The new table is where its indexes lead. */
  lemma GrowReaches(s: Space, f: nat, i: nat, n: nat)
    requires CanGrow(s, f, i, n) && Walk(s, s.owner[f]) == Some(f) && IsIndexes(s.owner[f])
    ensures Walk(Grow(s, f, i, n), s.owner[f] + [i]) == Some(n)
  {
    var t, p := Grow(s, f, i, n), s.owner[f];
    NewTableEntry(n);
    GrowIsLocal(s, f, i, n);
    assert [] + p == p;
    OtherWalksSame(s, t, f, i, s.root, p);
    DescendSplits(t.mem, s.root, p, [i]);
  }

  // ----- Without frames -----

  /** No table is at address zero, which an exhausted allocator hands out. */
  lemma ZeroIsNoTable(t: Space, f: nat, i: nat)
    requires TableOk(t, f) && |t.owner[f]| < 3 && i < ENTRIES && t.mem[f][i] == Or(0, USER_PAGE)
    ensures !TreeOk(t)
  {
    NewTableEntry(0);
    assert LinkOk(t, f, i) ==> 0 in t.owner;
    assert !TableOk(t, 0);
  }

  function Put(mem: map<nat, seq<nat>>, f: nat, i: nat, e: nat): map<nat, seq<nat>>
    requires f in mem && i < |mem[f]|
  {
    var table: seq<nat> := mem[f][i := e];
    mem[f := table]
  }

  /** The entry leads to page zero, and then that page is cleared. */
  function Emptied(mem: map<nat, seq<nat>>, f: nat, i: nat): map<nat, seq<nat>>
    requires f in mem && i < |mem[f]|
  {
    Put(mem, f, i, Or(0, USER_PAGE))[0 := Zeros()]
  }

  /** The table `h` is `k` indexes on the way to `q`, and the next one is absent. */
  ghost predicate EndsAt(t: Space, q: seq<nat>, k: nat, h: nat)
  {
    TreeOk(t) && IsPath(q) && k < 3 && Walk(t, q[..k]) == Some(h) && TableOk(t, h) && !Present(t.mem[h][q[k]])
  }

  /** Where `q` leads if the tables from there on are taken at page zero: clearing it for one
      table loses the entry for the one before. */
  lemma LostWalk(t: Space, q: seq<nat>, k: nat, h: nat, e: nat)
    requires EndsAt(t, q, k, h)
    ensures var u := Put(Emptied(t.mem, h, q[k]), 0, q[3], e);
            && (k == 2 ==> Descend(u, t.root, q) == if Present(e) then Some(Frame(e)) else None)
            && (k < 2 && q[k + 1] != q[3] ==> Descend(u, t.root, q) == None)
  {
    var u := Put(Emptied(t.mem, h, q[k]), 0, q[3], e);
    assert Descend(u, t.root, q[..k]) == Some(h) by { LostFront(t, q, k, h, e); }
    assert q[..k] + q[k..] == q;
    DescendSplits(u, t.root, q[..k], q[k..]);
    NewTableEntry(0);
    var r := q[k..];
    assert r[0] == q[k] && r[1..] == q[k + 1..] && h != 0;
    assert Descend(u, h, r) == Descend(u, 0, r[1..]);
    if k == 2 {
      assert r[1..] == [q[3]];
      LastStep(u, 0, q[3]);
    } else {
      assert r[1..][0] == q[k + 1];
    }
  }

  lemma LastStep(mem: map<nat, seq<nat>>, f: nat, i: nat)
    requires f in mem && i < |mem[f]|
    ensures Descend(mem, f, [i]) == if Present(mem[f][i]) then Some(Frame(mem[f][i])) else None
  {
  }

  lemma LostFront(t: Space, q: seq<nat>, k: nat, h: nat, e: nat)
    requires EndsAt(t, q, k, h)
    ensures Descend(Put(Emptied(t.mem, h, q[k]), 0, q[3], e), t.root, q[..k]) == Some(h)
  {
    var t' := t.(mem := Put(Emptied(t.mem, h, q[k]), 0, q[3], e));
    assert SameBut(t, t', h, q[k]);
    ReachedIsOwned(t, t.root, q[..k]);
    assert [] + q[..k] == q[..k];
    OtherWalksSame(t, t', h, q[k], t.root, q[..k]);
  }

  /** The tables that are absent, of those at the indexes `w`. */
  ghost function Missing(s: Space, w: set<seq<nat>>): set<seq<nat>>
  {
    set p | p in w && Walk(s, p).None?
  }

  /** The indexes of tables above the last level. */
  ghost predicate AreTables(w: set<seq<nat>>)
  {
    forall p :: p in w ==> |p| <= 3 && IsIndexes(p)
  }

  /** A new table takes the place of one that was absent, and of no other. */
  lemma GrowFills(s: Space, f: nat, i: nat, n: nat, w: set<seq<nat>>)
    requires CanGrow(s, f, i, n) && Walk(s, s.owner[f]) == Some(f) && IsIndexes(s.owner[f])
    requires s.owner[f] + [i] in w && AreTables(w)
    ensures |Missing(Grow(s, f, i, n), w)| == |Missing(s, w)| - 1
  {
    var t, p := Grow(s, f, i, n), s.owner[f] + [i];
    GrowReaches(s, f, i, n);
    DescendSplits(s.mem, s.root, s.owner[f], [i]);
    forall q | q in w && q != p ensures Walk(t, q) == Walk(s, q) { GrowKeepsWalk(s, f, i, n, q); }
    assert p in Missing(s, w) && Missing(t, w) == Missing(s, w) - {p};
  }

  // ----- The last level -----

  ghost predicate IsLeaf(s: Space, f: nat, i: nat)
  {
    TreeOk(s) && TableOk(s, f) && |s.owner[f]| == 3 && i < ENTRIES
  }

  lemma LeafKeepsTree(s: Space, f: nat, i: nat, e: nat)
    requires IsLeaf(s, f, i)
    ensures TreeOk(Write(s, f, i, e)) && SameBut(s, Write(s, f, i, e), f, i)
  {
    var t := Write(s, f, i, e);
    forall g {:trigger TableOk(t, g)} | g in t.owner ensures TableOk(t, g) { assert TableOk(s, g); }
    forall g, j {:trigger LinkOk(t, g, j)}
      ensures LinkOk(t, g, j)
    {
      assert LinkOk(s, g, j) && (g in s.owner ==> TableOk(s, g));
    }
    forall g, h {:trigger Apart(t, g, h)} ensures Apart(t, g, h) { assert Apart(s, g, h); }
    forall g {:trigger Hangs(t, g)} ensures Hangs(t, g) { assert Hangs(s, g); }
  }

  /** Writing a last-level entry sets the translation of its page... */
  lemma LeafSetsWalk(s: Space, f: nat, i: nat, e: nat)
    requires IsLeaf(s, f, i) && Walk(s, s.owner[f]) == Some(f) && IsIndexes(s.owner[f])
    ensures Walk(Write(s, f, i, e), s.owner[f] + [i]) == if Present(e) then Some(Frame(e)) else None
    ensures Walk(Write(s, f, i, e), s.owner[f]) == Some(f)
  {
    var t, p := Write(s, f, i, e), s.owner[f];
    LeafKeepsTree(s, f, i, e);
    assert [] + p == p;
    OtherWalksSame(s, t, f, i, s.root, p);
    DescendSplits(t.mem, s.root, p, [i]);
  }

  /** ...and of no other page. */
  lemma LeafKeepsWalk(s: Space, f: nat, i: nat, e: nat, q: seq<nat>)
    requires IsLeaf(s, f, i) && IsPath(q) && q != s.owner[f] + [i]
    ensures Walk(Write(s, f, i, e), q) == Walk(s, q)
  {
    LeafKeepsTree(s, f, i, e);
    assert [] + q == q;
    OtherWalksSame(s, Write(s, f, i, e), f, i, s.root, q);
  }

  /** The tables above the last level stay where they are. */
  lemma LeafKeepsUpper(s: Space, f: nat, i: nat, e: nat, q: seq<nat>)
    requires IsLeaf(s, f, i) && |q| <= 3 && IsIndexes(q)
    ensures Walk(Write(s, f, i, e), q) == Walk(s, q)
  {
    LeafKeepsTree(s, f, i, e);
    assert [] + q == q;
    OtherWalksSame(s, Write(s, f, i, e), f, i, s.root, q);
  }

  predicate Has(mem: map<nat, seq<nat>>, f: nat, i: nat)
  {
    f in mem && i < |mem[f]| && Present(mem[f][i])
  }

  /** The walk through the upper three tables. */
  lemma DescendThree(mem: map<nat, seq<nat>>, f: nat, p: seq<nat>)
    requires |p| == 3
    ensures Descend(mem, f, p) ==
            if !Has(mem, f, p[0]) then None
            else var g := Frame(mem[f][p[0]]);
                 if !Has(mem, g, p[1]) then None
                 else var h := Frame(mem[g][p[1]]);
                      if !Has(mem, h, p[2]) then None else Some(Frame(mem[h][p[2]]))
  {
    var q := p[1..];
    var r := q[1..];
    assert q[0] == p[1] && r[0] == p[2] && r[1..] == [];
    if Has(mem, f, p[0]) {
      var g := Frame(mem[f][p[0]]);
      assert Descend(mem, f, p) == Descend(mem, g, q);
      if Has(mem, g, p[1]) {
        assert Descend(mem, g, q) == Descend(mem, Frame(mem[g][p[1]]), r);
      }
    }
  }

  /** The last-level entry for a page; absent if a table above it is. */
  function EntryOf(s: Space, p: seq<nat>): nat
    requires IsPath(p)
  {
    match Walk(s, p[..3])
    case None => 0
    case Some(f) => if f in s.mem && p[3] < |s.mem[f]| then s.mem[f][p[3]] else 0
  }

  /** Writing a last-level entry changes no other. */
  lemma LeafKeepsEntry(s: Space, f: nat, i: nat, e: nat, q: seq<nat>)
    requires IsLeaf(s, f, i) && IsPath(q) && q != s.owner[f] + [i]
    ensures EntryOf(Write(s, f, i, e), q) == EntryOf(s, q)
  {
    LeafKeepsUpper(s, f, i, e, q[..3]);
    assert q == q[..3] + [q[3]];
    if Walk(s, q[..3]) == Some(f) {
      ReachedIsOwned(s, s.root, q[..3]);
      assert [] + q[..3] == q[..3];
    }
  }

  /** Writes the last-level entry of a page, if its table is there. */
  function LeafWrite(s: Space, p: seq<nat>, e: nat): Space
    requires IsPath(p)
  {
    match Walk(s, p[..3])
    case None => s
    case Some(f) => if f in s.mem && p[3] < |s.mem[f]| then Write(s, f, p[3], e) else s
  }

  lemma WalkIsEntry(s: Space, p: seq<nat>)
    requires IsPath(p)
    ensures Walk(s, p) == if Present(EntryOf(s, p)) then Some(Frame(EntryOf(s, p))) else None
  {
    assert p == p[..3] + [p[3]];
    DescendSplits(s.mem, s.root, p[..3], [p[3]]);
  }
}
