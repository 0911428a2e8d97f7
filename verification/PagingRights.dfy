/** Access rights: what the processor lets user code reach for writing, and that every table
    and page made for user code can be reached. */
module PagingRights {
  import opened PagingModel

  /** The entry is present, and grants writing and user access: its bits 0, 1 and 2. */
  predicate Allows(e: nat)
  {
    e % 2 == 1 && e / 2 % 2 == 1 && e / 4 % 2 == 1
  }

  lemma UserPageAllows(n: nat)
    ensures Allows(Or(n, USER_PAGE))
  {
    OrHalves(n, 7);
    OrHalves(n / 2, 3);
    OrHalves(n / 4, 1);
  }

  /** Where the indexes `p` lead user code that writes, which needs the rights at every level. */
  function UserDescend(mem: map<nat, seq<nat>>, f: nat, p: seq<nat>): Option<nat>
    decreases |p|
  {
    if p == [] then Some(f)
    else if f in mem && p[0] < |mem[f]| && Allows(mem[f][p[0]]) then UserDescend(mem, Frame(mem[f][p[0]]), p[1..])
    else None
  }

  function UserWalk(s: Space, p: seq<nat>): Option<nat>
  {
    UserDescend(s.mem, s.root, p)
  }

  /** An entry outside the kernel grants the rights if it is present. */
  ghost predicate EntryOpen(s: Space, f: nat, i: nat)
  {
    f in s.owner && f in s.mem && i < |s.mem[f]| && !IsKernel(s.owner[f] + [i]) && Present(s.mem[f][i]) ==>
      Allows(s.mem[f][i])
  }

  ghost predicate Open(s: Space)
  {
    forall f, i {:trigger EntryOpen(s, f, i)} :: EntryOpen(s, f, i)
  }

  lemma {:induction false} OpenBelow(s: Space, f: nat, p: seq<nat>)
    requires TreeOk(s) && Open(s) && f in s.owner && |s.owner[f]| + |p| <= 4 && IsIndexes(p)
    requires !IsKernel(s.owner[f] + p)
    ensures UserDescend(s.mem, f, p) == Descend(s.mem, f, p)
    decreases |p|
  {
    if p != [] {
      assert TableOk(s, f) && LinkOk(s, f, p[0]) && EntryOpen(s, f, p[0]);
      assert (s.owner[f] + [p[0]])[0] == (s.owner[f] + p)[0];
      if Present(s.mem[f][p[0]]) && |s.owner[f]| < 3 {
        assert s.owner[f] + [p[0]] + p[1..] == s.owner[f] + p;
        OpenBelow(s, Frame(s.mem[f][p[0]]), p[1..]);
      }
    }
  }

  /** User code reaches for writing exactly the user pages that are translated. */
  lemma OpenWalks(s: Space, q: seq<nat>)
    requires TreeOk(s) && Open(s) && IsPath(q) && !IsKernel(q)
    ensures UserWalk(s, q) == Walk(s, q)
  {
    assert [] + q == q;
    OpenBelow(s, s.root, q);
  }

  // ----- What changes keep -----

  /** A present entry of `t` was there in `s`, or grants the rights. */
  ghost predicate EntryGrants(s: Space, t: Space, f: nat, i: nat)
  {
    f in t.mem && i < |t.mem[f]| && Present(t.mem[f][i]) ==>
      Allows(t.mem[f][i]) || (f in s.mem && i < |s.mem[f]| && s.mem[f][i] == t.mem[f][i])
  }

  ghost predicate SameOwner(s: Space, t: Space, f: nat)
  {
    f in s.owner ==> f in t.owner && t.owner[f] == s.owner[f]
  }

  /** Every entry made on the way from `s` to `t` grants the rights. */
  ghost predicate Grants(s: Space, t: Space)
  {
    && (forall f {:trigger SameOwner(s, t, f)} :: SameOwner(s, t, f))
    && (forall f, i {:trigger EntryGrants(s, t, f, i)} :: EntryGrants(s, t, f, i))
  }

  lemma GrantsOpen(s: Space, t: Space)
    requires TreeOk(s) && Open(s) && Grants(s, t)
    ensures Open(t)
  {
    forall f, i {:trigger EntryOpen(t, f, i)} ensures EntryOpen(t, f, i) {
      assert EntryGrants(s, t, f, i) && EntryOpen(s, f, i) && SameOwner(s, t, f);
    }
  }

  lemma GrantsTrans(s: Space, t: Space, u: Space)
    requires Grants(s, t) && Grants(t, u)
    ensures Grants(s, u)
  {
    forall f {:trigger SameOwner(s, u, f)} ensures SameOwner(s, u, f) {
      assert SameOwner(s, t, f) && SameOwner(t, u, f);
    }
    forall f, i {:trigger EntryGrants(s, u, f, i)} ensures EntryGrants(s, u, f, i) {
      assert EntryGrants(s, t, f, i) && EntryGrants(t, u, f, i);
    }
  }

  /** One entry is written, and grants the rights. */
  lemma WriteGrants(s: Space, f: nat, i: nat, n: nat)
    requires f in s.mem && i < |s.mem[f]|
    ensures Grants(s, Write(s, f, i, Or(n, USER_PAGE)))
  {
    UserPageAllows(n);
    var t := Write(s, f, i, Or(n, USER_PAGE));
    forall g, j {:trigger EntryGrants(s, t, g, j)} ensures EntryGrants(s, t, g, j) { }
    forall g {:trigger SameOwner(s, t, g)} ensures SameOwner(s, t, g) { }
  }

  /** A cleared page has no entry. */
  lemma ClearedGrants(s: Space, n: nat, p: seq<nat>, h: nat)
    requires n !in s.owner
    ensures Grants(s, s.(mem := s.mem[n := Zeros()], owner := s.owner[n := p], parent := s.parent[n := h]))
    ensures Grants(s, s.(mem := s.mem[n := Zeros()]))
  {
    var t := s.(mem := s.mem[n := Zeros()], owner := s.owner[n := p], parent := s.parent[n := h]);
    var u := s.(mem := s.mem[n := Zeros()]);
    forall g, j {:trigger EntryGrants(s, t, g, j)} ensures EntryGrants(s, t, g, j) { }
    forall g, j {:trigger EntryGrants(s, u, g, j)} ensures EntryGrants(s, u, g, j) { }
    forall g {:trigger SameOwner(s, t, g)} ensures SameOwner(s, t, g) { }
    forall g {:trigger SameOwner(s, u, g)} ensures SameOwner(s, u, g) { }
  }

  /** A new table on the way. */
  lemma GrowGrants(s: Space, f: nat, i: nat, n: nat)
    requires f in s.mem && i < |s.mem[f]| && f in s.owner && n !in s.owner
    ensures Grants(s, Grow(s, f, i, n))
  {
    var w := Write(s, f, i, Or(n, USER_PAGE));
    WriteGrants(s, f, i, n);
    ClearedGrants(w, n, s.owner[f] + [i], f);
    GrantsTrans(s, w, Grow(s, f, i, n));
  }

  /** Page zero in place of one. */
  lemma EmptiedGrants(s: Space, f: nat, i: nat)
    requires f in s.mem && i < |s.mem[f]| && 0 !in s.owner
    ensures Grants(s, s.(mem := Emptied(s.mem, f, i)))
  {
    var w := Write(s, f, i, Or(0, USER_PAGE));
    WriteGrants(s, f, i, 0);
    ClearedGrants(w, 0, [], f);
    GrantsTrans(s, w, s.(mem := Emptied(s.mem, f, i)));
  }

  lemma GrantsSelf(s: Space)
    ensures Grants(s, s)
  {
  }
}
