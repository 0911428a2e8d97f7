/** The eight bitmap levels of the buddy allocator as values: block `i` of level
    `l` stands for `2^l` units starting at unit `i * 2^l`, and a set bit means
    that the whole block is free. */
module BuddyModel {
  import opened Basics

  const LEVELS: nat := 8
  const MAX_BLOCK: nat := 128
  const WORD_BITS: nat := 64

  type Tree = seq<seq<bool>>

  // ----- Positions -----

  /** The block `n` levels above that holds block `i`. */
  function Up(i: nat, n: nat): nat
  {
    if n == 0 then i else Up(i / 2, n - 1)
  }

  /** The first and the last block `n` levels below block `i`. */
  function Lo(i: nat, n: nat): nat
  {
    if n == 0 then i else 2 * Lo(i, n - 1)
  }

  function Hi(i: nat, n: nat): nat
  {
    if n == 0 then i else 2 * Hi(i, n - 1) + 1
  }

  lemma {:induction false} UpStep(i: nat, n: nat)
    ensures Up(i, n + 1) == Up(i, n) / 2
  {
    if n > 0 { UpStep(i / 2, n - 1); }
  }

  lemma {:induction false} RangeIsUp(i: nat, j: nat, n: nat)
    ensures Up(j, n) == i <==> Lo(i, n) <= j <= Hi(i, n)
  {
    if n > 0 { RangeIsUp(i, j / 2, n - 1); }
  }

  lemma {:induction false} RangeBounds(i: nat, n: nat)
    ensures Lo(i, n) == i * Pow2(n) && Hi(i, n) + 1 == (i + 1) * Pow2(n)
  {
    if n > 0 { RangeBounds(i, n - 1); }
  }

  /** Blocks of level `l` that fit in `units` units. */
  function Cap(units: nat, l: nat): nat
  {
    if l == 0 then units else Cap(units, l - 1) / 2
  }

  lemma {:induction false} FitsBelowCap(units: nat, i: nat, l: nat)
    requires (i + 1) * Pow2(l) <= units
    ensures i < Cap(units, l)
    decreases l
  {
    if l > 0 {
      assert (2 * i + 2) * Pow2(l - 1) == (i + 1) * Pow2(l);
      FitsBelowCap(units, 2 * i + 1, l - 1);
    }
  }

  /** Block `j` of level `k` shares units with block `i` of level `l`. */
  ghost predicate Overlap(l: nat, i: nat, k: nat, j: nat)
  {
    if k <= l then Up(j, l - k) == i else Up(i, k - l) == j
  }

  lemma {:induction false} BelowIsNear(units: nat, l: nat, j: nat, n: nat)
    requires n <= l && Up(j, n) < Cap(units, l)
    ensures j < Cap(units, l - n)
  {
    if n > 0 {
      UpStep(j, n - 1);
      BelowIsNear(units, l - 1, j, n - 1);
    }
  }

  lemma {:induction false} AboveIsNear(units: nat, l: nat, i: nat, n: nat)
    requires i <= Cap(units, l)
    ensures Up(i, n) <= Cap(units, l + n)
    decreases n
  {
    if n > 0 { AboveIsNear(units, l + 1, i / 2, n - 1); }
  }

  lemma OverlapIsNear(units: nat, l: nat, i: nat, k: nat, j: nat)
    requires i < Cap(units, l) && Overlap(l, i, k, j)
    ensures j <= Cap(units, k)
  {
    if k <= l { BelowIsNear(units, l, j, l - k); } else { AboveIsNear(units, l, i, k - l); }
  }

  /** A block overlaps what one of its two halves overlaps. */
  lemma OverlapHalves(l: nat, i: nat, k: nat, j: nat)
    ensures Overlap(l, i, k + 1, j) <==> Overlap(l, i, k, 2 * j) || Overlap(l, i, k, 2 * j + 1)
    ensures k < l ==> (Overlap(l, i, k + 1, j) <==> Overlap(l, i, k, 2 * j))
    ensures k < l ==> (Overlap(l, i, k + 1, j) <==> Overlap(l, i, k, 2 * j + 1))
  {
    if k >= l { UpStep(i, k - l); }
  }

  // ----- The tree invariant -----

  ghost predicate SizesOk(t: Tree, units: nat)
  {
    |t| == LEVELS && forall l :: 0 <= l < LEVELS ==> |t[l]| >= Cap(units, l) + 2
  }

  ghost predicate SameSizes(t: Tree, u: Tree)
  {
    |t| == LEVELS && |u| == LEVELS && forall l :: 0 <= l < LEVELS ==> |t[l]| == |u[l]|
  }

  /** Block `i` of level `l + 1` is free exactly when both its halves are; a block
      whose halves lie outside the lower bitmap keeps its initial set bit. */
  ghost predicate NodeOk(t: Tree, l: nat, i: nat)
    requires |t| == LEVELS && l + 1 < LEVELS && i < |t[l + 1]|
  {
    t[l + 1][i] <==> (2 * i + 1 < |t[l]| ==> t[l][2 * i] && t[l][2 * i + 1])
  }

  ghost predicate TreeOk(t: Tree)
  {
    && |t| == LEVELS
    && forall l, i {:trigger NodeOk(t, l, i)} :: 0 <= l < LEVELS - 1 && 0 <= i < |t[l + 1]| ==> NodeOk(t, l, i)
  }

  /** The units decide every bit of every level. */
  lemma {:induction false} UnitsDecideTree(t: Tree, u: Tree, l: nat)
    requires TreeOk(t) && TreeOk(u) && SameSizes(t, u) && t[0] == u[0] && l < LEVELS
    ensures t[l] == u[l]
  {
    if l > 0 {
      UnitsDecideTree(t, u, l - 1);
      forall i | 0 <= i < |t[l]| ensures t[l][i] == u[l][i] {
        assert NodeOk(t, l - 1, i) && NodeOk(u, l - 1, i);
      }
    }
  }

  /** All the units of a free block are free. */
  lemma {:induction false} FreeBlockHasFreeUnits(t: Tree, units: nat, l: nat, i: nat, u: nat)
    requires TreeOk(t) && SizesOk(t, units) && l < LEVELS
    requires i < Cap(units, l) && t[l][i] && Up(u, l) == i
    ensures u < Cap(units, 0) && t[0][u]
  {
    BelowIsNear(units, l, u, l);
    if l > 0 {
      UpStep(u, l - 1);
      assert NodeOk(t, l - 1, i);
      FreeBlockHasFreeUnits(t, units, l - 1, Up(u, l - 1), u);
    }
  }

  /** A block whose units are all free is free. */
  lemma {:induction false} FreeUnitsMakeFreeBlock(t: Tree, units: nat, l: nat, i: nat)
    requires TreeOk(t) && SizesOk(t, units) && l < LEVELS && i < Cap(units, l)
    requires forall u :: 0 <= u < |t[0]| && Up(u, l) == i ==> t[0][u]
    ensures t[l][i]
  {
    if l > 0 {
      forall u | 0 <= u < |t[0]| && Up(u, l - 1) / 2 == i ensures t[0][u] { UpStep(u, l - 1); }
      FreeUnitsMakeFreeBlock(t, units, l - 1, 2 * i);
      FreeUnitsMakeFreeBlock(t, units, l - 1, 2 * i + 1);
      assert NodeOk(t, l - 1, i);
    } else {
      assert Up(i, 0) == i;
    }
  }

  // ----- Taking a block -----

  /** Every block that overlaps the taken one is marked used. */
  ghost function Taken(t: Tree, l: nat, i: nat): (t': Tree)
    requires |t| == LEVELS
    ensures SameSizes(t, t')
    ensures forall k, j :: 0 <= k < LEVELS && 0 <= j < |t[k]| ==> (t'[k][j] <==> t[k][j] && !Overlap(l, i, k, j))
  {
    seq(LEVELS, k requires 0 <= k < LEVELS =>
      seq(|t[k]|, j requires 0 <= j < |t[k]| => t[k][j] && !Overlap(l, i, k, j)))
  }

  lemma TakingKeepsTree(t: Tree, units: nat, l: nat, i: nat)
    requires TreeOk(t) && SizesOk(t, units) && l < LEVELS && i < Cap(units, l)
    ensures TreeOk(Taken(t, l, i)) && SizesOk(Taken(t, l, i), units)
  {
    var t' := Taken(t, l, i);
    forall k, j {:trigger NodeOk(t', k, j)} | 0 <= k < LEVELS - 1 && 0 <= j < |t'[k + 1]| ensures NodeOk(t', k, j) {
      assert NodeOk(t, k, j);
      OverlapHalves(l, i, k, j);
      if Overlap(l, i, k + 1, j) { OverlapIsNear(units, l, i, k + 1, j); }
    }
  }

  // ----- Giving a block back -----

  /** Block `j` of level `k` lies inside block `i` of level `l`. */
  ghost predicate Inside(l: nat, i: nat, k: nat, j: nat)
  {
    k <= l && Up(j, l - k) == i
  }

  /** The block and everything inside it is marked free. */
  ghost function Filled(t: Tree, l: nat, i: nat): (t': Tree)
    requires |t| == LEVELS
    ensures SameSizes(t, t')
    ensures forall k, j :: 0 <= k < LEVELS && 0 <= j < |t[k]| ==> (t'[k][j] <==> t[k][j] || Inside(l, i, k, j))
  {
    seq(LEVELS, k requires 0 <= k < LEVELS =>
      seq(|t[k]|, j requires 0 <= j < |t[k]| => t[k][j] || Inside(l, i, k, j)))
  }

  /** The invariant holds but for the parent `p` of level `l + 1`, which may still
      be marked used although both its halves are free. */
  ghost predicate TreeOkBut(t: Tree, l: nat, p: nat)
  {
    && |t| == LEVELS
    && (forall k, j {:trigger NodeOk(t, k, j)} ::
          0 <= k < LEVELS - 1 && 0 <= j < |t[k + 1]| && (k != l || j != p) ==> NodeOk(t, k, j))
    && (l + 1 < LEVELS ==> 2 * p + 1 < |t[l]| && p < |t[l + 1]|)
    && (l + 1 < LEVELS && t[l + 1][p] ==> t[l][2 * p] && t[l][2 * p + 1])
  }

  /** A climb from `t0` has reached block `i` of level `l`, which is free. */
  ghost predicate Climbing(t0: Tree, t: Tree, units: nat, l: nat, i: nat)
  {
    && SameSizes(t0, t) && SizesOk(t, units) && t[0] == t0[0] && l < LEVELS && i <= Cap(units, l)
    && TreeOkBut(t, l, i / 2) && t[l][i]
  }

  /** The climb is over. */
  ghost predicate Climbed(t0: Tree, t: Tree, units: nat)
  {
    SameSizes(t0, t) && SizesOk(t, units) && t[0] == t0[0] && TreeOk(t)
  }

  ghost predicate AllSet(t: Tree, l: nat)
  {
    |t| == LEVELS && forall k, j :: 0 <= k < l && k < LEVELS && 0 <= j < |t[k]| ==> t[k][j]
  }

  /** The other half of the parent of block `i`. */
  function Buddy(i: nat): (b: nat)
    ensures b != i && b / 2 == i / 2 && b <= i + 1
  {
    if i % 2 == 0 then i + 1 else i - 1
  }

  lemma FillingAlmostKeepsTree(t: Tree, units: nat, l: nat, i: nat)
    requires TreeOk(t) && SizesOk(t, units) && l < LEVELS && i < Cap(units, l)
    ensures TreeOkBut(Filled(t, l, i), l, i / 2)
  {
    var t' := Filled(t, l, i);
    forall k, j {:trigger NodeOk(t', k, j)} |
      0 <= k < LEVELS - 1 && 0 <= j < |t'[k + 1]| && (k != l || j != i / 2)
      ensures NodeOk(t', k, j)
    {
      FilledNode(t, l, i, k, j);
    }
    if l + 1 < LEVELS { assert NodeOk(t, l, i / 2); }
  }

  lemma FilledNode(t: Tree, l: nat, i: nat, k: nat, j: nat)
    requires |t| == LEVELS && l < LEVELS && k + 1 < LEVELS && j < |t[k + 1]| && NodeOk(t, k, j)
    requires k != l || j != i / 2
    ensures NodeOk(Filled(t, l, i), k, j)
  {
    if k < l { OverlapHalves(l, i, k, j); }
  }

  lemma ClimbStep(t: Tree, units: nat, l: nat, i: nat)
    requires SizesOk(t, units) && l + 1 < LEVELS && i <= Cap(units, l)
    requires TreeOkBut(t, l, i / 2) && t[l][i] && t[l][Buddy(i)]
    ensures i / 2 <= Cap(units, l + 1)
    ensures var t' := t[l + 1 := t[l + 1][i / 2 := true]];
            TreeOkBut(t', l + 1, i / 2 / 2) && SameSizes(t, t') && t'[0] == t[0] && t'[l + 1][i / 2]
  {
    var p := i / 2;
    var t' := t[l + 1 := t[l + 1][p := true]];
    forall k, j {:trigger NodeOk(t', k, j)} |
      0 <= k < LEVELS - 1 && 0 <= j < |t'[k + 1]| && (k != l + 1 || j != p / 2)
      ensures NodeOk(t', k, j)
    {
      if k != l || j != p { assert NodeOk(t, k, j); }
    }
    if l + 2 < LEVELS { assert NodeOk(t, l + 1, p / 2); }
  }

  /** One level further up. */
  lemma ClimbOn(t0: Tree, t: Tree, units: nat, l: nat, i: nat)
    requires Climbing(t0, t, units, l, i) && l + 1 < LEVELS && Buddy(i) < |t[l]| && t[l][Buddy(i)]
    ensures i / 2 < |t[l + 1]| && Climbing(t0, t[l + 1 := t[l + 1][i / 2 := true]], units, l + 1, i / 2)
  {
    ClimbStep(t, units, l, i);
  }

  lemma ClimbStop(t: Tree, units: nat, l: nat, i: nat)
    requires SizesOk(t, units) && l < LEVELS && i <= Cap(units, l) && TreeOkBut(t, l, i / 2)
    requires l + 1 < LEVELS ==> !t[l][Buddy(i)]
    ensures TreeOk(t)
  {
    forall k, j {:trigger NodeOk(t, k, j)} | 0 <= k < LEVELS - 1 && 0 <= j < |t[k + 1]| ensures NodeOk(t, k, j) {
    }
  }

  // ----- The loops, level by level -----

  /** `t'` is `t` with the blocks inside block `i` of level `s` cleared on the
      levels from `l` up to, but not including, `s`. */
  ghost predicate ClearedDown(t: Tree, t': Tree, s: nat, i: nat, l: nat)
  {
    && SameSizes(t, t')
    && forall k, j :: 0 <= k < LEVELS && 0 <= j < |t[k]| ==>
         (t'[k][j] <==> t[k][j] && !(l <= k < s && Inside(s, i, k, j)))
  }

  /** The same with the blocks set. */
  ghost predicate SetDown(t: Tree, t': Tree, s: nat, i: nat, l: nat)
  {
    && SameSizes(t, t')
    && forall k, j :: 0 <= k < LEVELS && 0 <= j < |t[k]| ==>
         (t'[k][j] <==> t[k][j] || (l <= k < s && Inside(s, i, k, j)))
  }

  /** `t'` is `t` with the blocks above block `i` of level `s` cleared below level `l`. */
  ghost predicate ClearedUp(t: Tree, t': Tree, s: nat, i: nat, l: nat)
  {
    && SameSizes(t, t')
    && forall k, j :: 0 <= k < LEVELS && 0 <= j < |t[k]| ==>
         (t'[k][j] <==> t[k][j] && !(s < k < l && Up(i, k - s) == j))
  }

  /** The downward loops before they write level `l - 1`, which they write from `start` to `end`. */
  ghost predicate ClearingDown(t: Tree, t': Tree, s: nat, i: nat, l: nat, start: nat, end: nat)
  {
    l <= s < LEVELS && start == Lo(i, s - l + 1) && end == Hi(i, s - l + 1) && ClearedDown(t, t', s, i, l)
  }

  ghost predicate SettingDown(t: Tree, t': Tree, s: nat, i: nat, l: nat, start: nat, end: nat)
  {
    l <= s < LEVELS && start == Lo(i, s - l + 1) && end == Hi(i, s - l + 1) && SetDown(t, t', s, i, l)
  }

  /** The downward loops start at the two halves. */
  lemma DownFromHalves(t: Tree, s: nat, i: nat)
    requires s < LEVELS && |t| == LEVELS
    ensures ClearingDown(t, t, s, i, s, i * 2, i * 2 + 1) && SettingDown(t, t, s, i, s, i * 2, i * 2 + 1)
  {
    assert Lo(i, 1) == 2 * Lo(i, 0) && Hi(i, 1) == 2 * Hi(i, 0) + 1;
  }

  lemma LoHiStep(i: nat, n: nat)
    ensures Lo(i, n + 1) == 2 * Lo(i, n) && Hi(i, n + 1) == 2 * Hi(i, n) + 1
  {
  }

  /** `t'` is `t` with bits `start..end` of level `l` set to `value`. */
  ghost predicate RangeWritten(t: Tree, t': Tree, l: nat, start: nat, end: nat, value: bool)
  {
    && SameSizes(t, t') && l < LEVELS
    && (forall k :: 0 <= k < LEVELS && k != l ==> t'[k] == t[k])
    && forall j :: 0 <= j < |t[l]| ==> (t'[l][j] <==> if start <= j <= end then value else t[l][j])
  }

  lemma ClearedDownStep(t: Tree, t1: Tree, t2: Tree, s: nat, i: nat, l: nat)
    requires 0 < l <= s && ClearedDown(t, t1, s, i, l)
    requires RangeWritten(t1, t2, l - 1, Lo(i, s - l + 1), Hi(i, s - l + 1), false)
    ensures ClearedDown(t, t2, s, i, l - 1)
  {
    forall k, j | 0 <= k < LEVELS && 0 <= j < |t[k]|
      ensures t2[k][j] <==> t[k][j] && !(l - 1 <= k < s && Inside(s, i, k, j))
    {
      if k == l - 1 { RangeIsUp(i, j, s - l + 1); }
    }
  }

  lemma SetDownStep(t: Tree, t1: Tree, t2: Tree, s: nat, i: nat, l: nat)
    requires 0 < l <= s && SetDown(t, t1, s, i, l)
    requires RangeWritten(t1, t2, l - 1, Lo(i, s - l + 1), Hi(i, s - l + 1), true)
    ensures SetDown(t, t2, s, i, l - 1)
  {
    forall k, j | 0 <= k < LEVELS && 0 <= j < |t[k]|
      ensures t2[k][j] <==> t[k][j] || (l - 1 <= k < s && Inside(s, i, k, j))
    {
      if k == l - 1 { RangeIsUp(i, j, s - l + 1); }
    }
  }

  lemma ClearedUpStep(t: Tree, t1: Tree, s: nat, i: nat, l: nat, j: nat)
    requires s < l < LEVELS && ClearedUp(t, t1, s, i, l) && j == Up(i, l - s) && j < |t1[l]|
    ensures ClearedUp(t, t1[l := t1[l][j := false]], s, i, l + 1)
  {
  }

  lemma TakenInThreeSteps(t: Tree, t1: Tree, t3: Tree, l: nat, i: nat)
    requires l < LEVELS && ClearedDown(t, t1, l, i, 0) && i < |t1[l]|
    requires ClearedUp(t1[l := t1[l][i := false]], t3, l, i, LEVELS)
    ensures t3 == Taken(t, l, i)
  {
    var t2, u := t1[l := t1[l][i := false]], Taken(t, l, i);
    forall k | 0 <= k < LEVELS ensures t3[k] == u[k] {
      forall j | 0 <= j < |t[k]| ensures t3[k][j] == u[k][j] {
        assert t2[k][j] <==> t1[k][j] && !(k == l && j == i);
      }
    }
  }

  lemma FilledInTwoSteps(t: Tree, t1: Tree, l: nat, i: nat)
    requires l < LEVELS && SetDown(t, t1, l, i, 0) && i < |t1[l]|
    ensures t1[l := t1[l][i := true]] == Filled(t, l, i)
  {
    var t2, u := t1[l := t1[l][i := true]], Filled(t, l, i);
    forall k | 0 <= k < LEVELS ensures t2[k] == u[k] {
      forall j | 0 <= j < |t[k]| ensures t2[k][j] == u[k][j] {
        assert t2[k][j] <==> t1[k][j] || (k == l && j == i);
      }
    }
  }

  /** Which units lie in the blocks from `a` up to, but not including, `b`. */
  lemma {:induction false} UnitsOfBlocks(l: nat, a: nat, b: nat, u: nat)
    ensures a * Pow2(l) <= u < b * Pow2(l) <==> a <= Up(u, l) < b
  {
    if l > 0 {
      UnitsOfBlocks(l - 1, a, b, u / 2);
      Doubled(a, l);
      Doubled(b, l);
      HalfBetween(a * Pow2(l - 1), b * Pow2(l - 1), u);
    }
  }

  lemma Doubled(x: nat, l: nat)
    requires l > 0
    ensures x * Pow2(l) == 2 * (x * Pow2(l - 1))
  {
  }

  lemma HalfBetween(m: nat, n: nat, u: nat)
    ensures m <= u / 2 < n <==> 2 * m <= u < 2 * n
  {
  }

  /** `t'` has the units of the blocks `a` to `b - 1` of level `l` marked used. */
  ghost predicate UnitsCleared(t: Tree, t': Tree, l: nat, a: nat, b: nat)
  {
    SameSizes(t, t') && forall u :: 0 <= u < |t[0]| ==> (t'[0][u] <==> t[0][u] && !(a <= Up(u, l) < b))
  }

  ghost predicate UnitsSet(t: Tree, t': Tree, l: nat, a: nat, b: nat)
  {
    SameSizes(t, t') && forall u :: 0 <= u < |t[0]| ==> (t'[0][u] <==> t[0][u] || a <= Up(u, l) < b)
  }

  lemma UnitsClearedStep(t: Tree, t1: Tree, t2: Tree, l: nat, a: nat, b: nat)
    requires UnitsCleared(t, t1, l, a, b) && a <= b && UnitsCleared(t1, t2, l, b, b + 1)
    ensures UnitsCleared(t, t2, l, a, b + 1)
  {
  }

  lemma UnitsSetStep(t: Tree, t1: Tree, t2: Tree, l: nat, a: nat, b: nat)
    requires UnitsSet(t, t1, l, a, b) && a <= b && UnitsSet(t1, t2, l, b, b + 1)
    ensures UnitsSet(t, t2, l, a, b + 1)
  {
  }

  /** The index range the downward loops write lies inside the bitmap. */
  lemma DownRangeFits(t: Tree, units: nat, s: nat, i: nat, l: nat)
    requires SizesOk(t, units) && 0 < l <= s < LEVELS && i < Cap(units, s)
    ensures Hi(i, s - l + 1) < |t[l - 1]| && Lo(i, s - l + 1) <= Hi(i, s - l + 1)
  {
    var n := s - l + 1;
    RangeOrdered(i, n);
    RangeIsUp(i, Hi(i, n), n);
    BelowIsNear(units, s, Hi(i, n), n);
  }

  lemma {:induction false} RangeOrdered(i: nat, n: nat)
    ensures Lo(i, n) <= Hi(i, n)
  {
    if n > 0 { RangeOrdered(i, n - 1); }
  }

  // ----- Blocks handed out -----

  /** Blocks handed out: first unit and number of units. */
  type Live = map<nat, nat>

  ghost predicate InRange(u: nat, s: nat, n: nat)
  {
    s <= u < s + n
  }

  ghost predicate Covered(live: Live, u: nat)
  {
    exists s :: s in live && InRange(u, s, live[s])
  }

  /** Blocks handed out are not empty, start at a multiple of their size, lie in the
      managed range and are disjoint. */
  ghost predicate LiveOk(live: Live, units: nat)
  {
    && (forall s :: s in live ==> live[s] > 0 && s % live[s] == 0 && s + live[s] <= units)
    && (forall s, r :: s in live && r in live && s < r ==> s + live[s] <= r)
  }

  /** A unit is free exactly when no block handed out holds it. */
  ghost predicate Exact(bits: seq<bool>, live: Live)
  {
    forall u :: 0 <= u < |bits| ==> (bits[u] <==> !Covered(live, u))
  }

  lemma TakingIsExact(bits: seq<bool>, bits': seq<bool>, live: Live, units: nat, s: nat, n: nat)
    requires Exact(bits, live) && LiveOk(live, units) && |bits'| == |bits| && units <= |bits|
    requires n > 0 && s % n == 0 && s + n <= units && forall u :: s <= u < s + n ==> bits[u]
    requires forall u :: 0 <= u < |bits| ==> (bits'[u] <==> bits[u] && !InRange(u, s, n))
    ensures s !in live && LiveOk(live[s := n], units) && Exact(bits', live[s := n])
  {
    forall r | r in live ensures r != s && (r < s ==> r + live[r] <= s) && (s < r ==> s + n <= r) {
      assert InRange(r, r, live[r]) && Covered(live, r);
      assert bits[s] && !InRange(s, r, live[r]);
    }
    forall u | 0 <= u < |bits| ensures bits'[u] <==> !Covered(live[s := n], u) { CoveredWith(live, s, n, u); }
  }

  lemma CoveredWith(live: Live, s: nat, n: nat, u: nat)
    requires s !in live
    ensures Covered(live[s := n], u) <==> Covered(live, u) || InRange(u, s, n)
  {
    var live' := live[s := n];
    assert s in live' && live'[s] == n;
    if Covered(live, u) {
      var r :| r in live && InRange(u, r, live[r]);
      assert r in live' && InRange(u, r, live'[r]);
    }
    if Covered(live', u) {
      var r :| r in live' && InRange(u, r, live'[r]);
      assert r != s ==> r in live && InRange(u, r, live[r]);
    }
  }

  /** No unit of the range is handed out. */
  ghost predicate Clear(live: Live, s: nat, n: nat)
  {
    forall u :: s <= u < s + n ==> !Covered(live, u)
  }

  /** No block of `n` units can start at `r`. */
  ghost predicate NoRoom(live: Live, n: nat, r: nat)
  {
    n > 0 && (r % n == 0 ==> !Clear(live, r, n))
  }

  lemma NewBlockWasClear(live: Live, units: nat, s: nat, n: nat)
    requires s !in live && LiveOk(live[s := n], units)
    ensures Clear(live, s, n) && n > 0 && s % n == 0
  {
    var live' := live[s := n];
    assert s in live' && live'[s] == n;
    forall u | s <= u < s + n ensures !Covered(live, u) {
      forall r | r in live ensures !InRange(u, r, live[r]) { assert r in live' && live'[r] == live[r]; }
    }
  }

  /** `bits'` has the units of the range set, and the others of `bits`. */
  ghost predicate Given(bits: seq<bool>, bits': seq<bool>, s: nat, n: nat)
  {
    |bits| == |bits'| && forall u :: 0 <= u < |bits| ==> (bits'[u] <==> bits[u] || InRange(u, s, n))
  }

  /** No other block reaches into the range from `s` on. */
  ghost predicate Alone(live: Live, s: nat, n: nat)
  {
    forall r :: r in live && r != s ==> r + live[r] <= s || s + n <= r
  }

  /** Giving `n` units from `s` back leaves exactly the other blocks marked used if
      and only if no other block handed out reaches into those units. */
  lemma GivingIsExact(bits: seq<bool>, bits': seq<bool>, live: Live, units: nat, s: nat, n: nat)
    requires Exact(bits, live) && LiveOk(live, units) && units <= |bits|
    requires s in live && n >= live[s] && Given(bits, bits', s, n)
    ensures LiveOk(live - {s}, units)
    ensures Exact(bits', live - {s}) <==> Alone(live, s, n)
  {
    var live' := live - {s};
    if r :| r in live && r != s && s < r + live[r] && r < s + n {
      assert InRange(r, r, live'[r]) && Covered(live', r);
      assert bits'[r];
    } else {
      GivingAlone(bits, bits', live, units, s, n);
    }
  }

  lemma GivingAlone(bits: seq<bool>, bits': seq<bool>, live: Live, units: nat, s: nat, n: nat)
    requires Exact(bits, live) && LiveOk(live, units) && units <= |bits|
    requires s in live && n >= live[s] && Given(bits, bits', s, n) && Alone(live, s, n)
    ensures Exact(bits', live - {s})
  {
    forall u | 0 <= u < |bits| ensures bits'[u] <==> !Covered(live - {s}, u) {
      CoveredWithout(live, s, n, u);
    }
  }

  lemma CoveredWithout(live: Live, s: nat, n: nat, u: nat)
    requires s in live && n >= live[s] && Alone(live, s, n)
    ensures Covered(live - {s}, u) <==> Covered(live, u) && !InRange(u, s, n)
  {
    var live' := live - {s};
    if Covered(live', u) {
      var r :| r in live' && InRange(u, r, live'[r]);
      assert r in live && InRange(u, r, live[r]);
    }
    if Covered(live, u) && !InRange(u, s, n) {
      var r :| r in live && InRange(u, r, live[r]);
      assert r in live' && InRange(u, r, live'[r]);
    }
  }

  /** Everything a reachable allocator satisfies. */
  ghost predicate BuddyOk(t: Tree, live: Live, units: nat)
  {
    TreeOk(t) && SizesOk(t, units) && LiveOk(live, units) && Exact(t[0], live)
  }

  /** Nothing is handed out when every bit is set. */
  lemma AllSetIsGood(t: Tree, units: nat)
    requires AllSet(t, LEVELS) && SizesOk(t, units)
    ensures BuddyOk(t, map[], units)
  {
    forall l, i {:trigger NodeOk(t, l, i)} | 0 <= l < LEVELS - 1 && 0 <= i < |t[l + 1]| ensures NodeOk(t, l, i) {
    }
    var none: Live := map[];
    assert Exact(t[0], none) && LiveOk(none, units);
  }

  /** The blocks handed out decide every bitmap, whatever the calls that led there.
      In particular freeing what was just allocated restores all eight levels. */
  lemma LiveDecidesBitmaps(t: Tree, u: Tree, live: Live, units: nat)
    requires BuddyOk(t, live, units) && BuddyOk(u, live, units) && SameSizes(t, u)
    ensures t == u
  {
    forall l | 0 <= l < LEVELS ensures t[l] == u[l] { UnitsDecideTree(t, u, l); }
  }
}
