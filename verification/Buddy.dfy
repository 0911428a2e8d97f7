/** The buddy allocator: one bitmap per block size, in which taking and giving
    back a block repair the levels below and above it. */
module Buddy {
  import opened Basics
  import opened Bitmap
  import opened BuddyModel

  const UNIT: nat := 4096

  // ----- Sizes and levels -----

  function LevelSize(l: nat): nat
  {
    Pow2(l)
  }

  function WordLevelSize(l: nat): nat
  {
    WORD_BITS * Pow2(l)
  }

  function Level(pages: nat): (l: nat)
    ensures l < LEVELS
  {
    if pages > 64 then 7
    else if pages > 32 then 6
    else if pages > 16 then 5
    else if pages > 8 then 4
    else if pages > 4 then 3
    else if pages > 2 then 2
    else if pages > 1 then 1
    else 0
  }

  lemma PowersOfTwo()
    ensures Pow2(0) == 1 && Pow2(1) == 2 && Pow2(2) == 4 && Pow2(3) == 8
    ensures Pow2(4) == 16 && Pow2(5) == 32 && Pow2(6) == 64 && Pow2(7) == 128
  {
    assert Pow2(1) == 2;
    assert Pow2(3) == 8;
    assert Pow2(5) == 32;
  }

  /** The level of a small request is the smallest one whose blocks hold it. */
  lemma LevelIsSmallest(pages: nat)
    requires pages <= MAX_BLOCK
    ensures pages <= LevelSize(Level(pages))
    ensures forall l :: 0 <= l < Level(pages) ==> LevelSize(l) < pages
  {
    PowersOfTwo();
    forall l | 0 <= l < Level(pages) ensures LevelSize(l) < pages {
      assert l == 0 || l == 1 || l == 2 || l == 3 || l == 4 || l == 5 || l == 6;
    }
  }

  /** The smallest level, from `i` on, of which one word of blocks holds the request. */
  function WordLevelFrom(pages: nat, i: nat): (l: nat)
    requires i <= LEVELS
    ensures i <= l <= LEVELS && (l < LEVELS ==> pages <= WordLevelSize(l))
    ensures forall k :: i <= k < l ==> WordLevelSize(k) < pages
    decreases LEVELS - i
  {
    if i == LEVELS || pages <= WordLevelSize(i) then i else WordLevelFrom(pages, i + 1)
  }

  method WordLevel(pages: nat) returns (l: nat)
    ensures l == WordLevelFrom(pages, 0)
  {
    var size := 1;
    for i := 0 to LEVELS
      invariant size == Pow2(i)
      invariant WordLevelFrom(pages, 0) == WordLevelFrom(pages, i)
    {
      if size * 64 >= pages {
        return i;
      }
      size := size * 2;
    }
    return LEVELS;
  }

  /** Units set aside for a request of `pages`. */
  function Reserved(pages: nat): nat
  {
    if pages <= MAX_BLOCK then LevelSize(Level(pages))
    else if pages <= MAX_BLOCK * WORD_BITS then WordLevelSize(WordLevelFrom(pages, 0))
    else 0
  }

  /** A request up to the largest word is never given less than it asked for. */
  lemma ReservedIsEnough(pages: nat)
    requires pages <= MAX_BLOCK * WORD_BITS
    ensures pages <= Reserved(pages) && Reserved(pages) > 0
    ensures pages > MAX_BLOCK ==> WordLevelFrom(pages, 0) < LEVELS
  {
    PowersOfTwo();
    if pages <= MAX_BLOCK {
      LevelIsSmallest(pages);
    } else {
      assert WordLevelSize(7) == MAX_BLOCK * WORD_BITS;
    }
  }

  /** What is set aside is the least power of two that holds the request. */
  lemma ReservedIsLeast(pages: nat, k: nat) returns (j: nat)
    requires pages <= 8192
    ensures Reserved(pages) == Pow2(j) && pages <= Pow2(j) && (pages <= Pow2(k) ==> Pow2(j) <= Pow2(k))
  {
    PowersOfTwo();
    ReservedIsEnough(pages);
    if pages <= MAX_BLOCK {
      j := Level(pages);
      LevelIsSmallest(pages);
    } else {
      var l := WordLevelFrom(pages, 0);
      j := 6 + l;
      Pow2Adds(6, l);
      if 6 <= k < j {
        Pow2Adds(6, k - 6);
        assert WordLevelSize(k - 6) < pages;
      }
      if k < 6 { Pow2Grows(k, 6); }
    }
    if k >= j { Pow2Grows(j, k); } else if pages <= MAX_BLOCK { assert LevelSize(k) < pages; }
  }

  /** Units given back for a request of `pages`: the level is chosen by `Level`
      even when whole words are given back. */
  function Returned(pages: nat): nat
  {
    if pages <= MAX_BLOCK then LevelSize(Level(pages))
    else if pages <= MAX_BLOCK * WORD_BITS then WordLevelSize(Level(pages))
    else 0
  }

  /** What is given back is what was set aside, except for requests that take
      a word of a level below the highest. */
  lemma ReturnedMatches(pages: nat)
    ensures Returned(pages) == Reserved(pages) <==> !(128 < pages <= 4096)
    ensures Returned(pages) >= Reserved(pages) && (128 < pages <= 8192 ==> Returned(pages) == 8192)
  {
    PowersOfTwo();
    if MAX_BLOCK < pages <= MAX_BLOCK * WORD_BITS {
      ReservedIsEnough(pages);
      var l := WordLevelFrom(pages, 0);
      assert l == 0 || l == 1 || l == 2 || l == 3 || l == 4 || l == 5 || l == 6 || l == 7;
      assert WordLevelSize(6) == 4096;
    }
  }

  // ----- The byte counter -----

  const WORD: nat := 0x1_0000_0000_0000_0000

  /** The bytes that the counter of allocated memory is charged for a request: the number of
      pages is taken for a level. */
  function Charged(pages: nat): nat
  {
    Pow2(pages) * UNIT % WORD
  }

  /** They are the bytes set aside for no request but the empty one. */
  lemma ChargedExactly(pages: nat)
    requires pages <= MAX_BLOCK * WORD_BITS
    ensures Charged(pages) == Reserved(pages) * UNIT <==> pages == 0
  {
    PowersOfTwo();
    ReservedIsEnough(pages);
    if pages >= 52 {
      ChargeVanishes(pages);
    } else {
      assert Pow2(pages) <= Pow2(51) by { Pow2Grows(pages, 51); }
      assert Pow2(51) == 0x8_0000_0000_0000 by { Pow2Of51(); }
      if pages >= 8 { Pow2Grows(8, pages); }
    }
  }

  lemma {:induction false} Pow2Grows(a: nat, b: nat)
    requires a <= b
    ensures Pow2(a) <= Pow2(b)
    decreases b
  {
    if a < b { Pow2Grows(a, b - 1); }
  }

  lemma {:induction false} Pow2Adds(a: nat, b: nat)
    ensures Pow2(a + b) == Pow2(a) * Pow2(b)
    decreases b
  {
    if b > 0 {
      Pow2Adds(a, b - 1);
      assert Pow2(a) * Pow2(b) == 2 * (Pow2(a) * Pow2(b - 1));
    }
  }

  lemma Pow2Of51()
    ensures Pow2(51) == 0x8_0000_0000_0000 && Pow2(52) == 0x10_0000_0000_0000
  {
    PowersOfTwo();
    Pow2Adds(7, 6);
    Pow2Adds(13, 13);
    Pow2Adds(26, 26);
  }

  /** Two to the fifty-second pages or a multiple of that are no bytes at all on 64-bit words. */
  lemma ChargeVanishes(pages: nat)
    requires pages >= 52
    ensures Charged(pages) == 0
  {
    var k := Pow2(pages - 52);
    assert Pow2(pages) == 0x10_0000_0000_0000 * k by {
      Pow2Of51();
      Pow2Adds(52, pages - 52);
    }
    assert Pow2(pages) * UNIT == WORD * k;
    MultipleVanishes(k);
  }

  lemma MultipleVanishes(k: nat)
    ensures WORD * k % WORD == 0
  {
  }

  /** A request takes a multiple of the blocks that its release marks. */
  lemma ReservedIsAligned(pages: nat) returns (m: nat)
    requires pages <= MAX_BLOCK * WORD_BITS
    ensures Reserved(pages) == m * LevelSize(Level(pages))
  {
    PowersOfTwo();
    if pages <= MAX_BLOCK {
      m := 1;
    } else {
      ReservedIsEnough(pages);
      var l := WordLevelFrom(pages, 0);
      assert WordLevelSize(0) < pages && WordLevelSize(1) < pages;
      assert l == 2 || l == 3 || l == 4 || l == 5 || l == 6 || l == 7;
      m := WordLevelSize(l) / LevelSize(7);
    }
  }

  function ArrayWords(units: nat, l: nat): nat
  {
    (Cap(units, l) + 1) / WORD_BITS + 1
  }

  function Quotient(a: nat, d: nat): (q: nat)
    requires d > 0
    ensures q * d <= a < q * d + d
  {
    a / d
  }

  /** The quotient is the only number with that bound. */
  lemma QuotientUnique(a: nat, d: nat, q: nat)
    requires d > 0 && a == q * d
    ensures Quotient(a, d) == q
  {
    var p := Quotient(a, d);
    assert (p + 1) * d == p * d + d && (q + 1) * d == q * d + d;
    assert p < q ==> (p + 1) * d <= q * d;
    assert q < p ==> (q + 1) * d <= p * d;
  }

  class BuddyAllocator {
    const bitmaps: seq<StaticBitmap>
    const firstAddress: nat
    const lastAddress: nat
    ghost var live: Live

    ghost function Units(): nat
    {
      if firstAddress <= lastAddress then (lastAddress - firstAddress) / UNIT else 0
    }

    ghost predicate Separate()
    {
      && |bitmaps| == LEVELS && firstAddress > 0
      && forall i, j :: 0 <= i < j < LEVELS ==> bitmaps[i].data != bitmaps[j].data
    }

    ghost function Data(): set<object>
      requires Separate()
    {
      set l | 0 <= l < LEVELS :: bitmaps[l].data
    }

    ghost function Bitmaps(): (t: Tree)
      requires Separate()
      reads Data()
      ensures |t| == LEVELS
      ensures forall l :: 0 <= l < LEVELS ==> t[l] == bitmaps[l].Bits()
    {
      seq(LEVELS, l requires 0 <= l < LEVELS && Separate() reads Data() => bitmaps[l].Bits())
    }

    ghost predicate Valid()
      reads this, if Separate() then Data() else {}
    {
      Separate() && BuddyOk(Bitmaps(), live, Units())
    }

    method SetAt(l: nat, i: nat)
      requires Separate() && l < LEVELS && i < |Bitmaps()[l]|
      modifies Data()
      ensures Bitmaps() == old(Bitmaps())[l := old(Bitmaps())[l][i := true]]
    {
      bitmaps[l].Set(i);
    }

    method UnsetAt(l: nat, i: nat)
      requires Separate() && l < LEVELS && i < |Bitmaps()[l]|
      modifies Data()
      ensures Bitmaps() == old(Bitmaps())[l := old(Bitmaps())[l][i := false]]
    {
      bitmaps[l].Unset(i);
    }

    method UnsetRange(l: nat, start: nat, end: nat)
      requires Separate() && l < LEVELS && start <= end < |Bitmaps()[l]|
      modifies Data()
      ensures RangeWritten(old(Bitmaps()), Bitmaps(), l, start, end, false)
    {
      var i := start;
      while i <= end
        invariant start <= i <= end + 1
        invariant SameSizes(old(Bitmaps()), Bitmaps())
        invariant forall k :: 0 <= k < LEVELS && k != l ==> Bitmaps()[k] == old(Bitmaps())[k]
        invariant forall j :: 0 <= j < |Bitmaps()[l]| ==>
                  (Bitmaps()[l][j] <==> if start <= j < i then false else old(Bitmaps())[l][j])
      {
        UnsetAt(l, i);
        i := i + 1;
      }
    }

    method SetRange(l: nat, start: nat, end: nat)
      requires Separate() && l < LEVELS && start <= end < |Bitmaps()[l]|
      modifies Data()
      ensures RangeWritten(old(Bitmaps()), Bitmaps(), l, start, end, true)
    {
      var i := start;
      while i <= end
        invariant start <= i <= end + 1
        invariant SameSizes(old(Bitmaps()), Bitmaps())
        invariant forall k :: 0 <= k < LEVELS && k != l ==> Bitmaps()[k] == old(Bitmaps())[k]
        invariant forall j :: 0 <= j < |Bitmaps()[l]| ==>
                  (Bitmaps()[l][j] <==> if start <= j < i then true else old(Bitmaps())[l][j])
      {
        SetAt(l, i);
        i := i + 1;
      }
    }

    method TakenDown(startLevel: nat, index: nat)
      requires Separate() && SizesOk(Bitmaps(), Units()) && startLevel < LEVELS && index < Cap(Units(), startLevel)
      modifies Data()
      ensures ClearedDown(old(Bitmaps()), Bitmaps(), startLevel, index, 0)
    {
      ghost var t := Bitmaps();
      var start: nat := index * 2;
      var end: nat := start + 1;
      DownFromHalves(t, startLevel, index);
      for l := startLevel downto 0
        invariant ClearingDown(t, Bitmaps(), startLevel, index, l, start, end)
      {
        ClearBelow(l + 1, start, end, t, startLevel, index);
        start := start * 2;
        end := end * 2 + 1;
      }
    }

    /** One level of `TakenDown`. */
    method ClearBelow(l: nat, start: nat, end: nat, ghost t: Tree, ghost s: nat, ghost i: nat)
      requires Separate() && SizesOk(t, Units()) && l > 0 && i < Cap(Units(), s)
      requires ClearingDown(t, Bitmaps(), s, i, l, start, end)
      modifies Data()
      ensures ClearingDown(t, Bitmaps(), s, i, l - 1, start * 2, end * 2 + 1)
    {
      ghost var t1 := Bitmaps();
      assert start <= end < |t1[l - 1]| by { DownRangeFits(t1, Units(), s, i, l); }
      UnsetRange(l - 1, start, end);
      assert ClearedDown(t, Bitmaps(), s, i, l - 1) by { ClearedDownStep(t, t1, Bitmaps(), s, i, l); }
      assert start * 2 == Lo(i, s - (l - 1) + 1) && end * 2 + 1 == Hi(i, s - (l - 1) + 1) by { LoHiStep(i, s - l + 1); }
    }

    method FreeDown(startLevel: nat, index: nat, ghost room: nat)
      requires Separate() && SizesOk(Bitmaps(), room) && startLevel < LEVELS && index < Cap(room, startLevel)
      modifies Data()
      ensures SetDown(old(Bitmaps()), Bitmaps(), startLevel, index, 0)
    {
      ghost var t := Bitmaps();
      var start: nat := index * 2;
      var end: nat := start + 1;
      DownFromHalves(t, startLevel, index);
      for l := startLevel downto 0
        invariant SettingDown(t, Bitmaps(), startLevel, index, l, start, end)
      {
        SetBelow(l + 1, start, end, t, startLevel, index, room);
        start := start * 2;
        end := end * 2 + 1;
      }
    }

    /** One level of `FreeDown`. */
    method SetBelow(l: nat, start: nat, end: nat, ghost t: Tree, ghost s: nat, ghost i: nat, ghost room: nat)
      requires Separate() && SizesOk(t, room) && l > 0 && i < Cap(room, s)
      requires SettingDown(t, Bitmaps(), s, i, l, start, end)
      modifies Data()
      ensures SettingDown(t, Bitmaps(), s, i, l - 1, start * 2, end * 2 + 1)
    {
      ghost var t1 := Bitmaps();
      assert start <= end < |t1[l - 1]| by { DownRangeFits(t1, room, s, i, l); }
      SetRange(l - 1, start, end);
      assert SetDown(t, Bitmaps(), s, i, l - 1) by { SetDownStep(t, t1, Bitmaps(), s, i, l); }
      assert start * 2 == Lo(i, s - (l - 1) + 1) && end * 2 + 1 == Hi(i, s - (l - 1) + 1) by { LoHiStep(i, s - l + 1); }
    }

    method TakenUp(startLevel: nat, startIndex: nat)
      requires Separate() && SizesOk(Bitmaps(), Units()) && startLevel < LEVELS && startIndex < Cap(Units(), startLevel)
      modifies Data()
      ensures ClearedUp(old(Bitmaps()), Bitmaps(), startLevel, startIndex, LEVELS)
    {
      ghost var t := Bitmaps();
      var index: nat := startIndex;
      for l := startLevel + 1 to LEVELS
        invariant index == Up(startIndex, l - 1 - startLevel)
        invariant ClearedUp(t, Bitmaps(), startLevel, startIndex, l)
      {
        UpStep(startIndex, l - 1 - startLevel);
        index := index / 2;
        ClearAbove(l, index, t, startLevel, startIndex);
      }
    }

    /** One level of `TakenUp`. */
    method ClearAbove(l: nat, index: nat, ghost t: Tree, ghost s: nat, ghost i: nat)
      requires Separate() && SizesOk(t, Units()) && s < l < LEVELS && i < Cap(Units(), s)
      requires index == Up(i, l - s) && ClearedUp(t, Bitmaps(), s, i, l)
      modifies Data()
      ensures ClearedUp(t, Bitmaps(), s, i, l + 1)
    {
      AboveIsNear(Units(), s, i, l - s);
      ClearedUpStep(t, Bitmaps(), s, i, l, index);
      UnsetAt(l, index);
    }

    /** One step of `FreeUp`: when the buddy is free too, so is the parent. */
    method FreeParent(l: nat, index: nat, ghost t: Tree, ghost room: nat) returns (free: bool)
      requires Separate() && l + 1 < LEVELS && Climbing(t, Bitmaps(), room, l, index)
      modifies Data()
      ensures !free ==> Climbed(t, Bitmaps(), room)
      ensures free ==> Climbing(t, Bitmaps(), room, l + 1, index / 2)
    {
      free := bitmaps[l].IsSet(Buddy(index));
      if free {
        ClimbOn(t, Bitmaps(), room, l, index);
        SetAt(l + 1, index / 2);
      } else {
        assert TreeOk(Bitmaps()) by { ClimbStop(Bitmaps(), room, l, index); }
      }
    }

    method FreeUp(startLevel: nat, startIndex: nat, ghost room: nat)
      requires Separate() && Climbing(Bitmaps(), Bitmaps(), room, startLevel, startIndex)
      modifies Data()
      ensures Climbed(old(Bitmaps()), Bitmaps(), room)
    {
      ghost var t := Bitmaps();
      var index: nat := startIndex;
      var l: nat := startLevel;
      while l + 1 < LEVELS
        invariant Climbing(t, Bitmaps(), room, l, index)
        decreases LEVELS - l
      {
        var free := FreeParent(l, index, t, room);
        if !free {
          return;
        }
        index := index / 2;
        l := l + 1;
      }
      ClimbStop(Bitmaps(), room, l, index);
    }

    /** Marks a block and everything that overlaps it as used. */
    method MarkUsed(l: nat, index: nat)
      requires Separate() && SizesOk(Bitmaps(), Units()) && l < LEVELS && index < Cap(Units(), l)
      requires TreeOk(Bitmaps())
      modifies Data()
      ensures TreeOk(Bitmaps()) && SizesOk(Bitmaps(), Units())
      ensures UnitsCleared(old(Bitmaps()), Bitmaps(), l, index, index + 1)
    {
      ghost var taken := Taken(Bitmaps(), l, index);
      assert TreeOk(taken) && SizesOk(taken, Units()) by { TakingKeepsTree(Bitmaps(), Units(), l, index); }
      TakenDown(l, index);
      ghost var t1 := Bitmaps();
      UnsetAt(l, index);
      TakenUp(l, index);
      assert Bitmaps() == taken by { TakenInThreeSteps(old(Bitmaps()), t1, Bitmaps(), l, index); }
    }

    /** Marks a block and everything inside it as free, and each parent whose
        halves are now both free. The bitmaps have room for `room` units. */
    method MarkFree(l: nat, index: nat, ghost room: nat)
      requires Separate() && SizesOk(Bitmaps(), room) && l < LEVELS && index < Cap(room, l)
      requires TreeOk(Bitmaps())
      modifies Data()
      ensures TreeOk(Bitmaps()) && SizesOk(Bitmaps(), room)
      ensures UnitsSet(old(Bitmaps()), Bitmaps(), l, index, index + 1)
    {
      ghost var t := Bitmaps();
      ghost var filled := Filled(t, l, index);
      FreeDown(l, index, room);
      assert Bitmaps()[l := Bitmaps()[l][index := true]] == filled by { FilledInTwoSteps(t, Bitmaps(), l, index); }
      SetAt(l, index);
      assert Climbing(filled, filled, room, l, index) by { FillingAlmostKeepsTree(t, room, l, index); }
      FreeUp(l, index, room);
      assert UnitsSet(t, Bitmaps(), l, index, index + 1) by { FilledUnits(t, Bitmaps(), l, index); }
    }

    /** The bitmaps and range are given; `units` pages were planned for when the
        bitmaps were sized. */
    constructor (bitmaps: seq<StaticBitmap>, first: nat, last: nat, ghost units: nat)
      requires |bitmaps| == LEVELS && first > 0
      requires forall i, j :: 0 <= i < j < LEVELS ==> bitmaps[i].data != bitmaps[j].data
      requires last <= first + units * UNIT
      requires forall l :: 0 <= l < LEVELS ==> bitmaps[l].data.Length == ArrayWords(units, l)
      ensures Separate() && SizesOk(Bitmaps(), Units())
      ensures this.bitmaps == bitmaps && firstAddress == first && lastAddress == last
    {
      this.bitmaps := bitmaps;
      firstAddress := first;
      lastAddress := last;
      live := map[];
      new;
      forall l | 0 <= l < LEVELS ensures |Bitmaps()[l]| >= Cap(Units(), l) + 2 {
        CapMonotone(Units(), units, l);
      }
    }

    /** By default all blocks are free. */
    method Init()
      requires Separate() && SizesOk(Bitmaps(), Units())
      modifies this`live, Data()
      ensures Valid() && live == map[]
    {
      for l := 0 to LEVELS
        invariant SameSizes(old(Bitmaps()), Bitmaps()) && AllSet(Bitmaps(), l)
      {
        SetLevel(l);
      }
      ghost var t := Bitmaps();
      assert BuddyOk(t, map[], Units()) by { AllSetIsGood(t, Units()); }
      live := map[];
      assert Bitmaps() == t;
    }

    method SetLevel(l: nat)
      requires Separate() && l < LEVELS && AllSet(Bitmaps(), l)
      modifies Data()
      ensures SameSizes(old(Bitmaps()), Bitmaps()) && AllSet(Bitmaps(), l + 1)
    {
      bitmaps[l].SetAll();
    }

    function BlockStart(l: nat, index: nat): nat
    {
      firstAddress + index * LevelSize(l) * UNIT
    }

    function BlockIndex(address: nat, l: nat): nat
      requires address >= firstAddress
    {
      Pow2Positive(l);
      Quotient(address - firstAddress, LevelSize(l) * UNIT)
    }

    /** Block `i` of level `l`, or the word of blocks from it on, lies below the
        last managed address. */
    ghost predicate Managed(start: nat, n: nat)
    {
      firstAddress + (start + n) * UNIT < lastAddress
    }

    lemma ManagedFits(start: nat, n: nat)
      requires Managed(start, n)
      ensures start + n <= Units()
    {
    }

    /** Takes the lowest free block of level `l`. */
    method AllocateBlock(l: nat) returns (address: nat, ghost i: nat)
      requires Valid() && l < LEVELS
      modifies this`live, Data()
      ensures Valid() && SameSizes(old(Bitmaps()), Bitmaps())
      ensures address == 0 ==> live == old(live) && Bitmaps() == old(Bitmaps())
      ensures address == 0 <==>
                forall j ::
                  0 <= j < old(|Bitmaps()[l]|) && old(Bitmaps())[l][j] ==> !Managed(FirstUnit(l, j), LevelSize(l))
      ensures address != 0 ==>
                && i < old(|Bitmaps()[l]|) && old(Bitmaps())[l][i]
                && address == firstAddress + FirstUnit(l, i) * UNIT
                && Managed(FirstUnit(l, i), LevelSize(l)) && FirstUnit(l, i) !in old(live)
                && live == old(live)[FirstUnit(l, i) := LevelSize(l)]
                && forall j :: 0 <= j < i ==> !old(Bitmaps())[l][j]
    {
      var r := bitmaps[l].SetBit();
      if r.NoPosition? {
        return 0, 0;
      }
      i := r.bit;
      address := BlockStart(l, r.bit);
      if address + LevelSize(l) * UNIT >= lastAddress {
        HigherUnmanaged(r.bit, LevelSize(l));
        return 0, 0;
      }
      TakeBlock(l, r.bit);
    }

    /** The first free block being too high, so are all later ones. */
    lemma HigherUnmanaged(index: nat, n: nat)
      requires !Managed(index * n, n)
      ensures forall i :: i >= index ==> !Managed(i * n, n)
    {
      forall i | i >= index ensures !Managed(i * n, n) {
        assert i * n >= index * n;
      }
    }

    method TakeBlock(l: nat, index: nat)
      requires Valid() && l < LEVELS && index < |Bitmaps()[l]| && Bitmaps()[l][index]
      requires Managed(FirstUnit(l, index), LevelSize(l))
      modifies this`live, Data()
      ensures Valid() && SameSizes(old(Bitmaps()), Bitmaps())
      ensures FirstUnit(l, index) !in old(live)
      ensures live == old(live)[FirstUnit(l, index) := LevelSize(l)]
    {
      ghost var t := Bitmaps();
      ghost var s, n := FirstUnit(l, index), LevelSize(l);
      ManagedFits(s, n);
      Pow2Positive(l);
      BlocksFit(Units(), l, index, 1, s, n);
      MarkUsed(l, index);
      BlocksLeave(t, Bitmaps(), live, Units(), l, index, 1, index, s, n);
      HandOut(s, n);
    }

    ghost method HandOut(s: nat, n: nat)
      requires Separate() && TreeOk(Bitmaps()) && SizesOk(Bitmaps(), Units())
      requires LiveOk(live[s := n], Units()) && Exact(Bitmaps()[0], live[s := n])
      modifies this`live
      ensures Valid() && live == old(live)[s := n] && Bitmaps() == old(Bitmaps())
    {
      ghost var t := Bitmaps();
      live := live[s := n];
      assert Bitmaps() == t;
    }

    /** Takes the lowest free word of blocks of level `l`. */
    method AllocateWord(l: nat) returns (address: nat, ghost w: nat)
      requires Valid() && l < LEVELS
      modifies this`live, Data()
      ensures Valid() && SameSizes(old(Bitmaps()), Bitmaps())
      ensures address == 0 ==> live == old(live) && Bitmaps() == old(Bitmaps())
      ensures address == 0 <==>
                forall v :: 0 <= v < old(|Bitmaps()[l]|) / WORD_BITS && FullFrom(old(Bitmaps())[l], v * WORD_BITS) ==>
                  !Managed(FirstWordUnit(l, v), WordLevelSize(l))
      ensures address != 0 ==>
                && w < old(|Bitmaps()[l]|) / WORD_BITS && FullFrom(old(Bitmaps())[l], w * WORD_BITS)
                && address == firstAddress + FirstWordUnit(l, w) * UNIT
                && Managed(FirstWordUnit(l, w), WordLevelSize(l)) && FirstWordUnit(l, w) !in old(live)
                && live == old(live)[FirstWordUnit(l, w) := WordLevelSize(l)]
                && forall v :: 0 <= v < w ==> !FullFrom(old(Bitmaps())[l], v * WORD_BITS)
    {
      var r := bitmaps[l].SetWord();
      if r.NoPosition? {
        return 0, 0;
      }
      var index := r.bit;
      w := index / WORD_BITS;
      assert index == w * WORD_BITS;
      address := BlockStart(l, index);
      assert address == firstAddress + FirstWordUnit(l, w) * UNIT by { WordStart(w, l); }
      if address + WordLevelSize(l) * UNIT >= lastAddress {
        HigherUnmanaged(w, WordLevelSize(l));
        return 0, 0;
      }
      TakeWord(l, index, w);
    }

    method MarkWordUsed(l: nat, index: nat)
      requires Separate() && SizesOk(Bitmaps(), Units()) && TreeOk(Bitmaps()) && l < LEVELS
      requires index + WORD_BITS <= Cap(Units(), l)
      modifies Data()
      ensures TreeOk(Bitmaps()) && SizesOk(Bitmaps(), Units()) && SameSizes(old(Bitmaps()), Bitmaps())
      ensures UnitsCleared(old(Bitmaps()), Bitmaps(), l, index, index + WORD_BITS)
    {
      for b := 0 to WORD_BITS
        invariant TreeOk(Bitmaps()) && SizesOk(Bitmaps(), Units())
        invariant UnitsCleared(old(Bitmaps()), Bitmaps(), l, index, index + b)
      {
        ghost var t1 := Bitmaps();
        MarkUsed(l, index + b);
        UnitsClearedStep(old(Bitmaps()), t1, Bitmaps(), l, index, index + b);
      }
    }

    method MarkWordFree(l: nat, index: nat, ghost room: nat)
      requires Separate() && SizesOk(Bitmaps(), room) && TreeOk(Bitmaps()) && l < LEVELS
      requires index + WORD_BITS <= Cap(room, l)
      modifies Data()
      ensures TreeOk(Bitmaps()) && SizesOk(Bitmaps(), room) && SameSizes(old(Bitmaps()), Bitmaps())
      ensures UnitsSet(old(Bitmaps()), Bitmaps(), l, index, index + WORD_BITS)
    {
      for b := 0 to WORD_BITS
        invariant TreeOk(Bitmaps()) && SizesOk(Bitmaps(), room)
        invariant UnitsSet(old(Bitmaps()), Bitmaps(), l, index, index + b)
      {
        ghost var t1 := Bitmaps();
        MarkFree(l, index + b, room);
        UnitsSetStep(old(Bitmaps()), t1, Bitmaps(), l, index, index + b);
      }
    }

    /** Marks all blocks of a free word as used. */
    method TakeWord(l: nat, index: nat, ghost w: nat)
      requires Valid() && l < LEVELS && index == w * WORD_BITS && FullFrom(Bitmaps()[l], index)
      requires Managed(FirstWordUnit(l, w), WordLevelSize(l))
      modifies this`live, Data()
      ensures Valid() && SameSizes(old(Bitmaps()), Bitmaps())
      ensures FirstWordUnit(l, w) !in old(live)
      ensures live == old(live)[FirstWordUnit(l, w) := WordLevelSize(l)]
    {
      ghost var t := Bitmaps();
      ghost var s, n := FirstWordUnit(l, w), WordLevelSize(l);
      ManagedFits(s, n);
      WordStart(w, l);
      Pow2Positive(l);
      BlocksFit(Units(), l, index, WORD_BITS, s, n);
      MarkWordUsed(l, index);
      BlocksLeave(t, Bitmaps(), live, Units(), l, index, WORD_BITS, w, s, n);
      HandOut(s, n);
    }

    /** A request for `n` units was answered: by the lowest aligned range that is not
        handed out, or by none because there is none in the managed range. */
    ghost predicate Placed(live0: Live, live1: Live, address: nat, s: nat, n: nat)
    {
      if address == 0 then
        live1 == live0 && forall r: nat {:trigger NoRoom(live0, n, r)} ::
          firstAddress + (r + n) * 4096 < lastAddress ==> NoRoom(live0, n, r)
      else
        && address == firstAddress + s * 4096 && address + n * 4096 < lastAddress
        && n > 0 && s % n == 0 && Clear(live0, s, n)
        && s !in live0 && live1 == live0[s := n]
        && forall r: nat {:trigger NoRoom(live0, n, r)} :: r < s ==> NoRoom(live0, n, r)
    }

    /** Where no block of level `l` can be taken, no block can be placed. */
    lemma NoBlockRoom(t: Tree, live0: Live, l: nat, r: nat)
      requires |bitmaps| == LEVELS && BuddyOk(t, live0, Units()) && l < LEVELS && r + LevelSize(l) <= Units()
      requires forall q :: 0 <= q < |t[l]| && r == FirstUnit(l, q) ==> !t[l][q]
      ensures NoRoom(live0, LevelSize(l), r)
    {
      var n := LevelSize(l);
      Pow2Positive(l);
      if r % n == 0 {
        var q := r / n;
        assert r == q * n && r + n == (q + 1) * n by { BlocksFrom(q, 1, l); }
        assert q + 1 <= |t[l]| ==> q <= q < q + 1 && !t[l][q];
        RangeIsTaken(t, live0, Units(), l, q, 1, r, n);
      }
    }

    /** Where no word of level `l` can be taken, no word can be placed. */
    lemma NoWordRoom(t: Tree, live0: Live, l: nat, r: nat)
      requires |bitmaps| == LEVELS && BuddyOk(t, live0, Units()) && l < LEVELS && r + WordLevelSize(l) <= Units()
      requires forall v :: 0 <= v < |t[l]| / WORD_BITS && r == FirstWordUnit(l, v) ==> !FullFrom(t[l], v * WORD_BITS)
      ensures NoRoom(live0, WordLevelSize(l), r)
    {
      var n := WordLevelSize(l);
      Pow2Positive(l);
      if r % n == 0 {
        var v := r / n;
        var a := v * WORD_BITS;
        assert r == v * n && r == a * LevelSize(l) && r + n == (a + WORD_BITS) * LevelSize(l) by { WordStart(v, l); }
        assert a + WORD_BITS <= |t[l]| ==> v < |t[l]| / WORD_BITS && !FullFrom(t[l], a);
        RangeIsTaken(t, live0, Units(), l, a, WORD_BITS, r, n);
      }
    }

    /** A block of level `l`, placed. */
    method PlaceBlock(l: nat) returns (address: nat, ghost s: nat)
      requires Valid() && l < LEVELS
      modifies this`live, Data()
      ensures Valid() && SameSizes(old(Bitmaps()), Bitmaps()) && Placed(old(live), live, address, s, LevelSize(l))
      ensures address == 0 ==> Bitmaps() == old(Bitmaps())
    {
      ghost var t, before, n := Bitmaps(), live, LevelSize(l);
      ghost var i;
      address, i := AllocateBlock(l);
      s := FirstUnit(l, i);
      if address == 0 {
        forall r: nat {:trigger NoRoom(before, n, r)} | Managed(r, n) ensures NoRoom(before, n, r) {
          ManagedFits(r, n);
          NoBlockRoom(t, before, l, r);
        }
      } else {
        NewBlockWasClear(before, Units(), s, n);
        forall r: nat {:trigger NoRoom(before, n, r)} | r < s ensures NoRoom(before, n, r) {
          LowerMultiple(r, i, n);
          if r % n == 0 { NoBlockRoom(t, before, l, r); }
        }
      }
    }

    /** A word of blocks of level `l`, placed. */
    method PlaceWord(l: nat) returns (address: nat, ghost s: nat)
      requires Valid() && l < LEVELS
      modifies this`live, Data()
      ensures Valid() && SameSizes(old(Bitmaps()), Bitmaps()) && Placed(old(live), live, address, s, WordLevelSize(l))
      ensures address == 0 ==> Bitmaps() == old(Bitmaps())
    {
      ghost var t, before, n := Bitmaps(), live, WordLevelSize(l);
      ghost var w;
      address, w := AllocateWord(l);
      s := FirstWordUnit(l, w);
      if address == 0 {
        forall r: nat {:trigger NoRoom(before, n, r)} | Managed(r, n) ensures NoRoom(before, n, r) {
          ManagedFits(r, n);
          NoWordRoom(t, before, l, r);
        }
      } else {
        NewBlockWasClear(before, Units(), s, n);
        forall r: nat {:trigger NoRoom(before, n, r)} | r < s ensures NoRoom(before, n, r) {
          LowerMultiple(r, w, n);
          if r % n == 0 { NoWordRoom(t, before, l, r); }
        }
      }
    }

    /** The lowest free range that holds the request, if there is one. */
    method Allocate(pages: nat) returns (address: nat, ghost s: nat)
      requires Valid()
      modifies this`live, Data()
      ensures Valid() && SameSizes(old(Bitmaps()), Bitmaps())
      ensures address == 0 ==> live == old(live) && Bitmaps() == old(Bitmaps())
      ensures pages <= MAX_BLOCK * WORD_BITS ==>
                Reserved(pages) >= pages && Placed(old(live), live, address, s, Reserved(pages))
      ensures pages > MAX_BLOCK * WORD_BITS ==> address == 0
    {
      s := 0;
      if pages <= MAX_BLOCK {
        ReservedIsEnough(pages);
        address, s := PlaceBlock(Level(pages));
      } else if pages <= MAX_BLOCK * WORD_BITS {
        ReservedIsEnough(pages);
        var l := WordLevel(pages);
        address, s := PlaceWord(l);
      } else {
        address := 0;
      }
    }

    /** The bitmaps form a tree, whether or not they agree with the blocks handed out. */
    ghost predicate Formed()
      reads if Separate() then Data() else {}
    {
      Separate() && TreeOk(Bitmaps()) && SizesOk(Bitmaps(), Units())
    }

    /** Gives back the block at `address`, whose first unit is `s`: all the units that
        the level of `pages` stands for. That is right if and only if no other block
        reaches into them. The units need not be managed, as long as the bitmaps have room
        for them. */
    method Free(address: nat, pages: nat, ghost s: nat, ghost room: nat)
      requires Valid()
      requires pages <= MAX_BLOCK * WORD_BITS ==>
                 && address == firstAddress + s * UNIT && s in live && live[s] == Reserved(pages)
                 && s + Returned(pages) <= room && SizesOk(Bitmaps(), room)
      modifies this`live, Data()
      ensures Formed() && SameSizes(old(Bitmaps()), Bitmaps())
      ensures pages > MAX_BLOCK * WORD_BITS ==> live == old(live) && Bitmaps() == old(Bitmaps())
      ensures pages <= MAX_BLOCK * WORD_BITS ==>
                live == old(live) - {s} && Given(old(Bitmaps())[0], Bitmaps()[0], s, Returned(pages))
      ensures Valid() <==> pages > MAX_BLOCK * WORD_BITS || Alone(old(live), s, Returned(pages))
    {
      if pages > MAX_BLOCK * WORD_BITS {
        return;
      }
      ghost var t, before := Bitmaps(), live;
      MarkReturned(address, pages, s, room);
      ReturnedMatches(pages);
      GivingIsExact(t[0], Bitmaps()[0], before, Units(), s, Returned(pages));
      TakeBack(s);
    }

    /** Marks one block, or a word of blocks, as free. */
    method MarkReturned(address: nat, pages: nat, ghost s: nat, ghost room: nat)
      requires Formed() && pages <= MAX_BLOCK * WORD_BITS && Reserved(pages) > 0 && s % Reserved(pages) == 0
      requires address == firstAddress + s * UNIT && s + Returned(pages) <= room && SizesOk(Bitmaps(), room)
      modifies Data()
      ensures Formed() && SameSizes(old(Bitmaps()), Bitmaps())
      ensures Given(old(Bitmaps())[0], Bitmaps()[0], s, Returned(pages))
    {
      var l := Level(pages);
      Pow2Positive(l);
      var index := BlockIndex(address, l);
      assert s == index * LevelSize(l) by { IndexOfRelease(pages, s); }
      if pages > MAX_BLOCK {
        GiveWord(l, index, s, room);
      } else {
        GiveBlock(l, index, s, room);
      }
    }

    method GiveWord(l: nat, index: nat, ghost s: nat, ghost room: nat)
      requires Formed() && l < LEVELS && s == index * LevelSize(l) && s + WordLevelSize(l) <= room
      requires SizesOk(Bitmaps(), room)
      modifies Data()
      ensures Formed() && SameSizes(old(Bitmaps()), Bitmaps())
      ensures Given(old(Bitmaps())[0], Bitmaps()[0], s, WordLevelSize(l))
    {
      ghost var t := Bitmaps();
      assert s + WordLevelSize(l) == (index + WORD_BITS) * LevelSize(l) by { BlocksFrom(index, WORD_BITS, l); }
      BlocksFit(room, l, index, WORD_BITS, s, WordLevelSize(l));
      MarkWordFree(l, index, room);
      BlocksGiven(t, Bitmaps(), l, index, WORD_BITS, s, WordLevelSize(l));
    }

    method GiveBlock(l: nat, index: nat, ghost s: nat, ghost room: nat)
      requires Formed() && l < LEVELS && s == index * LevelSize(l) && s + LevelSize(l) <= room
      requires SizesOk(Bitmaps(), room)
      modifies Data()
      ensures Formed() && SameSizes(old(Bitmaps()), Bitmaps())
      ensures Given(old(Bitmaps())[0], Bitmaps()[0], s, LevelSize(l))
    {
      ghost var t := Bitmaps();
      assert s + LevelSize(l) == (index + 1) * LevelSize(l) by { BlocksFrom(index, 1, l); }
      BlocksFit(room, l, index, 1, s, LevelSize(l));
      MarkFree(l, index, room);
      BlocksGiven(t, Bitmaps(), l, index, 1, s, LevelSize(l));
    }

    ghost method TakeBack(s: nat)
      requires Separate()
      modifies this`live
      ensures live == old(live) - {s} && Bitmaps() == old(Bitmaps())
    {
      ghost var t := Bitmaps();
      live := live - {s};
      assert Bitmaps() == t;
    }

    /** A request and its release. The release is made where the bitmaps have room for it,
        which they have unless 129 to 4096 pages were asked for. Then it undoes the request
        on all eight levels if and only if it reaches no other block. */
    method RoundTrip(pages: nat, room: nat) returns (served: bool, released: bool, ghost s: nat)
      requires Valid() && SizesOk(Bitmaps(), room) && Units() <= room
      modifies this`live, Data()
      ensures !served ==> live == old(live) && Bitmaps() == old(Bitmaps())
      ensures served && !(MAX_BLOCK < pages <= 4096) ==> released && Alone(old(live), s, Returned(pages))
      ensures served ==> (released <==> s + Returned(pages) <= room)
      ensures released ==> live == old(live) && (Bitmaps() == old(Bitmaps()) <==> Alone(old(live), s, Returned(pages)))
    {
      ghost var t, before := Bitmaps(), live;
      var address;
      address, s := Allocate(pages);
      served, released := address != 0, false;
      if served {
        PlacedIsAlone(before, live, address, s, pages);
        released := (address - firstAddress) / UNIT + Returned(pages) <= room;
        assert (address - firstAddress) / UNIT == s;
        assert Managed(s, Reserved(pages)) && s + Reserved(pages) <= Units() by { ManagedFits(s, Reserved(pages)); }
        if released {
          GiveBack(address, pages, s, t, before, room);
        }
      }
    }

    /** A release, seen from the state `t` with the blocks `before` without this one. */
    method GiveBack(address: nat, pages: nat, ghost s: nat, ghost t: Tree, ghost before: Live, ghost room: nat)
      requires Valid() && pages <= MAX_BLOCK * WORD_BITS && address == firstAddress + s * UNIT
      requires s in live && live[s] == Reserved(pages) && s + Returned(pages) <= room && SizesOk(Bitmaps(), room)
      requires s !in before && live == before[s := Reserved(pages)] && BuddyOk(t, before, Units())
      requires SameSizes(t, Bitmaps())
      modifies this`live, Data()
      ensures Formed() && live == before && (Bitmaps() == t <==> Alone(old(live), s, Returned(pages)))
    {
      assert live - {s} == before;
      Free(address, pages, s, room);
      if Valid() { LiveDecidesBitmaps(t, Bitmaps(), live, Units()); }
    }

    lemma PlacedIsAlone(before: Live, during: Live, address: nat, s: nat, pages: nat)
      requires LiveOk(before, Units()) && pages <= MAX_BLOCK * WORD_BITS && address != 0
      requires Placed(before, during, address, s, Reserved(pages))
      ensures Alone(during, s, Returned(pages)) <==> Alone(before, s, Returned(pages))
      ensures !(MAX_BLOCK < pages <= 4096) ==> Alone(before, s, Returned(pages)) && Returned(pages) == Reserved(pages)
    {
      ReturnedMatches(pages);
      ClearMeansAlone(before, Units(), s, Reserved(pages));
      OwnBlockDoesNotCount(before, s, Reserved(pages), Returned(pages));
    }

    /** For every size of which a release gives back too much: two requests and one
        release after which a unit that is handed out is marked free. */
    method MismatchedRelease(pages: nat)
      requires Valid() && live == map[] && MAX_BLOCK < pages <= 4096 && Managed(0, Returned(pages))
      modifies this`live, Data()
      ensures live == map[Reserved(pages) := 1] && Formed() && !Valid()
      ensures Reserved(pages) < |Bitmaps()[0]| && Bitmaps()[0][Reserved(pages)]
    {
      ghost var n := Reserved(pages);
      assert Reserved(1) == 1 && 0 < n < Returned(pages) by { MismatchedSizes(pages); }
      ghost var none, one: Live := map[], map[0 := n];
      FirstPlaces(none, one, n);
      var a, s := Allocate(pages);
      assert a == firstAddress && s == 0 && live == one;
      var b, r := TakeUnit(one, n);
      ghost var two := live;
      TwoBlocks(one, two, n, Returned(pages));
      ManagedFits(0, Returned(pages));
      Free(a, pages, s, Units());
      assert InRange(n, 0, Returned(pages));
    }

    /** One page behind the only block handed out. */
    method TakeUnit(ghost one: Live, ghost n: nat) returns (address: nat, ghost s: nat)
      requires Valid() && live == one == map[0 := n] && n > 0 && Managed(n, 1) && Reserved(1) == 1
      requires !NoRoom(one, 1, n) && forall r: nat :: r < n ==> !Clear(one, r, 1)
      modifies this`live, Data()
      ensures Valid() && SameSizes(old(Bitmaps()), Bitmaps()) && s == n && live == one[n := 1]
    {
      address, s := Allocate(1);
    }
  }

  /** A second block right behind the first is in the way of a larger release. */
  lemma TwoBlocks(one: Live, two: Live, n: nat, m: nat)
    requires one == map[0 := n] && two == one[n := 1] && 0 < n < m
    ensures 0 in two && two[0] == n && two - {0} == map[n := 1] && !Alone(two, 0, m)
  {
    assert n in two && two[n] == 1;
  }

  /** A filled block is what the lowest level shows of it. */
  lemma FilledUnits(t: Tree, t': Tree, l: nat, i: nat)
    requires |t| == LEVELS && SameSizes(t, t') && t'[0] == Filled(t, l, i)[0]
    ensures UnitsSet(t, t', l, i, i + 1)
  {
    assert forall u: nat :: Inside(l, i, 0, u) <==> i <= Up(u, l) < i + 1;
  }

  lemma MismatchedSizes(pages: nat)
    requires MAX_BLOCK < pages <= 4096
    ensures 0 < Reserved(pages) < Returned(pages) && Reserved(1) == 1
  {
    PowersOfTwo();
    ReservedIsEnough(pages);
    ReturnedMatches(pages);
  }

  /** The lowest places, in an empty allocator and behind one block. */
  lemma FirstPlaces(none: Live, one: Live, n: nat)
    requires none == map[] && one == map[0 := n] && n > 0
    ensures !NoRoom(none, n, 0) && !NoRoom(one, 1, n) && forall r: nat :: r < n ==> !Clear(one, r, 1)
  {
    assert Clear(none, 0, n) && Clear(one, n, 1);
    forall r: nat | r < n ensures !Clear(one, r, 1) { assert InRange(r, 0, one[0]) && Covered(one, r); }
  }

  lemma OwnBlockDoesNotCount(live: Live, s: nat, n: nat, m: nat)
    requires s !in live
    ensures Alone(live[s := n], s, m) <==> Alone(live, s, m)
  {
    var live' := live[s := n];
    assert forall r :: r in live ==> r in live' && live'[r] == live[r] && r != s;
    assert forall r :: r in live' && r != s ==> r in live;
  }

  lemma ClearMeansAlone(live: Live, units: nat, s: nat, n: nat)
    requires LiveOk(live, units) && Clear(live, s, n) && s !in live && n > 0
    ensures Alone(live, s, n)
  {
    forall r | r in live ensures r + live[r] <= s || s + n <= r {
      assert !Covered(live, s) && !InRange(s, r, live[r]);
      if s <= r < s + n { assert InRange(r, r, live[r]) && Covered(live, r); }
    }
  }

  /** If one of the blocks `a` to `a + c - 1` is not free, a unit of theirs is handed out. */
  lemma RangeIsTaken(t: Tree, live: Live, units: nat, l: nat, a: nat, c: nat, s: nat, n: nat)
    requires BuddyOk(t, live, units) && l < LEVELS && c > 0 && s == a * LevelSize(l)
    requires s + n == (a + c) * LevelSize(l) <= units
    requires a + c <= |t[l]| ==> exists i :: a <= i < a + c && !t[l][i]
    ensures !Clear(live, s, n)
  {
    BlocksFit(units, l, a, c, s, n);
    var i :| a <= i < a + c && !t[l][i];
    if Clear(live, s, n) {
      forall u | 0 <= u < |t[0]| && Up(u, l) == i ensures t[0][u] { UnitsOfBlocks(l, a, a + c, u); }
      FreeUnitsMakeFreeBlock(t, units, l, i);
      assert false;
    }
  }

  lemma LowerMultiple(r: nat, i: nat, n: nat)
    requires n > 0 && r < i * n
    ensures r % n == 0 ==> r + n <= i * n
    ensures forall q: nat :: r == q * n ==> q < i
  {
    forall q: nat | r == q * n ensures q < i && r + n <= i * n {
      assert q >= i ==> q * n >= i * n;
      assert (q + 1) * n <= i * n;
    }
    assert r % n == 0 ==> r == (r / n) * n;
  }

  /** The units of a release, as blocks. */
  lemma BlocksGiven(t: Tree, t': Tree, l: nat, a: nat, c: nat, s: nat, n: nat)
    requires UnitsSet(t, t', l, a, a + c) && s == a * LevelSize(l) && s + n == (a + c) * LevelSize(l)
    ensures Given(t[0], t'[0], s, n)
  {
    forall u: nat ensures a <= Up(u, l) < a + c <==> InRange(u, s, n) { UnitsOfBlocks(l, a, a + c, u); }
  }

  lemma BlocksFrom(a: nat, c: nat, l: nat)
    ensures (a + c) * LevelSize(l) == a * LevelSize(l) + c * LevelSize(l)
  {
  }

  /** The first block of a release, found again from its address. */
  lemma IndexOfRelease(pages: nat, s: nat)
    requires pages <= MAX_BLOCK * WORD_BITS && Reserved(pages) > 0 && s % Reserved(pages) == 0
    requires LevelSize(Level(pages)) > 0
    ensures s == Quotient(s * UNIT, LevelSize(Level(pages)) * UNIT) * LevelSize(Level(pages))
  {
    var m := ReservedIsAligned(pages);
    IndexOfMultiple(s, Reserved(pages), m, LevelSize(Level(pages)));
  }

  lemma IndexOfMultiple(s: nat, n: nat, m: nat, p: nat)
    requires n > 0 && p > 0 && s % n == 0 && n == m * p
    ensures s == Quotient(s * UNIT, p * UNIT) * p
  {
    var q := s / n;
    assert s == q * n;
    Regrouped(s, q, m, p);
    QuotientUnique(s * UNIT, p * UNIT, q * m);
  }

  lemma Regrouped(s: nat, q: nat, m: nat, p: nat)
    requires s == q * (m * p)
    ensures s == (q * m) * p && s * UNIT == (q * m) * (p * UNIT)
  {
    assert q * (m * p) == (q * m) * p;
    assert ((q * m) * p) * UNIT == (q * m) * (p * UNIT);
  }

  ghost function FirstUnit(l: nat, i: nat): nat
  {
    i * LevelSize(l)
  }

  ghost function FirstWordUnit(l: nat, w: nat): nat
  {
    w * WordLevelSize(l)
  }

  lemma WordStart(w: nat, l: nat)
    ensures w * WORD_BITS * LevelSize(l) == w * WordLevelSize(l)
    ensures (w * WORD_BITS + WORD_BITS) * LevelSize(l) == w * WordLevelSize(l) + WordLevelSize(l)
  {
  }

  /** `c` blocks from block `a` on that end within the managed units. */
  lemma BlocksFit(units: nat, l: nat, a: nat, c: nat, s: nat, n: nat)
    requires c > 0 && s == a * LevelSize(l) && s + n == (a + c) * LevelSize(l) <= units
    ensures a + c <= Cap(units, l)
  {
    FitsBelowCap(units, a + c - 1, l);
  }

  /** Taking `c` free blocks from block `a` on: they join the blocks handed out. */
  lemma BlocksLeave(t: Tree, t': Tree, live: Live, units: nat, l: nat, a: nat, c: nat, q: nat, s: nat, n: nat)
    requires BuddyOk(t, live, units) && l < LEVELS && a + c <= Cap(units, l)
    requires forall i :: a <= i < a + c ==> t[l][i]
    requires s == a * LevelSize(l) == q * n && n > 0 && s + n == (a + c) * LevelSize(l) <= units
    requires UnitsCleared(t, t', l, a, a + c)
    ensures s !in live && LiveOk(live[s := n], units) && Exact(t'[0], live[s := n])
  {
    MultipleModulo(q, n);
    forall u: nat ensures a <= Up(u, l) < a + c <==> InRange(u, s, n) { UnitsOfBlocks(l, a, a + c, u); }
    forall u | s <= u < s + n ensures t[0][u] {
      assert InRange(u, s, n);
      FreeBlockHasFreeUnits(t, units, l, Up(u, l), u);
    }
    TakingIsExact(t[0], t'[0], live, units, s, n);
  }

  lemma MultipleModulo(i: nat, n: nat)
    requires n > 0
    ensures i * n % n == 0
  {
    QuotientUnique(i * n, n, i);
  }

  lemma {:induction false} CapMonotone(units: nat, more: nat, l: nat)
    requires units <= more
    ensures Cap(units, l) <= Cap(more, l)
  {
    if l > 0 { CapMonotone(units, more, l - 1); }
  }
}
