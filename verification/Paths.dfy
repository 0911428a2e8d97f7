/** Paths as the kernel keeps them: a normal string and the positions of its slashes. */
module Paths {
  import opened PathModel

  /** The string without its character `k`. */
  function Erased(s: string, k: nat): string
    requires k < |s|
  {
    s[..k] + s[k + 1..]
  }

  class Path {
    var base: string
    var positions: seq<nat>

    ghost predicate Valid()
      reads this
    {
      Canonical(base) && positions == Kept(Slashes(base, 0))
    }

    /** Short enough for its positions. */
    ghost predicate Fits()
      reads this
    {
      |base| <= 0x1_0000
    }

    /** Brings the string into its normal form and finds the slashes. */
    method UpdatePositions()
      modifies this
      ensures Valid() && base == Normal(old(base))
    {
      positions := [];
      if base == "" {
        return;
      }
      SqueezeInPlace();
      if base[|base| - 1] != SLASH {
        base := base + [SLASH];
      }
      NormalIsCanonical(old(base));
      FindPositions();
    }

    method FindPositions()
      requires positions == []
      modifies `positions
      ensures positions == Kept(Slashes(base, 0))
    {
      ghost var found: seq<nat> := [];
      for i := 0 to |base|
        invariant positions == Kept(found) && Slashes(base, 0) == found + Slashes(base, i)
      {
        if base[i] == SLASH {
          assert found + ([i] + Slashes(base, i + 1)) == found + [i] + Slashes(base, i + 1);
          positions := positions + [i % 0x1_0000];
          found := found + [i];
        }
      }
      assert found + [] == found;
    }

    /** Erases the second of two slashes, from the end to the start. */
    method SqueezeInPlace()
      requires base != ""
      modifies `base
      ensures base == Squeeze(old(base))
    {
      ghost var s := base;
      var i := |base| - 2;
      assert s == s[..i + 1] + s[i + 1..] && Squeeze(s[i + 1..]) == s[i + 1..];
      while i >= 0
        invariant -1 <= i <= |s| - 2 && base == s[..i + 1] + Squeeze(s[i + 1..])
      {
        SqueezeStep(s, i);
        if base[i] == SLASH && base[i + 1] == SLASH {
          base := Erased(base, i + 1);
        }
        i := i - 1;
      }
      assert s[..0] + Squeeze(s[0..]) == Squeeze(s) by { assert s[0..] == s; }
    }

    /** The empty path. */
    constructor ()
      ensures Valid() && base == ""
    {
      base, positions := "", [];
    }

    constructor FromString(s: string)
      requires s != ""
      ensures Valid() && base == Normal(s) && Names(base) == NamesOf(s)
    {
      base, positions := s, [];
      new;
      UpdatePositions();
      NormalKeepsNames(s);
    }

    /** A path and more names behind it, given as a string. */
    constructor Extend(p: Path, s: string)
      requires p.Valid() && (s == "" || s[0] != SLASH)
      ensures Valid() && base == Normal(p.base + s) && Names(base) == Names(p.base) + NamesOf(s)
    {
      base, positions := p.base + s, [];
      new;
      UpdatePositions();
      NormalConcat(p.base, s);
      NormalIsCanonical(s);
      NormalKeepsNames(s);
      NamesConcat(p.base, Normal(s));
    }

    /** One path behind another. */
    constructor Concat(p: Path, q: Path)
      requires p.Valid() && q.Valid() && !Absolute(q.base)
      ensures Valid() && base == p.base + q.base && Names(base) == Names(p.base) + Names(q.base)
    {
      base, positions := p.base + q.base, [];
      new;
      UpdatePositions();
      NamesConcat(p.base, q.base);
      NormalKeeps(p.base + q.base);
    }

    function Size(): nat
      reads this
    {
      |positions|
    }

    lemma PositionsAreExact()
      requires Valid() && Fits()
      ensures Layout(base, positions) && Inside(positions, base)
    {
      PositionsFit(base);
      SlashesLayout(base);
    }

    /** A path for any string. */
    static method Build(s: string) returns (p: Path)
      ensures fresh(p) && p.Valid() && p.base == Normal(s)
    {
      p := new Path();
      p.base := s;
      p.UpdatePositions();
    }

    method Name(i: nat) returns (name: string)
      requires Valid() && Fits() && i < Size()
      ensures i < |Names(base)| && name == Names(base)[i]
    {
      PositionsAreExact();
      assert CutAt(base, positions, i);
      if Absolute(base) && i == 0 {
        return [SLASH];
      }
      if i == 0 {
        return base[..positions[i]];
      }
      return base[positions[i - 1] + 1..positions[i]];
    }

    method BaseName() returns (name: string)
      requires Valid() && Fits()
      ensures name == BaseNameOf(base, positions)
      ensures base != "" ==> Names(base) != [] && name == Names(base)[|Names(base)| - 1]
    {
      assert Layout(base, positions) by { PositionsAreExact(); }
      name := LastPart();
      if base != "" { BaseNameIsLast(base, positions); }
    }

    method LastPart() returns (name: string)
      requires Layout(base, positions)
      ensures name == BaseNameOf(base, positions)
    {
      if base == "" {
        return "";
      }
      if IsRoot(base) {
        return [SLASH];
      }
      if Size() == 1 {
        return base[..|base| - 1];
      }
      assert CutAt(base, positions, Size() - 1);
      return base[positions[Size() - 2] + 1..|base| - 1];
    }

    method SubPath(i: nat) returns (p: Path)
      requires Valid() && Fits() && i <= Size()
      ensures p.Valid() && i <= |Names(base)| && Names(p.base) == Names(base)[i..]
    {
      assert Layout(base, positions) && Inside(positions, base) by { PositionsAreExact(); }
      assert Canonical(SubPathOf(base, positions, i)) && Names(SubPathOf(base, positions, i)) == Names(base)[i..] by {
        SubPathDrops(base, positions, i);
      }
      if i == 0 {
        return this;
      }
      if i == Size() {
        p := new Path();
        return;
      }
      p := Build(base[positions[i - 1] + 1..]);
    }

    method BranchPath() returns (p: Path)
      requires Valid() && Fits()
      ensures p.Valid() && p.base == BranchOf(base, positions)
    {
      assert Layout(base, positions) by { PositionsAreExact(); }
      var keep, front := FrontPart();
      if keep {
        return this;
      }
      p := Build(front);
    }

    method FrontPart() returns (keep: bool, front: string)
      requires Layout(base, positions)
      ensures BranchOf(base, positions) == if keep then base else Normal(front)
    {
      OneSlash(base, positions);
      if base == "" || IsRoot(base) {
        return true, "";
      }
      if !Absolute(base) && Size() == 1 {
        return true, "";
      }
      assert CutAt(base, positions, Size() - 2);
      return false, base[..positions[Size() - 2]];
    }

    /** Taking the last name off and putting it back gives the same path, in every case
        but those of a path with one name only. */
    method BranchAndBase() returns (same: bool)
      requires Valid() && Fits() && !IsRoot(base)
      ensures same <==> base == "" || Named(base) >= 2
    {
      var branch := BranchPath();
      var name := BaseName();
      assert name == "" || name[0] != SLASH by {
        if base != "" { WordNames(base, name); }
      }
      var whole := new Path.Extend(branch, name);
      same := whole.base == base;
      assert Layout(base, positions) by { PositionsAreExact(); }
      BranchThenBase(base, positions);
    }
  }
}
