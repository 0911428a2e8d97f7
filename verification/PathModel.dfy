/** Paths over strings: the normal form, the names in it, and the laws of taking
    paths apart and putting them together. */
module PathModel {

  const SLASH: char := '/'

  predicate Absolute(s: string)
  {
    s != "" && s[0] == SLASH
  }

  predicate EndsWithSlash(s: string)
  {
    s != "" && s[|s| - 1] == SLASH
  }

  predicate NoDouble(s: string)
  {
    forall i :: 0 <= i < |s| - 1 ==> !(s[i] == SLASH && s[i + 1] == SLASH)
  }

  /** The form every path is kept in. */
  predicate Canonical(s: string)
  {
    s == "" || (EndsWithSlash(s) && NoDouble(s))
  }

  // ----- Normalising -----

  /** One slash instead of several. */
  function Squeeze(s: string): (r: string)
    ensures |r| <= |s| && (s != "" ==> r != "" && r[0] == s[0])
  {
    if |s| < 2 then s
    else if s[0] == SLASH && s[1] == SLASH then Squeeze(s[1..])
    else [s[0]] + Squeeze(s[1..])
  }

  function Normal(s: string): string
  {
    var q := Squeeze(s);
    if q == "" || EndsWithSlash(q) then q else q + [SLASH]
  }

  lemma {:induction false} SqueezeHasNoDouble(s: string)
    ensures NoDouble(Squeeze(s)) && (EndsWithSlash(s) <==> EndsWithSlash(Squeeze(s)))
    decreases |s|
  {
    if |s| >= 2 {
      SqueezeHasNoDouble(s[1..]);
    }
  }

  /** One step of squeezing from the end: the part behind `i` is done. */
  lemma SqueezeStep(s: string, i: nat)
    requires i + 1 < |s|
    ensures var rest := Squeeze(s[i + 1..]);
            && rest != "" && rest[0] == s[i + 1]
            && s[..i] + Squeeze(s[i..]) == s[..i + 1] + (if s[i] == SLASH && s[i + 1] == SLASH then rest[1..] else rest)
  {
    var rest := Squeeze(s[i + 1..]);
    SqueezeFirst(s, i);
    Regroup(s, i, if s[i] == SLASH && s[i + 1] == SLASH then rest[1..] else rest);
  }

  lemma SqueezeFirst(s: string, i: nat)
    requires i + 1 < |s|
    ensures var rest := Squeeze(s[i + 1..]);
            && rest != "" && rest[0] == s[i + 1]
            && Squeeze(s[i..]) == [s[i]] + (if s[i] == SLASH && s[i + 1] == SLASH then rest[1..] else rest)
  {
    var t := s[i..];
    assert t[1..] == s[i + 1..] && t[0] == s[i] && t[1] == s[i + 1];
  }

  lemma Regroup(s: string, i: nat, rest: string)
    requires i < |s|
    ensures s[..i] + ([s[i]] + rest) == s[..i + 1] + rest
  {
  }

  lemma NormalIsCanonical(s: string)
    ensures Canonical(Normal(s)) && (Normal(s) == "" <==> s == "") && (Absolute(Normal(s)) <==> Absolute(s))
  {
    SqueezeHasNoDouble(s);
  }

  lemma {:induction false} SqueezeKeeps(s: string)
    requires NoDouble(s)
    ensures Squeeze(s) == s
    decreases |s|
  {
    if |s| >= 2 {
      SqueezeKeeps(s[1..]);
    }
  }

  /** A canonical string is its own normal form. */
  lemma NormalKeeps(s: string)
    requires Canonical(s)
    ensures Normal(s) == s
  {
    SqueezeKeeps(s);
  }

  lemma NormalTwice(s: string)
    ensures Normal(Normal(s)) == Normal(s)
  {
    NormalIsCanonical(s);
    NormalKeeps(Normal(s));
  }

  // ----- Names -----

  /** The pieces that slashes end; `piece` is the start of the first. */
  function Split(piece: string, s: string): seq<string>
    decreases |s|
  {
    if s == "" then (if piece == "" then [] else [piece])
    else if s[0] == SLASH then [piece] + Split("", s[1..])
    else Split(piece + [s[0]], s[1..])
  }

  /** The names of a canonical path; the first name of an absolute one is a slash. */
  function Names(s: string): seq<string>
  {
    var pieces := Split("", s);
    if Absolute(s) && pieces != [] then [[SLASH]] + pieces[1..] else pieces
  }

  function Join(names: seq<string>): string
  {
    if names == [] then "" else names[0] + [SLASH] + Join(names[1..])
  }

  /** The path that has these names. */
  function Rebuilt(names: seq<string>): string
  {
    if names != [] && names[0] == [SLASH] then [SLASH] + Join(names[1..]) else Join(names)
  }

  lemma {:induction false} JoinSplit(piece: string, s: string)
    requires EndsWithSlash(s)
    ensures Join(Split(piece, s)) == piece + s
    decreases |s|
  {
    if s[0] == SLASH {
      var rest := Split("", s[1..]);
      assert Join(rest) == s[1..] by {
        if |s| > 1 {
          JoinSplit("", s[1..]);
          assert "" + s[1..] == s[1..];
        }
      }
      JoinCons(piece, rest);
      assert piece + [SLASH] + s[1..] == piece + s;
    } else {
      JoinSplit(piece + [s[0]], s[1..]);
      assert piece + [s[0]] + s[1..] == piece + s;
    }
  }

  lemma JoinCons(name: string, names: seq<string>)
    ensures Join([name] + names) == name + [SLASH] + Join(names)
  {
    assert ([name] + names)[1..] == names;
  }

  /** A name without slashes. */
  predicate Plain(name: string)
  {
    SLASH !in name
  }

  lemma {:induction false} PiecesArePlain(piece: string, s: string)
    requires Plain(piece)
    ensures forall k :: 0 <= k < |Split(piece, s)| ==> Plain(Split(piece, s)[k])
    decreases |s|
  {
    if s != "" {
      if s[0] == SLASH {
        PiecesArePlain("", s[1..]);
      } else {
        PiecesArePlain(piece + [s[0]], s[1..]);
      }
    }
  }

  lemma {:induction false} FirstPiece(piece: string, s: string)
    requires EndsWithSlash(s)
    ensures Split(piece, s) != [] && piece <= Split(piece, s)[0]
    ensures Split(piece, s)[0] == piece <==> s[0] == SLASH
    decreases |s|
  {
    if s[0] != SLASH {
      FirstPiece(piece + [s[0]], s[1..]);
    }
  }

  /** No name is empty, in a canonical path, behind the first. */
  lemma {:induction false} PiecesAreNonEmpty(piece: string, s: string)
    requires Canonical(s)
    ensures forall k :: 1 <= k < |Split(piece, s)| ==> Split(piece, s)[k] != ""
    decreases |s|
  {
    if s != "" {
      var rest := s[1..];
      if s[0] == SLASH {
        PiecesAreNonEmpty("", rest);
        if rest != "" { FirstPiece("", rest); }
      } else {
        PiecesAreNonEmpty(piece + [s[0]], rest);
      }
    }
  }

  /** Joining the names gives the path back. */
  lemma NamesRebuild(s: string)
    requires Canonical(s)
    ensures Rebuilt(Names(s)) == s
  {
    if s != "" {
      var pieces := Split("", s);
      JoinSplit("", s);
      FirstPiece("", s);
      PiecesArePlain("", s);
      assert "" + s == s;
      assert [SLASH][0] in [SLASH];
      if Absolute(s) {
        assert Names(s)[1..] == pieces[1..] && [""] + pieces[1..] == pieces;
        JoinCons("", pieces[1..]);
        assert "" + [SLASH] + Join(pieces[1..]) == [SLASH] + Join(pieces[1..]);
      }
    }
  }

  /** What names a path may have: a slash first, or not, and plain words. */
  ghost predicate Wellformed(names: seq<string>)
  {
    forall k :: 0 <= k < |names| ==> (k == 0 && names[k] == [SLASH]) || (names[k] != "" && Plain(names[k]))
  }

  lemma {:induction false} SplitJoin(names: seq<string>)
    requires forall k :: 0 <= k < |names| ==> Plain(names[k])
    ensures Split("", Join(names)) == names
    decreases |names|
  {
    if names != [] {
      SplitJoin(names[1..]);
      SplitFirst("", names[0], Join(names[1..]));
      assert "" + names[0] == names[0] && [names[0]] + names[1..] == names;
      assert names[0] + [SLASH] + Join(names[1..]) == names[0] + ([SLASH] + Join(names[1..]));
    }
  }

  lemma {:induction false} SplitFirst(piece: string, name: string, rest: string)
    requires Plain(name)
    ensures Split(piece, name + ([SLASH] + rest)) == [piece + name] + Split("", rest)
    decreases |name|
  {
    var s := name + ([SLASH] + rest);
    if name == "" {
      assert s[1..] == rest && piece + name == piece;
    } else {
      assert s[1..] == name[1..] + ([SLASH] + rest);
      SplitFirst(piece + [name[0]], name[1..], rest);
      assert piece + [name[0]] + name[1..] == piece + name;
    }
  }

  lemma {:induction false} JoinIsCanonical(names: seq<string>)
    requires forall k :: 0 <= k < |names| ==> names[k] != "" && Plain(names[k])
    ensures Canonical(Join(names)) && !Absolute(Join(names))
    decreases |names|
  {
    if names != [] {
      var n, rest := names[0], Join(names[1..]);
      JoinIsCanonical(names[1..]);
      PlainThenCanonical(n, rest);
    }
  }

  lemma PlainThenCanonical(n: string, rest: string)
    requires n != "" && Plain(n) && Canonical(rest) && !Absolute(rest)
    ensures Canonical(n + [SLASH] + rest) && !Absolute(n + [SLASH] + rest)
  {
    var s := n + [SLASH] + rest;
    forall i | 0 <= i < |s| - 1 ensures !(s[i] == SLASH && s[i + 1] == SLASH) {
      if i < |n| {
        assert s[i] == n[i] && n[i] in n;
      } else if i > |n| {
        assert s[i] == rest[i - |n| - 1] && s[i + 1] == rest[i - |n|];
      }
    }
    assert s[0] == n[0] && n[0] in n;
  }

  /** Every list of names has one canonical path, which has these names. */
  lemma RebuiltNames(names: seq<string>)
    requires Wellformed(names)
    ensures Canonical(Rebuilt(names)) && Names(Rebuilt(names)) == names
  {
    if names != [] && names[0] == [SLASH] {
      RebuiltAbsolute(names[1..]);
      assert [[SLASH]] + names[1..] == names;
    } else {
      JoinIsCanonical(names);
      SplitJoin(names);
    }
  }

  lemma RebuiltAbsolute(tail: seq<string>)
    requires forall k :: 0 <= k < |tail| ==> tail[k] != "" && Plain(tail[k])
    ensures var s := [SLASH] + Join(tail); Canonical(s) && Names(s) == [[SLASH]] + tail
  {
    JoinIsCanonical(tail);
    SplitJoin(tail);
    SlashThenCanonical(Join(tail));
    SlashThenNames(Join(tail));
  }

  lemma SlashThenCanonical(rest: string)
    requires Canonical(rest) && !Absolute(rest)
    ensures Canonical([SLASH] + rest)
  {
    var s := [SLASH] + rest;
    forall i | 0 <= i < |s| - 1 ensures !(s[i] == SLASH && s[i + 1] == SLASH) {
      assert s[i + 1] == rest[i] && (i > 0 ==> s[i] == rest[i - 1]);
    }
  }

  lemma SlashThenNames(rest: string)
    ensures Names([SLASH] + rest) == [[SLASH]] + Split("", rest)
  {
    var s := [SLASH] + rest;
    assert s[1..] == rest;
  }

  /** The names of a path are a proper list of names. */
  lemma NamesAreWellformed(s: string)
    requires Canonical(s)
    ensures Wellformed(Names(s))
  {
    if s != "" {
      PiecesArePlain("", s);
      PiecesAreNonEmpty("", s);
      FirstPiece("", s);
    }
  }

  // ----- What normalising means -----

  /** The words between slashes, however many slashes there are. */
  function Words(piece: string, s: string): seq<string>
    decreases |s|
  {
    if s == "" then Word(piece)
    else if s[0] == SLASH then Word(piece) + Words("", s[1..])
    else Words(piece + [s[0]], s[1..])
  }

  function Word(piece: string): seq<string>
  {
    if piece == "" then [] else [piece]
  }

  /** The names that any string stands for. */
  function NamesOf(s: string): seq<string>
  {
    (if Absolute(s) then [[SLASH]] else []) + Words("", s)
  }

  lemma {:induction false} SqueezeKeepsWords(piece: string, s: string)
    ensures Words(piece, Squeeze(s)) == Words(piece, s)
    decreases |s|
  {
    if |s| >= 2 {
      var t := s[1..];
      if s[0] == SLASH && s[1] == SLASH {
        SqueezeKeepsWords(piece, t);
        assert Words(piece, s) == Word(piece) + Words("", t) && Words("", t) == Words("", t[1..]);
      } else if s[0] == SLASH {
        SqueezeKeepsWords("", t);
        assert ([s[0]] + Squeeze(t))[1..] == Squeeze(t);
      } else {
        SqueezeKeepsWords(piece + [s[0]], t);
        assert ([s[0]] + Squeeze(t))[1..] == Squeeze(t);
      }
    }
  }

  lemma {:induction false} FinalSlashKeepsWords(piece: string, s: string)
    ensures Words(piece, s + [SLASH]) == Words(piece, s)
    decreases |s|
  {
    var t := s + [SLASH];
    if s == "" {
      assert t[1..] == "" && Words(piece, t) == Word(piece) + Words("", "");
    } else {
      assert t[1..] == s[1..] + [SLASH];
      FinalSlashKeepsWords(if s[0] == SLASH then "" else piece + [s[0]], s[1..]);
    }
  }

  /** In a canonical string every piece is a word. */
  lemma {:induction false} PiecesAreWords(piece: string, s: string)
    requires Canonical(s) && (piece == "" ==> !Absolute(s))
    ensures Split(piece, s) == Words(piece, s)
    decreases |s|
  {
    if s != "" {
      PiecesAreWords(if s[0] == SLASH then "" else piece + [s[0]], s[1..]);
    }
  }

  lemma CanonicalNames(s: string)
    requires Canonical(s)
    ensures Names(s) == NamesOf(s)
  {
    if Absolute(s) {
      PiecesAreWords("", s[1..]);
      assert Split("", s) == [""] + Split("", s[1..]);
      assert Words("", s) == [] + Words("", s[1..]);
    } else {
      PiecesAreWords("", s);
      assert [] + Words("", s) == Words("", s);
    }
  }

  /** Normalising keeps the names, for every string. */
  lemma NormalKeepsNames(s: string)
    ensures Names(Normal(s)) == NamesOf(s)
  {
    NormalIsCanonical(s);
    CanonicalNames(Normal(s));
    SqueezeKeepsWords("", s);
    FinalSlashKeepsWords("", Squeeze(s));
  }

  // ----- Putting paths together -----

  lemma {:induction false} SplitConcat(piece: string, a: string, b: string)
    requires EndsWithSlash(a)
    ensures Split(piece, a + b) == Split(piece, a) + Split("", b)
    decreases |a|
  {
    var t := a + b;
    if |a| == 1 {
      assert t[1..] == b && a[1..] == "";
      assert Split(piece, a) == [piece] + Split("", "") == [piece];
    } else {
      assert t[1..] == a[1..] + b;
      SplitConcat(if a[0] == SLASH then "" else piece + [a[0]], a[1..], b);
    }
  }

  lemma ConcatIsCanonical(a: string, b: string)
    requires Canonical(a) && Canonical(b) && !Absolute(b)
    ensures Canonical(a + b)
  {
    var s := a + b;
    forall i | 0 <= i < |s| - 1 ensures !(s[i] == SLASH && s[i + 1] == SLASH) {
      if i + 1 < |a| {
        assert s[i] == a[i] && s[i + 1] == a[i + 1];
      } else if i + 1 == |a| {
        assert s[i + 1] == b[0];
      } else {
        assert s[i] == b[i - |a|] && s[i + 1] == b[i + 1 - |a|];
      }
    }
  }

  /** The names of two paths together are the names of one and then of the other. */
  lemma NamesConcat(a: string, b: string)
    requires Canonical(a) && Canonical(b) && !Absolute(b)
    ensures Canonical(a + b) && Names(a + b) == Names(a) + Names(b)
  {
    ConcatIsCanonical(a, b);
    if a == "" {
      assert a + b == b;
    } else {
      SplitConcat("", a, b);
      FirstPiece("", a);
    }
  }

  lemma {:induction false} SqueezeConcat(a: string, b: string)
    requires NoDouble(a) && (a != "" ==> !Absolute(b))
    ensures Squeeze(a + b) == a + Squeeze(b)
    decreases |a|
  {
    var s := a + b;
    if a == "" {
      assert s == b;
    } else if |s| >= 2 {
      assert s[1..] == a[1..] + b;
      SqueezeConcat(a[1..], b);
      assert [a[0]] + (a[1..] + Squeeze(b)) == a + Squeeze(b);
    }
  }

  /** Adding a string to a path normalises the string. */
  lemma NormalConcat(a: string, b: string)
    requires Canonical(a) && (b == "" || b[0] != SLASH)
    ensures Normal(a + b) == a + Normal(b)
  {
    assert Squeeze(a + b) == a + Squeeze(b) by { SqueezeConcat(a, b); }
    Closed(a, Squeeze(b));
  }

  /** The slash that is missing at the end is the same one. */
  lemma Closed(a: string, q: string)
    requires a == "" || EndsWithSlash(a)
    ensures q != "" ==> (EndsWithSlash(a + q) <==> EndsWithSlash(q)) && a + q + [SLASH] == a + (q + [SLASH])
    ensures q == "" ==> a + q == a
  {
  }

  // ----- Positions -----

  /** The positions of the slashes from `i` on. */
  function Slashes(s: string, i: nat): (ps: seq<nat>)
    requires i <= |s|
    ensures forall k :: 0 <= k < |ps| ==> i <= ps[k] < |s| && s[ps[k]] == SLASH
    ensures |ps| <= |s| - i
    decreases |s| - i
  {
    if i == |s| then [] else if s[i] == SLASH then [i] + Slashes(s, i + 1) else Slashes(s, i + 1)
  }

  /** Positions are kept in sixteen bits. */
  function Kept(ps: seq<nat>): (r: seq<nat>)
    ensures |r| == |ps| && forall k :: 0 <= k < |ps| ==> r[k] == ps[k] % 0x1_0000
  {
    seq(|ps|, k requires 0 <= k < |ps| => ps[k] % 0x1_0000)
  }

  lemma {:induction false} LastSlash(s: string, i: nat)
    requires EndsWithSlash(s) && i < |s|
    ensures var ps := Slashes(s, i); ps != [] && ps[|ps| - 1] == |s| - 1
    decreases |s| - i
  {
    if i < |s| - 1 {
      LastSlash(s, i + 1);
    }
  }

  /** They are kept exactly in paths of at most this length, and in no other. */
  lemma PositionsFit(s: string)
    requires Canonical(s)
    ensures Kept(Slashes(s, 0)) == Slashes(s, 0) <==> |s| <= 0x1_0000
  {
    var ps := Slashes(s, 0);
    assert s != "" ==> ps != [] && ps[|ps| - 1] == |s| - 1 by {
      if s != "" { LastSlash(s, 0); }
    }
    KeptFits(ps, |s|);
  }

  lemma KeptFits(ps: seq<nat>, n: nat)
    requires forall k :: 0 <= k < |ps| ==> ps[k] < n
    requires if n == 0 then ps == [] else ps != [] && ps[|ps| - 1] == n - 1
    ensures Kept(ps) == ps <==> n <= 0x1_0000
  {
    if n > 0x1_0000 {
      assert Kept(ps)[|ps| - 1] < 0x1_0000;
    }
  }

  /** The pieces from `i` on, the first of which starts at `start`. */
  function Pieces(s: string, start: nat, i: nat): seq<string>
    requires start <= i <= |s|
    decreases |s| - i
  {
    if i == |s| then (if start == |s| then [] else [s[start..]])
    else if s[i] == SLASH then [s[start..i]] + Pieces(s, i + 1, i + 1)
    else Pieces(s, start, i + 1)
  }

  lemma {:induction false} PiecesSplit(s: string, start: nat, i: nat)
    requires start <= i <= |s|
    ensures Pieces(s, start, i) == Split(s[start..i], s[i..])
    decreases |s| - i
  {
    if i < |s| {
      assert s[i..][1..] == s[i + 1..];
      if s[i] == SLASH {
        assert s[i + 1..i + 1] == "";
        PiecesSplit(s, i + 1, i + 1);
      } else {
        assert s[start..i] + [s[i]] == s[start..i + 1];
        PiecesSplit(s, start, i + 1);
      }
    } else {
      assert s[start..] == s[start..i];
    }
  }

  lemma {:induction false} PieceCount(s: string, start: nat, i: nat)
    requires start <= i <= |s| && (start < |s| ==> s[|s| - 1] == SLASH)
    ensures |Pieces(s, start, i)| == |Slashes(s, i)| || i == |s|
    ensures start == |s| ==> Pieces(s, start, i) == []
    decreases |s| - i
  {
    if i < |s| {
      if s[i] == SLASH {
        PieceCount(s, i + 1, i + 1);
      } else {
        PieceCount(s, start, i + 1);
      }
    }
  }

  /** Where piece `k` starts, if the first starts at `start`. */
  function StartOf(ps: seq<nat>, start: nat, k: nat): nat
    requires k <= |ps|
  {
    if k == 0 then start else ps[k - 1] + 1
  }

  /** Piece `k` is what lies between two slashes. */
  ghost predicate PieceIs(s: string, pieces: seq<string>, ps: seq<nat>, start: nat, k: nat)
  {
    && k < |pieces| && k < |ps| && start <= StartOf(ps, start, k) <= ps[k] <= |s|
    && pieces[k] == s[StartOf(ps, start, k)..ps[k]]
  }

  lemma PieceIsCons(s: string, pieces: seq<string>, ps: seq<nat>, start: nat, i: nat, k: nat)
    requires start <= i < |s| && PieceIs(s, pieces, ps, i + 1, k)
    ensures PieceIs(s, [s[start..i]] + pieces, [i] + ps, start, k + 1)
  {
  }

  lemma {:induction false} PieceAt(s: string, start: nat, i: nat, k: nat)
    requires start <= i <= |s| && k < |Slashes(s, i)|
    ensures PieceIs(s, Pieces(s, start, i), Slashes(s, i), start, k)
    decreases |s| - i
  {
    if s[i] != SLASH {
      PieceAt(s, start, i + 1, k);
    } else if k > 0 {
      PieceAt(s, i + 1, i + 1, k - 1);
      PieceIsCons(s, Pieces(s, i + 1, i + 1), Slashes(s, i + 1), start, i, k - 1);
    }
  }

  /** `tail` is what follows the first `k` of `xs`. */
  ghost predicate Follows(xs: seq<string>, k: nat, tail: seq<string>)
  {
    |xs| == k + |tail| && forall j :: 0 <= j < |tail| ==> xs[k + j] == tail[j]
  }

  lemma FollowsCons(x: string, xs: seq<string>, k: nat, tail: seq<string>)
    requires Follows(xs, k, tail)
    ensures Follows([x] + xs, k + 1, tail)
  {
  }

  /** The pieces behind a slash are the pieces of what stands behind it. */
  lemma {:induction false} PiecesBehind(s: string, start: nat, i: nat, k: nat)
    requires start <= i <= |s| && k < |Slashes(s, i)|
    ensures Follows(Pieces(s, start, i), k + 1, Pieces(s, Slashes(s, i)[k] + 1, Slashes(s, i)[k] + 1))
    decreases |s| - i
  {
    if s[i] != SLASH {
      PiecesBehind(s, start, i + 1, k);
    } else {
      SlashesStep(s, i, k);
      if k > 0 { PiecesBehind(s, i + 1, i + 1, k - 1); }
      FollowsCons(s[start..i], Pieces(s, i + 1, i + 1), k, Pieces(s, Slashes(s, i)[k] + 1, Slashes(s, i)[k] + 1));
    }
  }

  lemma SlashesStep(s: string, i: nat, k: nat)
    requires i < |s| && s[i] == SLASH && k < |Slashes(s, i)|
    ensures if k == 0 then Slashes(s, i)[k] == i
            else k - 1 < |Slashes(s, i + 1)| && Slashes(s, i)[k] == Slashes(s, i + 1)[k - 1]
  {
  }

  /** There are as many names as slashes. */
  lemma NameCount(s: string)
    requires Canonical(s)
    ensures |Split("", s)| == |Slashes(s, 0)| == |Names(s)|
  {
    if s != "" {
      assert s[0..0] == "" && s[0..] == s;
      PiecesSplit(s, 0, 0);
      PieceCount(s, 0, 0);
    }
  }

  // ----- Taking paths apart -----

  predicate IsRoot(s: string)
  {
    s == [SLASH]
  }

  /** The names that are not the leading slash. */
  function Named(s: string): nat
  {
    |Names(s)| - (if Absolute(s) && Names(s) != [] then 1 else 0)
  }

  function PieceOf(s: string, k: nat): string
    requires k < |Slashes(s, 0)| && StartOf(Slashes(s, 0), 0, k) <= Slashes(s, 0)[k]
  {
    s[StartOf(Slashes(s, 0), 0, k)..Slashes(s, 0)[k]]
  }

  lemma NameAt(s: string, i: nat)
    requires Canonical(s) && i < |Slashes(s, 0)|
    ensures StartOf(Slashes(s, 0), 0, i) <= Slashes(s, 0)[i] && |Names(s)| == |Slashes(s, 0)|
    ensures Names(s)[i] == if Absolute(s) && i == 0 then [SLASH] else PieceOf(s, i)
  {
    NameCount(s);
    assert s[0..0] == "" && s[0..] == s;
    PiecesSplit(s, 0, 0);
    PieceAt(s, 0, 0, i);
  }

  /** What stands behind slash `k` holds the names behind `k`. */
  lemma NamesBehind(s: string, k: nat)
    requires Canonical(s) && k < |Slashes(s, 0)|
    ensures var rest := s[Slashes(s, 0)[k] + 1..];
            Canonical(rest) && !Absolute(rest) && k < |Names(s)| && Names(rest) == Names(s)[k + 1..]
  {
    var rest := s[Slashes(s, 0)[k] + 1..];
    RestIsCanonical(s, Slashes(s, 0)[k]);
    assert k < |Names(s)| by { NameCount(s); }
    assert Names(rest) == Names(s)[k + 1..] by {
      SplitBehind(s, k);
      NamesTail(s, k);
    }
  }

  lemma SplitBehind(s: string, k: nat)
    requires k < |Slashes(s, 0)|
    ensures Follows(Split("", s), k + 1, Split("", s[Slashes(s, 0)[k] + 1..]))
  {
    var p := Slashes(s, 0)[k];
    assert s[0..0] == "" && s[0..] == s && s[p + 1..p + 1] == "";
    PiecesSplit(s, 0, 0);
    PiecesBehind(s, 0, 0, k);
    PiecesSplit(s, p + 1, p + 1);
  }

  /** Only the first name is not a piece. */
  lemma NamesTail(s: string, k: nat)
    requires k < |Names(s)|
    ensures |Split("", s)| == |Names(s)| && Names(s)[k + 1..] == Split("", s)[k + 1..]
  {
  }

  lemma RestIsCanonical(s: string, p: nat)
    requires Canonical(s) && p < |s| && s[p] == SLASH
    ensures Canonical(s[p + 1..]) && !Absolute(s[p + 1..]) && Canonical(s[..p + 1])
  {
  }

  lemma RestIsNormal(s: string, p: nat)
    requires Canonical(s) && p < |s| && s[p] == SLASH
    ensures Canonical(s[p + 1..]) && Normal(s[p + 1..]) == s[p + 1..]
  {
    RestIsCanonical(s, p);
    NormalKeeps(s[p + 1..]);
  }

  /** What stands up to slash `k` holds the names up to `k`. */
  lemma NamesUpTo(s: string, k: nat)
    requires Canonical(s) && k < |Slashes(s, 0)|
    ensures var front := s[..Slashes(s, 0)[k] + 1];
            Canonical(front) && k < |Names(s)| && Names(front) == Names(s)[..k + 1]
  {
    var p := Slashes(s, 0)[k];
    var front, rest := s[..p + 1], s[p + 1..];
    Cut(s, p + 1);
    NamesBehind(s, k);
    RestIsCanonical(s, p);
    NamesConcat(front, rest);
    FrontOf(Names(s), k + 1, Names(front), Names(rest));
  }

  lemma Cut<T>(s: seq<T>, k: nat)
    requires k <= |s|
    ensures s[..k] + s[k..] == s && s[0..] == s && s[|s|..] == []
  {
  }

  lemma FrontOf<T>(s: seq<T>, k: nat, front: seq<T>, rest: seq<T>)
    requires k <= |s| && s == front + rest && rest == s[k..]
    ensures front == s[..k]
  {
    assert |front| == k;
  }

  /** What slash `k` of `ps` tells about the names. */
  ghost predicate CutAt(s: string, ps: seq<nat>, k: nat)
  {
    && k < |ps| && k < |Names(s)| && ps[k] < |s| && s[ps[k]] == SLASH && (k > 0 ==> ps[k] > 0)
    && Names(s[..ps[k] + 1]) == Names(s)[..k + 1] && Names(s[ps[k] + 1..]) == Names(s)[k + 1..]
    && StartOf(ps, 0, k) <= ps[k]
    && Names(s)[k] == if Absolute(s) && k == 0 then [SLASH] else s[StartOf(ps, 0, k)..ps[k]]
  }

  /** `ps` are the positions of the slashes of the canonical path `s`. */
  ghost predicate Layout(s: string, ps: seq<nat>)
  {
    && Canonical(s) && |ps| == |Names(s)| && (s == "" <==> ps == [])
    && (ps != [] ==> (ps[0] == 0 <==> Absolute(s)) && ps[|ps| - 1] == |s| - 1)
    && forall k {:trigger CutAt(s, ps, k)} :: 0 <= k < |ps| ==> CutAt(s, ps, k)
  }

  lemma SlashesCut(s: string, k: nat)
    requires Canonical(s) && k < |Slashes(s, 0)|
    ensures CutAt(s, Slashes(s, 0), k)
  {
    NameAt(s, k);
    NamesBehind(s, k);
    NamesUpTo(s, k);
    if k > 0 { FirstSlash(s); }
  }

  lemma SlashesLayout(s: string)
    requires Canonical(s)
    ensures Layout(s, Slashes(s, 0))
  {
    var ps := Slashes(s, 0);
    NameCount(s);
    if s != "" {
      LastSlash(s, 0);
      StartSlash(s);
    }
    forall k {:trigger CutAt(s, ps, k)} | 0 <= k < |ps| ensures CutAt(s, ps, k) { SlashesCut(s, k); }
  }

  lemma StartSlash(s: string)
    requires Slashes(s, 0) != []
    ensures Slashes(s, 0)[0] == 0 <==> Absolute(s)
  {
  }

  /** Slashes ascend, so only the first can stand at the start. */
  lemma FirstSlash(s: string)
    requires |Slashes(s, 0)| >= 2
    ensures forall k :: 1 <= k < |Slashes(s, 0)| ==> Slashes(s, 0)[k] > 0
  {
    if s[0] == SLASH {
      assert Slashes(s, 0) == [0] + Slashes(s, 1);
    } else {
      assert Slashes(s, 0) == Slashes(s, 1);
    }
  }

  predicate Inside(ps: seq<nat>, s: string)
  {
    forall k :: 0 <= k < |ps| ==> ps[k] < |s|
  }

  function SubPathOf(s: string, ps: seq<nat>, i: nat): string
    requires i <= |ps| && Inside(ps, s)
  {
    if i == 0 then s else if i == |ps| then "" else Normal(s[ps[i - 1] + 1..])
  }

  /** A sub path has the names that are left when the first `i` are dropped. */
  lemma SubPathDrops(s: string, ps: seq<nat>, i: nat)
    requires Layout(s, ps) && i <= |ps| && Inside(ps, s)
    ensures Canonical(SubPathOf(s, ps, i)) && Names(SubPathOf(s, ps, i)) == Names(s)[i..]
  {
    if 0 < i < |ps| {
      var rest := s[ps[i - 1] + 1..];
      assert CutAt(s, ps, i - 1);
      RestIsNormal(s, ps[i - 1]);
      assert SubPathOf(s, ps, i) == rest;
    } else {
      Cut(Names(s), i);
    }
  }

  function BranchOf(s: string, ps: seq<nat>): string
  {
    if s == "" || IsRoot(s) || |ps| < 2 || ps[|ps| - 2] > |s| then s else Normal(s[..ps[|ps| - 2]])
  }

  function BaseNameOf(s: string, ps: seq<nat>): string
  {
    if s == "" then "" else if IsRoot(s) then [SLASH]
    else if |ps| < 2 then s[..|s| - 1]
    else if ps[|ps| - 2] < |s| - 1 then s[ps[|ps| - 2] + 1..|s| - 1] else ""
  }

  /** The base name is the last name. */
  lemma BaseNameIsLast(s: string, ps: seq<nat>)
    requires Layout(s, ps) && s != ""
    ensures BaseNameOf(s, ps) == Names(s)[|ps| - 1]
  {
    assert CutAt(s, ps, |ps| - 1);
    OneSlash(s, ps);
  }

  /** An absolute path with one name is the root. */
  lemma OneSlash(s: string, ps: seq<nat>)
    requires Layout(s, ps)
    ensures IsRoot(s) <==> Absolute(s) && |ps| == 1
  {
    if |ps| > 0 {
      assert CutAt(s, ps, |ps| - 1);
    }
  }

  /** The branch path lacks the last name exactly if two names or more are no slash. */
  lemma BranchDropsLast(s: string, ps: seq<nat>)
    requires Layout(s, ps) && s != ""
    ensures Canonical(BranchOf(s, ps))
    ensures Names(BranchOf(s, ps)) == Names(s)[..|ps| - 1] <==> Named(s) >= 2
  {
    OneSlash(s, ps);
    if |ps| >= 2 {
      var p := ps[|ps| - 2];
      assert CutAt(s, ps, |ps| - 2);
      FrontIsCanonical(s, p);
      assert BranchOf(s, ps) == Normal(s[..p]);
      if p > 0 {
        assert Names(BranchOf(s, ps)) == Names(s)[..|ps| - 1];
      } else {
        assert Names(BranchOf(s, ps)) == [];
      }
    } else {
      assert |Names(BranchOf(s, ps))| == |ps|;
    }
  }

  lemma FrontIsCanonical(s: string, p: nat)
    requires Canonical(s) && p < |s| && s[p] == SLASH
    ensures Normal(s[..p]) == (if p > 0 then s[..p + 1] else "") && Canonical(Normal(s[..p]))
  {
    if p > 0 {
      FrontIsNormal(s, p);
      RestIsCanonical(s, p);
    } else {
      assert s[..p] == "";
    }
  }

  /** Cutting at a slash and normalising puts the slash back. */
  lemma FrontIsNormal(s: string, p: nat)
    requires Canonical(s) && 0 < p < |s| && s[p] == SLASH
    ensures Normal(s[..p]) == s[..p + 1]
  {
    var front := s[..p];
    SqueezeKeeps(front);
    assert front[|front| - 1] == s[p - 1];
    assert front + [SLASH] == s[..p + 1];
  }

  /** Adding the base name to the branch path gives the path back exactly if it is
      empty or two names or more are no slash. */
  lemma BranchThenBase(s: string, ps: seq<nat>)
    requires Layout(s, ps) && !IsRoot(s)
    ensures Normal(BranchOf(s, ps) + BaseNameOf(s, ps)) == s <==> s == "" || Named(s) >= 2
  {
    if s != "" {
      var branch, name := BranchOf(s, ps), BaseNameOf(s, ps);
      BaseNameIsLast(s, ps);
      BranchDropsLast(s, ps);
      LastOf(Names(s), Names(branch));
      WordNames(s, name);
      AddedName(branch, name);
      SameNamesSamePath(s, Normal(branch + name));
    }
  }

  lemma AddedName(branch: string, name: string)
    requires Canonical(branch) && name != "" && name[0] != SLASH && Names(Normal(name)) == [name]
    ensures Canonical(Normal(branch + name)) && Names(Normal(branch + name)) == Names(branch) + [name]
  {
    NormalConcat(branch, name);
    NormalIsCanonical(name);
    NamesConcat(branch, Normal(name));
  }

  /** A path is determined by its names. */
  lemma SameNamesSamePath(s: string, t: string)
    requires Canonical(s) && Canonical(t)
    ensures Names(s) == Names(t) <==> s == t
  {
    NamesRebuild(s);
    NamesRebuild(t);
  }

  lemma LastOf<T>(s: seq<T>, t: seq<T>)
    requires s != []
    ensures t + [s[|s| - 1]] == s <==> t == s[..|s| - 1]
  {
    assert s == s[..|s| - 1] + [s[|s| - 1]];
    assert t == (t + [s[|s| - 1]])[..|t|];
  }

  lemma WordNames(s: string, name: string)
    requires Canonical(s) && s != "" && !IsRoot(s) && Names(s) != [] && name == Names(s)[|Names(s)| - 1]
    ensures name != "" && name[0] != SLASH && Names(Normal(name)) == [name]
  {
    NamesAreWellformed(s);
    NamesRebuild(s);
    assert [SLASH] + Join([]) == [SLASH];
    assert name == [SLASH] ==> Names(s) == [name];
    assert name[0] in name;
    NormalKeepsNames(name);
    PlainWords("", name);
    assert "" + name == name && [] + [name] == [name];
  }

  lemma {:induction false} PlainWords(piece: string, name: string)
    requires Plain(name)
    ensures Words(piece, name) == Word(piece + name)
    decreases |name|
  {
    if name == "" {
      assert piece + name == piece;
    } else {
      PlainWords(piece + [name[0]], name[1..]);
      assert piece + [name[0]] + name[1..] == piece + name;
    }
  }
}
