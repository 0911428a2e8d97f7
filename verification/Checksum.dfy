/** The Internet checksum over 32-bit sums of bytes. */
module Checksum {
  import opened Basics

  const WRAP: nat := 0x1_0000_0000
  const ONES: nat := 0xFFFF
  /** The longest buffer whose sum always fits 32 bits. */
  const MAX_LENGTH: nat := 131074

  /** What the byte at index `i` adds: the high half of a word at even indexes. */
  function Term(i: nat, b: Byte): nat
  {
    if i % 2 == 1 then b else b * 256
  }

  /** The sum without any wrap-around. */
  function Total(values: seq<Byte>): nat
  {
    if values == [] then 0 else Total(values[..|values| - 1]) + Term(|values| - 1, values[|values| - 1])
  }

  method AddBytes(values: seq<Byte>) returns (sum: nat)
    ensures sum == Total(values) % WRAP
  {
    sum := 0;
    for i := 0 to |values|
      invariant sum == Total(values[..i]) % WRAP
    {
      assert values[..i + 1][..i] == values[..i];
      Reduced(Total(values[..i]), Term(i, values[i]));
      var value: nat := values[i];
      if i % 2 == 1 {
        sum := (sum + value) % WRAP;
      } else {
        sum := (sum + value * 256) % WRAP;
      }
    }
    assert values[..|values|] == values;
  }

  lemma Reduced(a: nat, b: nat)
    ensures (a % WRAP + b) % WRAP == (a + b) % WRAP
  {
  }

  // ----- Overflow -----

  /** The largest sum of a buffer of this length. */
  function Largest(length: nat): nat
  {
    (length + 1) / 2 * 65280 + length / 2 * 255
  }

  lemma {:induction false} TotalIsBounded(values: seq<Byte>)
    ensures Total(values) <= Largest(|values|)
    decreases |values|
  {
    if values != [] {
      TotalIsBounded(values[..|values| - 1]);
    }
  }

  function Filled(length: nat): (v: seq<Byte>)
    ensures |v| == length && forall i :: 0 <= i < length ==> v[i] == 255
  {
    seq(length, _ => 255)
  }

  lemma FilledStep(n: nat)
    ensures Total(Filled(n + 1)) == Total(Filled(n)) + Term(n, 255)
  {
    assert Filled(n + 1)[..n] == Filled(n);
  }

  lemma LargestStep(n: nat)
    ensures Largest(n + 1) == Largest(n) + Term(n, 255)
  {
  }

  lemma {:induction false} FilledIsLargest(length: nat)
    ensures Total(Filled(length)) == Largest(length)
    decreases length
  {
    if length > 0 {
      FilledIsLargest(length - 1);
      FilledStep(length - 1);
      LargestStep(length - 1);
    }
  }

  lemma LargestFits(length: nat)
    ensures Largest(length) < WRAP <==> length <= MAX_LENGTH
  {
  }

  /** The 32-bit sum is exact for all buffers of a length exactly up to the limit. */
  lemma NoOverflowExactly(length: nat)
    ensures (forall v: seq<Byte> {:trigger Total(v)} :: |v| == length ==> Total(v) < WRAP) <==> length <= MAX_LENGTH
  {
    LargestFits(length);
    FilledIsLargest(length);
    forall v: seq<Byte> {:trigger Total(v)} | |v| == length ensures Total(v) <= Largest(length) { TotalIsBounded(v); }
    assert |Filled(length)| == length;
  }

  // ----- Folding -----

  /** The one's complement sum: the remainder modulo 65535, written 65535 rather than 0
      unless nothing was summed. */
  function Folded(sum: nat): (f: nat)
    ensures f <= ONES && f % ONES == sum % ONES && (f == 0 <==> sum == 0)
  {
    if sum == 0 then 0 else if sum % ONES == 0 then ONES else sum % ONES
  }

  /** Folds the carries in, which takes two passes at most, and complements. */
  method Finalize(sum: nat) returns (checksum: nat, ghost passes: nat)
    requires sum < WRAP
    ensures checksum == ONES - Folded(sum) && passes <= 2
  {
    var s: nat := sum;
    passes := 0;
    while s / 0x1_0000 != 0
      invariant s % ONES == sum % ONES && (s == 0 <==> sum == 0)
      invariant s < WRAP && passes <= 2 && (passes >= 1 ==> s <= 2 * ONES) && (passes == 2 ==> s <= ONES)
      decreases s
    {
      FoldStep(s);
      s := s % 0x1_0000 + s / 0x1_0000;
      passes := passes + 1;
    }
    OneRepresentative(s, Folded(sum));
    checksum := ONES - s;
  }

  lemma FoldStep(s: nat)
    requires 0x1_0000 <= s < WRAP
    ensures var t := s % 0x1_0000 + s / 0x1_0000;
            t % ONES == s % ONES && 0 < t < s && t <= 2 * ONES && (s <= 2 * ONES ==> t <= ONES)
  {
    var hi, lo := s / 0x1_0000, s % 0x1_0000;
    assert s == (hi + lo) + ONES * hi;
    SameRemainder(hi + lo, hi);
  }

  lemma SameRemainder(a: nat, k: nat)
    ensures (a + ONES * k) % ONES == a % ONES
  {
  }

  lemma OneRepresentative(a: nat, b: nat)
    requires a <= ONES && b <= ONES && a % ONES == b % ONES && (a == 0 <==> b == 0)
    ensures a == b
  {
  }

  /** Zero is kept for "no checksum": it is sent as its other representation. */
  method FinalizeNonZero(sum: nat) returns (checksum: nat)
    requires sum < WRAP
    ensures 0 < checksum <= ONES && checksum % ONES == (ONES - Folded(sum)) % ONES
  {
    ghost var passes: nat;
    checksum, passes := Finalize(sum);
    if checksum == 0 {
      checksum := ONES - checksum;
    }
  }

  // ----- Checking -----

  /** A check succeeds exactly on sums that are a multiple of 65535 other than nothing. */
  lemma ChecksOutExactly(sum: nat)
    ensures ONES - Folded(sum) == 0 <==> sum > 0 && sum % ONES == 0
  {
  }

  lemma {:induction false} TotalUpdate(values: seq<Byte>, i: nat, b: Byte)
    requires i < |values|
    ensures Total(values[i := b]) + Term(i, values[i]) == Total(values) + Term(i, b)
    decreases |values|
  {
    var n := |values| - 1;
    if i < n {
      assert values[i := b][..n] == values[..n][i := b];
      TotalUpdate(values[..n], i, b);
    } else {
      assert values[i := b][..n] == values[..n];
    }
  }

  /** The word at an even index, high byte first. */
  function WordAt(values: seq<Byte>, i: nat): nat
    requires i + 1 < |values|
  {
    var high: nat, low: nat := values[i], values[i + 1];
    high * 256 + low
  }

  function Stored(values: seq<Byte>, i: nat, word: nat): (v: seq<Byte>)
    requires i + 1 < |values| && word <= ONES
    ensures |v| == |values| && WordAt(v, i) == word
  {
    values[i := word / 256][i + 1 := word % 256]
  }

  lemma StoredTotal(values: seq<Byte>, i: nat, word: nat)
    requires i % 2 == 0 && i + 1 < |values| && word <= ONES
    ensures Total(Stored(values, i, word)) + WordAt(values, i) == Total(values) + word
  {
    var hi: Byte, lo: Byte := word / 256, word % 256;
    var half: seq<Byte> := values[i := hi];
    assert half[i + 1] == values[i + 1];
    TotalUpdate(values, i, hi);
    TotalUpdate(half, i + 1, lo);
    TwoBytes(Total(values), Total(half), Total(Stored(values, i, word)), i, values[i], values[i + 1], hi, lo);
  }

  lemma TwoBytes(t: nat, u: nat, v: nat, i: nat, oldHi: Byte, oldLo: Byte, hi: Byte, lo: Byte)
    requires i % 2 == 0 && u + Term(i, oldHi) == t + Term(i, hi) && v + Term(i + 1, oldLo) == u + Term(i + 1, lo)
    ensures v + (oldHi as nat * 256 + oldLo) == t + (hi as nat * 256 + lo)
  {
  }

  /** Storing the checksum in a zeroed field of a buffer that fits makes the sum check out. */
  lemma StoredChecksOut(values: seq<Byte>, i: nat, checksum: nat)
    requires |values| <= MAX_LENGTH && i % 2 == 0 && i + 1 < |values| && WordAt(values, i) == 0
    requires checksum <= ONES && checksum % ONES == (ONES - Folded(Total(values) % WRAP)) % ONES
    requires Total(values) == 0 ==> checksum > 0
    ensures ONES - Folded(Total(Stored(values, i, checksum)) % WRAP) == 0
  {
    var total := Total(values);
    StoredTotal(values, i, checksum);
    Fits(values);
    Fits(Stored(values, i, checksum));
    SumWithComplement(total, checksum);
  }

  lemma Fits(values: seq<Byte>)
    requires |values| <= MAX_LENGTH
    ensures Total(values) % WRAP == Total(values)
  {
    TotalIsBounded(values);
    LargestFits(|values|);
  }

  lemma SumWithComplement(total: nat, checksum: nat)
    requires checksum <= ONES && checksum % ONES == (ONES - Folded(total)) % ONES && (total == 0 ==> checksum > 0)
    ensures Folded(total + checksum) == ONES
  {
    var f := Folded(total);
    assert (f + (ONES - f)) % ONES == 0;
    assert (total + checksum) % ONES == 0;
  }

  /** A buffer passes if its 32-bit sum does; up to the limit that is the sum itself. */
  method Check(values: seq<Byte>) returns (ok: bool)
    ensures ok <==> Total(values) % WRAP > 0 && Total(values) % WRAP % ONES == 0
    ensures |values| <= MAX_LENGTH ==> (ok <==> Total(values) > 0 && Total(values) % ONES == 0)
  {
    var sum := AddBytes(values);
    if |values| <= MAX_LENGTH { Fits(values); }
    ghost var passes: nat;
    var checksum;
    checksum, passes := Finalize(sum);
    ChecksOutExactly(sum);
    ok := checksum == 0;
  }

  /** A change of one word is noticed, unless it swaps the two representations of zero. */
  lemma OneWordIsNoticed(values: seq<Byte>, i: nat, word: nat)
    requires |values| <= MAX_LENGTH && i % 2 == 0 && i + 1 < |values| && word <= ONES
    requires Folded(Total(values) % WRAP) == ONES
    ensures ONES - Folded(Total(Stored(values, i, word)) % WRAP) != 0
            <==> word % ONES != WordAt(values, i) % ONES || Total(Stored(values, i, word)) == 0
  {
    Fits(values);
    Fits(Stored(values, i, word));
    StoredTotal(values, i, word);
    var a, b := Total(values), Total(Stored(values, i, word));
    Differ(a, b, WordAt(values, i), word);
    ChecksOutExactly(b);
  }

  lemma Differ(a: nat, b: nat, v: nat, w: nat)
    requires b + v == a + w && a % ONES == 0
    ensures b % ONES == 0 <==> v % ONES == w % ONES
  {
  }

  /** Parts of even length can be summed one by one. */
  lemma SameParity(m: nat, n: nat, b: Byte)
    requires m % 2 == 0
    ensures Term(m + n, b) == Term(n, b)
  {
  }

  lemma {:induction false} PartsAdd(a: seq<Byte>, b: seq<Byte>)
    requires |a| % 2 == 0
    ensures Total(a + b) == Total(a) + Total(b)
    decreases |b|
  {
    if b == [] {
      assert a + b == a;
    } else {
      var n := |b| - 1;
      PartsAdd(a, b[..n]);
      assert Total(a + b) == Total(a + b[..n]) + Term(|a| + n, b[n]) by {
        assert (a + b)[..|a| + n] == a + b[..n];
      }
      SameParity(|a|, n, b[n]);
    }
  }

  /** The sum of the 16-bit words in network order, where a last odd byte is the high half of a word:
      the definition of RFC 1071. */
  function WordSum(values: seq<Byte>): nat
  {
    if values == [] then 0
    else if |values| == 1 then 256 * (values[0] as nat)
    else 256 * (values[0] as nat) + values[1] as nat + WordSum(values[2..])
  }

  lemma OneWord(word: seq<Byte>)
    requires |word| == 2
    ensures Total(word) == 256 * (word[0] as nat) + word[1] as nat
  {
    var first := word[..1];
    assert first[..0] == [] && first[0] == word[0];
    assert Total(first) == Total(first[..0]) + Term(0, first[0]);
    assert Total(word) == Total(first) + Term(1, word[1]);
  }

  /** What is summed byte by byte is the sum of the words. */
  lemma {:induction false} TotalIsWords(values: seq<Byte>)
    ensures Total(values) == WordSum(values)
  {
    if |values| == 1 {
      assert values[..0] == [];
    } else if values != [] {
      var word := values[..2];
      assert values == word + values[2..];
      assert Total(word) == 256 * (values[0] as nat) + values[1] as nat by { OneWord(word); }
      PartsAdd(word, values[2..]);
      TotalIsWords(values[2..]);
    }
  }
}
