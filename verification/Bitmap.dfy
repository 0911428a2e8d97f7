/** A fixed-size bitmap over 64-bit words. A word is the sequence of its bits. */
module Bitmap {

  const BITS_PER_WORD: nat := 64

  type Word = w: seq<bool> | |w| == BITS_PER_WORD witness seq(BITS_PER_WORD, i => false)

  const ZERO: Word := seq(BITS_PER_WORD, i => false)
  const ALL_ONES: Word := seq(BITS_PER_WORD, i => true)

  function Or(x: Word, y: Word): Word
  {
    seq(BITS_PER_WORD, i requires 0 <= i < BITS_PER_WORD => x[i] || y[i])
  }

  function And(x: Word, y: Word): Word
  {
    seq(BITS_PER_WORD, i requires 0 <= i < BITS_PER_WORD => x[i] && y[i])
  }

  function Not(x: Word): Word
  {
    seq(BITS_PER_WORD, i requires 0 <= i < BITS_PER_WORD => !x[i])
  }

  function WordOffset(bit: nat): nat
  {
    bit / BITS_PER_WORD
  }

  function BitOffset(bit: nat): nat
  {
    bit % BITS_PER_WORD
  }

  function BitMask(bit: nat): Word
  {
    seq(BITS_PER_WORD, i => i == BitOffset(bit))
  }

  /** Testing against a mask reads the one bit it selects. */
  lemma MaskReads(x: Word, bit: nat)
    ensures And(x, BitMask(bit)) != ZERO <==> x[BitOffset(bit)]
  {
    var y := And(x, BitMask(bit));
    assert y[BitOffset(bit)] == x[BitOffset(bit)];
    if !x[BitOffset(bit)] {
      assert forall i :: 0 <= i < BITS_PER_WORD ==> y[i] == ZERO[i];
    }
  }

  /** The bits of a word array in order. */
  ghost function BitsOf(words: seq<Word>): (bits: seq<bool>)
    ensures |bits| == BITS_PER_WORD * |words|
    ensures forall i :: 0 <= i < |bits| ==> bits[i] == words[i / BITS_PER_WORD][i % BITS_PER_WORD]
  {
    seq(BITS_PER_WORD * |words|, i requires 0 <= i < BITS_PER_WORD * |words| =>
      words[i / BITS_PER_WORD][i % BITS_PER_WORD])
  }

  /** Or-ing a mask in sets one bit; and-ing its complement clears one bit. */
  lemma MaskWrites(words: seq<Word>, bit: nat)
    requires bit < BITS_PER_WORD * |words|
    ensures var w := WordOffset(bit);
            && w < |words|
            && BitsOf(words[w := Or(words[w], BitMask(bit))]) == BitsOf(words)[bit := true]
            && BitsOf(words[w := And(words[w], Not(BitMask(bit)))]) == BitsOf(words)[bit := false]
  {
    var w := WordOffset(bit);
    var set', unset' := words[w := Or(words[w], BitMask(bit))], words[w := And(words[w], Not(BitMask(bit)))];
    forall i | 0 <= i < BITS_PER_WORD * |words|
      ensures BitsOf(set')[i] == BitsOf(words)[bit := true][i]
      ensures BitsOf(unset')[i] == BitsOf(words)[bit := false][i]
    {
      assert i == bit <==> i / BITS_PER_WORD == w && i % BITS_PER_WORD == BitOffset(bit);
    }
  }

  /** The word loop of the scans, seen bit by bit. */
  lemma WordBits(words: seq<Word>, w: nat)
    requires w < |words|
    ensures forall b :: 0 <= b < BITS_PER_WORD ==> BitsOf(words)[w * BITS_PER_WORD + b] == words[w][b]
  {
    forall b | 0 <= b < BITS_PER_WORD ensures BitsOf(words)[w * BITS_PER_WORD + b] == words[w][b] {
      var i := w * BITS_PER_WORD + b;
      assert i / BITS_PER_WORD == w && i % BITS_PER_WORD == b;
    }
  }

  datatype Position = NoPosition | At(bit: nat)

  class StaticBitmap {
    const data: array<Word>

    constructor (data: array<Word>)
      ensures this.data == data
    {
      this.data := data;
    }

    ghost function Bits(): (bits: seq<bool>)
      reads data
    {
      BitsOf(data[..])
    }

    method SetAll()
      modifies data
      ensures |Bits()| == old(|Bits()|) && forall i :: 0 <= i < |Bits()| ==> Bits()[i]
    {
      for i := 0 to data.Length
        invariant forall k :: 0 <= k < i ==> data[k] == ALL_ONES
      {
        data[i] := ALL_ONES;
      }
    }

    /** The first set bit of one word. */
    method ScanWord(w: nat) returns (r: Position)
      requires w < data.Length
      ensures r.At? ==> r.bit < BITS_PER_WORD && data[w][r.bit] && forall b :: 0 <= b < r.bit ==> !data[w][b]
      ensures r.NoPosition? ==> forall b :: 0 <= b < BITS_PER_WORD ==> !data[w][b]
    {
      for b := 0 to BITS_PER_WORD
        invariant forall c :: 0 <= c < b ==> !data[w][c]
      {
        MaskReads(data[w], b);
        if And(data[w], BitMask(b)) != ZERO {
          return At(b);
        }
      }
      return NoPosition;
    }

    /** The first set bit. */
    method SetBit() returns (r: Position)
      ensures r.At? ==> r.bit < |Bits()| && Bits()[r.bit] && ClearBefore(Bits(), r.bit)
      ensures r.NoPosition? ==> ClearBefore(Bits(), |Bits()|)
    {
      for w := 0 to data.Length
        invariant ClearBefore(Bits(), w * BITS_PER_WORD)
      {
        WordBits(data[..], w);
        if data[w] != ZERO {
          var b := ScanWord(w);
          if b.At? {
            ClearWord(data[..], w, b.bit);
            return At(w * BITS_PER_WORD + b.bit);
          }
        }
        ClearWord(data[..], w, BITS_PER_WORD);
      }
      return NoPosition;
    }

    /** The first bit of the first word that is all ones. */
    method SetWord() returns (r: Position)
      ensures r.At? ==> r.bit % BITS_PER_WORD == 0 && r.bit + BITS_PER_WORD <= |Bits()| && FullFrom(Bits(), r.bit)
      ensures var last := if r.At? then r.bit else |Bits()|;
              forall w :: 0 <= w < last / BITS_PER_WORD ==> !FullFrom(Bits(), w * BITS_PER_WORD)
    {
      for w := 0 to data.Length
        invariant forall v :: 0 <= v < w ==> !FullFrom(Bits(), v * BITS_PER_WORD)
      {
        FullWord(data[..], w);
        if data[w] == ALL_ONES {
          return At(w * BITS_PER_WORD);
        }
      }
      return NoPosition;
    }

    method IsSet(bit: nat) returns (r: bool)
      requires bit < |Bits()|
      ensures r == Bits()[bit]
    {
      MaskReads(data[WordOffset(bit)], bit);
      r := And(data[WordOffset(bit)], BitMask(bit)) != ZERO;
    }

    method Set(bit: nat)
      requires bit < |Bits()|
      modifies data
      ensures Bits() == old(Bits())[bit := true]
    {
      MaskWrites(data[..], bit);
      var w := WordOffset(bit);
      data[w] := Or(data[w], BitMask(bit));
      assert data[..] == old(data[..])[w := data[w]];
    }

    method Unset(bit: nat)
      requires bit < |Bits()|
      modifies data
      ensures Bits() == old(Bits())[bit := false]
    {
      MaskWrites(data[..], bit);
      var w := WordOffset(bit);
      data[w] := And(data[w], Not(BitMask(bit)));
      assert data[..] == old(data[..])[w := data[w]];
    }
  }

  ghost predicate ClearBefore(bits: seq<bool>, n: nat)
  {
    n <= |bits| && forall i :: 0 <= i < n ==> !bits[i]
  }

  /** The scan moves on by `b` clear bits of word `w`. */
  lemma ClearWord(words: seq<Word>, w: nat, b: nat)
    requires w < |words| && b <= BITS_PER_WORD && ClearBefore(BitsOf(words), w * BITS_PER_WORD)
    requires forall c :: 0 <= c < b ==> !words[w][c]
    ensures ClearBefore(BitsOf(words), w * BITS_PER_WORD + b)
  {
    forall i | w * BITS_PER_WORD <= i < w * BITS_PER_WORD + b ensures !BitsOf(words)[i] {
      WordBits(words, w);
      assert BitsOf(words)[w * BITS_PER_WORD + (i - w * BITS_PER_WORD)] == words[w][i - w * BITS_PER_WORD];
    }
  }

  ghost predicate FullFrom(bits: seq<bool>, start: nat)
  {
    start + BITS_PER_WORD <= |bits| && forall i :: start <= i < start + BITS_PER_WORD ==> bits[i]
  }

  /** A word is all ones exactly when each of its bits is set. */
  lemma FullWord(words: seq<Word>, w: nat)
    requires w < |words|
    ensures words[w] == ALL_ONES <==> FullFrom(BitsOf(words), w * BITS_PER_WORD)
  {
    WordBits(words, w);
    var start := w * BITS_PER_WORD;
    if FullFrom(BitsOf(words), start) {
      forall b | 0 <= b < BITS_PER_WORD ensures words[w][b] == ALL_ONES[b] {
        assert BitsOf(words)[start + b];
      }
    } else if words[w] == ALL_ONES {
      forall i | start <= i < start + BITS_PER_WORD ensures BitsOf(words)[i] {
        assert BitsOf(words)[start + (i - start)] == words[w][i - start];
      }
    }
  }
}
