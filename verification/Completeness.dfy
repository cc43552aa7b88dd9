/** When a code has no gap: which code lengths make the symbol reader total. */
module Completeness {
  import opened Optional
  import opened BitStream
  import opened Huffman
  import opened Deflate
  import opened Inflater

  lemma {:induction false} MsbBound(src: seq<byte>, pos: nat, n: nat)
    ensures Msb(src, pos, n) < Pow2(n)
    decreases n
  {
    if n > 0 {
      MsbBound(src, pos, n - 1);
    }
  }

  /** With no symbol at pos the walk passes every length. */
  lemma {:induction false} PassesAll(lens: seq<nat>, src: seq<byte>, pos: nat, k: nat)
    requires k >= 1 && SymbolAt(lens, src, pos) == None
    ensures Passed(lens, src, pos, k)
    decreases k
  {
    if k > 1 {
      PassesAll(lens, src, pos, k - 1);
    }
    assert Msb(src, pos, k) >= 2 * Msb(src, pos, k - 1);
    if !Passed(lens, src, pos, k) {
      var s := SymbolAtLength(lens, src, pos, k);
      SymbolIs(lens, s, src, pos);
    }
  }

  /** The codes of length 15 or less end at the Kraft sum. */
  lemma CodesEnd(w: nat -> nat, lens: seq<nat>, top: nat)
    requires top >= 1 && w(0) == 0 && w(top) == 1 && (forall j | 1 < j <= top :: w(j - 1) == 2 * w(j))
    requires forall i | 0 <= i < |lens| :: lens[i] <= top
    ensures First(lens, top) + Count(lens, top) == WeightSum(w, lens, |lens|)
  {
    CodesUsed(w, lens, top, top);
    WeightSumByLength(w, lens, top, |lens|);
  }

  lemma CompleteDecodes(lens: seq<nat>, src: seq<byte>, pos: nat)
    requires Lengths(lens) && WeightSum(Weight, lens, |lens|) == Pow2(MAX_LENGTH)
    ensures SymbolAt(lens, src, pos).Some?
  {
    if SymbolAt(lens, src, pos) == None {
      WeightFacts(MAX_LENGTH);
      PassesAll(lens, src, pos, MAX_LENGTH);
      CodesEnd(Weight, lens, MAX_LENGTH);
      MsbBound(src, pos, MAX_LENGTH);
    }
  }

  lemma {:induction false} AllOnes(n: nat)
    requires n <= 16
    ensures Msb([255, 255], 0, n) == Pow2(n) - 1
    decreases n
  {
    if n > 0 {
      AllOnes(n - 1);
      OneBit(n - 1);
    }
  }

  lemma OneBit(i: nat)
    requires i < 16
    ensures Bit([255, 255], i) == 1
  {
    assert ByteAt([255, 255], i / 8) == 255;
    assert Pow2(8) == 256;
    ShrOnes(8, i % 8);
  }

  /** A code with room left reads fifteen ones as no symbol. */
  lemma GapExists(lens: seq<nat>, s: nat)
    requires Kraft(lens) && WeightSum(Weight, lens, |lens|) < Pow2(MAX_LENGTH) && s < |lens| && lens[s] > 0
    ensures CodeOf(lens, s) < Pow2(lens[s]) - 1
  {
    WeightFacts(lens[s]);
    GapBelow(Weight, lens, s, MAX_LENGTH, Pow2(MAX_LENGTH), Pow2(lens[s]));
  }

  lemma GapBelow(w: nat -> nat, lens: seq<nat>, s: nat, top: nat, unit: nat, room: nat)
    requires s < |lens| && 1 <= lens[s] && forall i | 0 <= i < |lens| :: lens[i] <= top
    requires w(0) == 0 && w(lens[s]) > 0 && room * w(lens[s]) == unit && WeightSum(w, lens, |lens|) < unit
    requires forall j | 1 < j <= top :: w(j - 1) == 2 * w(j)
    ensures CodeOf(lens, s) < room - 1
  {
    var k := lens[s];
    CodesUsed(w, lens, k, top);
    WeightByLengthMonotone(w, lens, k, top);
    WeightSumByLength(w, lens, top, |lens|);
    CancelFactor(First(lens, k) + Count(lens, k), room, w(k));
    RankBelowCount(lens, s);
  }

  /** Every bit stream decodes to some symbol exactly when the Kraft sum is one. */
  lemma TotalIffComplete(lens: seq<nat>)
    requires Kraft(lens)
    ensures (forall src, pos: nat :: SymbolAt(lens, src, pos).Some?)
       <==> WeightSum(Weight, lens, |lens|) == Pow2(MAX_LENGTH)
  {
    hide SymbolAt, Msb, WeightSum;
    if WeightSum(Weight, lens, |lens|) == Pow2(MAX_LENGTH) {
      forall src, pos: nat ensures SymbolAt(lens, src, pos).Some? {
        CompleteDecodes(lens, src, pos);
      }
    } else {
      OnesHaveNoSymbol(lens);
    }
  }

  lemma OnesHaveNoSymbol(lens: seq<nat>)
    requires Kraft(lens) && WeightSum(Weight, lens, |lens|) < Pow2(MAX_LENGTH)
    ensures SymbolAt(lens, [255, 255], 0) == None
  {
    hide WeightSum, Msb, CodeOf;
    forall s: nat ensures !CodeAt(lens, s, [255, 255], 0) {
      if s < |lens| && lens[s] > 0 {
        AllOnes(lens[s]);
        GapExists(lens, s);
      }
    }
  }
}
