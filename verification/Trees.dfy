/** The decoder's Huffman tree: counts by length and symbols in code order, built in place by a counting sort. */
module Trees {
  import opened Huffman

  /** Where the counting sort puts a symbol. */
  function Slot(lens: seq<nat>, s: nat): nat
    requires s < |lens|
  {
    Offset(lens, lens[s]) + Rank(lens, lens[s], s)
  }

  /** The arrays hold the canonical code of these lengths. */
  ghost predicate HoldsCode(table: seq<nat>, trans: seq<nat>, lens: seq<nat>) {
    && |table| == 16 && |trans| == 288 && Lengths(lens)
    && (forall k {:trigger table[k]} | 1 <= k < 16 :: table[k] == Count(lens, k))
    && forall s {:trigger Slot(lens, s)} | 0 <= s < |lens| && lens[s] > 0 ::
         Slot(lens, s) < 288 && trans[Slot(lens, s)] == s
  }

  lemma SlotBound(lens: seq<nat>, s: nat)
    requires s < |lens| && lens[s] > 0
    ensures Slot(lens, s) < Offset(lens, lens[s] + 1) <= |lens|
  {
    RankBelowCount(lens, s);
    OffsetBound(lens, lens[s] + 1);
  }

  lemma SlotsDistinct(lens: seq<nat>, s: nat, t: nat)
    requires s < t < |lens| && lens[s] > 0 && lens[t] > 0
    ensures Slot(lens, s) != Slot(lens, t)
  {
    SlotBound(lens, s);
    SlotBound(lens, t);
    if lens[s] < lens[t] {
      OffsetMonotone(lens, lens[s] + 1, lens[t]);
    } else if lens[t] < lens[s] {
      OffsetMonotone(lens, lens[t] + 1, lens[s]);
    } else {
      RankInjective(lens, s, t);
    }
  }

  /** Every slot below the number of codes is some symbol's, so the tree is determined by the lengths. */
  lemma TreesAgree(table: seq<nat>, trans: seq<nat>, table': seq<nat>, trans': seq<nat>, lens: seq<nat>, i: nat)
    requires HoldsCode(table, trans, lens) && HoldsCode(table', trans', lens)
    requires i < Offset(lens, 16)
    ensures i < 288 && trans[i] == trans'[i]
  {
    var k := 15;
    while Offset(lens, k) > i
      invariant 1 <= k <= 15 && i < Offset(lens, k + 1)
      decreases k
    {
      k := k - 1;
    }
    var s := SymbolOfRank(lens, k, i - Offset(lens, k), |lens|);
    assert Slot(lens, s) == i;
  }

  /** The first t symbols are in their slots. */
  ghost predicate Placed(trans: seq<nat>, lens: seq<nat>, t: nat)
    requires t <= |lens|
  {
    forall s {:trigger Slot(lens, s)} | 0 <= s < t && lens[s] > 0 ::
      Slot(lens, s) < |trans| && trans[Slot(lens, s)] == s
  }

  /** The next free slot of each length once the first t symbols are placed. */
  ghost predicate Pointers(offs: seq<nat>, lens: seq<nat>, t: nat)
    requires t <= |lens|
  {
    |offs| == 16 && forall k {:trigger offs[k]} | 1 <= k < 16 :: offs[k] == Offset(lens, k) + Rank(lens, k, t)
  }

  lemma PlaceStep(trans: seq<nat>, offs: seq<nat>, lens: seq<nat>, t: nat)
    requires t < |lens| <= |trans| && 0 < lens[t] < 16
    requires Placed(trans, lens, t) && Pointers(offs, lens, t)
    ensures offs[lens[t]] < |trans|
    ensures Placed(trans[offs[lens[t]] := t], lens, t + 1)
    ensures Pointers(offs[lens[t] := offs[lens[t]] + 1], lens, t + 1)
  {
    SlotBound(lens, t);
    forall s | 0 <= s < t && lens[s] > 0 ensures Slot(lens, s) != Slot(lens, t) {
      SlotsDistinct(lens, s, t);
    }
  }

  class Tree {
    const table: array<nat>
    const trans: array<nat>

    constructor ()
      ensures table.Length == 16 && trans.Length == 288 && fresh(table) && fresh(trans) && table != trans
      ensures forall k | 0 <= k < 16 :: table[k] == 0
    {
      table := new nat[16](_ => 0);
      trans := new nat[288](_ => 0);
    }

    ghost predicate Shaped() {
      table.Length == 16 && trans.Length == 288 && table != trans
    }

    ghost predicate For(lens: seq<nat>)
      reads table, trans
    {
      Shaped() && HoldsCode(table[..], trans[..], lens)
    }

    /** `l`: build the tree from num lengths at off. */
    method Build(lengths: array<nat>, off: nat, num: nat)
      requires Shaped() && off + num <= lengths.Length && num <= 288
      requires lengths != table && lengths != trans
      requires Lengths(lengths[off..off + num])
      modifies table, trans
      ensures For(lengths[off..off + num])
    {
      CountLengths(lengths, off, num);
      var offs := StartOffsets(lengths[off..off + num]);
      PlaceSymbols(lengths, off, num, offs, lengths[off..off + num]);
    }

    /** Where the symbols of each length start. */
    method StartOffsets(ghost lens: seq<nat>) returns (offs: array<nat>)
      requires Shaped() && table[0] == 0
      requires forall k | 1 <= k < 16 :: table[k] == Count(lens, k)
      ensures fresh(offs) && offs.Length == 16
      ensures forall k | 0 <= k < 16 :: offs[k] == Offset(lens, k)
    {
      offs := new nat[16];
      var i := 0;
      for t := 0 to 16
        invariant i == Offset(lens, t)
        invariant forall k | 0 <= k < t :: offs[k] == Offset(lens, k)
      {
        offs[t] := i;
        i := i + table[t];
      }
    }

    /** Each symbol with a code goes to the next free slot of its length. */
    method PlaceSymbols(lengths: array<nat>, off: nat, num: nat, offs: array<nat>, ghost lens: seq<nat>)
      requires Shaped() && off + num <= lengths.Length && num <= 288
      requires lens == lengths[off..off + num] && Lengths(lens)
      requires offs != trans && offs != lengths && offs != table && lengths != trans
      requires Pointers(offs[..], lens, 0)
      modifies trans, offs
      ensures Placed(trans[..], lens, num)
    {
      for t := 0 to num
        invariant lengths[off..off + num] == lens
        invariant Pointers(offs[..], lens, t) && Placed(trans[..], lens, t)
      {
        var len := lengths[off + t];
        assert len == lens[t];
        if len != 0 {
          PlaceStep(trans[..], offs[..], lens, t);
          ghost var placed, moved := trans[..][offs[len] := t], offs[..][len := offs[len] + 1];
          trans[offs[len]] := t;
          offs[len] := offs[len] + 1;
          assert trans[..] == placed && offs[..] == moved;
        }
      }
    }

    /** The counts by length, with no count for the absent codes. */
    method CountLengths(lengths: array<nat>, off: nat, num: nat)
      requires Shaped() && off + num <= lengths.Length && lengths != table
      requires Lengths(lengths[off..off + num])
      modifies table
      ensures table[0] == 0
      ensures forall k | 1 <= k < 16 :: table[k] == Count(lengths[off..off + num], k)
    {
      ghost var lens := lengths[off..off + num];
      for t := 0 to 16
        invariant forall k | 0 <= k < t :: table[k] == 0
      {
        table[t] := 0;
      }
      for t := 0 to num
        invariant forall k | 0 <= k < 16 :: table[k] == Rank(lens, k, t)
      {
        assert lengths[off + t] == lens[t];
        table[lengths[off + t]] := table[lengths[off + t]] + 1;
      }
      table[0] := 0;
    }
  }
}
