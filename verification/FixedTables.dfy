/** The tables the decoder builds once when it loads: base values, extra bits and the fixed trees. */
module FixedTables {
  import opened BitStream
  import opened Huffman
  import opened Deflate
  import opened Trees

  // ----- The alphabets' tables against section 3.2.5 of RFC 1951 -----

  /** `D`: extra bits and base values of an alphabet whose extra bits grow by one every delta symbols. */
  method BuildBits(delta: nat, first: nat) returns (bits: array<nat>, base: array<nat>)
    requires 0 < delta <= 30
    ensures fresh(bits) && fresh(base) && bits != base && bits.Length == base.Length == 30
    ensures forall i | 0 <= i < 30 :: bits[i] == Extra(delta, i)
    ensures forall i | 0 <= i < 30 :: base[i] == Base(delta, first, i)
  {
    hide Pow2, Extra, Base;
    bits := BuildExtra(delta);
    base := BuildBase(delta, first, bits);
  }

  method BuildBase(delta: nat, first: nat, bits: array<nat>) returns (base: array<nat>)
    requires 0 < delta <= 30 && bits.Length == 30 && forall i | 0 <= i < 30 :: bits[i] == Extra(delta, i)
    ensures fresh(base) && base.Length == 30
    ensures forall i | 0 <= i < 30 :: base[i] == Base(delta, first, i)
  {
    hide Pow2, Extra;
    base := new nat[30];
    var sum := first;
    for t := 0 to 30
      invariant forall i {:trigger base[i]} | 0 <= i < t :: base[i] == Base(delta, first, i)
      invariant sum == Base(delta, first, t)
    {
      base[t] := sum;
      sum := sum + Pow2(bits[t]);
    }
  }

  method BuildExtra(delta: nat) returns (bits: array<nat>)
    requires 0 < delta <= 30
    ensures fresh(bits) && bits.Length == 30
    ensures forall i | 0 <= i < 30 :: bits[i] == Extra(delta, i)
  {
    bits := new nat[30];
    for t := 0 to delta
      invariant forall i | 0 <= i < t :: bits[i] == Extra(delta, i)
    {
      bits[t] := 0;
    }
    for t := 0 to 30 - delta
      invariant forall i | 0 <= i < delta + t :: bits[i] == Extra(delta, i)
    {
      ExtraIsQuotient(delta, t);
      bits[t + delta] := t / delta;
    }
  }

  lemma {:induction false} ExtraIsQuotient(delta: nat, t: nat)
    requires delta > 0
    ensures Extra(delta, t + delta) == t / delta
    decreases t
  {
    if t >= delta {
      ExtraIsQuotient(delta, t - delta);
      DivStep(t, delta);
    } else {
      DivUnique(t, delta, 0, t);
    }
  }

  lemma {:induction false} MulLess(d: nat, a: nat, b: nat)
    requires a < b
    ensures d * a + d <= d * b
    decreases b
  {
    assert d * b == d * (b - 1) + d;
    if a < b - 1 {
      MulLess(d, a, b - 1);
    }
  }

  lemma DivUnique(x: nat, d: nat, q: nat, r: nat)
    requires d > 0 && x == d * q + r && r < d
    ensures x / d == q
  {
    var q' := x / d;
    assert x == d * q' + x % d;
    if q' < q {
      MulLess(d, q', q);
    } else if q < q' {
      MulLess(d, q, q');
    }
  }

  lemma DivStep(x: nat, d: nat)
    requires 0 < d <= x
    ensures x / d == (x - d) / d + 1
  {
    var q, r := (x - d) / d, (x - d) % d;
    assert x - d == d * q + r;
    assert d * (q + 1) == d * q + d;
    DivUnique(x, d, q + 1, r);
  }

  lemma {:induction false} ExtraBound(delta: nat, i: nat)
    requires delta > 0
    ensures delta * Extra(delta, i) <= i
    decreases i
  {
    if i >= 2 * delta {
      ExtraBound(delta, i - delta);
      assert delta * (1 + Extra(delta, i - delta)) == delta + delta * Extra(delta, i - delta);
    }
  }

  /** Base values grow, and by one at least. */
  lemma {:induction false} BaseAtLeast(delta: nat, first: nat, i: nat)
    requires delta > 0
    ensures Base(delta, first, i) >= first + i
    decreases i
  {
    if i > 0 {
      BaseAtLeast(delta, first, i - 1);
    }
  }

  /** A base value below another one stands before it. */
  lemma {:induction false} BaseBelow(delta: nat, first: nat, j: nat, k: nat)
    requires delta > 0
    ensures Base(delta, first, j) < Base(delta, first, k) <==> j < k
    decreases j + k
  {
    if k > 0 && j <= k - 1 {
      BaseBelow(delta, first, j, k - 1);
    } else if j > 0 && k <= j {
      BaseBelow(delta, first, j - 1, k);
    }
  }

  /** The tables of section 3.2.5; `D` computes one length base more, and then both 28th entries are set by hand. */
  const LENGTH_BASES: seq<nat> := [
    3, 4, 5, 6, 7, 8, 9, 10, 11, 13, 15, 17, 19, 23, 27, 31, 35, 43, 51, 59, 67, 83, 99, 115, 131, 163, 195, 227, 258]

  const LENGTH_EXTRAS: seq<nat> := [
    0, 0, 0, 0, 0, 0, 0, 0, 1, 1, 1, 1, 2, 2, 2, 2, 3, 3, 3, 3, 4, 4, 4, 4, 5, 5, 5, 5, 0]

  const DIST_BASES: seq<nat> := [
    1, 2, 3, 4, 5, 7, 9, 13, 17, 25, 33, 49, 65, 97, 129, 193, 257, 385, 513, 769, 1025, 1537, 2049, 3073, 4097, 6145,
    8193, 12289, 16385, 24577]

  const DIST_EXTRAS: seq<nat> := [
    0, 0, 0, 0, 1, 1, 2, 2, 3, 3, 4, 4, 5, 5, 6, 6, 7, 7, 8, 8, 9, 9, 10, 10, 11, 11, 12, 12, 13, 13]

  lemma LengthRow(i: nat)
    requires i < 27
    ensures LENGTH_BASES[i + 1] == LENGTH_BASES[i] + Pow2(LENGTH_EXTRAS[i])
  {
    hide Pow2;
    SmallPowers();
  }

  lemma LengthExtraRow(i: nat)
    requires i < 28
    ensures LENGTH_EXTRAS[i] == if i < 8 then 0 else LENGTH_EXTRAS[i - 4] + 1
  {}

  lemma DistRow(i: nat)
    requires i < 29
    ensures DIST_BASES[i + 1] == DIST_BASES[i] + Pow2(DIST_EXTRAS[i])
  {
    hide Pow2;
    SmallPowers();
  }

  lemma DistExtraRow(i: nat)
    requires i < 30
    ensures DIST_EXTRAS[i] == if i < 4 then 0 else DIST_EXTRAS[i - 2] + 1
  {}

  lemma FirstBase(d: nat, f: nat)
    requires d > 0
    ensures Base(d, f, 0) == f
  {}

  lemma BaseStep(d: nat, f: nat, i: nat)
    requires d > 0
    ensures Base(d, f, i + 1) == Base(d, f, i) + Pow2(Extra(d, i))
  {}

  lemma ExtraStep(d: nat, i: nat)
    requires d > 0
    ensures Extra(d, i) == if i < 2 * d then 0 else 1 + Extra(d, i - d)
  {}

  lemma {:induction false} ComputedLength(i: nat)
    requires i < 28
    ensures Base(4, 3, i) == LENGTH_BASES[i] && Extra(4, i) == LENGTH_EXTRAS[i]
    decreases i
  {
    hide Pow2, Base, Extra;
    LengthExtraRow(i);
    ExtraStep(4, i);
    if i >= 8 {
      ComputedLength(i - 4);
    }
    if i == 0 {
      FirstBase(4, 3);
    } else {
      ComputedLength(i - 1);
      LengthRow(i - 1);
      BaseStep(4, 3, i - 1);
    }
  }

  lemma LastLength()
    ensures Base(4, 3, 28) == 259
  {
    hide Pow2, Extra;
    ComputedLength(27);
    SmallPowers();
    BaseStep(4, 3, 27);
  }

  /** Every length symbol's base and extra bits are those of the standard's table. */
  lemma LengthTable(i: nat)
    requires i < 29
    ensures LengthBase(i) == LENGTH_BASES[i] && LengthExtra(i) == LENGTH_EXTRAS[i]
  {
    hide Base, Extra;
    if i < 28 {
      ComputedLength(i);
    }
  }

  /** Every distance symbol's base and extra bits are those of the standard's table. */
  lemma {:induction false} DistTable(i: nat)
    requires i < 30
    ensures DistBase(i) == DIST_BASES[i] && DistExtra(i) == DIST_EXTRAS[i]
    decreases i
  {
    hide Pow2, Base, Extra;
    DistExtraRow(i);
    ExtraStep(2, i);
    if i >= 4 {
      DistTable(i - 2);
    }
    if i == 0 {
      FirstBase(2, 1);
    } else {
      DistTable(i - 1);
      DistRow(i - 1);
      BaseStep(2, 1, i - 1);
    }
  }

  lemma LastDist()
    ensures Base(2, 1, 30) == 32769
  {
    hide Pow2, Extra;
    DistTable(29);
    SmallPowers();
    BaseStep(2, 1, 29);
  }

  lemma SmallPowers()
    ensures Pow2(0) == 1 && Pow2(1) == 2 && Pow2(2) == 4 && Pow2(3) == 8 && Pow2(4) == 16 && Pow2(5) == 32
    ensures Pow2(6) == 64 && Pow2(7) == 128 && Pow2(8) == 256 && Pow2(9) == 512 && Pow2(10) == 1024
    ensures Pow2(11) == 2048 && Pow2(12) == 4096 && Pow2(13) == 8192 && Pow2(14) == 16384 && Pow2(15) == 32768
  {
    assert Pow2(4) == 16;
    assert Pow2(8) == 256;
    assert Pow2(12) == 4096;
  }

  // ----- The fixed trees against section 3.2.6 of RFC 1951 -----

  function Clamp(n: int, low: int, high: int): int {
    if n < low then low else if n > high then high else n
  }

  /** How many of the first n fixed literal/length codes have length k. */
  function FixedRank(k: nat, n: nat): int {
    if k == 7 then Clamp(n - 256, 0, 24)
    else if k == 8 then Clamp(n, 0, 144) + Clamp(n - 280, 0, 8)
    else if k == 9 then Clamp(n - 144, 0, 112)
    else 0
  }

  lemma {:induction false} FixedRanks(k: nat, n: nat)
    requires n <= 288
    ensures Rank(FixedLiteralLengths(), k, n) == FixedRank(k, n)
    decreases n
  {
    if n > 0 {
      FixedRanks(k, n - 1);
    }
  }

  lemma {:induction false} FixedDistanceRanks(k: nat, n: nat)
    requires n <= 32
    ensures Rank(FixedDistanceLengths(), k, n) == if k == 5 then n else 0
    decreases n
  {
    if n > 0 {
      FixedDistanceRanks(k, n - 1);
    }
  }

  lemma {:induction false} FixedOffsets(k: nat)
    requires k <= 9
    ensures Offset(FixedLiteralLengths(), k) == if k <= 7 then 0 else if k == 8 then 24 else 176
    decreases k
  {
    if k > 1 {
      FixedOffsets(k - 1);
      FixedRanks(k - 1, 288);
    }
  }

  lemma {:induction false} FixedDistanceOffsets(k: nat)
    requires k <= 5
    ensures Offset(FixedDistanceLengths(), k) == 0
    decreases k
  {
    if k > 1 {
      FixedDistanceOffsets(k - 1);
      FixedDistanceRanks(k - 1, 32);
    }
  }

  lemma FixedSlot(s: nat)
    requires s < 288
    ensures Slot(FixedLiteralLengths(), s)
         == if s < 144 then 24 + s else if s < 256 then 176 + (s - 144) else if s < 280 then s - 256
            else 168 + (s - 280)
  {
    FixedOffsets(FixedLength(s));
    FixedRanks(FixedLength(s), s);
  }

  /** a[at + i] := base + i for i below n. */
  method FillRun(a: array<nat>, at: nat, n: nat, base: nat)
    requires at + n <= a.Length
    modifies a
    ensures forall i | at <= i < at + n :: a[i] == base + (i - at)
    ensures forall i | 0 <= i < a.Length && !(at <= i < at + n) :: a[i] == old(a[i])
  {
    for r := 0 to n
      invariant forall i | at <= i < at + r :: a[i] == base + (i - at)
      invariant forall i | 0 <= i < a.Length && !(at <= i < at + r) :: a[i] == old(a[i])
    {
      a[at + r] := base + r;
    }
  }

  /** The symbol written by hand in each place of the literal/length tree. */
  function FixedSymbol(i: nat): nat {
    if i < 24 then 256 + i else if i < 168 then i - 24 else if i < 176 then 280 + (i - 168) else 144 + (i - 176)
  }

  function FixedCount(k: nat): nat {
    if k == 7 then 24 else if k == 8 then 152 else if k == 9 then 112 else 0
  }

  lemma FixedLiteralCode(table: seq<nat>, trans: seq<nat>)
    requires |table| == 16 && forall k | 0 <= k < 16 :: table[k] == FixedCount(k)
    requires |trans| == 288 && forall i | 0 <= i < 288 :: trans[i] == FixedSymbol(i)
    ensures HoldsCode(table, trans, FixedLiteralLengths())
  {
    forall k | 1 <= k < 16 ensures table[k] == Count(FixedLiteralLengths(), k) {
      FixedRanks(k, 288);
    }
    forall s | 0 <= s < 288 ensures Slot(FixedLiteralLengths(), s) < 288 && trans[Slot(FixedLiteralLengths(), s)] == s {
      FixedSlot(s);
    }
  }

  lemma FixedDistanceCode(table: seq<nat>, trans: seq<nat>)
    requires |table| == 16 && forall k | 0 <= k < 16 :: table[k] == if k == 5 then 32 else 0
    requires |trans| == 288 && forall i | 0 <= i < 32 :: trans[i] == i
    ensures HoldsCode(table, trans, FixedDistanceLengths())
  {
    forall k | 1 <= k < 16 ensures table[k] == Count(FixedDistanceLengths(), k) {
      FixedDistanceRanks(k, 32);
    }
    forall s | 0 <= s < 32 ensures Slot(FixedDistanceLengths(), s) == s {
      FixedDistanceOffsets(5);
      FixedDistanceRanks(5, s);
    }
  }

  /** `z`: the literal/length tree written out by hand is the one the fixed lengths give. */
  method FixedLiteralTree(tree: Tree)
    requires tree.Shaped() && forall k | 0 <= k < 16 :: tree.table[k] == 0
    modifies tree.table, tree.trans
    ensures tree.For(FixedLiteralLengths())
  {
    tree.table[7] := 24;
    tree.table[8] := 152;
    tree.table[9] := 112;
    FillRun(tree.trans, 0, 24, 256);
    FillRun(tree.trans, 24, 144, 0);
    FillRun(tree.trans, 168, 8, 280);
    FillRun(tree.trans, 176, 112, 144);
    FixedLiteralCode(tree.table[..], tree.trans[..]);
  }

  /** `z`, the distance tree. */
  method FixedDistanceTree(tree: Tree)
    requires tree.Shaped() && forall k | 0 <= k < 16 :: tree.table[k] == 0
    modifies tree.table, tree.trans
    ensures tree.For(FixedDistanceLengths())
  {
    tree.table[5] := 32;
    FillRun(tree.trans, 0, 32, 0);
    FixedDistanceCode(tree.table[..], tree.trans[..]);
  }

  /** The fixed codes use every bit pattern: their Kraft sums are one. */
  lemma FixedCodesFit()
    ensures Kraft(FixedLiteralLengths()) && Kraft(FixedDistanceLengths())
  {
    SmallPowers();
    FixedWeight(Weight, 288);
    FixedDistanceWeight(Weight, 32);
  }

  lemma {:induction false} FixedWeight(w: nat -> nat, n: nat)
    requires n <= 288 && w(7) == 256 && w(8) == 128 && w(9) == 64
    ensures WeightSum(w, FixedLiteralLengths(), n)
         == 256 * FixedRank(7, n) + 128 * FixedRank(8, n) + 64 * FixedRank(9, n)
    decreases n
  {
    if n > 0 {
      FixedWeight(w, n - 1);
    }
  }

  lemma {:induction false} FixedDistanceWeight(w: nat -> nat, n: nat)
    requires n <= 32 && w(5) == 1024
    ensures WeightSum(w, FixedDistanceLengths(), n) == 1024 * n
    decreases n
  {
    if n > 0 {
      FixedDistanceWeight(w, n - 1);
    }
  }

  lemma SmallExtras()
    ensures forall i | 0 <= i < 30 :: Extra(4, i) <= 16 && Extra(2, i) <= 16
  {
    hide Extra;
    forall i | 0 <= i < 30 ensures Extra(4, i) <= 16 && Extra(2, i) <= 16 {
      ExtraBound(4, i);
      ExtraBound(2, i);
    }
  }

  /** What the module builds when it loads and never writes again. */
  class Tables {
    const lengthBits: array<nat>
    const lengthBase: array<nat>
    const distBits: array<nat>
    const distBase: array<nat>
    const ltree: Tree
    const dtree: Tree

    ghost predicate Valid()
      reads lengthBits, lengthBase, distBits, distBase, ltree.table, ltree.trans, dtree.table, dtree.trans
    {
      && lengthBits.Length == lengthBase.Length == distBits.Length == distBase.Length == 30
      && (forall i | 0 <= i < 30 :: lengthBits[i] == LengthExtra(i) <= 16 && lengthBase[i] == LengthBase(i))
      && (forall i | 0 <= i < 30 :: distBits[i] == DistExtra(i) <= 16 && distBase[i] == DistBase(i))
      && ltree.For(FixedLiteralLengths()) && dtree.For(FixedDistanceLengths())
    }

    /** The module's load: `z` and both calls of `D`, and the length symbol that is set by hand. */
    constructor ()
      ensures Valid()
      ensures fresh({lengthBits, lengthBase, distBits, distBase})
      ensures fresh({ltree.table, ltree.trans, dtree.table, dtree.trans})
    {
      hide HoldsCode, LengthExtra, LengthBase, DistExtra, DistBase;
      var lt, dt := NewFixedTrees();
      var wb, hb, lb, tb := BuildTables();
      ltree, dtree, lengthBits, lengthBase, distBits, distBase := lt, dt, wb, hb, lb, tb;
    }
  }

  method NewFixedTrees() returns (lt: Tree, dt: Tree)
    ensures lt.For(FixedLiteralLengths()) && dt.For(FixedDistanceLengths())
    ensures fresh({lt.table, lt.trans, dt.table, dt.trans})
  {
    hide HoldsCode;
    lt := new Tree();
    dt := new Tree();
    FixedLiteralTree(lt);
    FixedDistanceTree(dt);
  }

  method BuildTables() returns (wb: array<nat>, hb: array<nat>, lb: array<nat>, tb: array<nat>)
    ensures fresh({wb, hb, lb, tb}) && wb.Length == hb.Length == lb.Length == tb.Length == 30
    ensures forall i | 0 <= i < 30 :: wb[i] == LengthExtra(i) <= 16 && hb[i] == LengthBase(i)
    ensures forall i | 0 <= i < 30 :: lb[i] == DistExtra(i) <= 16 && tb[i] == DistBase(i)
  {
    hide Extra, Base, Pow2;
    wb, hb := BuildBits(4, 3);
    lb, tb := BuildBits(2, 1);
    wb[28] := 0;
    hb[28] := 258;
    SmallExtras();
  }
}
