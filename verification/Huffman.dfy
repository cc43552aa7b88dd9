/** Canonical Huffman codes as section 3.2.2 of RFC 1951 defines them from code lengths. */
module Huffman {
  import opened BitStream

  const MAX_LENGTH: nat := 15

  /** How many of the first n symbols have a code of length k. */
  function Rank(lens: seq<nat>, k: nat, n: nat): nat
    requires n <= |lens|
    decreases n, lens
  {
    if n == 0 then 0 else Rank(lens, k, n - 1) + (if lens[n - 1] == k then 1 else 0)
  }

  function Count(lens: seq<nat>, k: nat): nat {
    Rank(lens, k, |lens|)
  }

  /** The numerically smallest code of length k (step 2 of section 3.2.2). */
  function First(lens: seq<nat>, k: nat): nat {
    if k <= 1 then 0 else 2 * (First(lens, k - 1) + Count(lens, k - 1))
  }

  /** How many symbols have a shorter code than k. */
  function Offset(lens: seq<nat>, k: nat): nat {
    if k <= 1 then 0 else Offset(lens, k - 1) + Count(lens, k - 1)
  }

  /** The canonical code of a symbol (step 3 of section 3.2.2). */
  function CodeOf(lens: seq<nat>, s: nat): nat
    requires s < |lens|
  {
    First(lens, lens[s]) + Rank(lens, lens[s], s)
  }

  function CodeBits(lens: seq<nat>, s: nat): seq<bit>
    requires s < |lens|
  {
    MsbBits(CodeOf(lens, s), lens[s])
  }

  ghost predicate Lengths(lens: seq<nat>) {
    forall i | 0 <= i < |lens| :: lens[i] <= MAX_LENGTH
  }

  /** 2^-l in units of 2^-15; a length of zero is no code. */
  function Weight(l: nat): nat {
    if 1 <= l <= MAX_LENGTH then Pow2(MAX_LENGTH - l) else 0
  }

  /** The summed weight of the first n symbols. */
  function WeightSum(w: nat -> nat, lens: seq<nat>, n: nat): nat
    requires n <= |lens|
    decreases n, lens
  {
    if n == 0 then 0 else WeightSum(w, lens, n - 1) + w(lens[n - 1])
  }

  /** The Kraft sum, of 2^-l over every code of length l, is at most one. */
  ghost predicate Kraft(lens: seq<nat>) {
    Lengths(lens) && WeightSum(Weight, lens, |lens|) <= Pow2(MAX_LENGTH)
  }

  /** The stream holds the canonical code of s at pos. */
  ghost predicate CodeAt(lens: seq<nat>, s: nat, src: seq<byte>, pos: nat) {
    s < |lens| && lens[s] > 0 && Msb(src, pos, lens[s]) == CodeOf(lens, s)
  }

  // ----- Ranks and counts -----

  lemma {:induction false} RankMonotone(lens: seq<nat>, k: nat, m: nat, n: nat)
    requires m <= n <= |lens|
    ensures Rank(lens, k, m) <= Rank(lens, k, n) <= Rank(lens, k, m) + (n - m)
    decreases n
  {
    if m < n {
      RankMonotone(lens, k, m, n - 1);
    }
  }

  lemma RankBelowCount(lens: seq<nat>, s: nat)
    requires s < |lens|
    ensures Rank(lens, lens[s], s) < Count(lens, lens[s])
  {
    RankMonotone(lens, lens[s], s + 1, |lens|);
  }

  /** Two symbols of one length with one rank are one symbol. */
  lemma RankInjective(lens: seq<nat>, s: nat, t: nat)
    requires s < t < |lens| && lens[s] == lens[t]
    ensures Rank(lens, lens[s], s) < Rank(lens, lens[t], t)
  {
    RankMonotone(lens, lens[s], s + 1, t);
  }

  /** Every rank below the count is some symbol's. */
  lemma {:induction false} SymbolOfRank(lens: seq<nat>, k: nat, r: nat, n: nat) returns (s: nat)
    requires n <= |lens| && r < Rank(lens, k, n)
    ensures s < n && lens[s] == k && Rank(lens, k, s) == r
    decreases n
  {
    if r < Rank(lens, k, n - 1) {
      s := SymbolOfRank(lens, k, r, n - 1);
    } else {
      s := n - 1;
    }
  }

  lemma {:induction false} OffsetMonotone(lens: seq<nat>, j: nat, k: nat)
    requires 1 <= j <= k
    ensures Offset(lens, j) <= Offset(lens, k)
    decreases k
  {
    if j < k {
      OffsetMonotone(lens, j, k - 1);
    }
  }

  /** All the codes up to length 15 together number no more than the symbols. */
  lemma OffsetBound(lens: seq<nat>, k: nat)
    ensures Offset(lens, k) <= |lens|
  {
    OffsetPrefixBound(lens, k, |lens|);
  }

  function OffsetUpTo(lens: seq<nat>, k: nat, n: nat): nat
    requires n <= |lens|
    decreases k
  {
    if k <= 1 then 0 else OffsetUpTo(lens, k - 1, n) + Rank(lens, k - 1, n)
  }

  lemma {:induction false} OffsetUpToAll(lens: seq<nat>, k: nat)
    ensures OffsetUpTo(lens, k, |lens|) == Offset(lens, k)
    decreases k
  {
    if k > 1 {
      OffsetUpToAll(lens, k - 1);
    }
  }

  lemma {:induction false} OffsetUpToStep(lens: seq<nat>, k: nat, n: nat)
    requires n < |lens|
    ensures OffsetUpTo(lens, k, n + 1) == OffsetUpTo(lens, k, n) + (if 1 <= lens[n] < k then 1 else 0)
    decreases k
  {
    if k > 1 {
      OffsetUpToStep(lens, k - 1, n);
    }
  }

  lemma {:induction false} OffsetUpToNone(lens: seq<nat>, k: nat)
    ensures OffsetUpTo(lens, k, 0) == 0
    decreases k
  {
    if k > 1 {
      OffsetUpToNone(lens, k - 1);
    }
  }

  lemma {:induction false} OffsetUpToBound(lens: seq<nat>, k: nat, n: nat)
    requires n <= |lens|
    ensures OffsetUpTo(lens, k, n) <= n
    decreases n
  {
    if n == 0 {
      OffsetUpToNone(lens, k);
    } else {
      OffsetUpToBound(lens, k, n - 1);
      OffsetUpToStep(lens, k, n - 1);
    }
  }

  lemma OffsetPrefixBound(lens: seq<nat>, k: nat, n: nat)
    requires n == |lens|
    ensures Offset(lens, k) <= n
  {
    OffsetUpToAll(lens, k);
    OffsetUpToBound(lens, k, n);
  }

  // ----- Codes are prefix-free -----

  /** Doubling from one length to a longer one never lowers the first code. */
  lemma {:induction false} FirstGrows(lens: seq<nat>, t: nat, k: nat)
    requires 1 <= t < k
    ensures Shr(First(lens, k), k - t) >= First(lens, t) + Count(lens, t)
    decreases k
  {
    if t == k - 1 {
      assert Shr(First(lens, k), 1) == Shr(First(lens, k) / 2, 0);
    } else {
      FirstGrows(lens, t, k - 1);
      ShrMonotone(First(lens, k - 1), First(lens, k) / 2, k - 1 - t);
    }
  }

  /** At a code of length k, no shorter prefix is below the codes of its own length. */
  lemma NoShorterCode(lens: seq<nat>, s: nat, src: seq<byte>, pos: nat, t: nat)
    requires CodeAt(lens, s, src, pos) && 1 <= t < lens[s]
    ensures Msb(src, pos, t) >= First(lens, t) + Count(lens, t)
  {
    MsbPrefix(src, pos, t, lens[s]);
    FirstGrows(lens, t, lens[s]);
    ShrMonotone(First(lens, lens[s]), CodeOf(lens, s), lens[s] - t);
  }

  /** At most one symbol's code stands at a position, whatever the lengths. */
  lemma UniqueSymbol(lens: seq<nat>, s: nat, t: nat, src: seq<byte>, pos: nat)
    requires CodeAt(lens, s, src, pos) && CodeAt(lens, t, src, pos)
    ensures s == t
  {
    RankBelowCount(lens, s);
    RankBelowCount(lens, t);
    if lens[s] < lens[t] {
      NoShorterCode(lens, t, src, pos, lens[s]);
    } else if lens[t] < lens[s] {
      NoShorterCode(lens, s, src, pos, lens[t]);
    } else if s < t {
      RankInjective(lens, s, t);
    } else if t < s {
      RankInjective(lens, t, s);
    }
  }

  /** The length k at which the code walk first falls below the codes of length k names a symbol. */
  lemma SymbolAtLength(lens: seq<nat>, src: seq<byte>, pos: nat, k: nat) returns (s: nat)
    requires k >= 1 && First(lens, k) <= Msb(src, pos, k) < First(lens, k) + Count(lens, k)
    ensures CodeAt(lens, s, src, pos) && lens[s] == k
    ensures Rank(lens, k, s) == Msb(src, pos, k) - First(lens, k)
  {
    s := SymbolOfRank(lens, k, Msb(src, pos, k) - First(lens, k), |lens|);
  }

  // ----- With a Kraft sum of at most one every code fits its length -----

  /** n times p, by addition. */
  function Times(n: nat, p: nat): nat {
    if n == 0 then 0 else Times(n - 1, p) + p
  }

  lemma {:induction false} TimesIsProduct(n: nat, p: nat)
    ensures Times(n, p) == n * p
  {
    if n > 0 {
      TimesIsProduct(n - 1, p);
    }
  }

  /** The summed weight of the first n symbols, counted length by length up to k. */
  function WeightByLength(w: nat -> nat, lens: seq<nat>, k: nat, n: nat): nat
    requires n <= |lens|
    decreases k
  {
    if k == 0 then 0 else WeightByLength(w, lens, k - 1, n) + Times(Rank(lens, k, n), w(k))
  }

  lemma {:induction false} WeightByLengthStep(w: nat -> nat, lens: seq<nat>, k: nat, n: nat)
    requires n < |lens|
    ensures WeightByLength(w, lens, k, n + 1)
         == WeightByLength(w, lens, k, n) + (if 1 <= lens[n] <= k then w(lens[n]) else 0)
    decreases k
  {
    if k > 0 {
      WeightByLengthStep(w, lens, k - 1, n);
    }
  }

  lemma {:induction false} WeightByLengthNone(w: nat -> nat, lens: seq<nat>, k: nat)
    ensures WeightByLength(w, lens, k, 0) == 0
    decreases k
  {
    if k > 0 {
      WeightByLengthNone(w, lens, k - 1);
    }
  }

  lemma {:induction false} WeightSumByLength(w: nat -> nat, lens: seq<nat>, k: nat, n: nat)
    requires n <= |lens| && w(0) == 0 && forall i | 0 <= i < |lens| :: lens[i] <= k
    ensures WeightSum(w, lens, n) == WeightByLength(w, lens, k, n)
    decreases n
  {
    if n == 0 {
      WeightByLengthNone(w, lens, k);
    } else {
      WeightSumByLength(w, lens, k, n - 1);
      WeightByLengthStep(w, lens, k, n - 1);
    }
  }

  lemma {:induction false} WeightByLengthMonotone(w: nat -> nat, lens: seq<nat>, j: nat, k: nat)
    requires j <= k
    ensures WeightByLength(w, lens, j, |lens|) <= WeightByLength(w, lens, k, |lens|)
    decreases k
  {
    if j < k {
      WeightByLengthMonotone(w, lens, j, k - 1);
    }
  }

  lemma Distribute(a: nat, b: nat, p: nat)
    ensures (a + b) * p == a * p + b * p
  {}

  lemma MoveTwo(c: nat, p: nat)
    ensures c * (2 * p) == (2 * c) * p
  {}

  /** The codes handed out up to length k weigh what the symbols up to length k do. */
  lemma {:induction false} CodesUsed(w: nat -> nat, lens: seq<nat>, k: nat, top: nat)
    requires 1 <= k <= top && forall j | 1 < j <= top :: w(j - 1) == 2 * w(j)
    ensures (First(lens, k) + Count(lens, k)) * w(k) == WeightByLength(w, lens, k, |lens|)
    decreases k
  {
    TimesIsProduct(Count(lens, k), w(k));
    Distribute(First(lens, k), Count(lens, k), w(k));
    if k > 1 {
      CodesUsed(w, lens, k - 1, top);
      assert w(k - 1) == 2 * w(k);
      MoveTwo(First(lens, k - 1) + Count(lens, k - 1), w(k));
    } else {
      assert WeightByLength(w, lens, 0, |lens|) == 0;
    }
  }

  lemma {:induction false} Pow2Sum(m: nat, n: nat)
    ensures Pow2(m + n) == Pow2(m) * Pow2(n)
    decreases m
  {
    if m > 0 {
      Pow2Sum(m - 1, n);
      assert 2 * (Pow2(m - 1) * Pow2(n)) == (2 * Pow2(m - 1)) * Pow2(n);
    }
  }

  lemma CancelFactor(a: nat, b: nat, p: nat)
    requires p > 0 && a * p <= b * p
    ensures a <= b
  {
    if a > b {
      Distribute(b, a - b, p);
    }
  }

  lemma WeightFacts(k: nat)
    requires 1 <= k <= MAX_LENGTH
    ensures Weight(0) == 0 && Weight(k) > 0 && Pow2(k) * Weight(k) == Pow2(MAX_LENGTH)
    ensures forall j | 1 < j <= MAX_LENGTH :: Weight(j - 1) == 2 * Weight(j)
  {
    Pow2Sum(k, MAX_LENGTH - k);
  }

  lemma CodeFits(lens: seq<nat>, s: nat)
    requires Kraft(lens) && s < |lens| && lens[s] > 0
    ensures CodeOf(lens, s) < Pow2(lens[s])
  {
    WeightFacts(lens[s]);
    CodeFitsWeight(Weight, lens, s, MAX_LENGTH, Pow2(MAX_LENGTH), Pow2(lens[s]));
  }

  lemma CodeFitsWeight(w: nat -> nat, lens: seq<nat>, s: nat, top: nat, unit: nat, room: nat)
    requires s < |lens| && 1 <= lens[s] && forall i | 0 <= i < |lens| :: lens[i] <= top
    requires w(0) == 0 && w(lens[s]) > 0 && room * w(lens[s]) == unit && WeightSum(w, lens, |lens|) <= unit
    requires forall j | 1 < j <= top :: w(j - 1) == 2 * w(j)
    ensures CodeOf(lens, s) < room
  {
    var k := lens[s];
    CodesUsed(w, lens, k, top);
    WeightByLengthMonotone(w, lens, k, top);
    WeightSumByLength(w, lens, top, |lens|);
    CancelFactor(First(lens, k) + Count(lens, k), room, w(k));
    RankBelowCount(lens, s);
  }

  /** A stream that starts with the code bits of s has the code of s there. */
  lemma CodeBitsAreCode(lens: seq<nat>, s: nat, src: seq<byte>, pos: nat)
    requires Kraft(lens) && s < |lens| && lens[s] > 0
    requires HasBits(src, pos, CodeBits(lens, s))
    ensures CodeAt(lens, s, src, pos)
  {
    CodeFits(lens, s);
    ReadMsb(src, pos, CodeOf(lens, s), lens[s]);
  }
}
