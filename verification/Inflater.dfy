/** The decoder itself: a bit buffer over the source, trees in arrays and an output buffer of fixed size. */
module Inflater {
  import opened Optional
  import opened BitStream
  import opened Huffman
  import opened Deflate
  import opened Trees
  import opened FixedTables
  import opened Truncation

  /** What the buffer keeps of an output: as much as fits. */
  ghost predicate Holds(dest: seq<byte>, out: seq<byte>) {
    forall i | 0 <= i < |dest| && i < |out| :: dest[i] == out[i]
  }

  // ----- Steps of the bit buffer -----

  lemma TakeBit(src: seq<byte>, pos: nat, n: nat)
    requires n > 0
    ensures Bits(src, pos, n) % 2 == Bit(src, pos) && Bits(src, pos, n) / 2 == Bits(src, pos + 1, n - 1)
  {}

  lemma AppendByte(src: seq<byte>, pos: nat, k: nat, n: nat)
    requires pos + n == 8 * k
    ensures Or(Bits(src, pos, n), Shl(ByteAt(src, k), n)) == Bits(src, pos, n + 8)
  {
    hide Bit;
    ByteBits(src, k);
    AppendBits(src, pos, n, 8);
  }

  lemma FitsBelowSign(src: seq<byte>, pos: nat, n: nat)
    requires n <= 31
    ensures Bits(src, pos, n) < INT31
  {
    hide Bit;
    BitsBound(src, pos, n);
    Pow2Monotone(n, 31);
    assert Pow2(8) == 256;
    assert Pow2(16) == 65536;
    assert Pow2(24) == 0x100_0000;
    assert Pow2(31) == INT31;
  }

  lemma RunStep(out: seq<byte>, src: seq<byte>, k: nat, n: nat)
    requires n > 0
    ensures out + [ByteAt(src, k)] + ByteRun(src, k + 1, n - 1) == out + ByteRun(src, k, n)
  {}

  // ----- Steps of the block loop -----

  lemma NeverEnds(ll: seq<nat>, dl: seq<nat>, src: seq<byte>, st: State)
    requires st.pos >= 8 * |src| && BodyStep(ll, dl, src, st).More?
    ensures Block(ll, dl, src, st) == None
  {
    hide Block, BodyStep, ZerosFrom, ZeroSymbol;
    PastEnd(src, st.pos);
    MoreForever(ll, dl, src, st);
    ExhaustedEndsIff(ll, dl, src, st);
  }

  // ----- Steps of the code walk -----

  /** No code of length k stands at pos, and none that is a prefix of the bits there. */
  ghost predicate Passed(lens: seq<nat>, src: seq<byte>, pos: nat, k: nat) {
    Msb(src, pos, k) >= First(lens, k) + Count(lens, k)
  }

  /** After t bits no code of length t or less has ended, and sum and cur locate the walk. */
  ghost predicate Walk(lens: seq<nat>, src: seq<byte>, pos: nat, t: nat, sum: int, cur: int) {
    && sum == Offset(lens, t + 1)
    && cur >= 0 && 2 * cur == 2 * Msb(src, pos, t) - First(lens, t + 1)
    && forall k | 1 <= k <= t :: Passed(lens, src, pos, k)
  }

  lemma WalkOn(lens: seq<nat>, src: seq<byte>, pos: nat, t: nat, sum: int, cur: int)
    requires Walk(lens, src, pos, t, sum, cur) && 2 * cur + Bit(src, pos + t) >= Count(lens, t + 1)
    ensures Walk(lens, src, pos, t + 1, sum + Count(lens, t + 1), 2 * cur + Bit(src, pos + t) - Count(lens, t + 1))
  {
    assert Msb(src, pos, t + 1) == 2 * Msb(src, pos, t) + Bit(src, pos + t);
    assert Passed(lens, src, pos, t + 1);
  }

  /** The walk ends in the slot of the symbol that stands at pos. */
  lemma WalkEnd(lens: seq<nat>, src: seq<byte>, pos: nat, t: nat, sum: int, cur: int)
    requires Walk(lens, src, pos, t, sum, cur) && 2 * cur + Bit(src, pos + t) < Count(lens, t + 1)
    ensures var s := SymbolAt(lens, src, pos);
            && s.Some? && s.value < |lens| && lens[s.value] == t + 1
            && Slot(lens, s.value) == sum + (2 * cur + Bit(src, pos + t))
  {
    assert Msb(src, pos, t + 1) == 2 * Msb(src, pos, t) + Bit(src, pos + t);
    var s := SymbolAtLength(lens, src, pos, t + 1);
    SymbolIs(lens, s, src, pos);
  }

  lemma NoSymbol(lens: seq<nat>, src: seq<byte>, pos: nat, sum: int, cur: int)
    requires Lengths(lens) && Walk(lens, src, pos, MAX_LENGTH, sum, cur)
    ensures SymbolAt(lens, src, pos) == None
  {
    forall s: nat | CodeAt(lens, s, src, pos) ensures false {
      NotPassed(lens, s, src, pos);
    }
  }

  lemma NotPassed(lens: seq<nat>, s: nat, src: seq<byte>, pos: nat)
    requires CodeAt(lens, s, src, pos)
    ensures !Passed(lens, src, pos, lens[s])
  {
    RankBelowCount(lens, s);
  }

  /** The loop of `v`: follow the bits held until the walk falls below the codes of its length or passes the table. */
  method Descend(tree: Tree, tag: nat, ghost lens: seq<nat>, ghost src: seq<byte>, ghost pos: nat, ghost n: nat)
    returns (t: nat, i: int, held: nat)
    requires tree.For(lens) && n >= 24 && tag == Bits(src, pos, n)
    ensures 1 <= t <= MAX_LENGTH + 1 && held == Bits(src, pos + t, n - t)
    ensures t > MAX_LENGTH ==> SymbolAt(lens, src, pos) == None
    ensures t <= MAX_LENGTH ==>
              var s := SymbolAt(lens, src, pos);
              s.Some? && s.value < |lens| && lens[s.value] == t && Slot(lens, s.value) == i
  {
    hide Bit;
    var sum, cur := 0, 0;
    t, held := 0, tag;
    while true
      invariant t <= MAX_LENGTH && held == Bits(src, pos + t, n - t)
      invariant Walk(lens, src, pos, t, sum, cur)
      decreases MAX_LENGTH - t
    {
      TakeBit(src, pos + t, n - t);
      if t == MAX_LENGTH {
        NoSymbol(lens, src, pos, sum, cur);
      } else if 2 * cur + Bit(src, pos + t) < Count(lens, t + 1) {
        WalkEnd(lens, src, pos, t, sum, cur);
      } else {
        WalkOn(lens, src, pos, t, sum, cur);
      }
      cur := 2 * cur + held % 2;
      held := held / 2;
      t := t + 1;
      if t > MAX_LENGTH {
        break;
      }
      sum := sum + tree.table[t];
      cur := cur - tree.table[t];
      if cur < 0 {
        break;
      }
    }
    i := sum + cur;
  }

  class Decoder {
    const source: seq<byte>
    const dest: array<byte>
    const ltree: Tree
    const dtree: Tree
    var tag: nat
    var bitcount: nat
    var sourceIndex: nat
    var destLen: nat
    ghost var out: seq<byte>

    constructor (source: seq<byte>, dest: array<byte>)
      ensures this.source == source && this.dest == dest
      ensures Reading() && Pos() == 0 && Writing() && out == []
      ensures TreesApart() && fresh(ltree) && fresh(dtree)
      ensures fresh(ltree.table) && fresh(ltree.trans) && fresh(dtree.table) && fresh(dtree.trans)
    {
      this.source, this.dest := source, dest;
      tag, bitcount, sourceIndex, destLen, out := 0, 0, 0, 0, [];
      var lt := new Tree();
      var dt := new Tree();
      ltree, dtree := lt, dt;
    }

    ghost predicate TreesApart() {
      && ltree.Shaped() && dtree.Shaped()
      && ltree.table != dtree.table && ltree.table != dtree.trans
      && ltree.trans != dtree.table && ltree.trans != dtree.trans
    }

    // ----- The bit buffer -----

    /** The position in the ideal stream that the buffer stands for. */
    function Pos(): int
      reads this
    {
      8 * sourceIndex - bitcount
    }

    /** The buffer holds exactly the bits from Pos() up to the next unread byte. */
    ghost predicate Reading()
      reads this
    {
      bitcount <= 31 && 0 <= Pos() && tag == Bits(source, Pos(), bitcount)
    }

    /** `B`: one bit. An empty buffer is refilled whatever its tag still says. */
    method ReadBit() returns (n: nat)
      requires Reading() || bitcount == 0
      modifies `tag, `bitcount, `sourceIndex
      ensures Reading() && Pos() == old(Pos()) + 1 && n == Bit(source, old(Pos()))
    {
      hide Bit, Pow2, Or, Shl, And, Shr;
      if bitcount == 0 {
        ByteBits(source, sourceIndex);
        tag := ByteAt(source, sourceIndex);
        TakeBit(source, Pos(), 8);
        sourceIndex := sourceIndex + 1;
        bitcount := 7;
      } else {
        TakeBit(source, Pos(), bitcount);
        bitcount := bitcount - 1;
      }
      n := tag % 2;
      tag := tag / 2;
    }

    /** The loop both readers start with: whole bytes until 24 bits or more are held. Nothing overflows 31 bits. */
    method Refill()
      requires Reading()
      modifies `tag, `bitcount, `sourceIndex
      ensures Reading() && Pos() == old(Pos()) && bitcount >= 24
    {
      hide Bit, Pow2, Or, Shl, And, Shr;
      while bitcount < 24
        invariant Reading() && Pos() == old(Pos())
      {
        AppendByte(source, Pos(), sourceIndex, bitcount);
        FitsBelowSign(source, Pos(), bitcount + 8);
        tag := Or(tag, Shl(ByteAt(source, sourceIndex), bitcount));
        assert tag < INT31;
        sourceIndex := sourceIndex + 1;
        bitcount := bitcount + 8;
      }
    }

    /** `u`: a field of n bits, added to base. */
    method ReadBits(n: nat, base: nat) returns (v: nat)
      requires Reading() && n <= 16
      modifies `tag, `bitcount, `sourceIndex
      ensures Reading() && Pos() == old(Pos()) + n && v == base + Bits(source, old(Pos()), n)
      ensures n > 0 ==> bitcount >= 24 - n
    {
      hide Bit, Pow2, Or, Shl, And, Shr;
      if n == 0 {
        return base;
      }
      Refill();
      MaskOfWidth(n);
      MaskBits(source, Pos(), bitcount, n);
      DropBits(source, Pos(), bitcount, n);
      v := And(tag, Shr(65535, 16 - n)) + base;
      tag := Shr(tag, n);
      bitcount := bitcount - n;
    }

    /** `v`: one symbol. None is the undefined that a gap in the code reads as. */
    method ReadSymbol(tree: Tree, ghost lens: seq<nat>) returns (s: Option<nat>)
      requires Reading() && tree.For(lens)
      modifies `tag, `bitcount, `sourceIndex
      ensures Reading() && s == SymbolAt(lens, source, old(Pos()))
      ensures Pos() == old(Pos()) + Width(lens, s)
    {
      hide Bit, First, Offset, Msb;
      Refill();
      var t, i, held := Descend(tree, tag, lens, source, Pos(), bitcount);
      tag := held;
      bitcount := bitcount - t;
      s := if t <= MAX_LENGTH then Some(tree.trans[i]) else None;
    }

    // ----- The output -----

    ghost predicate Writing()
      reads this, dest
    {
      destLen == |out| && Holds(dest[..], out)
    }

    /** A write past the end of a typed array is dropped; the length still grows. */
    method Emit(b: byte, ghost ideal: byte)
      requires Writing() && (destLen < dest.Length ==> b == ideal)
      modifies `destLen, `out, dest
      ensures Writing() && out == old(out) + [ideal]
    {
      if destLen < dest.Length {
        dest[destLen] := b;
      }
      destLen := destLen + 1;
      out := out + [ideal];
    }

    /** The copy loop of `U`, from len bytes starting dist back. */
    method Copy(len: nat, dist: nat)
      requires Writing() && dist > 0
      modifies `destLen, `out, dest
      ensures Writing() && out == CopyFrom(old(out), |old(out)| - dist, len)
    {
      var o := destLen - dist;
      var s := o;
      while s < o + len
        invariant Writing() && o <= s <= o + len && s == destLen - dist
        invariant CopyFrom(out, s, o + len - s) == CopyFrom(old(out), o, len)
      {
        Emit(if 0 <= s < dest.Length then dest[s] else 0, OutAt(out, s));
        s := s + 1;
      }
    }

    // ----- Blocks -----

    method ReadLength(a: Option<nat>, tables: Tables) returns (len: Option<nat>)
      requires Reading() && tables.Valid()
      modifies `tag, `bitcount, `sourceIndex
      ensures Reading() && Field(Pos(), len) == LengthField(source, old(Pos()), a)
    {
      hide Bits, LengthExtra, LengthBase, HoldsCode;
      len := None;
      if a.Some? && 257 <= a.value < 287 {
        var v := ReadBits(tables.lengthBits[a.value - 257], tables.lengthBase[a.value - 257]);
        len := Some(v);
      }
    }

    method ReadDistance(i: Option<nat>, tables: Tables) returns (dist: Option<nat>)
      requires Reading() && tables.Valid()
      modifies `tag, `bitcount, `sourceIndex
      ensures Reading() && Field(Pos(), dist) == DistField(source, old(Pos()), i)
      ensures dist.Some? ==> dist.value > 0
    {
      hide Bits, DistExtra, HoldsCode, Base;
      dist := None;
      if i.Some? && i.value < 30 {
        BaseAtLeast(2, 1, i.value);
        var v := ReadBits(tables.distBits[i.value], tables.distBase[i.value]);
        dist := Some(v);
      }
    }

    /** The length and distance of `U`, and the copy they ask for. */
    method ReadMatch(a: Option<nat>, dt: Tree, ghost dl: seq<nat>, tables: Tables)
      requires Reading() && Writing() && dt.For(dl) && tables.Valid()
      modifies `tag, `bitcount, `sourceIndex, `destLen, `out, dest
      ensures Reading() && Writing()
      ensures State(Pos(), out) == Match(dl, source, old(Pos()), old(out), a)
    {
      hide Bits, LengthField, DistField, HoldsCode, SymbolAt, CopyFrom, Holds, Tables.Valid;
      var len := ReadLength(a, tables);
      var i := ReadSymbol(dt, dl);
      var dist := ReadDistance(i, tables);
      if len.Some? && dist.Some? {
        Copy(len.value, dist.value);
      }
    }

    /** `U`: a block body. False where the loop would run for ever: that is settled by the first symbol past the end
        of the source, because every later one reads the same. */
    method InflateBlock(lt: Tree, dt: Tree, ghost ll: seq<nat>, ghost dl: seq<nat>, tables: Tables) returns (done: bool)
      requires Reading() && Writing() && lt.For(ll) && dt.For(dl) && tables.Valid()
      modifies `tag, `bitcount, `sourceIndex, `destLen, `out, dest
      ensures Reading() && Writing()
      ensures Block(ll, dl, source, State(old(Pos()), old(out))) == if done then Some(State(Pos(), out)) else None
    {
      hide Bits, HoldsCode, SymbolAt, Match, Holds, Width, Tables.Valid, Block, ZerosFrom, ZeroSymbol;
      while true
        invariant Reading() && Writing()
        invariant Block(ll, dl, source, State(Pos(), out)) == Block(ll, dl, source, State(old(Pos()), old(out)))
        decreases 8 * |source| - Pos()
      {
        ghost var st := State(Pos(), out);
        BlockUnfolds(ll, dl, source, st);
        var inside := Pos() < 8 * |source|;
        var a := ReadSymbol(lt, ll);
        if a == Some(256) {
          return true;
        }
        if !inside {
          NeverEnds(ll, dl, source, st);
          return false;
        }
        if a.Some? && a.value < 256 {
          Emit(a.value, a.value);
        } else {
          ReadMatch(a, dt, dl, tables);
        }
        assert BodyStep(ll, dl, source, st) == More(State(Pos(), out));
      }
    }

    /** The loop `K` starts with: give back every whole byte still in the buffer but one. */
    method GiveBack()
      requires Reading() && bitcount > 0
      modifies `bitcount, `sourceIndex
      ensures sourceIndex == old(Pos()) / 8 + 1
    {
      while bitcount > 8
        invariant 0 < bitcount && 0 <= Pos() == old(Pos())
        modifies `bitcount, `sourceIndex
      {
        sourceIndex := sourceIndex - 1;
        bitcount := bitcount - 8;
      }
    }

    /** `K`: a stored block. The header has just been read, so the buffer is not empty. */
    method StoredBlock() returns (ok: bool)
      requires Reading() && Writing() && bitcount > 0
      modifies `tag, `bitcount, `sourceIndex, `destLen, `out, dest
      ensures Writing()
      ensures ok ==> bitcount == 0
      ensures Stored(source, State(old(Pos()), old(out))) == if ok then Some(State(Pos(), out)) else None
    {
      hide Bits, Holds, ByteRun;
      GiveBack();
      var k := sourceIndex;
      if k + 1 >= |source| {
        return false;
      }
      var len := Word(source[k], source[k + 1]);
      var check := if k + 3 < |source| then Word(source[k + 2], source[k + 3]) else 0;
      if len != 65535 - check {
        return false;
      }
      sourceIndex := sourceIndex + 4;
      CopyBytes(len);
      bitcount := 0;
      return true;
    }

    /** The copy loop of `K`. */
    method CopyBytes(n: nat)
      requires Writing()
      modifies `sourceIndex, `destLen, `out, dest
      ensures Writing() && sourceIndex == old(sourceIndex) + n
      ensures out == old(out) + ByteRun(source, old(sourceIndex), n)
    {
      hide Holds;
      var a := n;
      while a > 0
        invariant 0 <= a <= n && sourceIndex == old(sourceIndex) + (n - a) && Writing()
        invariant out + ByteRun(source, sourceIndex, a) == old(out) + ByteRun(source, old(sourceIndex), n)
      {
        RunStep(out, source, sourceIndex, a);
        Emit(ByteAt(source, sourceIndex), ByteAt(source, sourceIndex));
        sourceIndex := sourceIndex + 1;
        a := a - 1;
      }
    }

    // ----- Dynamic headers -----

    /** The three-bit code length code lengths, in their transmission order. */
    method ReadCodeLengths(lengths: array<nat>, n: nat)
      requires Reading() && lengths.Length == 320 && n <= 19
      modifies `tag, `bitcount, `sourceIndex, lengths
      ensures Reading() && Pos() == old(Pos()) + 3 * n
      ensures lengths[..19] == CodeLengths(source, old(Pos()), n)
    {
      hide Bits;
      for o := 0 to 19
        invariant lengths[..o] == Fill(o, 0) && Reading() && Pos() == old(Pos())
      {
        lengths[o] := 0;
      }
      for o := 0 to n
        invariant Reading() && Pos() == old(Pos()) + 3 * o
        invariant lengths[..19] == CodeLengths(source, old(Pos()), o)
      {
        var f := ReadBits(3, 0);
        OrderIs(o);
        lengths[ORDER[o]] := f;
      }
    }

    /** One code length symbol: a length, or a run. Writes past the array are dropped. */
    method ReadRun(lengths: array<nat>, tree: Tree, ghost cl: seq<nat>, s: nat, ghost acc: seq<nat>) returns (next: nat)
      requires Reading() && lengths.Length == 320 && tree.For(cl) && lengths != tree.table && lengths != tree.trans
      requires s == |acc| && s <= 320 && KeepsLengths(lengths[..], acc)
      modifies `tag, `bitcount, `sourceIndex, lengths
      ensures Reading()
      ensures var runs := OneRun(cl, source, old(Pos()), acc);
              Pos() == runs.pos && next == |runs.lens| && KeepsLengths(lengths[..], runs.lens)
    {
      hide Bits, HoldsCode, SymbolAt, Width, Fill;
      var g := ReadSymbol(tree, cl);
      if g == Some(16) {
        var m := if s == 0 then 0 else lengths[s - 1];
        var f := ReadBits(2, 3);
        next := StoreRun(lengths, s, f, m, acc);
      } else if g == Some(17) {
        var f := ReadBits(3, 3);
        next := StoreRun(lengths, s, f, 0, acc);
      } else if g == Some(18) {
        var f := ReadBits(7, 11);
        next := StoreRun(lengths, s, f, 0, acc);
      } else {
        next := StoreRun(lengths, s, 1, if g.Some? then g.value else 0, acc);
        FillOne(if g.Some? then g.value else 0);
      }
    }

    /** Code lengths until total of them are known, a run at a time. */
    method ReadRuns(lengths: array<nat>, tree: Tree, ghost cl: seq<nat>, total: nat)
      requires Reading() && lengths.Length == 320 && total <= 320
      requires tree.For(cl) && |cl| == 19 && lengths != tree.table && lengths != tree.trans
      modifies `tag, `bitcount, `sourceIndex, lengths
      ensures Reading()
      ensures var runs := Unroll(cl, source, Runs(old(Pos()), []), total);
              Pos() == runs.pos && lengths[..total] == runs.lens[..total] && Lengths(runs.lens)
    {
      hide Bits, HoldsCode, OneRun;
      var s := 0;
      ghost var acc := [];
      while s < total
        invariant Reading() && s == |acc| && KeepsLengths(lengths[..], acc) && Lengths(acc)
        invariant tree.For(cl)
        invariant Unroll(cl, source, Runs(Pos(), acc), total) == Unroll(cl, source, Runs(old(Pos()), []), total)
        decreases total - s
      {
        ghost var runs := OneRun(cl, source, Pos(), acc);
        RunLengths(cl, source, Pos(), acc);
        s := ReadRun(lengths, tree, cl, s, acc);
        acc := runs.lens;
      }
    }

    /** The first half of `C`: the code lengths of both alphabets, one after the other. */
    method ReadLengths(lengths: array<nat>, codeTree: Tree) returns (hlit: nat, hdist: nat)
      requires Reading() && codeTree.Shaped() && lengths.Length == 320
      requires lengths !in {codeTree.table, codeTree.trans}
      modifies `tag, `bitcount, `sourceIndex, lengths, codeTree.table, codeTree.trans
      ensures Reading() && hlit <= 288 && hdist <= 32
      ensures var h := ReadHeader(source, old(Pos()));
              Pos() == h.pos && lengths[0..hlit] == h.ll && lengths[hlit..hlit + hdist] == h.dl
              && Lengths(h.ll) && Lengths(h.dl)
    {
      hide Bits, HoldsCode, Unroll, CodeLengths, Fill, Lengths, Pow2;
      ghost var pos: nat := Pos();
      CountBounds(source, pos);
      hlit := ReadBits(5, 257);
      hdist := ReadBits(5, 1);
      var hclen := ReadBits(4, 4);
      ReadCodeLengths(lengths, hclen);
      ghost var cl := CodeLengths(source, pos + 14, hclen);
      CodeLengthsSmall(source, pos + 14, hclen);
      codeTree.Build(lengths, 0, 19);
      ReadRuns(lengths, codeTree, cl, hlit + hdist);
      ghost var runs := Unroll(cl, source, Runs(pos + 14 + 3 * hclen, []), hlit + hdist);
      SplitRuns(lengths[..], runs.lens, hlit, hdist);
    }

    /** `C`: a dynamic header, and the two trees it describes. */
    method ReadTrees(lengths: array<nat>, codeTree: Tree)
      requires Reading() && TreesApart() && codeTree.Shaped() && lengths.Length == 320
      requires lengths !in {codeTree.table, codeTree.trans, ltree.table, ltree.trans, dtree.table, dtree.trans}
      modifies `tag, `bitcount, `sourceIndex, lengths, codeTree.table, codeTree.trans
      modifies ltree.table, ltree.trans, dtree.table, dtree.trans
      ensures Reading()
      ensures var h := ReadHeader(source, old(Pos()));
              Pos() == h.pos && ltree.For(h.ll) && dtree.For(h.dl)
    {
      hide Bits, HoldsCode, ReadHeader;
      var hlit, hdist := ReadLengths(lengths, codeTree);
      ltree.Build(lengths, 0, hlit);
      dtree.Build(lengths, hlit, hdist);
    }
  }

  // ----- Steps of the header -----

  /** The array keeps as many of the lengths as it has room for. */
  ghost predicate KeepsLengths(lengths: seq<nat>, acc: seq<nat>) {
    forall i | 0 <= i < |lengths| && i < |acc| :: lengths[i] == acc[i]
  }

  /** Append n copies of v at s, dropping what is past the end of the array. */
  method StoreRun(lengths: array<nat>, s: nat, n: nat, v: nat, ghost acc: seq<nat>) returns (next: nat)
    requires s == |acc| && KeepsLengths(lengths[..], acc)
    modifies lengths
    ensures next == s + n && KeepsLengths(lengths[..], acc + Fill(n, v))
  {
    next := s;
    for f := 0 to n
      invariant next == s + f && KeepsLengths(lengths[..], acc + Fill(f, v))
    {
      if next < lengths.Length {
        lengths[next] := v;
      }
      next := next + 1;
    }
  }

  lemma FillOne(v: nat)
    ensures Fill(1, v) == [v]
  {}

  lemma CountBounds(src: seq<byte>, pos: nat)
    ensures Bits(src, pos, 5) < 32 && Bits(src, pos + 5, 5) < 32 && Bits(src, pos + 10, 4) < 16
  {
    BitsBound(src, pos, 5);
    BitsBound(src, pos + 5, 5);
    BitsBound(src, pos + 10, 4);
    SmallPowers();
  }

  lemma {:induction false} CodeLengthsSmall(src: seq<byte>, pos: nat, n: nat)
    requires n <= 19
    ensures Lengths(CodeLengths(src, pos, n))
    decreases n
  {
    if n > 0 {
      CodeLengthsSmall(src, pos, n - 1);
      BitsBound(src, pos + 3 * (n - 1), 3);
      SmallPowers();
    }
  }

  /** A run adds only lengths of up to 15. */
  lemma RunLengths(cl: seq<nat>, src: seq<byte>, pos: nat, acc: seq<nat>)
    requires |cl| == 19 && Lengths(acc)
    ensures Lengths(OneRun(cl, src, pos, acc).lens)
  {
    var s := SymbolAt(cl, src, pos);
    assert s.Some? ==> CodeAt(cl, s.value, src, pos);
  }

  lemma SplitRuns(lengths: seq<nat>, lens: seq<nat>, m: nat, n: nat)
    requires m + n <= |lengths| && m + n <= |lens| && Lengths(lens) && lengths[..m + n] == lens[..m + n]
    ensures lengths[0..m] == lens[..m] && lengths[m..m + n] == lens[m..m + n]
    ensures Lengths(lens[..m]) && Lengths(lens[m..m + n])
  {
    assert lengths[0..m] == lengths[..m + n][..m] && lens[..m] == lens[..m + n][..m];
    assert lengths[m..m + n] == lengths[..m + n][m..] && lens[m..m + n] == lens[..m + n][m..];
  }

  // ----- The whole stream -----

  lemma FixedTrees(tables: Tables)
    requires tables.Valid()
    ensures tables.ltree.For(FixedLiteralLengths()) && tables.dtree.For(FixedDistanceLengths())
  {}

  /** The body of one block after its three header bits; `j`'s switch. */
  method InflateKind(d: Decoder, kind: nat, tables: Tables, lengths: array<nat>, codeTree: Tree)
    returns (failed: Option<Outcome>)
    requires d.Reading() && d.Writing() && d.bitcount > 0
    requires d.TreesApart() && tables.Valid() && codeTree.Shaped() && lengths.Length == 320
    requires lengths !in {codeTree.table, codeTree.trans, d.ltree.table, d.ltree.trans, d.dtree.table, d.dtree.trans}
    requires {lengths, codeTree.table, codeTree.trans, d.ltree.table, d.ltree.trans, d.dtree.table, d.dtree.trans}
          !! {tables.lengthBits, tables.lengthBase, tables.distBits, tables.distBase,
              tables.ltree.table, tables.ltree.trans, tables.dtree.table, tables.dtree.trans}
    modifies d, d.dest, lengths, codeTree.table, codeTree.trans
    modifies d.ltree.table, d.ltree.trans, d.dtree.table, d.dtree.trans
    ensures d.Writing() && tables.Valid()
    ensures failed.None? ==> d.Reading() || (d.bitcount == 0 && d.Pos() >= 0)
    ensures Body(d.source, kind, State(old(d.Pos()), old(d.out)))
         == match failed case None => Next(State(d.Pos(), d.out)) case Some(DataError) => Fail case Some(_) => Stuck
    ensures failed.Some? ==> failed.value == DataError || failed.value == Endless
  {
    hide Bits, HoldsCode, Block, Stored, ReadHeader, Holds, Tables.Valid;
    failed := None;
    if kind == 0 {
      var ok := d.StoredBlock();
      failed := if ok then None else Some(DataError);
    } else if kind == 1 {
      FixedTrees(tables);
      var ok := d.InflateBlock(tables.ltree, tables.dtree, FixedLiteralLengths(), FixedDistanceLengths(), tables);
      failed := if ok then None else Some(Endless);
    } else if kind == 2 {
      ghost var h := ReadHeader(d.source, d.Pos());
      d.ReadTrees(lengths, codeTree);
      var ok := d.InflateBlock(d.ltree, d.dtree, h.ll, h.dl, tables);
      failed := if ok then None else Some(Endless);
    } else {
      failed := Some(DataError);
    }
  }

  /** One block, header bits and body. */
  method InflateNext(d: Decoder, tables: Tables, lengths: array<nat>, codeTree: Tree)
    returns (final: nat, failed: Option<Outcome>)
    requires (d.Reading() || (d.bitcount == 0 && d.Pos() >= 0)) && d.Writing()
    requires d.TreesApart() && tables.Valid() && codeTree.Shaped() && lengths.Length == 320
    requires lengths !in {codeTree.table, codeTree.trans, d.ltree.table, d.ltree.trans, d.dtree.table, d.dtree.trans}
    requires {lengths, codeTree.table, codeTree.trans, d.ltree.table, d.ltree.trans, d.dtree.table, d.dtree.trans}
          !! {tables.lengthBits, tables.lengthBase, tables.distBits, tables.distBase,
              tables.ltree.table, tables.ltree.trans, tables.dtree.table, tables.dtree.trans}
    modifies d, d.dest, lengths, codeTree.table, codeTree.trans
    modifies d.ltree.table, d.ltree.trans, d.dtree.table, d.dtree.trans
    ensures d.Writing() && tables.Valid()
    ensures failed.None? ==> d.Reading() || (d.bitcount == 0 && d.Pos() >= 0)
    ensures final == Bit(d.source, old(d.Pos()))
    ensures AnyBlock(d.source, State(old(d.Pos()), old(d.out)))
         == match failed case None => Next(State(d.Pos(), d.out)) case Some(DataError) => Fail case Some(_) => Stuck
    ensures failed.Some? ==> failed.value == DataError || failed.value == Endless
  {
    hide Bit, Bits, HoldsCode, Body, Tables.Valid, Holds;
    final := d.ReadBit();
    var kind := d.ReadBits(2, 0);
    failed := InflateKind(d, kind, tables, lengths, codeTree);
  }

  /** `j`: decode source into dest. The scratch arrays hold whatever the last call left in them. */
  method InflateInto(source: seq<byte>, dest: array<byte>, tables: Tables, lengths: array<nat>, codeTree: Tree)
    returns (r: Outcome)
    requires tables.Valid() && codeTree.Shaped() && lengths.Length == 320
    requires lengths !in {codeTree.table, codeTree.trans}
    requires {lengths, codeTree.table, codeTree.trans} !! {tables.lengthBits, tables.lengthBase, tables.distBits,
               tables.distBase, tables.ltree.table, tables.ltree.trans, tables.dtree.table, tables.dtree.trans}
    modifies dest, lengths, codeTree.table, codeTree.trans
    ensures match Inflate(source, State(0, []))
            case Inflated(out) => r == Inflated(if |out| <= dest.Length then out else out[..dest.Length])
            case error => r == error
    ensures match Inflate(source, State(0, []))
            case Inflated(out) => forall i | 0 <= i < |out| && i < dest.Length :: dest[i] == out[i]
            case _ => true
  {
    hide Bit, Bits, HoldsCode, AnyBlock, Tables.Valid;
    var d := new Decoder(source, dest);
    while true
      invariant (d.Reading() || (d.bitcount == 0 && d.Pos() >= 0)) && d.Writing() && tables.Valid()
      invariant Inflate(source, State(d.Pos(), d.out)) == Inflate(source, State(0, []))
      decreases if d.Pos() < 8 * |source| then 8 * |source| - d.Pos() else 0
    {
      var final, failed := InflateNext(d, tables, lengths, codeTree);
      if failed.Some? {
        return failed.value;
      }
      if final == 1 {
        break;
      }
    }
    r := Inflated(if d.destLen < dest.Length then dest[..d.destLen] else dest[..]);
  }
}
