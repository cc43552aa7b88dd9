/** Whether a block body ever ends: past its last bit the source reads as zeros without end. */
module Truncation {
  import opened Optional
  import opened BitStream
  import opened Huffman
  import opened Deflate
  import opened FixedTables

  ghost predicate ZerosFrom(src: seq<byte>, pos: nat) {
    forall i: nat | i >= pos :: Bit(src, i) == 0
  }

  lemma PastEnd(src: seq<byte>, pos: nat)
    requires pos >= 8 * |src|
    ensures ZerosFrom(src, pos)
  {
    hide Bit;
    forall i: nat | i >= pos ensures Bit(src, i) == 0 {
      BitPastEnd(src, i);
    }
  }

  lemma {:induction false} ZerosRead(src: seq<byte>, pos: nat, n: nat)
    requires ZerosFrom(src, pos)
    ensures Msb(src, pos, n) == 0
    decreases n
  {
    hide Bit;
    if n > 0 {
      ZerosRead(src, pos, n - 1);
    }
  }

  /** The symbol whose code is all zeros: what every read of exhausted input gives. */
  ghost function ZeroSymbol(lens: seq<nat>): Option<nat> {
    SymbolAt(lens, [], 0)
  }

  lemma ZerosGive(lens: seq<nat>, src: seq<byte>, pos: nat)
    requires ZerosFrom(src, pos)
    ensures SymbolAt(lens, src, pos) == ZeroSymbol(lens)
  {
    hide ZerosFrom, CodeOf;
    PastEnd([], 0);
    forall s: nat ensures CodeAt(lens, s, src, pos) <==> CodeAt(lens, s, [], 0) {
      if s < |lens| {
        ZerosRead(src, pos, lens[s]);
        ZerosRead([], 0, lens[s]);
      }
    }
    if ZeroSymbol(lens).Some? {
      SymbolIs(lens, ZeroSymbol(lens).value, src, pos);
    }
  }

  lemma {:induction false} NeverWithin(ll: seq<nat>, dl: seq<nat>, src: seq<byte>, st: State, n: nat)
    requires ZerosFrom(src, st.pos) && ZeroSymbol(ll) != Some(256)
    ensures BlockWithin(ll, dl, src, st, n) == None
    decreases n
  {
    hide Bit, SymbolAt, Match, ZeroSymbol;
    if n > 0 {
      ZerosGive(ll, src, st.pos);
      NeverWithin(ll, dl, src, BodyStep(ll, dl, src, st).st, n - 1);
    }
  }

  /** On exhausted input a block body ends exactly when the all-zero code is the end-of-block code. */
  lemma ExhaustedEndsIff(ll: seq<nat>, dl: seq<nat>, src: seq<byte>, st: State)
    requires ZerosFrom(src, st.pos)
    ensures Block(ll, dl, src, st).Some? <==> ZeroSymbol(ll) == Some(256)
  {
    hide Block, SymbolAt, Match, ZerosFrom, ZeroSymbol;
    ZerosGive(ll, src, st.pos);
    if ZeroSymbol(ll) == Some(256) {
      BlockUnfolds(ll, dl, src, st);
    } else {
      forall n: nat ensures BlockWithin(ll, dl, src, st, n) == None {
        NeverWithin(ll, dl, src, st, n);
      }
      NoBlock(ll, dl, src, st);
    }
  }

  /** The body's end symbol starts before the source has run out. */
  ghost predicate EndsInside(ll: seq<nat>, dl: seq<nat>, src: seq<byte>, st: State)
    decreases 8 * |src| - st.pos
  {
    st.pos < 8 * |src| &&
    match BodyStep(ll, dl, src, st) case End(_) => true case More(next) => EndsInside(ll, dl, src, next)
  }

  /** A block body ends exactly when its end symbol starts inside the source or is what exhausted input reads as. */
  lemma {:induction false} BlockEndsIff(ll: seq<nat>, dl: seq<nat>, src: seq<byte>, st: State)
    ensures Block(ll, dl, src, st).Some? <==> EndsInside(ll, dl, src, st) || ZeroSymbol(ll) == Some(256)
    decreases 8 * |src| - st.pos
  {
    hide Block, BodyStep, ZeroSymbol, ZerosFrom;
    if st.pos >= 8 * |src| {
      PastEnd(src, st.pos);
      ExhaustedEndsIff(ll, dl, src, st);
    } else {
      BlockUnfolds(ll, dl, src, st);
      if BodyStep(ll, dl, src, st).More? {
        BlockEndsIff(ll, dl, src, BodyStep(ll, dl, src, st).st);
      }
    }
  }

  /** Whether a pair of codes can make the loop run for ever, on any source and in any state. */
  lemma AlwaysEndsIff(ll: seq<nat>, dl: seq<nat>)
    ensures (forall src, st :: Block(ll, dl, src, st).Some?) <==> ZeroSymbol(ll) == Some(256)
  {
    hide Block, ZeroSymbol, ZerosFrom, EndsInside;
    forall src, st | ZeroSymbol(ll) == Some(256) ensures Block(ll, dl, src, st).Some? {
      BlockEndsIff(ll, dl, src, st);
    }
    PastEnd([], 0);
    ExhaustedEndsIff(ll, dl, [], State(0, []));
  }

  /** Each symbol moves on by a bit or more, so a body that ends does so within one symbol for each bit left and one
      more. */
  lemma {:induction false} EndsWithin(ll: seq<nat>, dl: seq<nat>, src: seq<byte>, st: State, n: nat)
    requires n > 0 && st.pos + n > 8 * |src|
    ensures Block(ll, dl, src, st) == BlockWithin(ll, dl, src, st, n)
    decreases n
  {
    hide Block, BodyStep, ZeroSymbol, ZerosFrom;
    BlockUnfolds(ll, dl, src, st);
    match BodyStep(ll, dl, src, st)
    case End(_) =>
    case More(next) =>
      if st.pos >= 8 * |src| {
        PastEnd(src, st.pos);
        MoreForever(ll, dl, src, st);
        NeverWithin(ll, dl, src, st, n);
        ExhaustedEndsIff(ll, dl, src, st);
      } else {
        EndsWithin(ll, dl, src, next, n - 1);
      }
  }

  /** The first symbol past the end decides. */
  lemma MoreForever(ll: seq<nat>, dl: seq<nat>, src: seq<byte>, st: State)
    requires ZerosFrom(src, st.pos) && BodyStep(ll, dl, src, st).More?
    ensures ZeroSymbol(ll) != Some(256)
  {
    hide Match, SymbolAt, ZeroSymbol, ZerosFrom;
    ZerosGive(ll, src, st.pos);
  }

  // ----- Which streams can run for ever -----

  /** The fixed end-of-block code is all zeros. */
  lemma FixedZeroEnds()
    ensures ZeroSymbol(FixedLiteralLengths()) == Some(256)
  {
    hide FixedLiteralLengths, Rank;
    var lens := FixedLiteralLengths();
    FixedLengthOf(256);
    FixedFirst(7);
    FixedRanks(7, 256);
    PastEnd([], 0);
    ZerosRead([], 0, 7);
    assert CodeAt(lens, 256, [], 0);
    SymbolIs(lens, 256, [], 0);
  }

  lemma FixedLengthOf(i: nat)
    requires i < 288
    ensures |FixedLiteralLengths()| == 288 && FixedLiteralLengths()[i] == FixedLength(i)
  {}

  lemma {:induction false} FixedFirst(k: nat)
    requires k <= 7
    ensures First(FixedLiteralLengths(), k) == 0
  {
    hide FixedLiteralLengths, Rank;
    if k > 1 {
      FixedFirst(k - 1);
      FixedLengthOf(0);
      FixedRanks(k - 1, 288);
    }
  }

  /** Only a dynamic block can run for ever, and only one whose end-of-block code is not all zeros. */
  lemma StuckIff(src: seq<byte>, kind: nat, st: State)
    ensures Body(src, kind, st).Stuck? <==>
              var h := ReadHeader(src, st.pos);
              && kind == 2
              && !EndsInside(h.ll, h.dl, src, State(h.pos, st.out)) && ZeroSymbol(h.ll) != Some(256)
  {
    hide Block, ReadHeader, EndsInside, ZeroSymbol, Stored, FixedLiteralLengths, FixedDistanceLengths;
    FixedZeroEnds();
    BlockEndsIff(FixedLiteralLengths(), FixedDistanceLengths(), src, st);
    var h := ReadHeader(src, st.pos);
    BlockEndsIff(h.ll, h.dl, src, State(h.pos, st.out));
  }
}
