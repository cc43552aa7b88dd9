/** Concrete streams on which the decoder departs from RFC 1951. */
module Departures {
  import opened Optional
  import opened BitStream
  import opened Huffman
  import opened Deflate
  import opened FixedTables
  import opened RoundTrip
  import opened StoredRoundTrip
  import opened StreamRoundTrip
  import opened Encodable
  import opened Truncation

  // ----- A block body that never ends -----

  /** A stream that stops after a dynamic header ends exactly when the all-zero code means end of block. */
  lemma HeaderAlone(h: Dynamic)
    requires h.Valid()
    ensures Inflate(Pack(HeaderBits(1, 2) + h.Bits()), State(0, []))
         == if ZeroSymbol(h.ll) == Some(256) then Inflated([]) else Endless
  {
    hide Bit, Bits, HasBits, Pack, Dynamic.Valid, Dynamic.Bits, Block, ReadHeader, ZeroSymbol, HeaderBits, BodyStep;
    var bits := HeaderBits(1, 2) + h.Bits();
    var src := Pack(bits);
    PackHasBits(bits);
    HasConcat(src, 0, HeaderBits(1, 2), h.Bits());
    HeaderBitsDecode(src, 0, 1, 2);
    HeaderDecodes(h, src, 3);
    assert ZerosFrom(src, |bits|) by {
      forall i: nat | i >= |bits| ensures Bit(src, i) == 0 {
        PackPads(bits, i);
      }
    }
    var st := State(|bits|, []);
    EmptyBody(h.ll, h.dl, src, st);
  }

  lemma EmptyBody(ll: seq<nat>, dl: seq<nat>, src: seq<byte>, st: State)
    requires ZerosFrom(src, st.pos)
    ensures match Block(ll, dl, src, st)
            case None => ZeroSymbol(ll) != Some(256)
            case Some(next) => ZeroSymbol(ll) == Some(256) && next.out == st.out
  {
    hide Block, ZeroSymbol, ZerosFrom, SymbolAt, Match;
    ExhaustedEndsIff(ll, dl, src, st);
    BlockUnfolds(ll, dl, src, st);
    ZerosGive(ll, src, st.pos);
  }

  /** One bit each for the zero byte and the end of the block. */
  function ZeroAndEnd(): (r: seq<nat>)
    ensures |r| == 257 && forall i | 0 <= i < 257 :: r[i] == if i == 0 || i == 256 then 1 else 0
  {
    seq(257, i requires 0 <= i => if i == 0 || i == 256 then 1 else 0)
  }

  lemma {:induction false} ZeroAndEndWeight(w: nat -> nat, n: nat)
    requires 1 <= n <= 257 && w(0) == 0
    ensures WeightSum(w, ZeroAndEnd(), n) == if n == 257 then 2 * w(1) else w(1)
    decreases n
  {
    hide ZeroAndEnd;
    if n > 1 {
      ZeroAndEndWeight(w, n - 1);
    }
  }

  /** With that code, and nothing after its header, the loop writes zeros for ever. */
  lemma NeverDecodes()
    ensures var h := PlainHeader(ZeroAndEnd(), [1]);
            && h.Valid()
            && Inflate(Pack(HeaderBits(1, 2) + h.Bits()), State(0, [])) == Endless
  {
    hide ZeroAndEnd, Dynamic.Valid, Dynamic.Bits, Inflate, Pack, FiveBitLengths, Singles, HeaderBits;
    SmallPowers();
    ZeroAndEndWeight(Weight, 257);
    EveryPairHasHeader(ZeroAndEnd(), [1]);
    PastEnd([], 0);
    SymbolIs(ZeroAndEnd(), 0, [], 0);
    HeaderAlone(PlainHeader(ZeroAndEnd(), [1]));
  }

  // ----- A stored block whose header ends on a byte boundary -----

  ghost const START := State(0, [])

  /** A fixed block of three nine-bit literals; a header after it ends at bit 40. */
  function Three(): (b: Coded)
    ensures b.FixedBlock?
  {
    FixedBlock([Literal(200), Literal(200), Literal(200)])
  }

  ghost const AFTER_THREE := State(37, [200, 200, 200])

  lemma NineBits(ll: seq<nat>, dl: seq<nat>, b: byte)
    requires ll == FixedLiteralLengths() && b >= 144
    ensures Writable(ll, dl, Literal(b)) && |TokenBits(ll, dl, Literal(b))| == 9
  {
    hide FixedLiteralLengths, CodeOf, MsbBits;
    FixedLengthOf(b);
  }

  lemma AfterThree()
    ensures Three().Valid(3, 0) && After(Three(), START) == AFTER_THREE
  {
    hide FixedLiteralLengths, FixedDistanceLengths, TokenBits, Writable, MsbBits, CodeOf;
    var ll, dl, toks := FixedLiteralLengths(), FixedDistanceLengths(), Three().toks;
    NineBits(ll, dl, 200);
    FixedLengthOf(256);
    assert toks[1..] == [Literal(200), Literal(200)] && toks[1..][1..] == [Literal(200)] && toks[1..][1..][1..] == [];
    assert |TokensBits(ll, dl, toks)| == 34;
    assert Expand([], toks) == [200, 200, 200];
  }

  /** What follows the three literals is decoded from bit 37 on. */
  lemma DecodesOn(rest: seq<Coded>)
    requires rest != [] && ValidStream(rest, AFTER_THREE)
    ensures var blocks := [Three()] + rest;
            && ValidStream(blocks, START) && StreamOutput(blocks, START) == StreamOutput(rest, AFTER_THREE)
            && var src := Pack(StreamBits(blocks, START));
            && HasBits(src, 37, StreamBits(rest, AFTER_THREE)) && 37 + |StreamBits(rest, AFTER_THREE)| <= 8 * |src|
            && Inflate(src, START) == Inflate(src, AFTER_THREE)
  {
    hide Bit, HasBits, AnyBlock, Coded.Valid, Coded.BodyBits, Coded.Output, HeaderBits, Pack, Three;
    AfterThree();
    var blocks := [Three()] + rest;
    assert blocks[1..] == rest && |blocks| > 1;
    var bits := StreamBits(blocks, START);
    var src := Pack(bits);
    PackHasBits(bits);
    var head, body, tail := HeaderBits(0, 1), Three().BodyBits(3, 0), StreamBits(rest, AFTER_THREE);
    assert bits == head + (body + tail);
    HasConcat(src, 0, head, body + tail);
    HasConcat(src, 3, body, tail);
    BlockDecodes(Three(), 0, src, START);
  }

  lemma LastStored(data: seq<byte>)
    requires |data| <= 65535
    ensures var b := StoredBlock([], data);
            && ValidStream([b], AFTER_THREE) && StreamOutput([b], AFTER_THREE) == [200, 200, 200] + data
            && StreamBits([b], AFTER_THREE) == HeaderBits(1, 0) + (StoredBits([], data) + [])
  {
    hide HeaderBits, StoredBits;
    var b := StoredBlock([], data);
    assert [b][1..] == [];
  }

  /** Telling bytes stored after the three literals are refused, though the stream is a valid one for all of them. */
  lemma AlignedRefused(data: seq<byte>)
    requires |data| <= 65535 && Telling(data)
    ensures var blocks := [Three(), StoredBlock([], data)];
            && ValidStream(blocks, START) && StreamOutput(blocks, START) == [200, 200, 200] + data
            && Inflate(Pack(StreamBits(blocks, START)), START) == DataError
  {
    hide Bit, HasBits, AnyBlock, HeaderBits, Pack, Three, StoredBits, StreamBits, StreamOutput, ValidStream, Telling;
    var b := StoredBlock([], data);
    LastStored(data);
    assert [Three()] + [b] == [Three(), b];
    DecodesOn([b]);
    var src := Pack(StreamBits([Three(), b], START));
    HasConcat(src, 37, HeaderBits(1, 0), StoredBits([], data) + []);
    HasConcat(src, 40, StoredBits([], data), []);
    AlignedBlock(b, 1, src, AFTER_THREE);
  }

  lemma TwoRefused()
    ensures var blocks := [Three(), StoredBlock([], [2])];
            && ValidStream(blocks, START) && StreamOutput(blocks, START) == [200, 200, 200, 2]
            && Inflate(Pack(StreamBits(blocks, START)), START) == DataError
  {
    hide ValidStream, StreamOutput, StreamBits, Pack, Inflate, Three;
    AlignedRefused([2]);
    assert [200, 200, 200] + [2] == [200, 200, 200, 2];
  }
}
