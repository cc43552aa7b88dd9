/** A valid stream in which an aligned stored block is misread and the blocks after it make up for that. */
module Repaired {
  import opened Optional
  import opened BitStream
  import opened Deflate
  import opened StoredRoundTrip
  import opened StreamRoundTrip
  import opened Departures

  // ----- The bytes of stored blocks -----

  lemma StoredBytes(src: seq<byte>, k: nat, data: seq<byte>)
    requires StoredAt(src, k, data)
    ensures src[k] == |data| % 256 && src[k + 1] == |data| / 256
    ensures src[k + 2] == 255 - src[k] && src[k + 3] == 255 - src[k + 1]
    ensures forall i | 0 <= i < |data| :: src[k + 4 + i] == data[i]
  {
    hide ByteRun;
    forall i | 0 <= i < |data| ensures src[k + 4 + i] == data[i] {
      assert ByteRun(src, k + 4, |data|)[i] == src[k + 4 + i];
    }
  }

  /** A block header and its padding fill one byte. */
  lemma HeaderByte(src: seq<byte>, j: nat, final: bit, pad: seq<bit>, v: byte)
    requires HasBits(src, 8 * j, HeaderBits(final, 0)) && HasBits(src, 8 * j + 3, pad)
    requires HeaderBits(final, 0) + pad == LsbBits(v, 8)
    ensures ByteAt(src, j) == v
  {
    hide HasBits, HeaderBits, Bits;
    JoinBits(src, 8 * j, HeaderBits(final, 0), pad);
    assert Pow2(8) == 256;
    ReadLsb(src, 8 * j, v, 8);
    ByteBits(src, j);
  }

  /** The source holds these blocks from st on. */
  ghost predicate Holds(src: seq<byte>, blocks: seq<Coded>, st: State) {
    && ValidStream(blocks, st)
    && HasBits(src, st.pos, StreamBits(blocks, st)) && st.pos + |StreamBits(blocks, st)| <= 8 * |src|
  }

  lemma FirstBlock(b: Coded, rest: seq<Coded>, src: seq<byte>, st: State)
    requires Holds(src, [b] + rest, st)
    ensures b.Valid(st.pos + 3, |st.out|) && Holds(src, rest, After(b, st))
    ensures HasBits(src, st.pos, HeaderBits(if rest == [] then 1 else 0, b.Kind()))
    ensures HasBits(src, st.pos + 3, b.BodyBits(st.pos + 3, |st.out|)) && After(b, st).pos <= 8 * |src|
    ensures StreamOutput([b] + rest, st) == StreamOutput(rest, After(b, st))
  {
    hide Bit, HasBits, HeaderBits, Coded.Valid, Coded.BodyBits, Coded.Output;
    var blocks := [b] + rest;
    assert blocks[1..] == rest;
    var head, body := HeaderBits(if rest == [] then 1 else 0, b.Kind()), b.BodyBits(st.pos + 3, |st.out|);
    var tail := StreamBits(rest, After(b, st));
    HasConcat(src, st.pos, head, body + tail);
    HasConcat(src, st.pos + 3, body, tail);
  }

  /** A stored block that comes first, and where the rest stands. */
  lemma FirstStored(pad: seq<bit>, data: seq<byte>, rest: seq<Coded>, src: seq<byte>, st: State)
    requires Holds(src, [StoredBlock(pad, data)] + rest, st)
    ensures |data| <= 65535 && StoredAt(src, (st.pos + 3 + |pad|) / 8, data)
    ensures var next := State(st.pos + 35 + |pad| + 8 * |data|, st.out + data);
            Holds(src, rest, next) && StreamOutput([StoredBlock(pad, data)] + rest, st) == StreamOutput(rest, next)
    ensures HasBits(src, st.pos, HeaderBits(if rest == [] then 1 else 0, 0)) && HasBits(src, st.pos + 3, pad)
  {
    hide Bit, HasBits, HeaderBits, LsbBits, DataBits, StoredAt, PadLength, Holds, StreamOutput;
    FirstBlock(StoredBlock(pad, data), rest, src, st);
    BitsGiveBytes(src, st.pos + 3, pad, data);
    HasConcat(src, st.pos + 3, pad, LsbBits(|data|, 16) + (LsbBits(65535 - |data|, 16) + DataBits(data)));
  }

  // ----- The stream -----

  /** The bytes the second block's length field takes up, over and over. */
  function Field(i: nat): byte {
    if i % 4 == 0 then 6 else if i % 4 == 1 then 129 else if i % 4 == 2 then 249 else 126
  }

  /** Misread, this block's own start is taken for its length, and everything up to the tail below is copied. */
  function Filler(): (r: seq<byte>)
    ensures |r| == 34168 && forall i | 0 <= i < 34168 :: r[i] == 120
  {
    seq(34168, i => 120)
  }

  function Lead(): (r: seq<byte>)
    ensures |r| == 525 && forall i | 0 <= i < 525 :: r[i] == Field(i)
  {
    seq(525, i requires 0 <= i => Field(i))
  }

  /** Read from its first byte but one, this is a final stored block of itself. */
  function Tail(): (r: seq<byte>)
    ensures |r| == 32505 && forall i | 0 <= i < 32505 :: r[i] == 129
  {
    seq(32505, i => 129)
  }

  function Blocks(): seq<Coded> {
    [StoredBlock([], Filler()), StoredBlock([1, 1, 1, 1, 0], Lead() + Tail()), StoredBlock([0, 0, 0, 0, 1], [])]
  }

  /** The bytes of that stream from byte 5 on. */
  ghost predicate Laid(src: seq<byte>) {
    && StoredAt(src, 5, Filler()) && StoredAt(src, 34178, Lead() + Tail())
    && ByteAt(src, 34177) == 120 && ByteAt(src, 67212) == 129
  }

  lemma BlocksLaid(src: seq<byte>)
    requires Holds(src, Blocks(), AFTER_THREE)
    ensures HasBits(src, 37, HeaderBits(0, 0)) && Laid(src)
    ensures StreamOutput(Blocks(), AFTER_THREE) == AFTER_THREE.out + Filler() + (Lead() + Tail())
  {
    hide HasBits, HeaderBits, Holds, StoredAt, Filler, Lead, Tail, StreamOutput;
    var b3 := StoredBlock([0, 0, 0, 0, 1], []);
    var b2 := StoredBlock([1, 1, 1, 1, 0], Lead() + Tail());
    assert Blocks() == [StoredBlock([], Filler())] + [b2, b3] && [b2, b3] == [b2] + [b3] && [b3] == [b3] + [];
    FirstStored([], Filler(), [b2, b3], src, AFTER_THREE);
    var s2 := State(273416, AFTER_THREE.out + Filler());
    FirstStored([1, 1, 1, 1, 0], Lead() + Tail(), [b3], src, s2);
    HeaderBytes();
    HeaderByte(src, 34177, 0, [1, 1, 1, 1, 0], 120);
    var s3 := State(537696, s2.out + (Lead() + Tail()));
    FirstStored([0, 0, 0, 0, 1], [], [], src, s3);
    HeaderByte(src, 67212, 1, [0, 0, 0, 0, 1], 129);
    NoBlocks(State(537736, s3.out + []));
    assert s3.out + [] == s3.out;
  }

  lemma NoBlocks(st: State)
    ensures ValidStream([], st) && StreamOutput([], st) == st.out
  {}

  lemma NextLsb(v: nat, n: nat)
    requires n > 0
    ensures LsbBits(v, n) == [v % 2] + LsbBits(v / 2, n - 1)
  {}

  lemma NoLsb(v: nat)
    ensures LsbBits(v, 0) == []
  {}

  lemma FiveBits(v: nat)
    ensures LsbBits(v, 5) == [v % 2, v / 2 % 2, v / 4 % 2, v / 8 % 2, v / 16 % 2]
  {
    hide LsbBits;
    NextLsb(v, 5);
    NextLsb(v / 2, 4);
    NextLsb(v / 4, 3);
    NextLsb(v / 8, 2);
    NextLsb(v / 16, 1);
    NoLsb(v / 32);
  }

  /** A stored block's header, and the five bits above it, as a byte. */
  lemma HeaderAndFive(final: bit, v: nat)
    ensures HeaderBits(final, 0) + LsbBits(v, 5) == LsbBits(final + 8 * v, 8)
  {
    hide LsbBits;
    var w := final + 8 * v;
    NextLsb(0, 2);
    NextLsb(0, 1);
    NoLsb(0);
    NextLsb(w, 8);
    NextLsb(w / 2, 7);
    NextLsb(w / 4, 6);
    assert w % 2 == final && w / 2 == 4 * v && w / 4 == 2 * v && w / 8 == v;
  }

  lemma HeaderBytes()
    ensures HeaderBits(0, 0) + [1, 1, 1, 1, 0] == LsbBits(120, 8)
    ensures HeaderBits(1, 0) + [0, 0, 0, 0, 1] == LsbBits(129, 8)
  {
    hide LsbBits, HeaderBits;
    HeaderAndFive(0, 15);
    HeaderAndFive(1, 16);
    FiveBits(15);
    FiveBits(16);
  }

  lemma FinalStoredHeader(src: seq<byte>, k: nat)
    requires ByteAt(src, k) == 129
    ensures Bit(src, 8 * k) == 1 && Bits(src, 8 * k + 1, 2) == 0
  {
    hide Bit;
    ByteBits(src, k);
    assert Bits(src, 8 * k, 8) == Bit(src, 8 * k) + 2 * Bits(src, 8 * k + 1, 7);
    assert Bits(src, 8 * k + 1, 7) == Bit(src, 8 * k + 1) + 2 * Bits(src, 8 * k + 2, 6);
    assert Bits(src, 8 * k + 2, 6) == Bit(src, 8 * k + 2) + 2 * Bits(src, 8 * k + 3, 5);
    assert Bits(src, 8 * k + 1, 2) == Bit(src, 8 * k + 1) + 2 * (Bit(src, 8 * k + 2) + 2 * Bits(src, 8 * k + 3, 0));
  }

  lemma BlocksValid()
    ensures ValidStream(Blocks(), AFTER_THREE)
  {
    hide Filler, Lead, Tail, StoredBits;
    var b2, b3 := Blocks()[1], Blocks()[2];
    assert Blocks()[1..] == [b2, b3] && [b2, b3][1..] == [b3] && [b3][1..] == [];
    assert After(Blocks()[0], AFTER_THREE).pos == 273416;
    assert After(b2, After(Blocks()[0], AFTER_THREE)).pos == 537696;
  }

  // ----- How the decoder reads it -----

  /** Byte i of the stream, from the first block's bytes to the last block's header. */
  function Expected(i: nat): byte {
    if i < 34178 then 120 else if i < 34707 then Field(i - 34178) else 129
  }

  lemma ByteIs(src: seq<byte>, i: nat)
    requires Laid(src) && 9 <= i <= 67212
    ensures i < |src| && src[i] == Expected(i)
  {
    hide StoredAt, Filler, Lead, Tail;
    StoredBytes(src, 5, Filler());
    StoredBytes(src, 34178, Lead() + Tail());
    if i < 34177 {
      assert src[5 + 4 + (i - 9)] == Filler()[i - 9];
    } else if 34182 <= i < 67212 {
      assert src[34178 + 4 + (i - 34182)] == (Lead() + Tail())[i - 34182];
    }
  }

  lemma LengthBytes(src: seq<byte>)
    requires Laid(src)
    ensures |src| > 67212 && src[6] == 133 && src[7] == 135 && src[8] == 122
  {
    hide StoredAt, Filler, Lead, Tail;
    StoredBytes(src, 5, Filler());
    ByteIs(src, 67212);
  }

  lemma RunIs(src: seq<byte>, k: nat, data: seq<byte>)
    requires Laid(src) && 9 <= k && k + |data| <= 67213 && forall i | 0 <= i < |data| :: data[i] == Expected(k + i)
    ensures ByteRun(src, k, |data|) == data
  {
    hide Laid, ByteRun, Expected;
    forall i | 0 <= i < |data| ensures ByteRun(src, k, |data|)[i] == data[i] {
      ByteIs(src, k + i);
    }
  }

  /** The first block, read one byte late: a copy of its bytes, the next block's header and length, and its lead. */
  lemma FirstMisread(src: seq<byte>, out: seq<byte>)
    requires Laid(src)
    ensures Stored(src, State(40, out)) == Some(State(8 * 34703, out + (Filler() + Lead())))
  {
    hide Laid, Filler, Lead, ByteRun;
    LengthBytes(src);
    ByteIs(src, 9);
    RunIs(src, 10, Filler() + Lead());
  }

  /** What comes next is read as a final stored block of the tail. */
  lemma TailMisread(src: seq<byte>, out: seq<byte>)
    requires Laid(src)
    ensures Inflate(src, State(8 * 34703, out)) == Inflated(out + Tail())
  {
    hide Laid, Tail, ByteRun, Bit, Bits;
    ByteIs(src, 34703);
    FinalStoredHeader(src, 34703);
    LengthBytes(src);
    ByteIs(src, 34704);
    ByteIs(src, 34705);
    ByteIs(src, 34706);
    ByteIs(src, 34707);
    RunIs(src, 34708, Tail());
  }

  lemma ReadThrough(src: seq<byte>)
    requires Holds(src, Blocks(), AFTER_THREE)
    ensures Inflate(src, AFTER_THREE) == Inflated(StreamOutput(Blocks(), AFTER_THREE))
  {
    hide StreamOutput, Laid, HasBits, Filler, Lead, Tail, Bit, Stored, Bits, HeaderBits, Holds, Blocks;
    BlocksLaid(src);
    HeaderBitsDecode(src, 37, 0, 0);
    var out := AFTER_THREE.out;
    FirstMisread(src, out);
    TailMisread(src, out + (Filler() + Lead()));
    assert out + (Filler() + Lead()) + Tail() == out + Filler() + (Lead() + Tail());
  }

  lemma FirstAligned()
    ensures ValidStream(Blocks(), AFTER_THREE) && !NoAlignedStored(Blocks(), AFTER_THREE)
  {
    hide Filler, Lead, Tail, Coded.Valid, Coded.BodyBits, Coded.Output, ValidStream;
    BlocksValid();
    assert Aligned(Blocks()[0], AFTER_THREE);
  }

  lemma StartsAligned()
    ensures ValidStream([Three()] + Blocks(), START) && !NoAlignedStored([Three()] + Blocks(), START)
  {
    hide Three, Blocks, Coded.Valid, Coded.BodyBits, Coded.Output, Aligned;
    AfterThree();
    FirstAligned();
    assert ([Three()] + Blocks())[1..] == Blocks();
  }

  /** The first stored block's header ends on a byte boundary, and still the stream decodes to what it stands for. */
  lemma MisreadIsRepaired()
    ensures var blocks := [Three()] + Blocks();
            && ValidStream(blocks, START) && !NoAlignedStored(blocks, START)
            && Inflate(Pack(StreamBits(blocks, START)), START) == Inflated(StreamOutput(blocks, START))
  {
    hide ValidStream, NoAlignedStored, StreamBits, StreamOutput, Pack, Three, Blocks, HasBits, Inflate;
    StartsAligned();
    BlocksValid();
    BlocksNonEmpty();
    DecodesOn(Blocks());
    ReadThrough(Pack(StreamBits([Three()] + Blocks(), START)));
  }

  lemma BlocksNonEmpty()
    ensures Blocks() != []
  {}
}
