/** Whole streams: any mix of stored, fixed and dynamic blocks decodes to what its blocks stand for. */
module StreamRoundTrip {
  import opened BitStream
  import opened Huffman
  import opened Deflate
  import opened FixedTables
  import opened RoundTrip
  import opened StoredRoundTrip

  datatype Coded =
    | StoredBlock(pad: seq<bit>, data: seq<byte>)
    | FixedBlock(toks: seq<Token>)
    | DynamicBlock(header: Dynamic, toks: seq<Token>)
  {
    /** A block RFC 1951 allows whose header bits end at pos, after n bytes of output. */
    ghost predicate Valid(pos: nat, n: nat) {
      match this
      case StoredBlock(pad, data) => |pad| == PadLength(pos) && |data| <= 65535
      case FixedBlock(toks) =>
        ValidTokens(n, toks) && AllWritable(FixedLiteralLengths(), FixedDistanceLengths(), toks)
      case DynamicBlock(h, toks) => h.Valid() && ValidTokens(n, toks) && AllWritable(h.ll, h.dl, toks)
    }

    function Kind(): nat {
      match this case StoredBlock(_, _) => 0 case FixedBlock(_) => 1 case DynamicBlock(_, _) => 2
    }

    ghost function BodyBits(pos: nat, n: nat): seq<bit>
      requires Valid(pos, n)
    {
      match this
      case StoredBlock(pad, data) => StoredBits(pad, data)
      case FixedBlock(toks) => TokensBits(FixedLiteralLengths(), FixedDistanceLengths(), toks)
      case DynamicBlock(h, toks) => h.Bits() + TokensBits(h.ll, h.dl, toks)
    }

    ghost function Output(out: seq<byte>, pos: nat): seq<byte>
      requires Valid(pos, |out|)
    {
      match this
      case StoredBlock(_, data) => out + data
      case FixedBlock(toks) => Expand(out, toks)
      case DynamicBlock(_, toks) => Expand(out, toks)
    }
  }

  ghost function HeaderBits(final: bit, kind: nat): (r: seq<bit>)
    ensures |r| == 3
  {
    [final] + LsbBits(kind, 2)
  }

  lemma HeaderBitsDecode(src: seq<byte>, pos: nat, final: bit, kind: nat)
    requires kind < 4 && HasBits(src, pos, HeaderBits(final, kind))
    ensures Bit(src, pos) == final && Bits(src, pos + 1, 2) == kind
  {
    hide Bits, LsbBits, Bit;
    HasConcat(src, pos, [final], LsbBits(kind, 2));
    SmallPowers();
    assert Bit(src, pos + 0) == [final][0];
    ReadLsb(src, pos + 1, kind, 2);
  }

  /** One block decodes to its output, unless it is stored and its header ends on a byte boundary. */
  lemma BodyDecodes(b: Coded, src: seq<byte>, st: State)
    requires b.Valid(st.pos, |st.out|)
    requires HasBits(src, st.pos, b.BodyBits(st.pos, |st.out|))
    requires st.pos + |b.BodyBits(st.pos, |st.out|)| <= 8 * |src|
    requires b.StoredBlock? ==> st.pos % 8 != 0
    ensures Body(src, b.Kind(), st)
         == Next(State(st.pos + |b.BodyBits(st.pos, |st.out|)|, b.Output(st.out, st.pos)))
  {
    hide Bit, HasBits, Block, Stored, ReadHeader, TokensBits, StoredBits, Expand, AllWritable, ValidTokens;
    hide Dynamic.Bits, Kraft, FixedLiteralLengths, FixedDistanceLengths;
    match b
    case StoredBlock(pad, data) =>
      StoredDecodesIffUnaligned(src, st, pad, data);
    case FixedBlock(toks) =>
      FixedCodesFit();
      TokensDecode(FixedLiteralLengths(), FixedDistanceLengths(), toks, src, st);
    case DynamicBlock(h, toks) =>
      HasConcat(src, st.pos, h.Bits(), TokensBits(h.ll, h.dl, toks));
      HeaderDecodes(h, src, st.pos);
      HeaderKraft(h);
      TokensDecode(h.ll, h.dl, toks, src, State(st.pos + |h.Bits()|, st.out));
  }

  lemma HeaderKraft(h: Dynamic)
    requires h.Valid()
    ensures Kraft(h.ll) && Kraft(h.dl)
  {}

  // ----- Streams of blocks -----

  /** Each block is valid where it stands. */
  ghost predicate ValidStream(blocks: seq<Coded>, st: State)
    decreases |blocks|
  {
    blocks != [] ==>
      var b := blocks[0];
      b.Valid(st.pos + 3, |st.out|) && ValidStream(blocks[1..], After(b, st))
  }

  /** The state after a block that is read right. */
  ghost function After(b: Coded, st: State): State
    requires b.Valid(st.pos + 3, |st.out|)
  {
    State(st.pos + 3 + |b.BodyBits(st.pos + 3, |st.out|)|, b.Output(st.out, st.pos + 3))
  }

  /** The blocks' bits from st.pos on; the last block is flagged final. */
  ghost function StreamBits(blocks: seq<Coded>, st: State): seq<bit>
    requires ValidStream(blocks, st)
    decreases |blocks|
  {
    hide Coded.Valid, Coded.BodyBits, Coded.Output, HeaderBits;
    if blocks == [] then [] else
    var b := blocks[0];
    HeaderBits(if |blocks| == 1 then 1 else 0, b.Kind())
      + (b.BodyBits(st.pos + 3, |st.out|) + StreamBits(blocks[1..], After(b, st)))
  }

  ghost function StreamOutput(blocks: seq<Coded>, st: State): seq<byte>
    requires ValidStream(blocks, st)
    decreases |blocks|
  {
    if blocks == [] then st.out else StreamOutput(blocks[1..], After(blocks[0], st))
  }

  /** No stored block's header ends on a byte boundary. */
  ghost predicate NoAlignedStored(blocks: seq<Coded>, st: State)
    requires ValidStream(blocks, st)
    decreases |blocks|
  {
    blocks != [] ==>
      !Aligned(blocks[0], st) && NoAlignedStored(blocks[1..], After(blocks[0], st))
  }

  ghost predicate Aligned(b: Coded, st: State) {
    b.StoredBlock? && (st.pos + 3) % 8 == 0
  }

  lemma BlockDecodes(b: Coded, final: bit, src: seq<byte>, st: State)
    requires b.Valid(st.pos + 3, |st.out|)
    requires HasBits(src, st.pos, HeaderBits(final, b.Kind()))
    requires HasBits(src, st.pos + 3, b.BodyBits(st.pos + 3, |st.out|)) && After(b, st).pos <= 8 * |src|
    requires !Aligned(b, st)
    ensures AnyBlock(src, st) == Next(After(b, st)) && Bit(src, st.pos) == final
  {
    hide Bit, Bits, HasBits, Body, Coded.Valid, Coded.BodyBits, Coded.Output, HeaderBits;
    HeaderBitsDecode(src, st.pos, final, b.Kind());
    BodyDecodes(b, src, State(st.pos + 3, st.out));
  }

  lemma AlignedBlock(b: Coded, final: bit, src: seq<byte>, st: State)
    requires b.Valid(st.pos + 3, |st.out|) && Aligned(b, st)
    requires HasBits(src, st.pos, HeaderBits(final, b.Kind()))
    requires HasBits(src, st.pos + 3, b.BodyBits(st.pos + 3, |st.out|)) && After(b, st).pos <= 8 * |src|
    ensures Bit(src, st.pos) == final
    ensures match AnyBlock(src, st)
            case Fail => true
            case Stuck => false
            case Next(next) => !Telling(b.data) && |next.out| != |After(b, st).out|
  {
    hide Bit, Bits, HasBits, HeaderBits, StoredBits, Stored, PadLength, Block, ReadHeader, Telling;
    hide TokensBits, AllWritable, ValidTokens, Expand, Dynamic.Valid, Dynamic.Bits, FixedLiteralLengths;
    HeaderBitsDecode(src, st.pos, final, b.Kind());
    AlignedDeparts(src, State(st.pos + 3, st.out), b.pad, b.data);
  }

  /** The first aligned stored block is the last block or a telling one. */
  ghost predicate FirstAlignedTells(blocks: seq<Coded>, st: State)
    requires ValidStream(blocks, st)
    decreases |blocks|
  {
    blocks != [] ==>
      if Aligned(blocks[0], st) then |blocks| == 1 || Telling(blocks[0].data)
      else FirstAlignedTells(blocks[1..], After(blocks[0], st))
  }

  /** Such a stream decodes to what its blocks stand for exactly when it has no aligned stored block. */
  lemma {:induction false} StreamDecodesIff(blocks: seq<Coded>, src: seq<byte>, st: State)
    requires blocks != [] && ValidStream(blocks, st) && FirstAlignedTells(blocks, st)
    requires HasBits(src, st.pos, StreamBits(blocks, st)) && st.pos + |StreamBits(blocks, st)| <= 8 * |src|
    ensures Inflate(src, st) == Inflated(StreamOutput(blocks, st)) <==> NoAlignedStored(blocks, st)
    decreases |blocks|
  {
    hide Bit, HasBits, AnyBlock, Coded.Valid, Coded.BodyBits, Coded.Output, HeaderBits, Aligned, Telling;
    var b, final: bit := blocks[0], if |blocks| == 1 then 1 else 0;
    var head, body := HeaderBits(final, b.Kind()), b.BodyBits(st.pos + 3, |st.out|);
    var rest := StreamBits(blocks[1..], After(b, st));
    HasConcat(src, st.pos, head, body + rest);
    HasConcat(src, st.pos + 3, body, rest);
    if Aligned(b, st) {
      AlignedBlock(b, final, src, st);
    } else {
      BlockDecodes(b, final, src, st);
      if |blocks| > 1 {
        StreamDecodesIff(blocks[1..], src, After(b, st));
      }
    }
  }

  lemma {:induction false} NoneAlignedTells(blocks: seq<Coded>, st: State)
    requires ValidStream(blocks, st) && NoAlignedStored(blocks, st)
    ensures FirstAlignedTells(blocks, st)
    decreases |blocks|
  {
    hide Coded.Valid, After, Aligned, Telling;
    if blocks != [] {
      NoneAlignedTells(blocks[1..], After(blocks[0], st));
    }
  }

  /** Stream round trip, from any state of the decoder. */
  lemma StreamDecodes(blocks: seq<Coded>, src: seq<byte>, st: State)
    requires blocks != [] && ValidStream(blocks, st) && NoAlignedStored(blocks, st)
    requires HasBits(src, st.pos, StreamBits(blocks, st)) && st.pos + |StreamBits(blocks, st)| <= 8 * |src|
    ensures Inflate(src, st) == Inflated(StreamOutput(blocks, st))
  {
    hide HasBits, Inflate, ValidStream, NoAlignedStored, FirstAlignedTells, StreamBits, StreamOutput;
    NoneAlignedTells(blocks, st);
    StreamDecodesIff(blocks, src, st);
  }

  /** Packing the blocks' bits into bytes and inflating gives back what the blocks stand for. */
  lemma InflateInvertsEncode(blocks: seq<Coded>)
    requires blocks != [] && ValidStream(blocks, State(0, [])) && NoAlignedStored(blocks, State(0, []))
    ensures Inflate(Pack(StreamBits(blocks, State(0, []))), State(0, []))
         == Inflated(StreamOutput(blocks, State(0, [])))
  {
    hide StreamBits, HasBits, Inflate, ValidStream, NoAlignedStored, StreamOutput;
    PackHasBits(StreamBits(blocks, State(0, [])));
    StreamDecodes(blocks, Pack(StreamBits(blocks, State(0, []))), State(0, []));
  }
}
