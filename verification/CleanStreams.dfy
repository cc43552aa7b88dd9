/** The converse of the stream round trip: the sources that read without an anomaly are those that hold an encoding, and
    each holds one only. */
module CleanStreams {
  import opened Optional
  import opened BitStream
  import opened Huffman
  import opened Deflate
  import opened FixedTables
  import opened RoundTrip
  import opened StoredRoundTrip
  import opened StreamRoundTrip
  import opened CleanTokens
  import opened CleanHeaders

  // ----- Stored blocks -----

  function BitList(src: seq<byte>, pos: nat, n: nat): (r: seq<bit>)
    ensures |r| == n && forall i | 0 <= i < n :: r[i] == Bit(src, pos + i)
    decreases n, src
  {
    if n == 0 then [] else BitList(src, pos, n - 1) + [Bit(src, pos + n - 1)]
  }

  /** A stored block that lies wholly inside the source and whose header does not end on a byte boundary. */
  function ReadStored(src: seq<byte>, pos: nat): Option<Coded> {
    var k := pos / 8 + 1;
    if pos % 8 == 0 || k + 4 > |src| then None else
    var len := Word(src[k], src[k + 1]);
    if len != 65535 - Word(src[k + 2], src[k + 3]) || k + 4 + len > |src| then None
    else Some(StoredBlock(BitList(src, pos, 8 * k - pos), ByteRun(src, k + 4, len)))
  }

  lemma {:induction false} DataHeld(src: seq<byte>, k: nat, n: nat)
    ensures HasBits(src, 8 * k, DataBits(ByteRun(src, k, n)))
    decreases n
  {
    hide Bit, HasBits, Bits, LsbBits;
    if n == 0 {
      NoBitsHeld(src, 8 * k);
    } else {
      var data := ByteRun(src, k, n);
      assert data[1..] == ByteRun(src, k + 1, n - 1);
      DataHeld(src, k + 1, n - 1);
      LsbHeld(src, 8 * k, 8);
      ByteBits(src, k);
      assert 8 * k + 8 == 8 * (k + 1);
      JoinBits(src, 8 * k, LsbBits(data[0], 8), DataBits(data[1..]));
    }
  }

  lemma WordHeld(src: seq<byte>, k: nat)
    requires k + 2 <= |src|
    ensures HasBits(src, 8 * k, LsbBits(Word(src[k], src[k + 1]), 16))
  {
    hide Bit, HasBits, Bits, LsbBits;
    LsbHeld(src, 8 * k, 16);
    WordBits(src, k);
  }

  /** The length, its complement and the bytes. */
  lemma BytesHeld(src: seq<byte>, k: nat, n: nat)
    requires k + 4 <= |src| && n == Word(src[k], src[k + 1]) && 65535 - n == Word(src[k + 2], src[k + 3])
    ensures HasBits(src, 8 * k, LsbBits(n, 16) + (LsbBits(65535 - n, 16) + DataBits(ByteRun(src, k + 4, n))))
  {
    hide Bit, Bits, LsbBits, DataBits, ByteRun, HasBits;
    WordHeld(src, k);
    WordHeld(src, k + 2);
    DataHeld(src, k + 4, n);
    assert 8 * k + 16 == 8 * (k + 2) && 8 * k + 16 + 16 == 8 * (k + 4);
    JoinBits(src, 8 * k + 16, LsbBits(65535 - n, 16), DataBits(ByteRun(src, k + 4, n)));
    JoinBits(src, 8 * k, LsbBits(n, 16), LsbBits(65535 - n, 16) + DataBits(ByteRun(src, k + 4, n)));
  }

  lemma StoredParts(src: seq<byte>, pos: nat)
    requires ReadStored(src, pos).Some?
    ensures var k := pos / 8 + 1;
            && pos % 8 != 0 && k + 4 <= |src|
            && var n := Word(src[k], src[k + 1]);
               && 0 <= n <= 65535 && 65535 - n == Word(src[k + 2], src[k + 3]) && k + 4 + n <= |src|
               && ReadStored(src, pos) == Some(StoredBlock(BitList(src, pos, PadLength(pos)), ByteRun(src, k + 4, n)))
  {
    hide BitList, ByteRun;
  }

  lemma StoredHeld(src: seq<byte>, pos: nat)
    requires ReadStored(src, pos).Some?
    ensures var b := ReadStored(src, pos).value;
            && pos % 8 != 0 && b.StoredBlock? && |b.pad| == PadLength(pos) && |b.data| <= 65535
            && HasBits(src, pos, StoredBits(b.pad, b.data)) && pos + |StoredBits(b.pad, b.data)| <= 8 * |src|
  {
    hide Bit, Bits, LsbBits, DataBits, ByteRun, HasBits, BitList, PadLength, ReadStored, Word;
    StoredParts(src, pos);
    PadReaches(pos);
    var b := ReadStored(src, pos).value;
    var k := pos / 8 + 1;
    ListHeld(src, pos, |b.pad|);
    BytesHeld(src, k, |b.data|);
    JoinBits(src, pos, b.pad, LsbBits(|b.data|, 16) + (LsbBits(65535 - |b.data|, 16) + DataBits(b.data)));
  }

  lemma ListHeld(src: seq<byte>, pos: nat, n: nat)
    ensures HasBits(src, pos, BitList(src, pos, n))
  {
    hide Bit;
  }

  lemma ListIs(src: seq<byte>, pos: nat, bits: seq<bit>)
    requires HasBits(src, pos, bits)
    ensures BitList(src, pos, |bits|) == bits
  {
    hide Bit;
  }

  lemma StoredRead(src: seq<byte>, pos: nat, pad: seq<bit>, data: seq<byte>)
    requires pos % 8 != 0 && |pad| == PadLength(pos) && |data| <= 65535
    requires HasBits(src, pos, StoredBits(pad, data)) && pos + |StoredBits(pad, data)| <= 8 * |src|
    ensures ReadStored(src, pos) == Some(StoredBlock(pad, data))
  {
    hide Bit, Bits, HasBits, LsbBits, DataBits, ByteRun, BitList;
    BitsGiveBytes(src, pos, pad, data);
    PadReaches(pos);
    HasConcat(src, pos, pad, LsbBits(|data|, 16) + (LsbBits(65535 - |data|, 16) + DataBits(data)));
    ListIs(src, pos, pad);
  }

  // ----- Blocks -----

  ghost function ReadFixed(src: seq<byte>, st: State): Option<Coded> {
    match ReadTokens(FixedLiteralLengths(), FixedDistanceLengths(), src, st)
    case None => None
    case Some(toks) => Some(FixedBlock(toks))
  }

  ghost function ReadDynamicBlock(src: seq<byte>, st: State): Option<Coded> {
    match ReadDynamic(src, st.pos)
    case None => None
    case Some(h) =>
      match ReadTokens(h.ll, h.dl, src, State(ReadHeader(src, st.pos).pos, st.out))
      case None => None
      case Some(toks) => Some(DynamicBlock(h, toks))
  }

  /** The block of this kind whose header bits end at st.pos. */
  ghost function ReadCoded(src: seq<byte>, kind: nat, st: State): Option<Coded> {
    if kind == 0 then ReadStored(src, st.pos)
    else if kind == 1 then ReadFixed(src, st)
    else if kind == 2 then ReadDynamicBlock(src, st)
    else None
  }

  lemma FixedHeld(src: seq<byte>, st: State)
    requires ReadFixed(src, st).Some?
    ensures var b := ReadFixed(src, st).value;
            b.FixedBlock? && b.Valid(st.pos, |st.out|) && HasBits(src, st.pos, b.BodyBits(st.pos, |st.out|))
  {
    hide Bit, HasBits, ReadTokens, TokensBits, AllWritable, ValidTokens, FixedLiteralLengths, FixedDistanceLengths;
    hide Kraft;
    FixedCodesFit();
    TokensHeld(FixedLiteralLengths(), FixedDistanceLengths(), src, st);
  }

  lemma DynamicHeld(src: seq<byte>, st: State)
    requires ReadDynamicBlock(src, st).Some?
    ensures var b := ReadDynamicBlock(src, st).value;
            b.DynamicBlock? && b.Valid(st.pos, |st.out|) && HasBits(src, st.pos, b.BodyBits(st.pos, |st.out|))
  {
    hide Bit, HasBits, ReadTokens, TokensBits, AllWritable, ValidTokens, ReadDynamic, ReadHeader, Kraft;
    hide Dynamic.Valid, Dynamic.Bits;
    var b := ReadDynamicBlock(src, st).value;
    var h := b.header;
    HeaderHeld(src, st.pos);
    HeaderDecodes(h, src, st.pos);
    HeaderKraft(h);
    TokensHeld(h.ll, h.dl, src, State(st.pos + |h.Bits()|, st.out));
    JoinBits(src, st.pos, h.Bits(), TokensBits(h.ll, h.dl, b.toks));
  }

  /** A block that reads without an anomaly is a valid one, and its encoding stands there. */
  lemma CodedHeld(src: seq<byte>, kind: nat, st: State)
    requires ReadCoded(src, kind, st).Some?
    ensures var b := ReadCoded(src, kind, st).value;
            && b.Kind() == kind && b.Valid(st.pos, |st.out|) && HasBits(src, st.pos, b.BodyBits(st.pos, |st.out|))
            && (b.StoredBlock? ==> st.pos % 8 != 0)
  {
    hide Bit, HasBits, ReadStored, ReadFixed, ReadDynamicBlock, StoredBits, TokensBits, Dynamic.Valid, Dynamic.Bits;
    hide AllWritable, ValidTokens, FixedLiteralLengths, FixedDistanceLengths, PadLength;
    if kind == 0 {
      StoredHeld(src, st.pos);
    } else if kind == 1 {
      FixedHeld(src, st);
    } else {
      DynamicHeld(src, st);
    }
  }

  /** A valid block's encoding reads as that block. */
  lemma CodedRead(b: Coded, src: seq<byte>, st: State)
    requires b.Valid(st.pos, |st.out|) && HasBits(src, st.pos, b.BodyBits(st.pos, |st.out|))
    requires st.pos + |b.BodyBits(st.pos, |st.out|)| <= 8 * |src| && (b.StoredBlock? ==> st.pos % 8 != 0)
    ensures ReadCoded(src, b.Kind(), st) == Some(b)
  {
    hide Bit, HasBits, ReadStored, ReadTokens, ReadDynamic, ReadHeader, StoredBits, TokensBits, Dynamic.Valid, Kraft;
    hide Dynamic.Bits, AllWritable, ValidTokens, FixedLiteralLengths, FixedDistanceLengths, PadLength;
    match b
    case StoredBlock(pad, data) => StoredRead(src, st.pos, pad, data);
    case FixedBlock(toks) =>
      FixedCodesFit();
      TokensRead(FixedLiteralLengths(), FixedDistanceLengths(), toks, src, st);
    case DynamicBlock(h, toks) =>
      HasConcat(src, st.pos, h.Bits(), TokensBits(h.ll, h.dl, toks));
      HeaderRead(h, src, st.pos);
      HeaderDecodes(h, src, st.pos);
      HeaderKraft(h);
      TokensRead(h.ll, h.dl, toks, src, State(st.pos + |h.Bits()|, st.out));
  }

  // ----- Streams -----

  /** The blocks of a source in which every bit, symbol and copy is one that RFC 1951 gives a meaning to and that the
      decoder reads so. */
  ghost function ReadStream(src: seq<byte>, st: State): Option<seq<Coded>>
    decreases 8 * |src| - st.pos
  {
    hide Coded.Valid, Coded.BodyBits, Coded.Output, ReadCoded;
    var kind, body := Bits(src, st.pos + 1, 2), State(st.pos + 3, st.out);
    if ReadCoded(src, kind, body).None? then None else
    CodedHeld(src, kind, body);
    var b := ReadCoded(src, kind, body).value;
    var next := After(b, st);
    if next.pos > 8 * |src| then None
    else if Bit(src, st.pos) == 1 then Some([b])
    else match ReadStream(src, next) case None => None case Some(rest) => Some([b] + rest)
  }

  /** The source holds the encoding of these blocks from st on. */
  ghost predicate Encodes(src: seq<byte>, st: State, blocks: seq<Coded>) {
    && blocks != [] && ValidStream(blocks, st) && NoAlignedStored(blocks, st)
    && HasBits(src, st.pos, StreamBits(blocks, st)) && st.pos + |StreamBits(blocks, st)| <= 8 * |src|
  }

  lemma HeaderBitsHeld(src: seq<byte>, pos: nat)
    ensures HasBits(src, pos, HeaderBits(Bit(src, pos), Bits(src, pos + 1, 2)))
  {
    hide Bit, Bits, HasBits, LsbBits;
    OneBit(src, pos);
    LsbHeld(src, pos + 1, 2);
    JoinBits(src, pos, [Bit(src, pos)], LsbBits(Bits(src, pos + 1, 2), 2));
  }

  /** A block in front of a stream. */
  lemma EncodesFirst(b: Coded, rest: seq<Coded>, src: seq<byte>, st: State)
    requires b.Valid(st.pos + 3, |st.out|) && !Aligned(b, st)
    requires HasBits(src, st.pos, HeaderBits(if rest == [] then 1 else 0, b.Kind()))
    requires HasBits(src, st.pos + 3, b.BodyBits(st.pos + 3, |st.out|)) && After(b, st).pos <= 8 * |src|
    requires rest != [] ==> Encodes(src, After(b, st), rest)
    ensures Encodes(src, st, [b] + rest)
  {
    hide Bit, HasBits, HeaderBits, Coded.Valid, Coded.BodyBits, Coded.Output, Aligned;
    var blocks := [b] + rest;
    assert blocks[1..] == rest;
    var next := After(b, st);
    assert ValidStream(rest, next) && NoAlignedStored(rest, next);
    if rest == [] {
      assert StreamBits(rest, next) == [];
      NoBitsHeld(src, next.pos);
    }
    var head, body, tail := HeaderBits(if rest == [] then 1 else 0, b.Kind()), b.BodyBits(st.pos + 3, |st.out|),
      StreamBits(rest, next);
    JoinBits(src, st.pos + 3, body, tail);
    JoinBits(src, st.pos, head, body + tail);
    assert StreamBits(blocks, st) == head + (body + tail);
  }

  lemma {:induction false} StreamHeld(src: seq<byte>, st: State)
    requires ReadStream(src, st).Some?
    ensures Encodes(src, st, ReadStream(src, st).value)
    decreases 8 * |src| - st.pos
  {
    hide Bit, Bits, HasBits, HeaderBits, Coded.Valid, Coded.BodyBits, Coded.Output, ReadCoded, Encodes;
    var kind, body := Bits(src, st.pos + 1, 2), State(st.pos + 3, st.out);
    CodedHeld(src, kind, body);
    HeaderBitsHeld(src, st.pos);
    var b := ReadCoded(src, kind, body).value;
    var next := After(b, st);
    if Bit(src, st.pos) == 1 {
      EncodesFirst(b, [], src, st);
      assert [b] + [] == [b];
    } else {
      StreamHeld(src, next);
      NotEmpty(src, next, ReadStream(src, next).value);
      EncodesFirst(b, ReadStream(src, next).value, src, st);
    }
  }

  lemma NotEmpty(src: seq<byte>, st: State, blocks: seq<Coded>)
    requires Encodes(src, st, blocks)
    ensures blocks != []
  {}

  /** The first block of an encoding, and the rest after it. */
  lemma EncodesParts(src: seq<byte>, st: State, blocks: seq<Coded>)
    requires Encodes(src, st, blocks)
    ensures var b := blocks[0];
            && b.Valid(st.pos + 3, |st.out|) && !Aligned(b, st)
            && HasBits(src, st.pos, HeaderBits(if |blocks| == 1 then 1 else 0, b.Kind()))
            && HasBits(src, st.pos + 3, b.BodyBits(st.pos + 3, |st.out|)) && After(b, st).pos <= 8 * |src|
            && (|blocks| > 1 ==> Encodes(src, After(b, st), blocks[1..]))
  {
    hide Bit, HasBits, HeaderBits, Coded.Valid, Coded.BodyBits, Coded.Output, Aligned;
    var b := blocks[0];
    var head, body := HeaderBits(if |blocks| == 1 then 1 else 0, b.Kind()), b.BodyBits(st.pos + 3, |st.out|);
    var tail := StreamBits(blocks[1..], After(b, st));
    HasConcat(src, st.pos, head, body + tail);
    HasConcat(src, st.pos + 3, body, tail);
  }

  lemma {:induction false} StreamRead(src: seq<byte>, st: State, blocks: seq<Coded>)
    requires Encodes(src, st, blocks)
    ensures ReadStream(src, st) == Some(blocks)
    decreases |blocks|
  {
    hide Bit, Bits, HasBits, HeaderBits, Coded.Valid, Coded.BodyBits, Coded.Output, ReadCoded, Encodes;
    NotEmpty(src, st, blocks);
    EncodesParts(src, st, blocks);
    var b := blocks[0];
    HeaderBitsDecode(src, st.pos, if |blocks| == 1 then 1 else 0, b.Kind());
    CodedRead(b, src, State(st.pos + 3, st.out));
    if |blocks| > 1 {
      StreamRead(src, After(b, st), blocks[1..]);
      assert [b] + blocks[1..] == blocks;
    } else {
      assert [b] == blocks;
    }
  }

  /** The sources read without an anomaly, as these blocks, are exactly those that hold the blocks' encoding; and then
      the decoder gives what the blocks stand for. */
  lemma ReadsIffEncodes(src: seq<byte>, st: State, blocks: seq<Coded>)
    ensures ReadStream(src, st) == Some(blocks) <==> Encodes(src, st, blocks)
    ensures Encodes(src, st, blocks) ==> Inflate(src, st) == Inflated(StreamOutput(blocks, st))
  {
    hide ReadStream, ValidStream, NoAlignedStored, HasBits, StreamBits, StreamOutput, Inflate;
    if ReadStream(src, st) == Some(blocks) {
      StreamHeld(src, st);
    }
    if Encodes(src, st, blocks) {
      StreamRead(src, st, blocks);
      StreamDecodes(blocks, src, st);
    }
  }

  /** Packed into bytes, the blocks of every stream with no aligned stored block read back as themselves. */
  lemma PackedReadsBack(blocks: seq<Coded>)
    requires blocks != [] && ValidStream(blocks, State(0, [])) && NoAlignedStored(blocks, State(0, []))
    ensures ReadStream(Pack(StreamBits(blocks, State(0, []))), State(0, [])) == Some(blocks)
  {
    hide ReadStream, ValidStream, NoAlignedStored, HasBits, StreamBits;
    PackHasBits(StreamBits(blocks, State(0, [])));
    StreamRead(Pack(StreamBits(blocks, State(0, []))), State(0, []), blocks);
  }

  /** The format is unambiguous: a source is the encoding of one sequence of blocks at most. */
  lemma OneEncoding(src: seq<byte>, st: State, a: seq<Coded>, b: seq<Coded>)
    requires Encodes(src, st, a) && Encodes(src, st, b)
    ensures a == b
  {
    hide ReadStream, Encodes;
    StreamRead(src, st, a);
    StreamRead(src, st, b);
  }
}
