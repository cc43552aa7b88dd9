/** The round trip of the program itself: what the decoder returns for a source that holds an encoding. */
module ProgramRoundTrip {
  import opened BitStream
  import opened Huffman
  import opened Deflate
  import opened FixedTables
  import opened Trees
  import opened Inflater
  import opened RoundTrip
  import opened StreamRoundTrip
  import opened Encodable
  import opened Truncation
  import opened CleanStreams

  lemma PackedEncodes(blocks: seq<Coded>)
    requires blocks != [] && ValidStream(blocks, State(0, [])) && NoAlignedStored(blocks, State(0, []))
    ensures Encodes(Pack(StreamBits(blocks, State(0, []))), State(0, []), blocks)
  {
    hide ValidStream, NoAlignedStored, HasBits, StreamBits;
    PackHasBits(StreamBits(blocks, State(0, [])));
  }

  /** A source that holds the encoding of some blocks comes back as what they stand for, if the buffer has room, and
      otherwise as much of it as fits. */
  method InflateEncoded(ghost blocks: seq<Coded>, source: seq<byte>, dest: array<byte>, tables: Tables,
    lengths: array<nat>, codeTree: Tree) returns (r: Outcome)
    requires Encodes(source, State(0, []), blocks)
    requires tables.Valid() && codeTree.Shaped() && lengths.Length == 320
    requires lengths !in {codeTree.table, codeTree.trans}
    requires {lengths, codeTree.table, codeTree.trans} !! {tables.lengthBits, tables.lengthBase, tables.distBits,
               tables.distBase, tables.ltree.table, tables.ltree.trans, tables.dtree.table, tables.dtree.trans}
    modifies dest, lengths, codeTree.table, codeTree.trans
    ensures var out := StreamOutput(blocks, State(0, []));
            && (|out| <= dest.Length ==> r == Inflated(out) && dest[..|out|] == out)
            && (|out| > dest.Length ==> r == Inflated(out[..dest.Length]) && dest[..] == out[..dest.Length])
  {
    hide Encodes, StreamOutput, Inflate, HoldsCode, Tables.Valid;
    ReadsIffEncodes(source, State(0, []), blocks);
    r := InflateInto(source, dest, tables, lengths, codeTree);
  }

  /** Blocks packed into bytes, and the bytes inflated into a buffer with room for the output. */
  method InflatePacked(ghost blocks: seq<Coded>, source: seq<byte>, size: nat, tables: Tables, lengths: array<nat>,
    codeTree: Tree) returns (r: Outcome)
    requires blocks != [] && ValidStream(blocks, State(0, [])) && NoAlignedStored(blocks, State(0, []))
    requires source == Pack(StreamBits(blocks, State(0, []))) && size >= |StreamOutput(blocks, State(0, []))|
    requires tables.Valid() && codeTree.Shaped() && lengths.Length == 320
    requires lengths !in {codeTree.table, codeTree.trans}
    requires {lengths, codeTree.table, codeTree.trans} !! {tables.lengthBits, tables.lengthBase, tables.distBits,
               tables.distBase, tables.ltree.table, tables.ltree.trans, tables.dtree.table, tables.dtree.trans}
    modifies lengths, codeTree.table, codeTree.trans
    ensures r == Inflated(StreamOutput(blocks, State(0, [])))
  {
    hide Encodes, ValidStream, NoAlignedStored, StreamOutput, StreamBits, Pack, HoldsCode, Tables.Valid;
    PackedEncodes(blocks);
    var dest := new byte[size];
    r := InflateEncoded(blocks, source, dest, tables, lengths, codeTree);
  }

  // ----- A known stream -----

  lemma FixedFirst8()
    ensures First(FixedLiteralLengths(), 8) == 48
  {
    hide FixedLiteralLengths, Rank;
    FixedFirst(7);
    FixedLengthOf(0);
    FixedRanks(7, 288);
  }

  lemma NextMsb(v: nat, n: nat)
    requires n > 0
    ensures MsbBits(v, n) == MsbBits(v / 2, n - 1) + [v % 2]
  {}

  lemma NoMsb(v: nat)
    ensures MsbBits(v, 0) == []
  {}

  lemma MsbOf145()
    ensures MsbBits(145, 8) == [1, 0, 0, 1, 0, 0, 0, 1]
  {
    hide MsbBits;
    NextMsb(145, 8);
    NextMsb(72, 7);
    NextMsb(36, 6);
    NextMsb(18, 5);
    NextMsb(9, 4);
    NextMsb(4, 3);
    NextMsb(2, 2);
    NextMsb(1, 1);
    NoMsb(0);
  }

  lemma {:induction false} ZeroMsb(n: nat)
    ensures MsbBits(0, n) == seq(n, i => 0)
    decreases n
  {
    if n > 0 {
      ZeroMsb(n - 1);
    }
  }

  lemma CodeOfA()
    ensures CodeBits(FixedLiteralLengths(), 97) == [1, 0, 0, 1, 0, 0, 0, 1]
    ensures CodeBits(FixedLiteralLengths(), 256) == [0, 0, 0, 0, 0, 0, 0]
  {
    hide FixedLiteralLengths, Rank, MsbBits, First;
    FixedLengthOf(97);
    FixedLengthOf(256);
    FixedFirst8();
    FixedFirst(7);
    FixedRanks(8, 97);
    FixedRanks(7, 256);
    MsbOf145();
    ZeroMsb(7);
  }

  lemma PackedA()
    ensures Pack([1, 1, 0, 1, 0, 0, 1, 0, 0, 0, 1, 0, 0, 0, 0, 0, 0, 0]) == [0x4b, 0x04, 0x00]
  {
    hide PackByte, Pack;
    var bits: seq<bit> := [1, 1, 0, 1, 0, 0, 1, 0, 0, 0, 1, 0, 0, 0, 0, 0, 0, 0];
    PackNext(bits);
    PackNext(bits[8..]);
    PackNext(bits[8..][8..]);
    NoPack();
    assert bits[8..] == [0, 0, 1, 0, 0, 0, 0, 0, 0, 0] && bits[8..][8..] == [0, 0];
    PackEight(1, 1, 0, 1, 0, 0, 1, 0, bits[8..]);
    PackEight(0, 0, 1, 0, 0, 0, 0, 0, [0, 0]);
    PackTwo();
    assert bits == [1, 1, 0, 1, 0, 0, 1, 0] + bits[8..];
    assert bits[8..] == [0, 0, 1, 0, 0, 0, 0, 0] + [0, 0];
  }

  lemma NoPack()
    ensures Pack([]) == []
  {}

  lemma PackNext(bits: seq<bit>)
    requires bits != []
    ensures var n := if |bits| < 8 then |bits| else 8; Pack(bits) == [PackByte(bits, n)] + Pack(bits[n..])
  {
    hide PackByte;
  }

  lemma PackStep(bits: seq<bit>, n: nat)
    requires 0 < n <= |bits|
    ensures PackByte(bits, n) == bits[0] + 2 * PackByte(bits[1..], n - 1)
  {}

  lemma PackNone(bits: seq<bit>)
    ensures PackByte(bits, 0) == 0
  {}

  lemma PackEight(a: bit, b: bit, c: bit, d: bit, e: bit, f: bit, g: bit, h: bit, more: seq<bit>)
    ensures PackByte([a, b, c, d, e, f, g, h] + more, 8)
         == a + 2 * b + 4 * c + 8 * d + 16 * e + 32 * f + 64 * g + 128 * h
  {
    hide PackByte;
    PackFour(a, b, c, d, [e, f, g, h] + more, 8);
    PackFour(e, f, g, h, more, 4);
    PackNone(more);
    assert [a, b, c, d] + ([e, f, g, h] + more) == [a, b, c, d, e, f, g, h] + more;
  }

  lemma PackFour(a: bit, b: bit, c: bit, d: bit, more: seq<bit>, n: nat)
    requires 4 <= n <= 4 + |more|
    ensures PackByte([a, b, c, d] + more, n) == a + 2 * b + 4 * c + 8 * d + 16 * PackByte(more, n - 4)
  {
    hide PackByte;
    var s0 := [a, b, c, d] + more;
    PackStep(s0, n);
    PackStep(s0[1..], n - 1);
    PackStep(s0[1..][1..], n - 2);
    PackStep(s0[1..][1..][1..], n - 3);
    assert s0[1..][1..][1..][1..] == more;
  }

  lemma PackTwo()
    ensures PackByte([0, 0], 2) == 0
  {
    hide PackByte;
    PackStep([0, 0], 2);
    PackStep([0], 1);
    PackNone([]);
    assert [0, 0][1..] == [0] && [0][1..] == [];
  }

  /** The three bytes every DEFLATE encoder writes for the letter a with the fixed codes. */
  lemma KnownStream()
    ensures Inflate([0x4b, 0x04, 0x00], State(0, [])) == Inflated([97])
  {
    hide FixedLiteralLengths, FixedDistanceLengths, Pack, Inflate, CodeBits, ValidStream, Literals;
    EveryOutputHasStream([97]);
    KnownBits();
    PackedA();
  }

  lemma KnownBits()
    ensures var blocks := [FixedBlock(Literals([97]))];
            && ValidStream(blocks, State(0, []))
            && StreamBits(blocks, State(0, [])) == [1, 1, 0, 1, 0, 0, 1, 0, 0, 0, 1, 0, 0, 0, 0, 0, 0, 0]
  {
    hide FixedLiteralLengths, FixedDistanceLengths, CodeBits, Inflate, Pack, Expand;
    EveryOutputHasStream([97]);
    CodeOfA();
    var toks := Literals([97]);
    var b := FixedBlock(toks);
    assert toks == [Literal(97)] && toks[1..] == [] && [b][1..] == [];
    assert HeaderBits(1, 1) == [1, 1, 0];
  }
}
