/** What the round trip covers: every pair of codes has a header, and every byte sequence has a stream. */
module Encodable {
  import opened BitStream
  import opened Huffman
  import opened Deflate
  import opened FixedTables
  import opened RoundTrip
  import opened StreamRoundTrip

  // ----- Headers -----

  /** Each length sent on its own. */
  function Singles(lens: seq<nat>): (r: seq<Run>)
    ensures |r| == |lens| && forall i | 0 <= i < |lens| :: r[i] == One(lens[i])
    decreases |lens|
  {
    if lens == [] then [] else [One(lens[0])] + Singles(lens[1..])
  }

  lemma FirstSingle(acc: seq<nat>, lens: seq<nat>)
    requires lens != []
    ensures ExpandRuns(acc, Singles(lens)) == ExpandRuns(acc + [lens[0]], Singles(lens[1..]))
  {
    assert Singles(lens)[1..] == Singles(lens[1..]);
    assert Singles(lens)[0].Lengths(acc) == [lens[0]];
  }

  lemma NoSingles(acc: seq<nat>)
    ensures ExpandRuns(acc, Singles([])) == acc
  {}

  lemma {:induction false} SinglesExpand(acc: seq<nat>, lens: seq<nat>)
    ensures ExpandRuns(acc, Singles(lens)) == acc + lens
    decreases |lens|
  {
    hide ExpandRuns, Singles;
    if lens == [] {
      NoSingles(acc);
      assert acc + lens == acc;
    } else {
      SinglesExpand(acc + [lens[0]], lens[1..]);
      FirstSingle(acc, lens);
      assert acc + [lens[0]] + lens[1..] == acc + lens;
    }
  }

  lemma {:induction false} UniformWeight(w: nat -> nat, lens: seq<nat>, k: nat, n: nat)
    requires n <= |lens| && forall i | 0 <= i < |lens| :: lens[i] == k
    ensures WeightSum(w, lens, n) == w(k) * n
    decreases n
  {
    if n > 0 {
      UniformWeight(w, lens, k, n - 1);
    }
  }

  /** Five bits for each of the nineteen code length symbols. */
  function FiveBitLengths(): (r: seq<nat>)
    ensures |r| == 19 && forall i | 0 <= i < 19 :: r[i] == 5
  {
    [5, 5, 5, 5, 5, 5, 5, 5, 5, 5, 5, 5, 5, 5, 5, 5, 5, 5, 5]
  }

  ghost function PlainHeader(ll: seq<nat>, dl: seq<nat>): Dynamic {
    Dynamic(ll, dl, FiveBitLengths(), 19, Singles(ll + dl))
  }

  /** Every pair of codes of the sizes section 3.2.7 allows has a header that transmits it. */
  lemma EveryPairHasHeader(ll: seq<nat>, dl: seq<nat>)
    requires 257 <= |ll| <= 288 && 1 <= |dl| <= 32
    ensures PlainHeader(ll, dl).Valid() <==> Kraft(ll) && Kraft(dl)
  {
    hide FiveBitLengths, Place, WeightSum, ExpandRuns;
    SmallPowers();
    UniformWeight(Weight, FiveBitLengths(), 5, 19);
    SinglesExpand([], ll + dl);
    forall i | 0 <= i < 19 ensures Place(i) < 19 {}
  }

  // ----- Streams of one block -----

  ghost predicate Inflates(blocks: seq<Coded>, data: seq<byte>) {
    && ValidStream(blocks, State(0, []))
    && Inflate(Pack(StreamBits(blocks, State(0, []))), State(0, [])) == Inflated(data)
  }

  lemma OneBlockInflates(b: Coded)
    requires b.Valid(3, 0)
    ensures Inflates([b], b.Output([], 3))
  {
    hide Coded.Valid, Coded.BodyBits, Coded.Output, Inflate, StreamBits;
    var end := After(b, State(0, []));
    assert [b][1..] == [] && ValidStream([], end) && NoAlignedStored([], end);
    InflateInvertsEncode([b]);
  }

  /** One dynamic block carries any tokens its two codes can write, from the empty history. */
  lemma DynamicCarries(ll: seq<nat>, dl: seq<nat>, toks: seq<Token>)
    requires 257 <= |ll| <= 288 && 1 <= |dl| <= 32 && Kraft(ll) && Kraft(dl)
    requires ValidTokens(0, toks) && AllWritable(ll, dl, toks)
    ensures Inflates([DynamicBlock(PlainHeader(ll, dl), toks)], Expand([], toks))
  {
    hide Kraft, ValidTokens, AllWritable, Dynamic.Valid, FiveBitLengths, Singles, Inflates, Expand;
    EveryPairHasHeader(ll, dl);
    assert PlainHeader(ll, dl).ll == ll && PlainHeader(ll, dl).dl == dl;
    OneBlockInflates(DynamicBlock(PlainHeader(ll, dl), toks));
  }

  // ----- Outputs -----

  function Literals(data: seq<byte>): (r: seq<Token>)
    ensures |r| == |data| && forall i | 0 <= i < |data| :: r[i] == Literal(data[i])
    decreases |data|
  {
    if data == [] then [] else [Literal(data[0])] + Literals(data[1..])
  }

  lemma FirstLiteral(out: seq<byte>, data: seq<byte>)
    requires data != [] && ValidTokens(|out| + 1, Literals(data[1..]))
    ensures ValidTokens(|out|, Literals(data))
    ensures Expand(out, Literals(data)) == Expand(out + [data[0]], Literals(data[1..]))
  {
    assert Literals(data)[1..] == Literals(data[1..]);
  }

  lemma {:induction false} LiteralsExpand(out: seq<byte>, data: seq<byte>)
    ensures ValidTokens(|out|, Literals(data)) && Expand(out, Literals(data)) == out + data
    decreases |data|
  {
    if data == [] {
      assert out + data == out;
    } else {
      hide ValidTokens, Expand, Literals;
      LiteralsExpand(out + [data[0]], data[1..]);
      FirstLiteral(out, data);
      assert out + [data[0]] + data[1..] == out + data;
    }
  }

  /** Every byte sequence is what some stream inflates to. */
  lemma EveryOutputHasStream(data: seq<byte>)
    ensures Inflates([FixedBlock(Literals(data))], data)
  {
    hide ValidTokens, Expand, Inflates, AllWritable, Literals, FixedLiteralLengths, FixedDistanceLengths;
    LiteralsExpand([], data);
    FixedLiteralsWritable(data);
    assert [] + data == data;
    OneBlockInflates(FixedBlock(Literals(data)));
  }

  lemma FixedLiteralsWritable(data: seq<byte>)
    ensures AllWritable(FixedLiteralLengths(), FixedDistanceLengths(), Literals(data))
  {
    hide LengthWritable, DistWritable;
  }
}
