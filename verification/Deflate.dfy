/** What the decoder computes, in terms of the ideal bit stream and canonical codes: no bit buffer and no tree. */
module Deflate {
  import opened Optional
  import opened BitStream
  import opened Huffman

  // ----- Symbols -----

  /** The symbol whose code stands at pos; None where the code lengths leave a gap. */
  ghost function SymbolAt(lens: seq<nat>, src: seq<byte>, pos: nat): Option<nat> {
    if exists s :: CodeAt(lens, s, src, pos) then
      var s :| CodeAt(lens, s, src, pos);
      Some(s)
    else
      None
  }

  /** How many bits reading that symbol takes: a gap is noticed one bit after the longest code. */
  ghost function Width(lens: seq<nat>, s: Option<nat>): nat {
    if s.Some? && s.value < |lens| then lens[s.value] else MAX_LENGTH + 1
  }

  lemma SymbolIs(lens: seq<nat>, s: nat, src: seq<byte>, pos: nat)
    requires CodeAt(lens, s, src, pos)
    ensures SymbolAt(lens, src, pos) == Some(s)
  {
    var t := SymbolAt(lens, src, pos).value;
    UniqueSymbol(lens, s, t, src, pos);
  }

  // ----- Length and distance alphabets: base values and extra bits (section 3.2.5 of RFC 1951) -----

  function Extra(delta: nat, i: nat): nat
    requires delta > 0
    decreases i, delta
  {
    if i < 2 * delta then 0 else 1 + Extra(delta, i - delta)
  }

  function Base(delta: nat, first: nat, i: nat): nat
    requires delta > 0
    decreases i, delta, first
  {
    if i == 0 then first else Base(delta, first, i - 1) + Pow2(Extra(delta, i - 1))
  }

  function LengthExtra(i: nat): nat { if i == 28 then 0 else Extra(4, i) }
  function LengthBase(i: nat): nat { if i == 28 then 258 else Base(4, 3, i) }
  function DistExtra(i: nat): nat { Extra(2, i) }
  function DistBase(i: nat): nat { Base(2, 1, i) }

  // ----- One block body -----

  datatype State = State(pos: nat, out: seq<byte>)

  /** A number read with its extra bits, if its symbol has one, and where it ends. */
  datatype Field = Field(pos: nat, value: Option<nat>)

  /** The length a length symbol stands for, and where its extra bits end. A symbol past the tables reads nothing. */
  ghost function LengthField(src: seq<byte>, pos: nat, s: Option<nat>): Field {
    if s.Some? && 257 <= s.value < 287 then
      var i := s.value - 257;
      Field(pos + LengthExtra(i), Some(LengthBase(i) + Bits(src, pos, LengthExtra(i))))
    else
      Field(pos, None)
  }

  ghost function DistField(src: seq<byte>, pos: nat, s: Option<nat>): Field {
    if s.Some? && s.value < 30 then
      Field(pos + DistExtra(s.value), Some(DistBase(s.value) + Bits(src, pos, DistExtra(s.value))))
    else
      Field(pos, None)
  }

  /** One byte of the output; what was never written reads as zero. */
  function OutAt(out: seq<byte>, i: int): byte {
    if 0 <= i < |out| then out[i] else 0
  }

  /** Append n bytes one at a time, each read from the growing output. */
  function CopyFrom(out: seq<byte>, from: int, n: nat): seq<byte>
    decreases n
  {
    if n == 0 then out else CopyFrom(out + [OutAt(out, from)], from + 1, n - 1)
  }

  ghost function Match(dl: seq<nat>, src: seq<byte>, pos: nat, out: seq<byte>, s: Option<nat>): State {
    var len := LengthField(src, pos, s);
    var d := SymbolAt(dl, src, len.pos);
    var dist := DistField(src, len.pos + Width(dl, d), d);
    State(dist.pos,
          if len.value.Some? && dist.value.Some? then CopyFrom(out, |out| - dist.value.value, len.value.value) else out)
  }

  datatype Read = More(st: State) | End(st: State)

  /** One symbol of a block body, with the copy it asks for. */
  ghost function BodyStep(ll: seq<nat>, dl: seq<nat>, src: seq<byte>, st: State): (r: Read)
    ensures r.st.pos > st.pos
  {
    var s := SymbolAt(ll, src, st.pos);
    var p := st.pos + Width(ll, s);
    if s == Some(256) then End(State(p, st.out))
    else if s.Some? && s.value < 256 then More(State(p, st.out + [s.value]))
    else More(Match(dl, src, p, st.out, s))
  }

  /** What at most n symbols of a block body read, if the end symbol is among them. */
  ghost function BlockWithin(ll: seq<nat>, dl: seq<nat>, src: seq<byte>, st: State, n: nat): (r: Option<State>)
    ensures r.Some? ==> r.value.pos > st.pos
    decreases n
  {
    if n == 0 then None else
    match BodyStep(ll, dl, src, st)
    case End(next) => Some(next)
    case More(next) => BlockWithin(ll, dl, src, next, n - 1)
  }

  /** What a block body reads up to its end symbol. None when no number of symbols reaches one: the loop runs for
      ever. */
  ghost function Block(ll: seq<nat>, dl: seq<nat>, src: seq<byte>, st: State): (r: Option<State>)
    ensures r.Some? ==> r.value.pos > st.pos
  {
    if exists n: nat :: BlockWithin(ll, dl, src, st, n).Some? then
      var n: nat :| BlockWithin(ll, dl, src, st, n).Some?;
      BlockWithin(ll, dl, src, st, n)
    else
      None
  }

  lemma {:induction false} WithinMore(ll: seq<nat>, dl: seq<nat>, src: seq<byte>, st: State, m: nat, n: nat)
    requires m <= n && BlockWithin(ll, dl, src, st, m).Some?
    ensures BlockWithin(ll, dl, src, st, n) == BlockWithin(ll, dl, src, st, m)
    decreases m
  {
    hide SymbolAt, Match, BodyStep;
    match BodyStep(ll, dl, src, st)
    case End(_) =>
    case More(next) => WithinMore(ll, dl, src, next, m - 1, n - 1);
  }

  /** Any number of symbols that is enough gives the block. */
  lemma BlockIs(ll: seq<nat>, dl: seq<nat>, src: seq<byte>, st: State, n: nat)
    requires BlockWithin(ll, dl, src, st, n).Some?
    ensures Block(ll, dl, src, st) == BlockWithin(ll, dl, src, st, n)
  {
    hide BlockWithin;
    var m: nat :| BlockWithin(ll, dl, src, st, m).Some? && Block(ll, dl, src, st) == BlockWithin(ll, dl, src, st, m);
    if m <= n {
      WithinMore(ll, dl, src, st, m, n);
    } else {
      WithinMore(ll, dl, src, st, n, m);
    }
  }

  /** A block body is its first symbol, then the rest. */
  lemma BlockUnfolds(ll: seq<nat>, dl: seq<nat>, src: seq<byte>, st: State)
    ensures Block(ll, dl, src, st)
         == match BodyStep(ll, dl, src, st) case End(next) => Some(next) case More(next) => Block(ll, dl, src, next)
  {
    hide Block, BodyStep;
    match BodyStep(ll, dl, src, st)
    case End(_) => BlockIs(ll, dl, src, st, 1);
    case More(next) =>
      if n: nat :| BlockWithin(ll, dl, src, next, n).Some? {
        BlockIs(ll, dl, src, next, n);
        BlockIs(ll, dl, src, st, n + 1);
      } else {
        NoBlock(ll, dl, src, next);
        forall n: nat ensures BlockWithin(ll, dl, src, st, n) == None {
          assert n > 0 ==> BlockWithin(ll, dl, src, next, n - 1) == None;
        }
        NoBlock(ll, dl, src, st);
      }
  }

  lemma NoBlock(ll: seq<nat>, dl: seq<nat>, src: seq<byte>, st: State)
    requires forall n: nat :: BlockWithin(ll, dl, src, st, n) == None
    ensures Block(ll, dl, src, st) == None
  {
    hide BlockWithin;
  }

  // ----- Stored blocks (section 3.2.4) -----

  function ByteRun(src: seq<byte>, k: nat, n: nat): (r: seq<byte>)
    ensures |r| == n && forall i | 0 <= i < n :: r[i] == ByteAt(src, k + i)
    decreases n, src
  {
    if n == 0 then [] else [ByteAt(src, k)] + ByteRun(src, k + 1, n - 1)
  }

  function Word(low: int, high: int): int {
    256 * high + low
  }

  /** A stored block whose header ends at pos: the bytes after the one that holds pos. None is a data error. */
  function Stored(src: seq<byte>, st: State): Option<State> {
    var k := st.pos / 8 + 1;
    if k + 1 >= |src| then None else
    var len := Word(src[k], src[k + 1]);
    var check := if k + 3 < |src| then Word(src[k + 2], src[k + 3]) else 0;
    if len != 65535 - check then None
    else Some(State(8 * (k + 4 + len), st.out + ByteRun(src, k + 4, len)))
  }

  // ----- Dynamic headers (section 3.2.7) -----

  const ORDER: seq<nat> := [16, 17, 18, 0, 8, 7, 9, 6, 10, 5, 11, 4, 12, 3, 13, 2, 14, 1, 15]

  /** The order in which the code length symbols' own lengths are transmitted: the runs, zero, then 8 and outwards. */
  function Order(i: nat): (r: nat)
    requires i < 19
    ensures r < 19
  {
    if i < 3 then 16 + i else if i == 3 then 0 else if i % 2 == 0 then 6 + i / 2 else (19 - i) / 2
  }

  lemma OrderIs(i: nat)
    requires i < 19
    ensures ORDER[i] == Order(i)
  {}

  /** The code length code after its first n three-bit lengths. */
  function CodeLengths(src: seq<byte>, pos: nat, n: nat): (r: seq<nat>)
    requires n <= 19
    ensures |r| == 19
    decreases n, src
  {
    if n == 0 then Fill(19, 0)
    else CodeLengths(src, pos, n - 1)[Order(n - 1) := Bits(src, pos + 3 * (n - 1), 3)]
  }

  function Fill(n: nat, v: nat): (r: seq<nat>)
    ensures |r| == n
  {
    seq(n, i => v)
  }

  function Last(acc: seq<nat>): nat {
    if |acc| == 0 then 0 else acc[|acc| - 1]
  }

  /** Code lengths read so far, and where the reading stands. */
  datatype Runs = Runs(pos: nat, lens: seq<nat>)

  /** One code length symbol: a length, or a run of them. */
  ghost function OneRun(cl: seq<nat>, src: seq<byte>, pos: nat, acc: seq<nat>): (r: Runs)
    ensures r.pos >= pos && acc < r.lens
  {
    var s := SymbolAt(cl, src, pos);
    var p := pos + Width(cl, s);
    if s == Some(16) then Runs(p + 2, acc + Fill(3 + Bits(src, p, 2), Last(acc)))
    else if s == Some(17) then Runs(p + 3, acc + Fill(3 + Bits(src, p, 3), 0))
    else if s == Some(18) then Runs(p + 7, acc + Fill(11 + Bits(src, p, 7), 0))
    else Runs(p, acc + [if s.Some? then s.value else 0])
  }

  /** Code lengths read one run at a time until there are total of them or more. */
  ghost function Unroll(cl: seq<nat>, src: seq<byte>, runs: Runs, total: nat): (r: Runs)
    ensures r.pos >= runs.pos && |r.lens| >= total && runs.lens <= r.lens
    decreases total - |runs.lens|
  {
    if |runs.lens| >= total then runs
    else Unroll(cl, src, OneRun(cl, src, runs.pos, runs.lens), total)
  }

  datatype Header = Header(pos: nat, ll: seq<nat>, dl: seq<nat>)

  /** How many code length code lengths follow. */
  function CodeLengthCount(src: seq<byte>, pos: nat): (n: nat)
    ensures n <= 19
  {
    BitsBound(src, pos + 10, 4);
    assert Pow2(4) == 16;
    Bits(src, pos + 10, 4) + 4
  }

  ghost function ReadHeader(src: seq<byte>, pos: nat): (h: Header)
    ensures h.pos >= pos
  {
    var hlit, hdist, hclen := Bits(src, pos, 5) + 257, Bits(src, pos + 5, 5) + 1, CodeLengthCount(src, pos);
    var cl := CodeLengths(src, pos + 14, hclen);
    var runs := Unroll(cl, src, Runs(pos + 14 + 3 * hclen, []), hlit + hdist);
    Header(runs.pos, runs.lens[..hlit], runs.lens[hlit..hlit + hdist])
  }

  // ----- The whole stream -----

  /** The fixed literal/length and distance code lengths (section 3.2.6). */
  function FixedLength(i: nat): nat {
    if i < 144 then 8 else if i < 256 then 9 else if i < 280 then 7 else 8
  }

  function FixedLiteralLengths(): seq<nat> {
    seq(288, i requires 0 <= i => FixedLength(i))
  }

  function FixedDistanceLengths(): seq<nat> {
    seq(32, i => 5)
  }

  /** Endless is a run that never comes to an end. */
  datatype Outcome = Inflated(out: seq<byte>) | DataError | Endless

  datatype Step = Next(st: State) | Fail | Stuck

  function BodyResult(r: Option<State>): Step {
    match r case None => Stuck case Some(next) => Next(next)
  }

  /** A block after its three header bits. */
  ghost function Body(src: seq<byte>, kind: nat, st: State): (r: Step)
    ensures r.Next? ==> st.pos <= r.st.pos && (kind == 0 ==> st.pos < 8 * |src|)
  {
    if kind == 0 then
      match Stored(src, st) case None => Fail case Some(next) => Next(next)
    else if kind == 1 then
      BodyResult(Block(FixedLiteralLengths(), FixedDistanceLengths(), src, st))
    else if kind == 2 then
      var h := ReadHeader(src, st.pos);
      BodyResult(Block(h.ll, h.dl, src, State(h.pos, st.out)))
    else
      Fail
  }

  /** One block; one that is read ends further on, and started inside the source. */
  ghost function AnyBlock(src: seq<byte>, st: State): (r: Step)
    ensures r.Next? ==> st.pos < r.st.pos && st.pos < 8 * |src|
  {
    KindPastEnd(src, st.pos + 1);
    Body(src, Bits(src, st.pos + 1, 2), State(st.pos + 3, st.out))
  }

  lemma KindPastEnd(src: seq<byte>, pos: nat)
    ensures pos >= 8 * |src| ==> Bits(src, pos, 2) == 0
  {
    if pos >= 8 * |src| {
      BitPastEnd(src, pos);
      BitPastEnd(src, pos + 1);
      assert Bits(src, pos, 2) == Bit(src, pos) + 2 * (Bit(src, pos + 1) + 2 * Bits(src, pos + 2, 0));
    }
  }

  /** Blocks up to and including the first one flagged final. */
  ghost function Inflate(src: seq<byte>, st: State): Outcome
    decreases if st.pos < 8 * |src| then 8 * |src| - st.pos else 0
  {
    match AnyBlock(src, st)
    case Fail => DataError
    case Stuck => Endless
    case Next(next) =>
      if Bit(src, st.pos) == 1 then Inflated(next.out) else Inflate(src, next)
  }
}
