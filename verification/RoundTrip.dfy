/** An encoder for each kind of block, and the theorems that the decoder inverts it. */
module RoundTrip {
  import opened Optional
  import opened BitStream
  import opened Huffman
  import opened Deflate
  import opened FixedTables

  // ----- LZ77 tokens and what they expand to -----

  datatype Token = Literal(b: byte) | Copy(len: nat, dist: nat)

  /** Tokens that RFC 1951 allows after n bytes of history. */
  ghost predicate ValidTokens(n: nat, toks: seq<Token>)
    decreases |toks|
  {
    toks != [] ==>
      match toks[0]
      case Literal(_) => ValidTokens(n + 1, toks[1..])
      case Copy(len, dist) => 3 <= len <= 258 && 1 <= dist <= 32768 && dist <= n && ValidTokens(n + len, toks[1..])
  }

  /** Byte k of the last dist bytes repeated without end. */
  function Echo(out: seq<byte>, dist: nat, k: nat): byte
    requires 0 < dist <= |out|
  {
    out[|out| - dist + k % dist]
  }

  /** The last dist bytes, over and over, for n bytes. */
  function Periodic(out: seq<byte>, dist: nat, n: nat): (r: seq<byte>)
    requires 0 < dist <= |out|
    ensures |r| == n && forall k | 0 <= k < n :: r[k] == Echo(out, dist, k)
    decreases n
  {
    if n == 0 then [] else Periodic(out, dist, n - 1) + [Echo(out, dist, n - 1)]
  }

  /** The bytes one token adds. */
  function Added(out: seq<byte>, t: Token): seq<byte>
    requires t.Copy? ==> 0 < t.dist <= |out|
  {
    match t case Literal(b) => [b] case Copy(len, dist) => Periodic(out, dist, len)
  }

  ghost function Expand(out: seq<byte>, toks: seq<Token>): seq<byte>
    requires ValidTokens(|out|, toks)
    decreases |toks|
  {
    if toks == [] then out else
    Expand(out + Added(out, toks[0]), toks[1..])
  }

  lemma ModBack(k: nat, d: nat)
    requires 0 < d <= k
    ensures (k - d) % d == k % d
  {
    DivStep(k, d);
    assert d * (k / d) == d * ((k - d) / d) + d;
  }

  lemma EchoBack(out: seq<byte>, dist: nat, k: nat)
    requires 0 < dist <= |out| && dist <= k
    ensures Echo(out, dist, k - dist) == Echo(out, dist, k)
  {
    ModBack(k, dist);
  }

  lemma EchoEarly(out: seq<byte>, dist: nat, k: nat)
    requires 0 < dist <= |out| && k < dist
    ensures Echo(out, dist, k) == out[|out| - dist + k]
  {
    DivUnique(k, dist, 0, k);
  }

  /** The byte dist back from the end of a repetition is the next byte of it. */
  lemma EchoNext(out: seq<byte>, dist: nat, k: nat)
    requires 0 < dist <= |out|
    ensures OutAt(out + Periodic(out, dist, k), |out| - dist + k) == Echo(out, dist, k)
  {
    hide Echo;
    if k >= dist {
      EchoBack(out, dist, k);
    } else {
      EchoEarly(out, dist, k);
    }
  }

  /** Copying byte by byte from the growing output repeats the last dist bytes, overlap or not. */
  lemma {:induction false} CopyIsPeriodic(out: seq<byte>, dist: nat, k: nat, n: nat)
    requires 0 < dist <= |out|
    ensures CopyFrom(out + Periodic(out, dist, k), |out| - dist + k, n) == out + Periodic(out, dist, k + n)
    decreases n
  {
    hide Echo, OutAt;
    if n > 0 {
      EchoNext(out, dist, k);
      var grown := out + Periodic(out, dist, k);
      assert grown + [OutAt(grown, |out| - dist + k)] == out + Periodic(out, dist, k + 1);
      CopyIsPeriodic(out, dist, k + 1, n - 1);
    }
  }

  // ----- Encoding a token -----

  /** The largest of the first i+1 symbols of an alphabet whose base value is at most v. */
  ghost function IndexUpTo(delta: nat, first: nat, v: nat, i: nat): (j: nat)
    requires delta > 0 && first <= v < Base(delta, first, i + 1)
    ensures j <= i && Base(delta, first, j) <= v < Base(delta, first, j) + Pow2(Extra(delta, j))
  {
    if Base(delta, first, i) <= v then i else IndexUpTo(delta, first, v, i - 1)
  }

  ghost function LengthIndex(len: nat): (j: nat)
    requires 3 <= len <= 258
    ensures j <= 28 && LengthBase(j) <= len < LengthBase(j) + Pow2(LengthExtra(j))
  {
    hide Base, Extra, Pow2;
    LastLength();
    if len == 258 then 28 else
    BaseAtLeast(4, 3, len + 1);
    var j := IndexUpTo(4, 3, len, len);
    BaseBelow(4, 3, j, 28);
    j
  }

  ghost function DistIndex(dist: nat): (j: nat)
    requires 1 <= dist <= 32768
    ensures j <= 29 && DistBase(j) <= dist < DistBase(j) + Pow2(DistExtra(j))
  {
    hide Base, Extra, Pow2;
    LastDist();
    BaseAtLeast(2, 1, dist + 1);
    var j := IndexUpTo(2, 1, dist, dist);
    BaseBelow(2, 1, j, 30);
    j
  }

  ghost predicate HasCode(lens: seq<nat>, s: nat) {
    s < |lens| && lens[s] > 0
  }

  ghost predicate LengthWritable(ll: seq<nat>, len: nat) {
    3 <= len <= 258 && HasCode(ll, 257 + LengthIndex(len))
  }

  ghost predicate DistWritable(dl: seq<nat>, dist: nat) {
    1 <= dist <= 32768 && HasCode(dl, DistIndex(dist))
  }

  /** The codes can write this token. */
  ghost predicate Writable(ll: seq<nat>, dl: seq<nat>, t: Token) {
    match t
    case Literal(b) => HasCode(ll, b)
    case Copy(len, dist) => LengthWritable(ll, len) && DistWritable(dl, dist)
  }

  /** A symbol's code and its extra bits. */
  function FieldBits(lens: seq<nat>, s: nat, extra: nat, width: nat): seq<bit>
    requires s < |lens|
  {
    CodeBits(lens, s) + LsbBits(extra, width)
  }

  ghost function LengthBits(ll: seq<nat>, len: nat): seq<bit>
    requires LengthWritable(ll, len)
  {
    var j := LengthIndex(len);
    FieldBits(ll, 257 + j, len - LengthBase(j), LengthExtra(j))
  }

  ghost function DistBits(dl: seq<nat>, dist: nat): seq<bit>
    requires DistWritable(dl, dist)
  {
    var j := DistIndex(dist);
    FieldBits(dl, j, dist - DistBase(j), DistExtra(j))
  }

  ghost function TokenBits(ll: seq<nat>, dl: seq<nat>, t: Token): seq<bit>
    requires Writable(ll, dl, t)
  {
    match t
    case Literal(b) => CodeBits(ll, b)
    case Copy(len, dist) => LengthBits(ll, len) + DistBits(dl, dist)
  }

  ghost predicate AllWritable(ll: seq<nat>, dl: seq<nat>, toks: seq<Token>) {
    HasCode(ll, 256) && forall i | 0 <= i < |toks| :: Writable(ll, dl, toks[i])
  }

  /** The tokens' codes, then the end-of-block code. */
  ghost function TokensBits(ll: seq<nat>, dl: seq<nat>, toks: seq<Token>): seq<bit>
    requires AllWritable(ll, dl, toks)
    decreases |toks|
  {
    hide TokenBits, CodeBits, Writable;
    if toks == [] then CodeBits(ll, 256) else TokenBits(ll, dl, toks[0]) + TokensBits(ll, dl, toks[1..])
  }

  // ----- Decoding a token -----

  lemma SymbolDecodes(lens: seq<nat>, s: nat, src: seq<byte>, pos: nat)
    requires Kraft(lens) && HasCode(lens, s) && HasBits(src, pos, CodeBits(lens, s))
    ensures SymbolAt(lens, src, pos) == Some(s) && Width(lens, Some(s)) == |CodeBits(lens, s)|
  {
    CodeBitsAreCode(lens, s, src, pos);
    SymbolIs(lens, s, src, pos);
  }

  lemma FieldDecodes(lens: seq<nat>, s: nat, extra: nat, width: nat, src: seq<byte>, pos: nat)
    requires Kraft(lens) && HasCode(lens, s) && extra < Pow2(width)
    requires HasBits(src, pos, FieldBits(lens, s, extra, width))
    ensures SymbolAt(lens, src, pos) == Some(s) && Bits(src, pos + Width(lens, Some(s)), width) == extra
    ensures |FieldBits(lens, s, extra, width)| == Width(lens, Some(s)) + width
  {
    hide Bit, CodeBits, LsbBits, HasBits, Kraft, Bits, Pow2, SymbolAt, Width;
    HasConcat(src, pos, CodeBits(lens, s), LsbBits(extra, width));
    SymbolDecodes(lens, s, src, pos);
    ReadLsb(src, pos + |CodeBits(lens, s)|, extra, width);
  }

  lemma LengthDecodes(ll: seq<nat>, len: nat, src: seq<byte>, pos: nat)
    requires Kraft(ll) && LengthWritable(ll, len)
    requires HasBits(src, pos, LengthBits(ll, len))
    ensures var s := SymbolAt(ll, src, pos);
            && s.Some? && s.value > 256
            && LengthField(src, pos + Width(ll, s), s) == Field(pos + |LengthBits(ll, len)|, Some(len))
  {
    hide Bit, FieldBits, LengthBase, LengthExtra, LengthIndex, HasBits, Kraft, Bits, Pow2, Width, SymbolAt, HasCode;
    var j := LengthIndex(len);
    FieldDecodes(ll, 257 + j, len - LengthBase(j), LengthExtra(j), src, pos);
  }

  lemma DistDecodes(dl: seq<nat>, dist: nat, src: seq<byte>, pos: nat)
    requires Kraft(dl) && DistWritable(dl, dist)
    requires HasBits(src, pos, DistBits(dl, dist))
    ensures var s := SymbolAt(dl, src, pos);
            DistField(src, pos + Width(dl, s), s) == Field(pos + |DistBits(dl, dist)|, Some(dist))
  {
    hide Bit, FieldBits, DistBase, DistExtra, DistIndex, HasBits, Kraft, Bits, Pow2, Width, SymbolAt, HasCode;
    var j := DistIndex(dist);
    FieldDecodes(dl, j, dist - DistBase(j), DistExtra(j), src, pos);
  }

  lemma CopyDecodes(ll: seq<nat>, dl: seq<nat>, len: nat, dist: nat, src: seq<byte>, st: State)
    requires Kraft(ll) && Kraft(dl) && Writable(ll, dl, Copy(len, dist)) && 0 < dist <= |st.out|
    requires HasBits(src, st.pos, TokenBits(ll, dl, Copy(len, dist)))
    ensures BodyStep(ll, dl, src, st)
         == More(State(st.pos + |TokenBits(ll, dl, Copy(len, dist))|, st.out + Periodic(st.out, dist, len)))
  {
    hide Bit, Kraft, LengthBits, DistBits, HasBits, LengthField, DistField, Width, SymbolAt, CopyFrom;
    hide LengthWritable, DistWritable;
    HasConcat(src, st.pos, LengthBits(ll, len), DistBits(dl, dist));
    LengthDecodes(ll, len, src, st.pos);
    DistDecodes(dl, dist, src, st.pos + |LengthBits(ll, len)|);
    CopyIsPeriodic(st.out, dist, 0, len);
    assert st.out + Periodic(st.out, dist, 0) == st.out;
  }

  lemma LiteralDecodes(ll: seq<nat>, dl: seq<nat>, b: byte, src: seq<byte>, st: State)
    requires Kraft(ll) && HasCode(ll, b) && HasBits(src, st.pos, TokenBits(ll, dl, Literal(b)))
    ensures BodyStep(ll, dl, src, st) == More(State(st.pos + |TokenBits(ll, dl, Literal(b))|, st.out + [b]))
  {
    hide Bit, Kraft, HasBits, SymbolAt, Match;
    SymbolDecodes(ll, b, src, st.pos);
  }

  lemma TokenDecodes(ll: seq<nat>, dl: seq<nat>, t: Token, src: seq<byte>, st: State)
    requires Kraft(ll) && Kraft(dl) && Writable(ll, dl, t) && (t.Copy? ==> 0 < t.dist <= |st.out|)
    requires HasBits(src, st.pos, TokenBits(ll, dl, t))
    ensures BodyStep(ll, dl, src, st) == More(State(st.pos + |TokenBits(ll, dl, t)|, st.out + Added(st.out, t)))
  {
    hide Bit, Kraft, HasBits, SymbolAt, Match, BodyStep, TokenBits, Periodic, LengthWritable, DistWritable;
    match t
    case Literal(b) => LiteralDecodes(ll, dl, b, src, st);
    case Copy(len, dist) => CopyDecodes(ll, dl, len, dist, src, st);
  }

  lemma EndDecodes(ll: seq<nat>, dl: seq<nat>, src: seq<byte>, st: State)
    requires Kraft(ll) && HasCode(ll, 256) && HasBits(src, st.pos, CodeBits(ll, 256))
    ensures BodyStep(ll, dl, src, st) == End(State(st.pos + |CodeBits(ll, 256)|, st.out))
  {
    hide Bit, Kraft, HasBits, SymbolAt, Match;
    SymbolDecodes(ll, 256, src, st.pos);
  }

  lemma {:induction false} TokensWithin(ll: seq<nat>, dl: seq<nat>, toks: seq<Token>, src: seq<byte>, st: State)
    requires Kraft(ll) && Kraft(dl) && AllWritable(ll, dl, toks) && ValidTokens(|st.out|, toks)
    requires HasBits(src, st.pos, TokensBits(ll, dl, toks))
    ensures BlockWithin(ll, dl, src, st, |toks| + 1)
         == Some(State(st.pos + |TokensBits(ll, dl, toks)|, Expand(st.out, toks)))
    decreases |toks|
  {
    hide Bit, Kraft, TokenBits, HasBits, CodeBits, Periodic, BodyStep, Writable, HasCode;
    if toks == [] {
      EndDecodes(ll, dl, src, st);
    } else {
      var t := toks[0];
      var head, rest := TokenBits(ll, dl, t), TokensBits(ll, dl, toks[1..]);
      HasConcat(src, st.pos, head, rest);
      TokenDecodes(ll, dl, t, src, st);
      TokensWithin(ll, dl, toks[1..], src, State(st.pos + |head|, st.out + Added(st.out, t)));
    }
  }

  /** Block round trip: the body decodes to the LZ77 expansion and ends just after its end code. */
  lemma TokensDecode(ll: seq<nat>, dl: seq<nat>, toks: seq<Token>, src: seq<byte>, st: State)
    requires Kraft(ll) && Kraft(dl) && AllWritable(ll, dl, toks) && ValidTokens(|st.out|, toks)
    requires HasBits(src, st.pos, TokensBits(ll, dl, toks))
    ensures Block(ll, dl, src, st) == Some(State(st.pos + |TokensBits(ll, dl, toks)|, Expand(st.out, toks)))
  {
    hide Bit, Kraft, HasBits, TokensBits, AllWritable, ValidTokens, Expand, BlockWithin, Block;
    TokensWithin(ll, dl, toks, src, st);
    BlockIs(ll, dl, src, st, |toks| + 1);
  }

  // ----- Dynamic headers -----

  /** One code length symbol: a length, the last length again, or a run of zeros. */
  datatype Run = One(len: nat) | Repeat(n: nat) | Zeros(n: nat) | ManyZeros(n: nat)
  {
    ghost predicate Valid() {
      match this
      case One(len) => len <= 15
      case Repeat(n) => 3 <= n <= 6
      case Zeros(n) => 3 <= n <= 10
      case ManyZeros(n) => 11 <= n <= 138
    }

    function Symbol(): nat {
      match this case One(len) => len case Repeat(_) => 16 case Zeros(_) => 17 case ManyZeros(_) => 18
    }

    function Width(): nat {
      match this case One(_) => 0 case Repeat(_) => 2 case Zeros(_) => 3 case ManyZeros(_) => 7
    }

    function ExtraValue(): nat
      requires Valid()
    {
      match this case One(_) => 0 case Repeat(n) => n - 3 case Zeros(n) => n - 3 case ManyZeros(n) => n - 11
    }

    /** The lengths it adds after acc. */
    function Lengths(acc: seq<nat>): seq<nat> {
      match this
      case One(len) => [len]
      case Repeat(n) => Fill(n, Last(acc))
      case Zeros(n) => Fill(n, 0)
      case ManyZeros(n) => Fill(n, 0)
    }
  }

  ghost predicate ValidRuns(cl: seq<nat>, runs: seq<Run>) {
    |cl| == 19 && forall i | 0 <= i < |runs| :: runs[i].Valid() && HasCode(cl, runs[i].Symbol())
  }

  function ExpandRuns(acc: seq<nat>, runs: seq<Run>): (r: seq<nat>)
    ensures acc <= r
    decreases |runs|
  {
    if runs == [] then acc else ExpandRuns(acc + runs[0].Lengths(acc), runs[1..])
  }

  ghost function RunBits(cl: seq<nat>, run: Run): seq<bit>
    requires run.Valid() && HasCode(cl, run.Symbol())
  {
    FieldBits(cl, run.Symbol(), run.ExtraValue(), run.Width())
  }

  ghost function RunsBits(cl: seq<nat>, runs: seq<Run>): seq<bit>
    requires ValidRuns(cl, runs)
    decreases |runs|
  {
    if runs == [] then [] else RunBits(cl, runs[0]) + RunsBits(cl, runs[1..])
  }

  lemma RunDecodes(cl: seq<nat>, run: Run, src: seq<byte>, pos: nat, acc: seq<nat>)
    requires Kraft(cl) && run.Valid() && HasCode(cl, run.Symbol()) && HasBits(src, pos, RunBits(cl, run))
    ensures OneRun(cl, src, pos, acc) == Runs(pos + |RunBits(cl, run)|, acc + run.Lengths(acc))
    ensures |run.Lengths(acc)| > 0
  {
    hide Bit, FieldBits, HasBits, Kraft, Bits, Pow2, Width, SymbolAt, HasCode;
    SmallPowers();
    FieldDecodes(cl, run.Symbol(), run.ExtraValue(), run.Width(), src, pos);
    if run.One? {
      NoBits(src, pos + Width(cl, Some(run.len)));
    }
  }

  lemma NoBits(src: seq<byte>, pos: nat)
    ensures Bits(src, pos, 0) == 0
  {}

  lemma {:induction false} RunsDecode(cl: seq<nat>, runs: seq<Run>, src: seq<byte>, pos: nat, acc: seq<nat>, total: nat)
    requires Kraft(cl) && ValidRuns(cl, runs) && HasBits(src, pos, RunsBits(cl, runs))
    requires |ExpandRuns(acc, runs)| == total
    ensures Unroll(cl, src, Runs(pos, acc), total) == Runs(pos + |RunsBits(cl, runs)|, ExpandRuns(acc, runs))
    decreases |runs|
  {
    hide Bit, HasBits, Kraft, RunBits, OneRun, Run.Lengths, HasCode;
    if runs != [] {
      var run := runs[0];
      var next := acc + run.Lengths(acc);
      HasConcat(src, pos, RunBits(cl, run), RunsBits(cl, runs[1..]));
      RunDecodes(cl, run, src, pos, acc);
      assert |next| <= |ExpandRuns(next, runs[1..])|;
      RunsDecode(cl, runs[1..], src, pos + |RunBits(cl, run)|, next, total);
    }
  }

  // ----- The code length code -----

  /** Where a code length symbol's own length is transmitted: the inverse of the order. */
  function Place(i: nat): (r: nat)
    requires i < 19
    ensures r < 19
  {
    if i == 0 then 3
    else if i <= 7 then 19 - 2 * i
    else if i <= 15 then 2 * i - 12
    else i - 16
  }

  lemma PlaceInverts(i: nat)
    requires i < 19
    ensures Order(Place(i)) == i && Place(Order(i)) == i
  {}

  ghost function CodeLengthBits(cl: seq<nat>, n: nat): seq<bit>
    requires |cl| == 19 && n <= 19
    decreases n
  {
    if n == 0 then [] else CodeLengthBits(cl, n - 1) + LsbBits(cl[Order(n - 1)], 3)
  }

  /** The first n transmitted lengths are those of cl, and the rest are zero. */
  ghost predicate Received(cl: seq<nat>, n: nat, got: seq<nat>) {
    |cl| == |got| == 19 && forall i | 0 <= i < 19 :: got[i] == if Place(i) < n then cl[i] else 0
  }

  lemma ReceiveNext(cl: seq<nat>, n: nat, got: seq<nat>)
    requires n < 19 && Received(cl, n, got)
    ensures Received(cl, n + 1, got[Order(n) := cl[Order(n)]])
  {
    hide Order, Place;
    PlaceInverts(n);
    forall i | 0 <= i < 19 ensures Place(i) == n ==> i == Order(n) {
      PlaceInverts(i);
    }
  }

  lemma {:induction false} CodeLengthsDecode(cl: seq<nat>, n: nat, src: seq<byte>, pos: nat)
    requires |cl| == 19 && n <= 19 && (forall i | 0 <= i < 19 :: cl[i] < 8)
    requires HasBits(src, pos, CodeLengthBits(cl, n))
    ensures |CodeLengthBits(cl, n)| == 3 * n && Received(cl, n, CodeLengths(src, pos, n))
    decreases n
  {
    hide Bit, HasBits, LsbBits, Bits, Order, Place;
    if n > 0 {
      hide Received;
      var o := Order(n - 1);
      HasConcat(src, pos, CodeLengthBits(cl, n - 1), LsbBits(cl[o], 3));
      CodeLengthsDecode(cl, n - 1, src, pos);
      SmallPowers();
      ReadLsb(src, pos + 3 * (n - 1), cl[o], 3);
      ReceiveNext(cl, n - 1, CodeLengths(src, pos, n - 1));
    }
  }

  // ----- A whole dynamic header -----

  /** The code lengths that are not transmitted are zero. */
  ghost predicate Untransmitted(cl: seq<nat>, n: nat)
    requires |cl| == 19
  {
    forall i {:trigger Place(i)} | 0 <= i < 19 && Place(i) >= n :: cl[i] == 0
  }

  lemma ReceivedAll(cl: seq<nat>, n: nat, got: seq<nat>)
    requires Received(cl, n, got) && Untransmitted(cl, n)
    ensures got == cl
  {
    hide Order, Place;
    forall i | 0 <= i < 19 ensures got[i] == cl[i] {
      assert Place(i) >= n || Place(i) < n;
    }
  }

  /** The code lengths of both alphabets and how they are run-length coded. */
  datatype Dynamic = Dynamic(ll: seq<nat>, dl: seq<nat>, cl: seq<nat>, hclen: nat, runs: seq<Run>)
  {
    ghost predicate Valid() {
      && 257 <= |ll| <= 288 && 1 <= |dl| <= 32 && Kraft(ll) && Kraft(dl)
      && |cl| == 19 && Kraft(cl) && (forall i | 0 <= i < 19 :: cl[i] < 8)
      && 4 <= hclen <= 19 && Untransmitted(cl, hclen)
      && ValidRuns(cl, runs) && ExpandRuns([], runs) == ll + dl
    }

    ghost function Counts(): (r: seq<bit>)
      requires Valid()
      ensures |r| == 14
    {
      LsbBits(|ll| - 257, 5) + (LsbBits(|dl| - 1, 5) + LsbBits(hclen - 4, 4))
    }

    ghost function Tail(): seq<bit>
      requires Valid()
    {
      CodeLengthBits(cl, hclen) + RunsBits(cl, runs)
    }

    ghost function Bits(): seq<bit>
      requires Valid()
    {
      Counts() + Tail()
    }
  }

  lemma CountsDecode(d: Dynamic, src: seq<byte>, pos: nat)
    requires d.Valid() && HasBits(src, pos, d.Counts())
    ensures Bits(src, pos, 5) + 257 == |d.ll| && Bits(src, pos + 5, 5) + 1 == |d.dl|
    ensures CodeLengthCount(src, pos) == d.hclen
  {
    hide Bit, HasBits, LsbBits, Bits, Kraft, ValidRuns;
    SmallPowers();
    HasConcat(src, pos, LsbBits(|d.ll| - 257, 5), LsbBits(|d.dl| - 1, 5) + LsbBits(d.hclen - 4, 4));
    HasConcat(src, pos + 5, LsbBits(|d.dl| - 1, 5), LsbBits(d.hclen - 4, 4));
    ReadLsb(src, pos, |d.ll| - 257, 5);
    ReadLsb(src, pos + 5, |d.dl| - 1, 5);
    ReadLsb(src, pos + 10, d.hclen - 4, 4);
  }

  lemma TailDecodes(d: Dynamic, src: seq<byte>, pos: nat)
    requires d.Valid() && HasBits(src, pos, d.Tail())
    ensures CodeLengths(src, pos, d.hclen) == d.cl
    ensures Unroll(d.cl, src, Runs(pos + 3 * d.hclen, []), |d.ll| + |d.dl|) == Runs(pos + |d.Tail()|, d.ll + d.dl)
  {
    hide Bit, HasBits, Bits, Kraft, Place, CodeLengths, CodeLengthBits, RunsBits, Unroll, ExpandRuns, ValidRuns;
    var lens, runs := CodeLengthBits(d.cl, d.hclen), RunsBits(d.cl, d.runs);
    HasConcat(src, pos, lens, runs);
    CodeLengthsDecode(d.cl, d.hclen, src, pos);
    ReceivedAll(d.cl, d.hclen, CodeLengths(src, pos, d.hclen));
    RunsDecode(d.cl, d.runs, src, pos + 3 * d.hclen, [], |d.ll| + |d.dl|);
  }

  /** Dynamic header round trip: both length vectors come back whole, however they were run-length coded. */
  lemma HeaderDecodes(d: Dynamic, src: seq<byte>, pos: nat)
    requires d.Valid() && HasBits(src, pos, d.Bits())
    ensures ReadHeader(src, pos) == Header(pos + |d.Bits()|, d.ll, d.dl)
  {
    hide Bit, HasBits, Bits, Dynamic.Counts, Dynamic.Tail, Dynamic.Valid, CodeLengthCount, CodeLengths, Unroll;
    HasConcat(src, pos, d.Counts(), d.Tail());
    CountsDecode(d, src, pos);
    TailDecodes(d, src, pos + 14);
    assert (d.ll + d.dl)[..|d.ll|] == d.ll && (d.ll + d.dl)[|d.ll|..|d.ll| + |d.dl|] == d.dl;
  }
}
