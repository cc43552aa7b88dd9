/** The converse for dynamic headers: one that reads without an anomaly is the encoding of what it reads as. */
module CleanHeaders {
  import opened Optional
  import opened BitStream
  import opened Huffman
  import opened Deflate
  import opened FixedTables
  import opened RoundTrip
  import opened CleanTokens

  // ----- Runs of code lengths -----

  /** The run whose code stands at pos. */
  ghost function ReadRun(cl: seq<nat>, src: seq<byte>, pos: nat): Option<Run> {
    var s := SymbolAt(cl, src, pos);
    var p := pos + Width(cl, s);
    if s.None? || s.value > 18 then None
    else if s.value == 16 then Some(Repeat(3 + Bits(src, p, 2)))
    else if s.value == 17 then Some(Zeros(3 + Bits(src, p, 3)))
    else if s.value == 18 then Some(ManyZeros(11 + Bits(src, p, 7)))
    else Some(One(s.value))
  }

  lemma RunHeld(cl: seq<nat>, src: seq<byte>, pos: nat)
    requires ReadRun(cl, src, pos).Some?
    ensures var run := ReadRun(cl, src, pos).value;
            && run.Valid() && HasCode(cl, run.Symbol()) && HasBits(src, pos, RunBits(cl, run))
            && |RunBits(cl, run)| == Width(cl, Some(run.Symbol())) + run.Width() > 0
  {
    hide Bit, HasBits, FieldBits, SymbolAt, Width, Bits, Pow2, HasCode;
    var run := ReadRun(cl, src, pos).value;
    var p := pos + Width(cl, Some(run.Symbol()));
    SmallPowers();
    BitsBound(src, p, run.Width());
    FieldHeld(cl, src, pos, run.Width());
    NoBits(src, p);
    CodeHasWidth(cl, run.Symbol());
  }

  lemma CodeHasWidth(lens: seq<nat>, s: nat)
    requires HasCode(lens, s)
    ensures Width(lens, Some(s)) > 0
  {}

  lemma RunRead(cl: seq<nat>, run: Run, src: seq<byte>, pos: nat)
    requires Kraft(cl) && run.Valid() && HasCode(cl, run.Symbol()) && HasBits(src, pos, RunBits(cl, run))
    ensures ReadRun(cl, src, pos) == Some(run)
    ensures |RunBits(cl, run)| == Width(cl, Some(run.Symbol())) + run.Width()
  {
    hide Bit, FieldBits, HasBits, Kraft, Bits, Pow2, Width, SymbolAt, HasCode;
    SmallPowers();
    FieldDecodes(cl, run.Symbol(), run.ExtraValue(), run.Width(), src, pos);
  }

  /** The runs that make up exactly total lengths with the ones there already. */
  ghost function ReadRuns(cl: seq<nat>, src: seq<byte>, pos: nat, acc: seq<nat>, total: nat): (r: Option<seq<Run>>)
    ensures r.Some? ==> |ExpandRuns(acc, r.value)| == total
    decreases total - |acc|
  {
    hide SymbolAt, Run.Lengths;
    if |acc| == total then Some([])
    else if |acc| > total || ReadRun(cl, src, pos).None? then None
    else
      var run := ReadRun(cl, src, pos).value;
      RunHeld(cl, src, pos);
      RunAdds(run, acc);
      match ReadRuns(cl, src, pos + Width(cl, Some(run.Symbol())) + run.Width(), acc + run.Lengths(acc), total)
      case None => None
      case Some(rest) =>
        assert ([run] + rest)[1..] == rest;
        Some([run] + rest)
  }

  lemma RunAdds(run: Run, acc: seq<nat>)
    requires run.Valid()
    ensures |run.Lengths(acc)| > 0
  {}

  lemma {:induction false} RunsHeld(cl: seq<nat>, src: seq<byte>, pos: nat, acc: seq<nat>, total: nat)
    requires |cl| == 19 && ReadRuns(cl, src, pos, acc, total).Some?
    ensures var runs := ReadRuns(cl, src, pos, acc, total).value;
            ValidRuns(cl, runs) && HasBits(src, pos, RunsBits(cl, runs))
    decreases total - |acc|
  {
    hide Bit, HasBits, RunBits, SymbolAt, Width, Run.Lengths, HasCode, ReadRun, ExpandRuns;
    if |acc| == total {
      NoBitsHeld(src, pos);
    } else {
      var run := ReadRun(cl, src, pos).value;
      RunHeld(cl, src, pos);
      RunAdds(run, acc);
      var p, next := pos + Width(cl, Some(run.Symbol())) + run.Width(), acc + run.Lengths(acc);
      RunsHeld(cl, src, p, next, total);
      var rest := ReadRuns(cl, src, p, next, total).value;
      assert ([run] + rest)[1..] == rest;
      JoinBits(src, pos, RunBits(cl, run), RunsBits(cl, rest));
    }
  }

  lemma {:induction false} RunsRead(cl: seq<nat>, runs: seq<Run>, src: seq<byte>, pos: nat, acc: seq<nat>, total: nat)
    requires Kraft(cl) && ValidRuns(cl, runs) && HasBits(src, pos, RunsBits(cl, runs))
    requires |ExpandRuns(acc, runs)| == total
    ensures ReadRuns(cl, src, pos, acc, total) == Some(runs)
    decreases |runs|
  {
    hide Bit, HasBits, Kraft, RunBits, SymbolAt, Width, Run.Lengths, HasCode, ReadRun;
    if runs != [] {
      var run := runs[0];
      var next := acc + run.Lengths(acc);
      HasConcat(src, pos, RunBits(cl, run), RunsBits(cl, runs[1..]));
      RunRead(cl, run, src, pos);
      RunAdds(run, acc);
      assert |next| <= |ExpandRuns(next, runs[1..])|;
      RunsRead(cl, runs[1..], src, pos + |RunBits(cl, run)|, next, total);
      assert [run] + runs[1..] == runs;
    }
  }

  // ----- The code length code -----

  lemma {:induction false} CodeLengthAt(src: seq<byte>, pos: nat, n: nat, i: nat)
    requires n <= 19 && i < 19
    ensures CodeLengths(src, pos, n)[i] == if Place(i) < n then Bits(src, pos + 3 * Place(i), 3) else 0
    decreases n
  {
    hide Bits, Order, Place;
    if n > 0 {
      CodeLengthAt(src, pos, n - 1, i);
      PlaceInverts(i);
      PlaceInverts(n - 1);
    }
  }

  lemma CodeLengthsFit(src: seq<byte>, pos: nat, n: nat)
    requires n <= 19
    ensures var cl := CodeLengths(src, pos, n); Untransmitted(cl, n) && forall i | 0 <= i < 19 :: cl[i] < 8
  {
    hide Bits, CodeLengths, Place;
    var cl := CodeLengths(src, pos, n);
    forall i | 0 <= i < 19 ensures cl[i] < 8 && (Place(i) >= n ==> cl[i] == 0) {
      CodeLengthAt(src, pos, n, i);
      BitsBound(src, pos + 3 * Place(i), 3);
      SmallPowers();
    }
  }

  lemma {:induction false} CodeLengthsHeld(src: seq<byte>, pos: nat, total: nat, n: nat)
    requires n <= total <= 19
    ensures var bits := CodeLengthBits(CodeLengths(src, pos, total), n); |bits| == 3 * n && HasBits(src, pos, bits)
    decreases n
  {
    hide Bit, HasBits, Bits, CodeLengths, LsbBits, Order, Place;
    if n == 0 {
      NoBitsHeld(src, pos);
    } else {
      CodeLengthsHeld(src, pos, total, n - 1);
      PlaceInverts(n - 1);
      CodeLengthAt(src, pos, total, Order(n - 1));
      LsbHeld(src, pos + 3 * (n - 1), 3);
      var cl := CodeLengths(src, pos, total);
      JoinBits(src, pos, CodeLengthBits(cl, n - 1), LsbBits(cl[Order(n - 1)], 3));
    }
  }

  // ----- A whole header -----

  /** A header whose three codes are not oversubscribed, whose symbols all stand for something and whose runs come out
      even. */
  ghost function ReadDynamic(src: seq<byte>, pos: nat): Option<Dynamic> {
    var hlit, hdist, hclen := Bits(src, pos, 5) + 257, Bits(src, pos + 5, 5) + 1, CodeLengthCount(src, pos);
    var cl := CodeLengths(src, pos + 14, hclen);
    var runs := ReadRuns(cl, src, pos + 14 + 3 * hclen, [], hlit + hdist);
    if !Kraft(cl) || runs.None? then None else
    var lens := ExpandRuns([], runs.value);
    if Kraft(lens[..hlit]) && Kraft(lens[hlit..]) then
      Some(Dynamic(lens[..hlit], lens[hlit..], cl, hclen, runs.value))
    else
      None
  }

  lemma CountsHeld(src: seq<byte>, pos: nat)
    ensures Bits(src, pos, 5) < 32 && Bits(src, pos + 5, 5) < 32 && 4 <= CodeLengthCount(src, pos) <= 19
    ensures HasBits(src, pos, LsbBits(Bits(src, pos, 5), 5)
                              + (LsbBits(Bits(src, pos + 5, 5), 5) + LsbBits(CodeLengthCount(src, pos) - 4, 4)))
  {
    hide Bit, Bits, LsbBits, HasBits;
    SmallPowers();
    BitsBound(src, pos, 5);
    BitsBound(src, pos + 5, 5);
    LsbHeld(src, pos, 5);
    LsbHeld(src, pos + 5, 5);
    LsbHeld(src, pos + 10, 4);
    JoinBits(src, pos + 5, LsbBits(Bits(src, pos + 5, 5), 5), LsbBits(CodeLengthCount(src, pos) - 4, 4));
    JoinBits(src, pos, LsbBits(Bits(src, pos, 5), 5),
             LsbBits(Bits(src, pos + 5, 5), 5) + LsbBits(CodeLengthCount(src, pos) - 4, 4));
  }

  lemma HeaderHeld(src: seq<byte>, pos: nat)
    requires ReadDynamic(src, pos).Some?
    ensures var d := ReadDynamic(src, pos).value; d.Valid() && HasBits(src, pos, d.Bits())
  {
    hide Bit, Bits, LsbBits, HasBits, CodeLengths, CodeLengthCount, ReadRuns, RunsBits, CodeLengthBits, Kraft;
    hide Untransmitted, ValidRuns, ExpandRuns;
    CountsHeld(src, pos);
    var d := ReadDynamic(src, pos).value;
    CodeLengthsFit(src, pos + 14, d.hclen);
    CodeLengthsHeld(src, pos + 14, d.hclen, d.hclen);
    RunsHeld(d.cl, src, pos + 14 + 3 * d.hclen, [], Bits(src, pos, 5) + 257 + (Bits(src, pos + 5, 5) + 1));
    assert ExpandRuns([], d.runs) == d.ll + d.dl;
    JoinBits(src, pos + 14, CodeLengthBits(d.cl, d.hclen), RunsBits(d.cl, d.runs));
    JoinBits(src, pos, d.Counts(), d.Tail());
  }

  lemma HeaderRead(d: Dynamic, src: seq<byte>, pos: nat)
    requires d.Valid() && HasBits(src, pos, d.Bits())
    ensures ReadDynamic(src, pos) == Some(d)
  {
    hide Bit, Bits, HasBits, CodeLengths, CodeLengthCount, ReadRuns, RunsBits, CodeLengthBits, Kraft;
    hide Place, ValidRuns, ExpandRuns, Dynamic.Counts;
    HasConcat(src, pos, d.Counts(), d.Tail());
    CountsDecode(d, src, pos);
    HasConcat(src, pos + 14, CodeLengthBits(d.cl, d.hclen), RunsBits(d.cl, d.runs));
    CodeLengthsDecode(d.cl, d.hclen, src, pos + 14);
    ReceivedAll(d.cl, d.hclen, CodeLengths(src, pos + 14, d.hclen));
    RunsRead(d.cl, d.runs, src, pos + 14 + 3 * d.hclen, [], |d.ll| + |d.dl|);
    assert (d.ll + d.dl)[..|d.ll|] == d.ll && (d.ll + d.dl)[|d.ll|..] == d.dl;
  }
}
