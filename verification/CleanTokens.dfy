/** The converse of the block round trip: bits that read without an anomaly are the encoding of what they read as. */
module CleanTokens {
  import opened Optional
  import opened BitStream
  import opened Huffman
  import opened Deflate
  import opened FixedTables
  import opened RoundTrip

  // ----- Numbers and codes read are the bits that write them -----

  lemma OneBit(src: seq<byte>, pos: nat)
    ensures HasBits(src, pos, [Bit(src, pos)])
  {
    hide Bit;
    assert Bit(src, pos + 0) == Bit(src, pos);
  }

  lemma {:induction false} LsbHeld(src: seq<byte>, pos: nat, n: nat)
    ensures HasBits(src, pos, LsbBits(Bits(src, pos, n), n))
    decreases n
  {
    hide Bit, HasBits;
    if n == 0 {
      NoBitsHeld(src, pos);
    } else {
      LsbHeld(src, pos + 1, n - 1);
      OneBit(src, pos);
      JoinBits(src, pos, [Bit(src, pos)], LsbBits(Bits(src, pos + 1, n - 1), n - 1));
    }
  }

  lemma {:induction false} MsbHeld(src: seq<byte>, pos: nat, n: nat)
    ensures HasBits(src, pos, MsbBits(Msb(src, pos, n), n))
    decreases n
  {
    hide Bit, HasBits;
    if n == 0 {
      NoBitsHeld(src, pos);
    } else {
      MsbHeld(src, pos, n - 1);
      OneBit(src, pos + n - 1);
      JoinBits(src, pos, MsbBits(Msb(src, pos, n - 1), n - 1), [Bit(src, pos + n - 1)]);
    }
  }

  lemma NoBitsHeld(src: seq<byte>, pos: nat)
    ensures HasBits(src, pos, [])
  {}

  /** The symbol read at pos has a code, and its code is what stands there. */
  lemma SymbolHeld(lens: seq<nat>, src: seq<byte>, pos: nat)
    requires SymbolAt(lens, src, pos).Some?
    ensures var s := SymbolAt(lens, src, pos).value;
            && HasCode(lens, s) && HasBits(src, pos, CodeBits(lens, s))
            && |CodeBits(lens, s)| == Width(lens, Some(s))
  {
    hide Bit, HasBits, Msb, MsbBits, CodeOf;
    var s := SymbolAt(lens, src, pos).value;
    assert CodeAt(lens, s, src, pos);
    MsbHeld(src, pos, lens[s]);
  }

  /** A symbol and the extra bits after it. */
  lemma FieldHeld(lens: seq<nat>, src: seq<byte>, pos: nat, width: nat)
    requires SymbolAt(lens, src, pos).Some?
    ensures var s := SymbolAt(lens, src, pos).value;
            var extra := Bits(src, pos + Width(lens, Some(s)), width);
            && HasCode(lens, s) && HasBits(src, pos, FieldBits(lens, s, extra, width))
            && |FieldBits(lens, s, extra, width)| == Width(lens, Some(s)) + width
  {
    hide Bit, HasBits, CodeBits, LsbBits, SymbolAt, Width, Bits;
    var s := SymbolAt(lens, src, pos).value;
    SymbolHeld(lens, src, pos);
    LsbHeld(src, pos + Width(lens, Some(s)), width);
    JoinBits(src, pos, CodeBits(lens, s), LsbBits(Bits(src, pos + Width(lens, Some(s)), width), width));
  }

  // ----- Lengths and distances have one symbol each -----

  lemma BaseStepUp(d: nat, f: nat, i: nat)
    requires d > 0
    ensures Base(d, f, i + 1) == Base(d, f, i) + Pow2(Extra(d, i))
  {}

  lemma OneIndex(d: nat, f: nat, i: nat, j: nat, v: nat)
    requires d > 0
    requires Base(d, f, i) <= v < Base(d, f, i) + Pow2(Extra(d, i))
    requires Base(d, f, j) <= v < Base(d, f, j) + Pow2(Extra(d, j))
    ensures i == j
  {
    hide Base, Extra, Pow2;
    BaseStepUp(d, f, i);
    BaseStepUp(d, f, j);
    BaseBelow(d, f, i, j + 1);
    BaseBelow(d, f, j, i + 1);
  }

  /** The number a length symbol stands for, unless it is 258 spelt with the symbol before the last. */
  lemma LengthRead(i: nat, extra: nat)
    requires i <= 28 && extra < Pow2(LengthExtra(i)) && (LengthBase(i) + extra == 258 ==> i == 28)
    ensures 3 <= LengthBase(i) + extra <= 258 && LengthIndex(LengthBase(i) + extra) == i
  {
    hide Base, Extra, Pow2, LengthIndex;
    var len := LengthBase(i) + extra;
    if i < 28 {
      BaseAtLeast(4, 3, i);
      BaseStepUp(4, 3, i);
      LastLength();
      if i < 27 {
        BaseBelow(4, 3, i + 1, 28);
      }
      IndexOf258();
      if LengthIndex(len) < 28 {
        OneIndex(4, 3, i, LengthIndex(len), len);
      }
    } else {
      NoExtra();
      IndexOf258();
    }
  }

  lemma NoExtra()
    ensures LengthExtra(28) == 0 && Pow2(0) == 1
  {}

  lemma IndexOf258()
    ensures LengthIndex(258) == 28
  {
    hide Base, Extra, Pow2, IndexUpTo;
  }

  lemma DistRead(d: nat, extra: nat)
    requires d < 30 && extra < Pow2(DistExtra(d))
    ensures 1 <= DistBase(d) + extra <= 32768 && DistIndex(DistBase(d) + extra) == d
  {
    hide Base, Extra, Pow2, DistIndex;
    BaseAtLeast(2, 1, d);
    BaseStepUp(2, 1, d);
    LastDist();
    if d < 29 {
      BaseBelow(2, 1, d + 1, 30);
    }
    var dist := DistBase(d) + extra;
    OneIndex(2, 1, d, DistIndex(dist), dist);
  }

  // ----- Reading one token -----

  /** What a length symbol, its distance and their extra bits stand for. None: no such symbol, a distance before the
      start of the output, or 258 not spelt with its own symbol. */
  ghost function ReadCopy(dl: seq<nat>, src: seq<byte>, pos: nat, out: seq<byte>, s: nat): Option<Token>
    requires 257 <= s <= 285
  {
    var len := LengthField(src, pos, Some(s));
    var d := SymbolAt(dl, src, len.pos);
    var dist := DistField(src, len.pos + Width(dl, d), d);
    if dist.value.Some? && dist.value.value <= |out| && (len.value.value == 258 ==> s == 285) then
      Some(Copy(len.value.value, dist.value.value))
    else
      None
  }

  ghost function ReadToken(ll: seq<nat>, dl: seq<nat>, src: seq<byte>, st: State): Option<Token> {
    var s := SymbolAt(ll, src, st.pos);
    if s.Some? && s.value < 256 then Some(Literal(s.value))
    else if s.Some? && 257 <= s.value <= 285 then ReadCopy(dl, src, st.pos + Width(ll, s), st.out, s.value)
    else None
  }

  lemma LengthHeld(ll: seq<nat>, src: seq<byte>, pos: nat)
    requires var s := SymbolAt(ll, src, pos); s.Some? && 257 <= s.value <= 285
    requires var s := SymbolAt(ll, src, pos);
             LengthField(src, pos + Width(ll, s), s).value == Some(258) ==> s.value == 285
    ensures var s := SymbolAt(ll, src, pos);
            var len := LengthField(src, pos + Width(ll, s), s);
            && len.value.Some? && LengthWritable(ll, len.value.value)
            && HasBits(src, pos, LengthBits(ll, len.value.value)) && len.pos == pos + |LengthBits(ll, len.value.value)|
  {
    hide Bit, HasBits, FieldBits, SymbolAt, Width, Bits, LengthExtra, LengthBase, Pow2, LengthIndex, HasCode;
    var s := SymbolAt(ll, src, pos);
    var i := s.value - 257;
    BitsBound(src, pos + Width(ll, s), LengthExtra(i));
    LengthRead(i, Bits(src, pos + Width(ll, s), LengthExtra(i)));
    FieldHeld(ll, src, pos, LengthExtra(i));
  }

  lemma DistHeld(dl: seq<nat>, src: seq<byte>, pos: nat)
    requires var d := SymbolAt(dl, src, pos); d.Some? && d.value < 30
    ensures var d := SymbolAt(dl, src, pos);
            var dist := DistField(src, pos + Width(dl, d), d);
            && dist.value.Some? && DistWritable(dl, dist.value.value)
            && HasBits(src, pos, DistBits(dl, dist.value.value)) && dist.pos == pos + |DistBits(dl, dist.value.value)|
  {
    hide Bit, HasBits, FieldBits, SymbolAt, Width, Bits, DistExtra, DistBase, Pow2, DistIndex, HasCode;
    var d := SymbolAt(dl, src, pos);
    BitsBound(src, pos + Width(dl, d), DistExtra(d.value));
    DistRead(d.value, Bits(src, pos + Width(dl, d), DistExtra(d.value)));
    FieldHeld(dl, src, pos, DistExtra(d.value));
  }

  /** A token that reads without an anomaly is one RFC 1951 allows, and its encoding stands there. */
  lemma TokenHeld(ll: seq<nat>, dl: seq<nat>, src: seq<byte>, st: State)
    requires ReadToken(ll, dl, src, st).Some?
    ensures var t := ReadToken(ll, dl, src, st).value;
            && Writable(ll, dl, t) && HasBits(src, st.pos, TokenBits(ll, dl, t)) && ValidTokens(|st.out|, [t])
  {
    hide Bit, HasBits, CodeBits, LengthBits, DistBits, SymbolAt, Width, Bits, LengthWritable, DistWritable, HasCode;
    hide LengthField;
    SymbolHeld(ll, src, st.pos);
    var t := ReadToken(ll, dl, src, st).value;
    if t.Copy? {
      var s := SymbolAt(ll, src, st.pos);
      LengthHeld(ll, src, st.pos);
      var len := LengthField(src, st.pos + Width(ll, s), s);
      DistHeld(dl, src, len.pos);
      JoinBits(src, st.pos, LengthBits(ll, t.len), DistBits(dl, t.dist));
      CopyInRange(ll, dl, t);
    }
  }

  lemma CopyInRange(ll: seq<nat>, dl: seq<nat>, t: Token)
    requires t.Copy? && LengthWritable(ll, t.len) && DistWritable(dl, t.dist)
    ensures 3 <= t.len <= 258 && 1 <= t.dist <= 32768
  {}

  /** A token's encoding reads as that token. */
  lemma TokenRead(ll: seq<nat>, dl: seq<nat>, t: Token, src: seq<byte>, st: State)
    requires Kraft(ll) && Kraft(dl) && Writable(ll, dl, t) && (t.Copy? ==> 0 < t.dist <= |st.out|)
    requires HasBits(src, st.pos, TokenBits(ll, dl, t))
    ensures ReadToken(ll, dl, src, st) == Some(t) && SymbolAt(ll, src, st.pos) != Some(256)
  {
    hide Bit, Kraft, HasBits, FieldBits, SymbolAt, Width, Bits, LengthExtra, DistExtra, Pow2, LengthIndex, DistIndex;
    hide HasCode, CodeBits;
    match t
    case Literal(b) => SymbolDecodes(ll, b, src, st.pos);
    case Copy(len, dist) =>
      HasConcat(src, st.pos, LengthBits(ll, len), DistBits(dl, dist));
      var j := LengthIndex(len);
      FieldDecodes(ll, 257 + j, len - LengthBase(j), LengthExtra(j), src, st.pos);
      var k := DistIndex(dist);
      FieldDecodes(dl, k, dist - DistBase(k), DistExtra(k), src, st.pos + |LengthBits(ll, len)|);
      IndexOf258();
  }

  // ----- Reading a block body -----

  /** The tokens of a block body whose every symbol starts inside the source. */
  ghost function ReadTokens(ll: seq<nat>, dl: seq<nat>, src: seq<byte>, st: State): Option<seq<Token>>
    decreases 8 * |src| - st.pos
  {
    if st.pos >= 8 * |src| then None
    else if SymbolAt(ll, src, st.pos) == Some(256) then Some([])
    else if ReadToken(ll, dl, src, st).None? then None
    else
      match ReadTokens(ll, dl, src, BodyStep(ll, dl, src, st).st)
      case None => None
      case Some(rest) => Some([ReadToken(ll, dl, src, st).value] + rest)
  }

  lemma ValidFirst(n: nat, t: Token, rest: seq<Token>)
    requires ValidTokens(n, [t]) && ValidTokens(n + (if t.Copy? then t.len else 1), rest)
    ensures ValidTokens(n, [t] + rest)
  {
    assert ([t] + rest)[1..] == rest;
  }

  lemma {:induction false} TokensHeld(ll: seq<nat>, dl: seq<nat>, src: seq<byte>, st: State)
    requires Kraft(ll) && Kraft(dl) && ReadTokens(ll, dl, src, st).Some?
    ensures var toks := ReadTokens(ll, dl, src, st).value;
            && AllWritable(ll, dl, toks) && ValidTokens(|st.out|, toks)
            && HasBits(src, st.pos, TokensBits(ll, dl, toks))
    decreases 8 * |src| - st.pos
  {
    hide Bit, Kraft, HasBits, CodeBits, TokenBits, SymbolAt, Width, BodyStep, ReadToken, Writable, HasCode, Periodic;
    if SymbolAt(ll, src, st.pos) == Some(256) {
      SymbolHeld(ll, src, st.pos);
    } else {
      var t := ReadToken(ll, dl, src, st).value;
      TokenHeld(ll, dl, src, st);
      TokenDecodes(ll, dl, t, src, st);
      var next := BodyStep(ll, dl, src, st).st;
      TokensHeld(ll, dl, src, next);
      var rest := ReadTokens(ll, dl, src, next).value;
      ValidFirst(|st.out|, t, rest);
      assert ([t] + rest)[1..] == rest;
      JoinBits(src, st.pos, TokenBits(ll, dl, t), TokensBits(ll, dl, rest));
    }
  }

  lemma {:induction false} TokensRead(ll: seq<nat>, dl: seq<nat>, toks: seq<Token>, src: seq<byte>, st: State)
    requires Kraft(ll) && Kraft(dl) && AllWritable(ll, dl, toks) && ValidTokens(|st.out|, toks)
    requires HasBits(src, st.pos, TokensBits(ll, dl, toks)) && st.pos + |TokensBits(ll, dl, toks)| <= 8 * |src|
    ensures ReadTokens(ll, dl, src, st) == Some(toks)
    decreases |toks|
  {
    hide Bit, Kraft, HasBits, CodeBits, TokenBits, SymbolAt, Width, BodyStep, ReadToken, Writable, HasCode, Periodic;
    if toks == [] {
      SymbolDecodes(ll, 256, src, st.pos);
      CodeIsSomeBits(ll, 256);
    } else {
      var t := toks[0];
      var head, rest := TokenBits(ll, dl, t), TokensBits(ll, dl, toks[1..]);
      HasConcat(src, st.pos, head, rest);
      TokenDecodes(ll, dl, t, src, st);
      TokenRead(ll, dl, t, src, st);
      TokensRead(ll, dl, toks[1..], src, State(st.pos + |head|, st.out + Added(st.out, t)));
      assert [t] + toks[1..] == toks;
    }
  }

  lemma CodeIsSomeBits(lens: seq<nat>, s: nat)
    requires HasCode(lens, s)
    ensures |CodeBits(lens, s)| > 0
  {
    hide CodeOf, MsbBits;
  }
}
