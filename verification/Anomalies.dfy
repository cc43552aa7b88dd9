/** What the decoder does with sources no encoder writes: it goes on where the standard gives no meaning. */
module Anomalies {
  import opened Optional
  import opened BitStream
  import opened Deflate
  import opened FixedTables

  // ----- Block bodies -----

  /** Where no code stands sixteen bits go by, and a distance is read all the same; nothing is written. So it is with a
      symbol past the tables. */
  lemma GapWritesNothing(ll: seq<nat>, dl: seq<nat>, src: seq<byte>, st: State)
    requires var s := SymbolAt(ll, src, st.pos); s.None? || s.value >= 287
    ensures var s := SymbolAt(ll, src, st.pos);
            var p := st.pos + (if s.None? then 16 else Width(ll, s));
            var d := SymbolAt(dl, src, p);
            var q := p + (if d.None? then 16 else Width(dl, d));
            BodyStep(ll, dl, src, st)
            == More(State(if d.Some? && d.value < 30 then q + DIST_EXTRAS[d.value] else q, st.out))
  {
    hide SymbolAt, CopyFrom, DistField, Bits;
    var s := SymbolAt(ll, src, st.pos);
    var p := st.pos + (if s.None? then 16 else Width(ll, s));
    var d := SymbolAt(dl, src, p);
    DistWidth(src, p + Width(dl, d), d);
  }

  lemma DistWidth(src: seq<byte>, pos: nat, d: Option<nat>)
    ensures DistField(src, pos, d).pos == if d.Some? && d.value < 30 then pos + DIST_EXTRAS[d.value] else pos
  {
    hide Bits, Base, Extra;
    if d.Some? && d.value < 30 {
      DistTable(d.value);
    }
  }

  /** A length with a distance symbol past the table, or with none, copies nothing. */
  lemma NoDistanceWritesNothing(ll: seq<nat>, dl: seq<nat>, src: seq<byte>, st: State)
    requires var s := SymbolAt(ll, src, st.pos); s.Some? && 257 <= s.value <= 286
    requires var s := SymbolAt(ll, src, st.pos);
             var d := SymbolAt(dl, src, LengthField(src, st.pos + Width(ll, s), s).pos);
             d.None? || d.value >= 30
    ensures BodyStep(ll, dl, src, st).More? && BodyStep(ll, dl, src, st).st.out == st.out
  {
    hide SymbolAt, CopyFrom, LengthField;
  }

  /** The first length symbol past the standard's 29 is in the tables too: base 323, six extra bits. */
  lemma SymbolPastTheStandard(src: seq<byte>, pos: nat)
    ensures LengthField(src, pos, Some(286)) == Field(pos + 6, Some(323 + Bits(src, pos, 6)))
  {
    hide Bits, Pow2, Base, Extra;
    LastLength();
    SmallPowers();
    BaseStep(4, 3, 28);
    ExtraStep(4, 28);
    ExtraStep(4, 29);
    ComputedLength(24);
    ComputedLength(25);
  }

  function Zeros(n: nat): (r: seq<byte>)
    ensures |r| == n && forall i | 0 <= i < n :: r[i] == 0
    decreases n
  {
    if n == 0 then [] else [0] + Zeros(n - 1)
  }

  /** A distance that reaches before the start copies zeros for what is not there. */
  lemma {:induction false} BeforeTheStart(out: seq<byte>, from: int, n: nat)
    requires from + n <= 0
    ensures CopyFrom(out, from, n) == out + Zeros(n)
    decreases n
  {
    if n == 0 {
      assert out + [] == out;
    } else {
      BeforeTheStart(out + [0], from + 1, n - 1);
      assert out + [0] + Zeros(n - 1) == out + Zeros(n);
    }
  }

  // ----- Headers and blocks -----

  /** Where no code length code stands sixteen bits go by and one length of zero is added. */
  lemma GapIsZeroLength(cl: seq<nat>, src: seq<byte>, pos: nat, acc: seq<nat>)
    requires SymbolAt(cl, src, pos) == None
    ensures OneRun(cl, src, pos, acc) == Runs(pos + 16, acc + [0])
  {
    hide SymbolAt;
  }

  /** The fourth kind of block is a data error. */
  lemma ReservedKind(src: seq<byte>, st: State)
    ensures Body(src, 3, st) == Fail
  {
    hide Block, ReadHeader;
  }

  /** A stored block cut off inside its length is a data error; cut off inside the complement it passes only with the
      length 65535, and is then as many zeros. */
  lemma CutStored(src: seq<byte>, st: State)
    requires |src| < st.pos / 8 + 5
    ensures var k := st.pos / 8 + 1;
            && (|src| < k + 2 ==> Stored(src, st) == None)
            && (|src| >= k + 2 ==>
                  Stored(src, st) == if src[k] == 255 && src[k + 1] == 255
                                     then Some(State(8 * (k + 4 + 65535), st.out + Zeros(65535))) else None)
  {
    hide ByteRun, Zeros;
    var k := st.pos / 8 + 1;
    if |src| >= k + 2 && src[k] == 255 && src[k + 1] == 255 {
      PastTheEnd(src, k + 4, 65535);
    }
  }

  lemma {:induction false} PastTheEnd(src: seq<byte>, k: nat, n: nat)
    requires k >= |src|
    ensures ByteRun(src, k, n) == Zeros(n)
    decreases n
  {
    if n > 0 {
      PastTheEnd(src, k + 1, n - 1);
    }
  }
}
