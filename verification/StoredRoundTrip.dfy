/** Stored blocks: exactly when the decoder reads them as section 3.2.4 of RFC 1951 asks. */
module StoredRoundTrip {
  import opened Optional
  import opened BitStream
  import opened Deflate
  import opened FixedTables

  /** How many bits are skipped from p to the next byte boundary. */
  function PadLength(p: nat): nat {
    (8 - p % 8) % 8
  }

  function DataBits(data: seq<byte>): (r: seq<bit>)
    ensures |r| == 8 * |data|
  {
    if data == [] then [] else LsbBits(data[0], 8) + DataBits(data[1..])
  }

  /** A stored block after its header bits: any padding, the length, its complement, the bytes. */
  function StoredBits(pad: seq<bit>, data: seq<byte>): (r: seq<bit>)
    requires |data| <= 65535
    ensures |r| == |pad| + 32 + 8 * |data|
  {
    pad + (LsbBits(|data|, 16) + (LsbBits(65535 - |data|, 16) + DataBits(data)))
  }

  lemma Doubled(a: nat, b: nat)
    ensures 2 * (a * b) == (2 * a) * b
  {}

  lemma {:induction false} SplitBits(src: seq<byte>, pos: nat, m: nat, n: nat)
    ensures Bits(src, pos, m + n) == Bits(src, pos, m) + Pow2(m) * Bits(src, pos + m, n)
    decreases m
  {
    hide Bit;
    if m > 0 {
      SplitBits(src, pos + 1, m - 1, n);
      assert pos + 1 + (m - 1) == pos + m;
      Doubled(Pow2(m - 1), Bits(src, pos + m, n));
    }
  }

  lemma WordBits(src: seq<byte>, k: nat)
    ensures Bits(src, 8 * k, 16) == Word(ByteAt(src, k), ByteAt(src, k + 1))
  {
    hide Bit, Bits;
    SplitBits(src, 8 * k, 8, 8);
    ByteBits(src, k);
    ByteBits(src, k + 1);
    SmallPowers();
    assert 8 * k + 8 == 8 * (k + 1);
  }

  lemma {:induction false} DataDecodes(src: seq<byte>, k: nat, data: seq<byte>)
    requires HasBits(src, 8 * k, DataBits(data))
    ensures ByteRun(src, k, |data|) == data
    decreases |data|
  {
    hide Bit, Bits, HasBits, LsbBits;
    if data != [] {
      HasConcat(src, 8 * k, LsbBits(data[0], 8), DataBits(data[1..]));
      SmallPowers();
      ReadLsb(src, 8 * k, data[0], 8);
      ByteBits(src, k);
      assert 8 * k + 8 == 8 * (k + 1);
      DataDecodes(src, k + 1, data[1..]);
    }
  }

  /** The bytes of a stored block whose length field starts at byte k. */
  ghost predicate StoredAt(src: seq<byte>, k: nat, data: seq<byte>) {
    && k + 4 + |data| <= |src|
    && Word(src[k], src[k + 1]) == |data| <= 65535 && Word(src[k + 2], src[k + 3]) == 65535 - |data|
    && ByteRun(src, k + 4, |data|) == data
  }

  lemma FieldsFrom(src: seq<byte>, p: nat, q: nat, r: nat, n: nat, bytes: seq<bit>)
    requires n <= 65535 && q == p + 16 && r == p + 32
    requires HasBits(src, p, LsbBits(n, 16) + (LsbBits(65535 - n, 16) + bytes))
    ensures Bits(src, p, 16) == n && Bits(src, q, 16) == 65535 - n && HasBits(src, r, bytes)
  {
    hide Bit, Bits, HasBits, LsbBits, Pow2;
    HasConcat(src, p, LsbBits(n, 16), LsbBits(65535 - n, 16) + bytes);
    HasConcat(src, q, LsbBits(65535 - n, 16), bytes);
    Pow16();
    ReadLsb(src, p, n, 16);
    ReadLsb(src, q, 65535 - n, 16);
  }

  lemma WordIs(src: seq<byte>, k: nat, n: nat)
    requires k + 2 <= |src| && Bits(src, 8 * k, 16) == n
    ensures Word(src[k], src[k + 1]) == n
  {
    hide Bits;
    WordBits(src, k);
  }

  lemma BytesFromBoundary(src: seq<byte>, k: nat, data: seq<byte>)
    requires |data| <= 65535 && k + 4 + |data| <= |src|
    requires Bits(src, 8 * k, 16) == |data| && Bits(src, 8 * (k + 2), 16) == 65535 - |data|
    requires HasBits(src, 8 * (k + 4), DataBits(data))
    ensures StoredAt(src, k, data)
  {
    hide Bit, Bits, HasBits, ByteRun, DataBits, Word;
    WordIs(src, k, |data|);
    WordIs(src, k + 2, 65535 - |data|);
    DataDecodes(src, k + 4, data);
  }

  lemma PadReaches(p: nat)
    ensures p + PadLength(p) == 8 * (if p % 8 == 0 then p / 8 else p / 8 + 1)
  {}

  lemma FromBoundary(src: seq<byte>, k: nat, data: seq<byte>)
    requires |data| <= 65535 && k + 4 + |data| <= |src|
    requires HasBits(src, 8 * k, LsbBits(|data|, 16) + (LsbBits(65535 - |data|, 16) + DataBits(data)))
    ensures StoredAt(src, k, data)
  {
    hide Bit, Bits, HasBits, LsbBits, DataBits, StoredAt;
    FieldsFrom(src, 8 * k, 8 * (k + 2), 8 * (k + 4), |data|, DataBits(data));
    BytesFromBoundary(src, k, data);
  }

  lemma BitsGiveBytes(src: seq<byte>, p: nat, pad: seq<bit>, data: seq<byte>)
    requires |pad| == PadLength(p) && |data| <= 65535
    requires HasBits(src, p, StoredBits(pad, data)) && p + |StoredBits(pad, data)| <= 8 * |src|
    ensures StoredAt(src, (p + |pad|) / 8, data) && (p + |pad|) % 8 == 0
  {
    hide Bit, Bits, HasBits, LsbBits, DataBits, StoredAt, PadLength;
    var k := if p % 8 == 0 then p / 8 else p / 8 + 1;
    PadReaches(p);
    HasConcat(src, p, pad, LsbBits(|data|, 16) + (LsbBits(65535 - |data|, 16) + DataBits(data)));
    FromBoundary(src, k, data);
  }

  lemma Pow16()
    ensures Pow2(16) == 65536
  {
    SmallPowers();
  }

  /** Inside a byte the decoder reads the block that starts at the next boundary. */
  lemma UnalignedDecodes(src: seq<byte>, st: State, data: seq<byte>)
    requires st.pos % 8 != 0 && StoredAt(src, st.pos / 8 + 1, data)
    ensures Stored(src, st) == Some(State(8 * (st.pos / 8 + 5 + |data|), st.out + data))
  {}

  lemma Complement(a: byte, b: byte, c: byte, d: byte)
    requires Word(c, d) == 65535 - Word(a, b)
    ensures c == 255 - a && d == 255 - b
  {}

  /** The length and complement that are read one byte late agree exactly if the byte after repeats the first. */
  lemma LateWords(a: byte, b: byte, e: byte)
    ensures Word(b, 255 - a) == 65535 - Word(255 - b, e) <==> e == a
    ensures Word(b, 255 - a) != Word(a, b)
    ensures Word(b, 255 - a) == 65535 <==> a == 0 && b == 255
  {}

  /** On a boundary it reads one byte late: it fails unless the byte after the complement repeats the length's low
      byte, and what it then writes never has the right length. */
  lemma AlignedMisreads(src: seq<byte>, st: State, data: seq<byte>)
    requires st.pos % 8 == 0 && StoredAt(src, st.pos / 8, data)
    ensures var k := st.pos / 8;
            var r := Stored(src, st);
            && (r.Some? <==> k + 4 < |src| && src[k + 4] == src[k])
            && (r.Some? ==> |r.value.out| != |st.out| + |data|)
  {
    hide ByteRun;
    var k := st.pos / 8;
    Complement(src[k], src[k + 1], src[k + 2], src[k + 3]);
    LateWords(src[k], src[k + 1], if k + 4 < |src| then src[k + 4] else 0);
  }

  /** Section 3.2.4 holds exactly when the block's header does not end on a byte boundary. */
  lemma StoredDecodesIffUnaligned(src: seq<byte>, st: State, pad: seq<bit>, data: seq<byte>)
    requires |pad| == PadLength(st.pos) && |data| <= 65535
    requires HasBits(src, st.pos, StoredBits(pad, data)) && st.pos + |StoredBits(pad, data)| <= 8 * |src|
    ensures Stored(src, st) == Some(State(st.pos + |StoredBits(pad, data)|, st.out + data)) <==> st.pos % 8 != 0
  {
    hide Bit, Bits, HasBits, StoredAt, Stored, StoredBits, PadLength, DataBits;
    BitsGiveBytes(src, st.pos, pad, data);
    PadReaches(st.pos);
    if st.pos % 8 != 0 {
      UnalignedDecodes(src, st, data);
    } else {
      AlignedMisreads(src, st, data);
    }
  }

  /** Bytes that do not start with the low byte of their own number. */
  predicate Telling(data: seq<byte>) {
    data != [] && data[0] != |data| % 256
  }

  /** An aligned stored block never adds what it should, and one of telling bytes is refused, whatever follows it. */
  lemma AlignedDeparts(src: seq<byte>, st: State, pad: seq<bit>, data: seq<byte>)
    requires |pad| == PadLength(st.pos) && |data| <= 65535 && st.pos % 8 == 0
    requires HasBits(src, st.pos, StoredBits(pad, data)) && st.pos + |StoredBits(pad, data)| <= 8 * |src|
    ensures match Stored(src, st)
            case None => true
            case Some(next) => !Telling(data) && |next.out| != |st.out| + |data|
  {
    hide Bit, Bits, HasBits, Stored, StoredBits, PadLength, DataBits, ByteRun;
    BitsGiveBytes(src, st.pos, pad, data);
    PadReaches(st.pos);
    AlignedMisreads(src, st, data);
    var k := st.pos / 8;
    if data != [] {
      assert ByteRun(src, k + 4, |data|)[0] == src[k + 4];
    }
  }
}
