/** The bit-level arithmetic of the decoder and the ideal bit stream it reads. */
module BitStream {

  type byte = x: int | 0 <= x < 256
  type bit = x: int | 0 <= x < 2

  // ----- JavaScript's 32-bit operators on values below 2^31, where the signed and unsigned readings agree -----

  const INT31: nat := 0x8000_0000

  function Pow2(n: nat): (p: nat)
    ensures p >= 1
  {
    if n == 0 then 1 else 2 * Pow2(n - 1)
  }

  function Or(a: nat, b: nat): nat
    decreases a + b
  {
    if a == 0 && b == 0 then 0
    else (if a % 2 == 1 || b % 2 == 1 then 1 else 0) + 2 * Or(a / 2, b / 2)
  }

  function And(a: nat, b: nat): nat {
    if a == 0 || b == 0 then 0
    else (if a % 2 == 1 && b % 2 == 1 then 1 else 0) + 2 * And(a / 2, b / 2)
  }

  function Shr(a: nat, n: nat): nat
    decreases n, a
  {
    if n == 0 then a else Shr(a / 2, n - 1)
  }

  function Shl(a: nat, n: nat): nat
    decreases n, a
  {
    if n == 0 then a else 2 * Shl(a, n - 1)
  }

  lemma {:induction false} ShrStep(a: nat, n: nat)
    ensures Shr(a, n + 1) == Shr(a, n) / 2
    decreases n
  {
    if n > 0 {
      ShrStep(a / 2, n - 1);
    }
  }

  lemma {:induction false} ShrOfSmall(a: nat, n: nat)
    requires a < Pow2(n)
    ensures Shr(a, n) == 0
    decreases n
  {
    if n > 0 {
      ShrOfSmall(a / 2, n - 1);
    }
  }

  lemma {:induction false} ShrMonotone(a: nat, b: nat, n: nat)
    requires a <= b
    ensures Shr(a, n) <= Shr(b, n)
    decreases n
  {
    if n > 0 {
      ShrMonotone(a / 2, b / 2, n - 1);
    }
  }

  // ----- The ideal stream: the bytes least significant bit first, then zeros without end -----

  function ByteAt(src: seq<byte>, k: nat): byte {
    if k < |src| then src[k] else 0
  }

  function Bit(src: seq<byte>, i: nat): bit {
    Shr(ByteAt(src, i / 8), i % 8) % 2
  }

  /** The n bits from pos as a number, the first bit least significant. */
  function Bits(src: seq<byte>, pos: nat, n: nat): nat
    decreases n, src
  {
    if n == 0 then 0 else Bit(src, pos) + 2 * Bits(src, pos + 1, n - 1)
  }

  /** The n bits from pos as a number, the first bit most significant: how Huffman codes are packed. */
  function Msb(src: seq<byte>, pos: nat, n: nat): nat {
    if n == 0 then 0 else 2 * Msb(src, pos, n - 1) + Bit(src, pos + n - 1)
  }

  lemma {:induction false} BitsBound(src: seq<byte>, pos: nat, n: nat)
    ensures Bits(src, pos, n) < Pow2(n)
    decreases n
  {
    if n > 0 {
      BitsBound(src, pos + 1, n - 1);
    }
  }

  lemma Pow2Monotone(m: nat, n: nat)
    requires m <= n
    ensures Pow2(m) <= Pow2(n)
    decreases n
  {
    if m < n {
      Pow2Monotone(m, n - 1);
    }
  }

  /** A whole byte read from a byte boundary is that byte. */
  lemma ByteBits(src: seq<byte>, k: nat)
    ensures Bits(src, 8 * k, 8) == ByteAt(src, k)
  {
    ByteBitsFrom(src, k, 0);
  }

  lemma {:induction false} ByteBitsFrom(src: seq<byte>, k: nat, j: nat)
    requires j <= 8
    ensures Bits(src, 8 * k + j, 8 - j) == Shr(ByteAt(src, k), j)
    decreases 8 - j
  {
    if j == 8 {
      assert Pow2(8) == 256;
      ShrOfSmall(ByteAt(src, k), 8);
    } else {
      ByteBitsFrom(src, k, j + 1);
      ShrStep(ByteAt(src, k), j);
      assert (8 * k + j) / 8 == k && (8 * k + j) % 8 == j;
    }
  }

  /** Or-ing the next bits above the ones already held appends them. */
  lemma {:induction false} AppendBits(src: seq<byte>, pos: nat, m: nat, n: nat)
    ensures Or(Bits(src, pos, m), Shl(Bits(src, pos + m, n), m)) == Bits(src, pos, m + n)
    decreases m
  {
    hide Bit;
    if m == 0 {
      OrZero(Bits(src, pos, n));
    } else {
      AppendBits(src, pos + 1, m - 1, n);
      var a, b := Bits(src, pos, m), Shl(Bits(src, pos + m, n), m);
      assert a % 2 == Bit(src, pos) && a / 2 == Bits(src, pos + 1, m - 1);
      assert b % 2 == 0 && b / 2 == Shl(Bits(src, pos + m, n), m - 1);
      assert pos + 1 + (m - 1) == pos + m;
    }
  }

  lemma {:induction false} OrZero(b: nat)
    ensures Or(0, b) == b
  {
    if b > 0 {
      OrZero(b / 2);
    }
  }

  lemma AndHalves(a: nat, b: nat)
    ensures And(a, b) == (if a % 2 == 1 && b % 2 == 1 then 1 else 0) + 2 * And(a / 2, b / 2)
  {}

  /** Masking keeps the first n bits. */
  lemma {:induction false} MaskBits(src: seq<byte>, pos: nat, m: nat, n: nat)
    requires n <= m
    ensures And(Bits(src, pos, m), Pow2(n) - 1) == Bits(src, pos, n)
    decreases n
  {
    hide Bit, And;
    if n == 0 {
      AndZero(Bits(src, pos, m));
    } else {
      MaskBits(src, pos + 1, m - 1, n - 1);
      var a, b := Bits(src, pos, m), Pow2(n) - 1;
      AndHalves(a, b);
      assert a % 2 == Bit(src, pos) && a / 2 == Bits(src, pos + 1, m - 1);
      assert b % 2 == 1 && b / 2 == Pow2(n - 1) - 1;
    }
  }

  lemma AndZero(a: nat)
    ensures And(a, 0) == 0
  {}

  /** Shifting drops the first n bits. */
  lemma {:induction false} DropBits(src: seq<byte>, pos: nat, m: nat, n: nat)
    requires n <= m
    ensures Shr(Bits(src, pos, m), n) == Bits(src, pos + n, m - n)
    decreases n
  {
    hide Bit;
    if n > 0 {
      DropBits(src, pos + 1, m - 1, n - 1);
    }
  }

  lemma {:induction false} ShrOnes(m: nat, n: nat)
    requires n <= m
    ensures Shr(Pow2(m) - 1, n) == Pow2(m - n) - 1
    decreases n
  {
    if n > 0 {
      ShrOnes(m - 1, n - 1);
    }
  }

  /** The mask that `u` takes from 65535 is n ones. */
  lemma MaskOfWidth(n: nat)
    requires n <= 16
    ensures Shr(65535, 16 - n) == Pow2(n) - 1
  {
    ShrOnes(16, 16 - n);
    assert Pow2(8) == 256;
    assert Pow2(12) == 4096;
    assert Pow2(16) == 65536;
  }

  // ----- Bit strings laid into a stream -----

  ghost predicate HasBits(src: seq<byte>, pos: nat, bits: seq<bit>) {
    forall i | 0 <= i < |bits| :: Bit(src, pos + i) == bits[i]
  }

  lemma HasConcat(src: seq<byte>, pos: nat, a: seq<bit>, b: seq<bit>)
    requires HasBits(src, pos, a + b)
    ensures HasBits(src, pos, a) && HasBits(src, pos + |a|, b)
  {
    hide Bit;
    forall i | 0 <= i < |a| ensures Bit(src, pos + i) == a[i] {
      assert (a + b)[i] == a[i];
    }
    forall i | 0 <= i < |b| ensures Bit(src, pos + |a| + i) == b[i] {
      assert (a + b)[|a| + i] == b[i];
    }
  }

  lemma JoinBits(src: seq<byte>, pos: nat, a: seq<bit>, b: seq<bit>)
    requires HasBits(src, pos, a) && HasBits(src, pos + |a|, b)
    ensures HasBits(src, pos, a + b)
  {
    hide Bit;
    forall i | 0 <= i < |a + b| ensures Bit(src, pos + i) == (a + b)[i] {
      if i >= |a| {
        assert Bit(src, pos + |a| + (i - |a|)) == b[i - |a|];
      }
    }
  }

  /** A number in n bits, least significant first. */
  function LsbBits(v: nat, n: nat): (r: seq<bit>)
    ensures |r| == n
    decreases n, v
  {
    if n == 0 then [] else [v % 2] + LsbBits(v / 2, n - 1)
  }

  /** A Huffman code in n bits, most significant first. */
  function MsbBits(v: nat, n: nat): (r: seq<bit>)
    ensures |r| == n
    decreases n, v
  {
    if n == 0 then [] else MsbBits(v / 2, n - 1) + [v % 2]
  }

  lemma {:induction false} ReadLsb(src: seq<byte>, pos: nat, v: nat, n: nat)
    requires v < Pow2(n) && HasBits(src, pos, LsbBits(v, n))
    ensures Bits(src, pos, n) == v
    decreases n
  {
    hide Bit;
    if n > 0 {
      HasConcat(src, pos, [v % 2], LsbBits(v / 2, n - 1));
      assert Bit(src, pos) == [v % 2][0];
      ReadLsb(src, pos + 1, v / 2, n - 1);
    }
  }

  lemma {:induction false} ReadMsb(src: seq<byte>, pos: nat, v: nat, n: nat)
    requires v < Pow2(n) && HasBits(src, pos, MsbBits(v, n))
    ensures Msb(src, pos, n) == v
    decreases n
  {
    hide Bit;
    if n > 0 {
      HasConcat(src, pos, MsbBits(v / 2, n - 1), [v % 2]);
      assert Bit(src, pos + (n - 1) + 0) == [v % 2][0];
      ReadMsb(src, pos, v / 2, n - 1);
    }
  }

  /** The number read from the first t bits of n is the whole number shifted down. */
  lemma {:induction false} MsbPrefix(src: seq<byte>, pos: nat, t: nat, n: nat)
    requires t <= n
    ensures Msb(src, pos, t) == Shr(Msb(src, pos, n), n - t)
    decreases n
  {
    hide Bit;
    if t < n {
      MsbPrefix(src, pos, t, n - 1);
      assert Msb(src, pos, n) / 2 == Msb(src, pos, n - 1);
    }
  }

  // ----- Packing bits into bytes -----

  /** The value of up to eight bits, zero-padded above. */
  function PackByte(bits: seq<bit>, n: nat): nat
    requires n <= |bits|
    decreases n, bits
  {
    if n == 0 then 0 else bits[0] + 2 * PackByte(bits[1..], n - 1)
  }

  lemma {:induction false} PackByteBound(bits: seq<bit>, n: nat)
    requires n <= |bits|
    ensures PackByte(bits, n) < Pow2(n)
    decreases n
  {
    if n > 0 {
      PackByteBound(bits[1..], n - 1);
    }
  }

  lemma {:induction false} PackByteBit(bits: seq<bit>, n: nat, i: nat)
    requires i < n <= |bits|
    ensures Shr(PackByte(bits, n), i) % 2 == bits[i]
    decreases n
  {
    if i > 0 {
      PackByteBit(bits[1..], n - 1, i - 1);
      assert PackByte(bits, n) / 2 == PackByte(bits[1..], n - 1);
    }
  }

  function Pack(bits: seq<bit>): (r: seq<byte>)
    ensures |r| == (|bits| + 7) / 8
  {
    if |bits| == 0 then [] else
    var n := if |bits| < 8 then |bits| else 8;
    PackByteBound(bits, n);
    Pow2Monotone(n, 8);
    assert Pow2(8) == 256;
    [PackByte(bits, n)] + Pack(bits[n..])
  }

  /** Packed bits read back in order. */
  lemma PackHasBits(bits: seq<bit>)
    ensures HasBits(Pack(bits), 0, bits)
  {
    forall i | 0 <= i < |bits| ensures Bit(Pack(bits), 0 + i) == bits[i] {
      PackedBit(bits, i);
    }
  }

  /** Eight bits further on is the next byte. */
  lemma NextByteBit(p: seq<byte>, i: nat)
    requires i >= 8 && p != []
    ensures Bit(p, i) == Bit(p[1..], i - 8)
  {
    hide Shr;
    assert i / 8 == 1 + (i - 8) / 8 && i % 8 == (i - 8) % 8;
  }

  lemma FirstBits(p: seq<byte>, i: nat)
    requires i < 8 && p != []
    ensures Bit(p, i) == Shr(p[0], i) % 2
  {
    hide Shr;
    assert i / 8 == 0 && i % 8 == i;
  }

  lemma PackHead(bits: seq<bit>)
    requires bits != []
    ensures Pack(bits) != [] && Pack(bits)[0] == PackByte(bits, if |bits| < 8 then |bits| else 8)
  {
    hide PackByte;
  }

  lemma FirstByteBit(bits: seq<bit>, i: nat)
    requires i < |bits| && i < 8
    ensures Bit(Pack(bits), i) == bits[i]
  {
    hide Shr, PackByte, Bit, Pack;
    PackHead(bits);
    FirstBits(Pack(bits), i);
    PackByteBit(bits, if |bits| < 8 then |bits| else 8, i);
  }

  lemma PackTail(bits: seq<bit>)
    requires |bits| > 8
    ensures Pack(bits) != [] && Pack(bits)[1..] == Pack(bits[8..])
  {
    hide PackByte;
  }

  lemma {:induction false} PackedBit(bits: seq<bit>, i: nat)
    requires i < |bits|
    ensures Bit(Pack(bits), i) == bits[i]
    decreases |bits|
  {
    hide Bit, Pack;
    if i < 8 {
      FirstByteBit(bits, i);
    } else {
      PackTail(bits);
      NextByteBit(Pack(bits), i);
      PackedBit(bits[8..], i - 8);
    }
  }

  /** The bits that fill up the last byte are zero. */
  lemma {:induction false} PackPads(bits: seq<bit>, i: nat)
    requires i >= |bits|
    ensures Bit(Pack(bits), i) == 0
    decreases |bits|
  {
    hide Bit, Pack, PackByte;
    var p := Pack(bits);
    if i >= 8 * |p| {
      BitPastEnd(p, i);
    } else if i < 8 {
      PackHead(bits);
      FirstBits(p, i);
      PackByteBound(bits, |bits|);
      Pow2Monotone(|bits|, i);
      ShrOfSmall(PackByte(bits, |bits|), i);
    } else {
      PackTail(bits);
      NextByteBit(p, i);
      PackPads(bits[8..], i - 8);
    }
  }

  lemma BitPastEnd(src: seq<byte>, i: nat)
    requires i >= 8 * |src|
    ensures Bit(src, i) == 0
  {
    ShrOfSmall(0, i % 8);
  }
}
