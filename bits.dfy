/** The bit buffer of the encoder: bits are appended most significant first
    (appendBits), read back one at a time (getBit) and packed into bytes. */
module Bits {
  import opened Wrappers

  /** A codeword: one 8-bit byte. */
  type Byte = bv8

  /** Bits per codeword. */
  const ByteWidth: nat := 8

  const TwoTo32: nat := 0x1_0000_0000

  function Pow2(n: nat): (r: nat)
    ensures r >= 1
  {
    if n == 0 then 1 else 2 * Pow2(n - 1)
  }

  lemma {:induction false} Pow2Monotone(a: nat, b: nat)
    requires a <= b
    ensures Pow2(a) <= Pow2(b)
  {
    if a < b {
      Pow2Monotone(a, b - 1);
    }
  }

  lemma {:induction false} Pow2Add(a: nat, b: nat)
    ensures Pow2(a + b) == Pow2(a) * Pow2(b)
  {
    if a > 0 {
      Pow2Add(a - 1, b);
    }
  }

  lemma Pow2Of8()
    ensures Pow2(ByteWidth) == 256
  {
  }

  /** `1 << w` for the widths of the character count fields, written out
      value by value. */
  function ShiftOne(w: nat): (r: nat)
    requires w <= 16
  {
    match w
    case 0 => 1 case 1 => 2 case 2 => 4 case 3 => 8
    case 4 => 16 case 5 => 32 case 6 => 64 case 7 => 128
    case 8 => 256 case 9 => 512 case 10 => 1024 case 11 => 2048
    case 12 => 4096 case 13 => 8192 case 14 => 16384 case 15 => 32768
    case _ => 65536
  }

  lemma {:induction false} ShiftOneIsPow2(w: nat)
    requires w <= 16
    ensures ShiftOne(w) == Pow2(w)
  {
    if w > 0 {
      ShiftOneIsPow2(w - 1);
    }
  }

  lemma Pow2Of32()
    ensures Pow2(32) == TwoTo32
  {
    Pow2Of8();
    Pow2Add(8, 8);
    Pow2Add(16, 16);
  }

  /** `v >>> n` on a non-negative number: `n` halvings. */
  function Shr(v: nat, n: nat): nat
  {
    if n == 0 then v else Shr(v / 2, n - 1)
  }

  /** `v >>> n === 0` exactly when `v` fits in `n` bits. */
  lemma {:induction false} ShrZero(v: nat, n: nat)
    ensures Shr(v, n) == 0 <==> v < Pow2(n)
  {
    if n > 0 {
      ShrZero(v / 2, n - 1);
    }
  }

  /** Bit `i` of a non-negative number. */
  function BitAt(v: nat, i: nat): bool
  {
    Shr(v, i) % 2 == 1
  }

  /** A number below 2^i has bit `i` clear. */
  lemma {:induction false} BitAtHigh(v: nat, i: nat)
    requires v < Pow2(i)
    ensures !BitAt(v, i)
  {
    ShrZero(v, i);
  }

  /** The low `len` bits of `v`, most significant first. */
  function ToBits(v: nat, len: nat): (r: seq<bool>)
    ensures |r| == len
  {
    if len == 0 then [] else ToBits(v / 2, len - 1) + [v % 2 == 1]
  }

  /** The number whose binary digits, most significant first, are `bits`. */
  function FromBits(bits: seq<bool>): nat
  {
    if |bits| == 0 then 0
    else 2 * FromBits(bits[..|bits| - 1]) + (if bits[|bits| - 1] then 1 else 0)
  }

  /** A `len`-bit string denotes a number below 2^len. */
  lemma {:induction false} FromBitsBound(bits: seq<bool>)
    ensures FromBits(bits) < Pow2(|bits|)
  {
    if |bits| > 0 {
      FromBitsBound(bits[..|bits| - 1]);
    }
  }

  /** Reading back the `len` bits written for a value that fits gives the
      value. */
  lemma {:induction false} FromToBits(v: nat, len: nat)
    requires v < Pow2(len)
    ensures FromBits(ToBits(v, len)) == v
  {
    if len > 0 {
      var r := ToBits(v, len);
      assert r[..len - 1] == ToBits(v / 2, len - 1);
      FromToBits(v / 2, len - 1);
    }
  }

  /** Writing a bit string's number back with as many bits is the identity. */
  lemma {:induction false} ToFromBits(bits: seq<bool>)
    ensures ToBits(FromBits(bits), |bits|) == bits
  {
    if |bits| > 0 {
      var init := bits[..|bits| - 1];
      ToFromBits(init);
      assert bits == init + [bits[|bits| - 1]];
    }
  }

  /** Bit `j` (counting from the most significant) of a written field is bit
      `len - 1 - j` of the value. */
  lemma {:induction false} ToBitsIndex(v: nat, len: nat, j: nat)
    requires j < len
    ensures ToBits(v, len)[j] == BitAt(v, len - 1 - j)
  {
    if j < len - 1 {
      ToBitsIndex(v / 2, len - 1, j);
    }
  }

  /** getBit: bit `i` of `x` taken as an unsigned 32-bit integer (the
      source's `((x >>> i) & 1) !== 0`). */
  function GetBit(x: int, i: nat): bool
    requires i < 32
  {
    BitAt(x % TwoTo32, i)
  }

  /** getBit reads a clear bit above the width of a non-negative value. */
  lemma GetBitHigh(x: int, i: nat)
    requires i < 32 && 0 <= x < Pow2(i)
    ensures !GetBit(x, i)
  {
    Pow2Monotone(i, 32);
    Pow2Of32();
    BitAtHigh(x, i);
  }

  /** Whether appendBits accepts `len` and `val`: the source's
      `len < 0 || len > 31 || val >>> len !== 0` is false. */
  predicate AppendAccepts(val: int, len: int)
  {
    0 <= len <= 31 && val % TwoTo32 < Pow2(len)
  }

  /** appendBits: throws "Value out of range" unless `len` is in 0..31 and
      `val` fits in `len` bits; otherwise appends the `len` bits of `val`,
      most significant first. */
  method AppendBits(val: int, len: int, bb: seq<bool>) returns (r: Result<seq<bool>>)
    ensures r.Success? <==> AppendAccepts(val, len)
    ensures r.Failure? ==> r.error == ValueOutOfRange
    ensures r.Success? ==> r.value == bb + ToBits(val % TwoTo32, len)
  {
    var v := val % TwoTo32;
    if len < 0 || len > 31 || Shr(v, len) != 0 {
      if 0 <= len {
        ShrZero(v, len);
      }
      return Failure(ValueOutOfRange);
    }
    ShrZero(v, len);
    ghost var all := ToBits(v, len);
    var out := bb;
    var i := len - 1;
    while i >= 0
      invariant -1 <= i < len
      invariant out == bb + all[..len - 1 - i]
    {
      ToBitsIndex(v, len, len - 1 - i);
      assert all[..len - i] == all[..len - 1 - i] + [all[len - 1 - i]];
      out := out + [Shr(v, i) % 2 == 1];
      i := i - 1;
    }
    assert all[..len] == all;
    return Success(out);
  }

  /** A field of at most 16 bits holding a value that fits is accepted and
      written as is. */
  lemma FieldAccepted(val: nat, len: nat)
    requires len <= 16 && val < Pow2(len)
    ensures AppendAccepts(val, len) && val % TwoTo32 == val
  {
    Pow2Monotone(len, 32);
    Pow2Of32();
  }

  /** A count field: a value below `1 << w`, for `w` at most 16, is
      accepted and written as is. */
  lemma CountFieldAccepted(val: nat, w: nat)
    requires w <= 16 && val < ShiftOne(w)
    ensures AppendAccepts(val, w) && val % TwoTo32 == val
  {
    ShiftOneIsPow2(w);
    FieldAccepted(val, w);
  }

  /** Zero bits are always accepted. */
  lemma ZeroAccepted(len: nat)
    requires len <= 31
    ensures AppendAccepts(0, len) && ToBits(0, len) == seq(len, _ => false)
  {
    ZeroBits(len);
  }

  lemma {:induction false} ZeroBits(len: nat)
    ensures ToBits(0, len) == seq(len, _ => false)
  {
    if len > 0 {
      ZeroBits(len - 1);
    }
  }

  /** An 8-bit field holding a byte value is accepted. */
  lemma ByteAccepted(val: nat)
    requires val < 256
    ensures AppendAccepts(val, 8) && val % TwoTo32 == val
  {
    Pow2Of8();
    FieldAccepted(val, 8);
  }

  /** What appendBits promises: exactly `len` bits are added after the old
      contents, and reading them back, as one number or bit by bit with
      getBit, gives `val`. */
  lemma AppendBitsReadBack(val: nat, len: nat, bb: seq<bool>, out: seq<bool>)
    requires len <= 31 && val < Pow2(len)
    requires out == bb + ToBits(val % TwoTo32, len)
    ensures |out| == |bb| + len && out[..|bb|] == bb
    ensures FromBits(out[|bb|..]) == val
    ensures forall j :: 0 <= j < len ==> out[|bb|..][j] == GetBit(val, len - 1 - j)
  {
    Pow2Monotone(len, 32);
    Pow2Of32();
    assert val % TwoTo32 == val;
    assert out[|bb|..] == ToBits(val, len);
    FromToBits(val, len);
    forall j | 0 <= j < len
      ensures out[|bb|..][j] == GetBit(val, len - 1 - j)
    {
      ToBitsIndex(val, len, j);
    }
  }

  /** getBit on a codeword: bit `k` of the byte `b`. */
  function ByteBit(b: Byte, k: nat): bool
    requires k < 8
  {
    (b >> k) & 1 == 1
  }

  /** The eight bits of a byte, most significant first. */
  function ByteBits(b: Byte): (r: seq<bool>)
    ensures |r| == 8
  {
    seq(8, k requires 0 <= k < 8 => ByteBit(b, 7 - k))
  }

  /** The packing loop's contribution of one bit: `b << (7 - (i & 7))` at
      position `k = i & 7` of its byte. */
  function Weight(bit: bool, k: nat): Byte
    requires k < 8
  {
    if bit then (1 as Byte) << (7 - k) else 0
  }

  /** A byte under construction: the first `k` of its bits ORed in. */
  function OrBits(bits: seq<bool>, k: nat): Byte
    requires k <= |bits| && k <= 8
  {
    if k == 0 then 0 else OrBits(bits, k - 1) | Weight(bits[k - 1], k - 1)
  }

  /** The byte whose bits, most significant first, are `bits`: all eight
      ORed in. */
  function BitsByte(bits: seq<bool>): Byte
    requires |bits| == 8
  {
    OrBits(bits, ByteWidth)
  }

  lemma ByteBitOr(x: Byte, y: Byte, j: nat)
    requires j < 8
    ensures ByteBit(x | y, j) == (ByteBit(x, j) || ByteBit(y, j))
  {
    assert (x | y) >> j == (x >> j) | (y >> j);
  }

  lemma ByteBitWeight(b: bool, k: nat, j: nat)
    requires j < 8 && k < 8
    ensures ByteBit(Weight(b, k), j) == (b && j == 7 - k)
  {
  }

  /** After `n` bits are ORed in, bit `k` (from the most significant) is the
      `k`-th input bit if it has been ORed in yet, otherwise clear. */
  lemma {:induction false} OrBitsBit(bits: seq<bool>, n: nat, k: nat)
    requires n <= |bits| && n <= 8 && k < 8
    ensures ByteBit(OrBits(bits, n), 7 - k) == (k < n && bits[k])
  {
    if n > 0 {
      OrBitsBit(bits, n - 1, k);
      ByteBitOr(OrBits(bits, n - 1), Weight(bits[n - 1], n - 1), 7 - k);
      ByteBitWeight(bits[n - 1], n - 1, 7 - k);
    }
  }

  /** A byte is determined by its eight bits. */
  lemma ByteBitsEqual(a: Byte, b: Byte)
    requires forall j :: 0 <= j < 8 ==> ByteBit(a, j) == ByteBit(b, j)
    ensures a == b
  {
    assert ByteBit(a, 0) == ByteBit(b, 0) && ByteBit(a, 1) == ByteBit(b, 1);
    assert ByteBit(a, 2) == ByteBit(b, 2) && ByteBit(a, 3) == ByteBit(b, 3);
    assert ByteBit(a, 4) == ByteBit(b, 4) && ByteBit(a, 5) == ByteBit(b, 5);
    assert ByteBit(a, 6) == ByteBit(b, 6) && ByteBit(a, 7) == ByteBit(b, 7);
  }

  /** OrBits looks only at the bits already ORed in. */
  lemma {:induction false} OrBitsPrefix(a: seq<bool>, b: seq<bool>, k: nat)
    requires k <= |a| && k <= |b| && k <= 8 && a[..k] == b[..k]
    ensures OrBits(a, k) == OrBits(b, k)
  {
    if k > 0 {
      assert a[k - 1] == a[..k][k - 1];
      assert a[..k - 1] == a[..k][..k - 1];
      assert b[..k - 1] == b[..k][..k - 1];
      OrBitsPrefix(a, b, k - 1);
    }
  }

  /** Clear bits ORed in change nothing. */
  lemma {:induction false} OrBitsClearTail(bits: seq<bool>, k: nat, n: nat)
    requires k <= n <= |bits| && n <= 8
    requires forall j :: k <= j < n ==> !bits[j]
    ensures OrBits(bits, n) == OrBits(bits, k)
  {
    if k < n {
      OrBitsClearTail(bits, k, n - 1);
    }
  }

  lemma ByteBitsRoundTrip(b: Byte)
    ensures BitsByte(ByteBits(b)) == b
  {
    var c := BitsByte(ByteBits(b));
    forall j | 0 <= j < 8
      ensures ByteBit(c, j) == ByteBit(b, j)
    {
      OrBitsBit(ByteBits(b), 8, 7 - j);
    }
    ByteBitsEqual(c, b);
  }

  lemma BitsByteRoundTrip(bits: seq<bool>)
    requires |bits| == 8
    ensures ByteBits(BitsByte(bits)) == bits
  {
    forall k | 0 <= k < 8
      ensures ByteBits(BitsByte(bits))[k] == bits[k]
    {
      OrBitsBit(bits, 8, k);
    }
  }

  lemma HalveByte(b: Byte)
    ensures (b >> 1) as int == b as int / 2
    ensures (b & 1 == 1) <==> b as int % 2 == 1
  {
  }

  lemma ByteBitShift(b: Byte, k: nat)
    requires 1 <= k < 8
    ensures ByteBit(b, k) == ByteBit(b >> 1, k - 1)
  {
  }

  /** The bits of a byte are the bits of its numeric value. */
  lemma {:induction false} ByteBitAt(b: Byte, k: nat)
    requires k < 8
    ensures ByteBit(b, k) == BitAt(b as int, k)
  {
    HalveByte(b);
    if k > 0 {
      ByteBitShift(b, k);
      ByteBitAt(b >> 1, k - 1);
    }
  }

  /** Appending a byte's value in eight bits writes the byte's bits. */
  lemma ToBitsByte(b: Byte)
    ensures ToBits(b as int, 8) == ByteBits(b)
  {
    forall j | 0 <= j < 8
      ensures ToBits(b as int, 8)[j] == ByteBits(b)[j]
    {
      ToBitsIndex(b as int, 8, j);
      ByteBitAt(b, 7 - j);
    }
  }

  /** A codeword sequence written out bit by bit, most significant bit of
      each byte first (the order drawCodewords reads them in). */
  function BytesBits(bs: seq<Byte>): (r: seq<bool>)
    ensures |r| == 8 * |bs|
  {
    if |bs| == 0 then [] else ByteBits(bs[0]) + BytesBits(bs[1..])
  }

  /** Bit `i` of a codeword sequence is the source's
      `getBit(data[i >>> 3], 7 - (i & 7))`. */
  lemma {:induction false} BytesBitsIndex(bs: seq<Byte>, i: nat)
    requires i < 8 * |bs|
    ensures BytesBits(bs)[i] == ByteBit(bs[i / 8], 7 - i % 8)
  {
    if i >= 8 {
      BytesBitsIndex(bs[1..], i - 8);
      assert BytesBits(bs)[i] == BytesBits(bs[1..])[i - 8];
      assert (i - 8) / 8 == i / 8 - 1 && (i - 8) % 8 == i % 8;
    }
  }

  /** The packing of a bit string whose length is a multiple of 8 into bytes:
      bit `i` lands in byte `i / 8` at weight 2^(7 - i % 8). */
  function PackBits(bits: seq<bool>): (r: seq<Byte>)
    requires |bits| % 8 == 0
    ensures |r| == |bits| / 8
  {
    if |bits| == 0 then [] else [BitsByte(bits[..8])] + PackBits(bits[8..])
  }

  /** Packing one more byte's worth of bits appends one byte. */
  lemma {:induction false} PackBitsSnoc(bits: seq<bool>, tail: seq<bool>)
    requires |bits| % 8 == 0 && |tail| == 8
    ensures PackBits(bits + tail) == PackBits(bits) + [BitsByte(tail)]
  {
    if |bits| > 0 {
      assert (bits + tail)[..8] == bits[..8];
      assert (bits + tail)[8..] == bits[8..] + tail;
      PackBitsSnoc(bits[8..], tail);
    } else {
      assert bits + tail == tail;
      assert tail[..8] == tail;
    }
  }

  /** Packing is the inverse of writing bytes out bit by bit. */
  lemma {:induction false} PackBitsRoundTrip(bits: seq<bool>)
    requires |bits| % 8 == 0
    ensures BytesBits(PackBits(bits)) == bits
  {
    if |bits| > 0 {
      PackBitsRoundTrip(bits[8..]);
      BitsByteRoundTrip(bits[..8]);
      var p := PackBits(bits);
      assert p[1..] == PackBits(bits[8..]);
      assert bits == bits[..8] + bits[8..];
    }
  }

  lemma {:induction false} BytesBitsRoundTrip(bs: seq<Byte>)
    ensures PackBits(BytesBits(bs)) == bs
  {
    if |bs| > 0 {
      BytesBitsRoundTrip(bs[1..]);
      ByteBitsRoundTrip(bs[0]);
      var w := BytesBits(bs);
      assert w[..8] == ByteBits(bs[0]);
      assert w[8..] == BytesBits(bs[1..]);
    }
  }

  /** Byte `j` of a packing is the packing of bits 8j..8j+7. */
  lemma {:induction false} PackBitsIndex(bits: seq<bool>, j: nat)
    requires |bits| % 8 == 0 && j < |bits| / 8
    ensures 8 * j + 8 <= |bits| && PackBits(bits)[j] == BitsByte(bits[8 * j..8 * j + 8])
  {
    if j > 0 {
      PackBitsIndex(bits[8..], j - 1);
      assert bits[8..][8 * (j - 1)..8 * (j - 1) + 8] == bits[8 * j..8 * j + 8];
    }
  }

  /** Packing two whole-byte bit strings one after the other. */
  lemma {:induction false} PackBitsConcat(a: seq<bool>, b: seq<bool>)
    requires |a| % 8 == 0 && |b| % 8 == 0
    ensures PackBits(a + b) == PackBits(a) + PackBits(b)
  {
    if |a| > 0 {
      assert (a + b)[..8] == a[..8];
      assert (a + b)[8..] == a[8..] + b;
      PackBitsConcat(a[8..], b);
    } else {
      assert a + b == b;
    }
  }
}
