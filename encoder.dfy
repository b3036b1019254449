/** encodeSegments up to the data codewords: the choice of the smallest
    version that holds the segments, the boost of the error correction
    level, and the data bit string with its terminator, bit padding and pad
    bytes, packed into codewords. */
module Encoder {
  import opened Wrappers
  import opened Bits
  import opened Tables
  import opened Segments
  import opened GaloisField

  /** Data bits a version holds at a level. */
  function CapacityBits(v: Version, e: Ecc): (r: nat)
    ensures r % 8 == 0 && r >= 8
  {
    BlockStructure(v, e);
    NumDataCodewords(v, e) * 8
  }

  /** Whether the segments fit a version at a level: no count overflows its
      field and the bits do not exceed the capacity. */
  predicate FitsAt(segs: seq<Segment>, v: Version, e: Ecc)
  {
    TotalBits(segs, v).Some? && TotalBits(segs, v).value <= CapacityBits(v, e)
  }

  function Max(a: int, b: int): int
  {
    if a < b then b else a
  }

  /** The version loop of encodeSegments: from minVersion upwards, the first
      version whose capacity at `ecl` holds the segments; "Data too long"
      once maxVersion has been tried (the loop always tries minVersion, even
      above maxVersion). */
  method SelectVersion(segs: seq<Segment>, ecl: Ecc, minVersion: Version, maxVersion: Version)
    returns (r: Result<Version>)
    ensures r.Success? ==> minVersion <= r.value <= Max(minVersion, maxVersion)
    ensures r.Success? ==> FitsAt(segs, r.value, ecl)
    ensures r.Success? ==> forall w: Version :: minVersion <= w < r.value ==> !FitsAt(segs, w, ecl)
    ensures r.Failure? ==> r.error == DataTooLong
    ensures r.Failure? ==> forall w: Version :: minVersion <= w <= Max(minVersion, maxVersion) ==> !FitsAt(segs, w, ecl)
  {
    var version: Version := minVersion;
    while true
      invariant minVersion <= version <= Max(minVersion, maxVersion)
      invariant forall w: Version :: minVersion <= w < version ==> !FitsAt(segs, w, ecl)
      decreases 40 - version
    {
      var fits := Fits(segs, version, ecl);
      if fits {
        return Success(version);
      }
      if version >= maxVersion {
        return Failure(DataTooLong);
      }
      version := version + 1;
    }
  }

  /** The test in the version loop: the segments' total bits at `version`
      against the data capacity at `ecl`. */
  method Fits(segs: seq<Segment>, version: Version, ecl: Ecc) returns (b: bool)
    ensures b == FitsAt(segs, version, ecl)
  {
    var dataCapacityBits := CapacityBits(version, ecl);
    var dataUsedBits := GetTotalBits(segs, version);
    b := dataUsedBits.Some? && dataUsedBits.value <= dataCapacityBits;
  }

  /** The levels the boost tries, weakest first. */
  const BoostLevels: seq<Ecc> := [Medium, Quartile, High]

  /** Level boosting: every level from Medium to High that still holds the
      `used` bits at the same version replaces the current one, so the
      result is the strongest level that fits, never weaker than `ecl`. */
  method BoostLevel(used: nat, v: Version, ecl: Ecc) returns (e: Ecc)
    requires used <= CapacityBits(v, ecl)
    ensures used <= CapacityBits(v, e)
    ensures Ordinal(ecl) <= Ordinal(e)
    ensures forall f: Ecc :: Ordinal(e) < Ordinal(f) ==> used > CapacityBits(v, f)
  {
    e := ecl;
    for i := 0 to |BoostLevels|
      invariant used <= CapacityBits(v, e)
      invariant forall j :: 0 <= j < i && used <= CapacityBits(v, BoostLevels[j]) ==> j + 1 <= Ordinal(e)
    {
      var newEcl := BoostLevels[i];
      if used <= CapacityBits(v, newEcl) {
        e := newEcl;
      }
    }
    assert forall f: Ecc :: Ordinal(f) >= 1 ==> f == BoostLevels[Ordinal(f) - 1];
  }

  // ---------------------------------------------------------------------
  // The data bit string

  /** `n` zero bits. */
  function Falses(n: nat): (r: seq<bool>)
    ensures |r| == n && forall i :: 0 <= i < n ==> !r[i]
  {
    seq(n, _ => false)
  }

  /** The terminator: up to four zero bits, as many as the capacity allows. */
  function TerminatorLen(len: nat, cap: nat): (r: nat)
    requires len <= cap
    ensures r <= 4 && len + r <= cap
    ensures r == 4 || len + r == cap
  {
    if cap - len < 4 then cap - len else 4
  }

  /** Zero bits that bring a length up to a multiple of 8. */
  function BitPadLen(len: nat): (r: nat)
    ensures r < 8 && (len + r) % 8 == 0
  {
    (8 - len % 8) % 8
  }

  /** Pad byte `k`: 0xEC, 0x11, 0xEC, ... */
  function PadByte(k: nat): Byte
  {
    if k % 2 == 0 then 0xEC else 0x11
  }

  /** The bits of the first `k` pad bytes. */
  function PadBytes(k: nat): (r: seq<bool>)
    ensures |r| == 8 * k
  {
    if k == 0 then [] else PadBytes(k - 1) + ByteBits(PadByte(k - 1))
  }

  /** Length of the bits once terminated and padded to a byte boundary. */
  function AlignedLen(len: nat, cap: nat): (r: nat)
    requires len <= cap && cap % 8 == 0
    ensures len <= r <= cap && r % 8 == 0
  {
    var t := len + TerminatorLen(len, cap);
    t + BitPadLen(t)
  }

  /** The data bit string of a symbol holding `cap` bits: the segment bits,
      the terminator, zero bits to the next byte boundary, then pad bytes up
      to the capacity. */
  function DataBits(bits: seq<bool>, cap: nat): (r: seq<bool>)
    requires |bits| <= cap && cap % 8 == 0
    ensures |r| == cap
  {
    var t := bits + Falses(TerminatorLen(|bits|, cap));
    var a := t + Falses(BitPadLen(|t|));
    var k := (cap - |a|) / 8;
    assert |a| == AlignedLen(|bits|, cap);
    WholeBytes(cap, |a|);
    a + PadBytes(k)
  }

  /** The gap between two multiples of 8 is a whole number of bytes. */
  lemma WholeBytes(cap: int, len: int)
    requires cap % 8 == 0 && len % 8 == 0 && len <= cap
    ensures (cap - len) % 8 == 0 && 8 * ((cap - len) / 8) == cap - len
  {
    assert cap == 8 * (cap / 8) && len == 8 * (len / 8);
    assert cap - len == 8 * (cap / 8 - len / 8);
  }

  /** The data bit string fills the capacity exactly, starts with the
      segment bits, and is zero between them and the pad bytes. */
  lemma DataBitsShape(bits: seq<bool>, cap: nat)
    requires |bits| <= cap && cap % 8 == 0
    ensures var d := DataBits(bits, cap);
      |d| == cap && d[..|bits|] == bits
      && (forall i :: |bits| <= i < AlignedLen(|bits|, cap) ==> !d[i])
      && d[AlignedLen(|bits|, cap)..] == PadBytes((cap - AlignedLen(|bits|, cap)) / 8)
  {
  }

  /** The terminator and the bit padding never exceed the capacity, and the
      terminator is four bits whenever four bits remain. */
  lemma TerminatorBounds(len: nat, cap: nat)
    requires len <= cap && cap % 8 == 0
    ensures AlignedLen(len, cap) - len < 12
    ensures cap - len >= 4 ==> AlignedLen(len, cap) >= len + 4
  {
  }

  /** The pad bytes, packed, alternate 0xEC and 0x11, starting with 0xEC. */
  lemma {:induction false} PadBytesPacked(k: nat)
    ensures PackBits(PadBytes(k)) == seq(k, j requires 0 <= j < k => PadByte(j))
  {
    if k > 0 {
      PadBytesPacked(k - 1);
      PackBitsSnoc(PadBytes(k - 1), ByteBits(PadByte(k - 1)));
      ByteBitsRoundTrip(PadByte(k - 1));
    }
  }

  /** The data codewords: the segment bits, read back from the codewords,
      come first, and every codeword after the terminated and aligned bits
      is a pad byte, alternating 0xEC and 0x11 from 0xEC. */
  lemma DataCodewordsShape(bits: seq<bool>, cap: nat)
    requires |bits| <= cap && cap % 8 == 0
    ensures var cw := PackBits(DataBits(bits, cap));
      var start := AlignedLen(|bits|, cap) / 8;
      |cw| == cap / 8
      && BytesBits(cw)[..|bits|] == bits
      && forall j :: start <= j < |cw| ==> cw[j] == PadByte(j - start)
  {
    DataBitsShape(bits, cap);
    DataCodewordsPrefix(bits, cap);
    DataCodewordsPads(bits, cap);
  }

  lemma DataCodewordsPrefix(bits: seq<bool>, cap: nat)
    requires |bits| <= cap && cap % 8 == 0
    ensures |DataBits(bits, cap)| == cap
    ensures BytesBits(PackBits(DataBits(bits, cap)))[..|bits|] == bits
  {
    DataBitsShape(bits, cap);
    PackBitsRoundTrip(DataBits(bits, cap));
  }

  lemma DataCodewordsPads(bits: seq<bool>, cap: nat)
    requires |bits| <= cap && cap % 8 == 0
    ensures |DataBits(bits, cap)| == cap
    ensures var cw := PackBits(DataBits(bits, cap));
      var start := AlignedLen(|bits|, cap) / 8;
      forall j :: start <= j < |cw| ==> cw[j] == PadByte(j - start)
  {
    var d := DataBits(bits, cap);
    var al := AlignedLen(|bits|, cap);
    DataBitsShape(bits, cap);
    var head, tail := d[..al], d[al..];
    assert d == head + tail;
    PackBitsConcat(head, tail);
    PadBytesPacked((cap - al) / 8);
    var cw := PackBits(d);
    var pads := PackBits(tail);
    assert cw == PackBits(head) + pads && |PackBits(head)| == al / 8;
    forall j | al / 8 <= j < |cw|
      ensures cw[j] == PadByte(j - al / 8)
    {
      assert cw[j] == pads[j - al / 8];
    }
  }

  /** The bits of the segments, as the segment loop of encodeSegments
      appends them; no appendBits call can throw once the counts fit. */
  method AppendSegments(segs: seq<Segment>, ver: Version) returns (bb: seq<bool>)
    requires TotalBits(segs, ver).Some?
    ensures bb == SegmentsBits(segs, ver)
  {
    bb := [];
    for i := 0 to |segs|
      invariant bb == SegmentsBits(segs[..i], ver)
    {
      assert CountFits(segs[i], ver);
      bb := AppendSegment(segs[i], ver, bb);
      assert segs[..i + 1][..i] == segs[..i];
    }
    assert segs[..|segs|] == segs;
  }

  /** One iteration of the segment loop: mode indicator, character count,
      then the segment's data bits. */
  method AppendSegment(seg: Segment, ver: Version, bb: seq<bool>) returns (out: seq<bool>)
    requires CountFits(seg, ver)
    ensures out == bb + SegmentBits(seg, ver)
  {
    var cc := NumCharCountBits(seg.mode, ver);
    var mb := ModeBits(seg.mode);
    var n := seg.numChars;
    HeaderAccepted(seg, ver);
    var withMode := AppendField(mb, 4, bb);
    var withCount := AppendField(n, cc, withMode);
    out := withCount + seg.bitData;
    SegmentBitsAfter(bb, seg, ver);
  }

  /** Both header fields of a segment whose count fits are accepted by
      appendBits. */
  lemma HeaderAccepted(seg: Segment, ver: Version)
    requires CountFits(seg, ver)
    ensures AppendAccepts(ModeBits(seg.mode), 4) && ModeBits(seg.mode) % TwoTo32 == ModeBits(seg.mode)
    ensures AppendAccepts(seg.numChars, NumCharCountBits(seg.mode, ver))
      && seg.numChars % TwoTo32 == seg.numChars
  {
    CountFieldAccepted(ModeBits(seg.mode), 4);
    CountFieldAccepted(seg.numChars, NumCharCountBits(seg.mode, ver));
  }

  /** Appending the three parts one after another appends the segment's bits. */
  lemma SegmentBitsAfter(bb: seq<bool>, seg: Segment, ver: Version)
    ensures bb + ToBits(ModeBits(seg.mode), 4) + ToBits(seg.numChars, NumCharCountBits(seg.mode, ver))
      + seg.bitData == bb + SegmentBits(seg, ver)
  {
  }

  /** appendBits on a field known to be in range: it cannot throw, and adds
      the field's bits. */
  method AppendField(val: nat, len: nat, bb: seq<bool>) returns (out: seq<bool>)
    requires AppendAccepts(val, len) && val % TwoTo32 == val
    ensures out == bb + ToBits(val, len)
  {
    var r := AppendBits(val, len, bb);
    out := r.value;
  }

  /** Terminator, bit padding and pad bytes (encodeSegments after the
      segment loop). */
  method Terminate(bb: seq<bool>, cap: nat) returns (out: seq<bool>)
    requires |bb| <= cap && cap % 8 == 0
    ensures out == DataBits(bb, cap)
  {
    var aligned := AddTerminator(bb, cap);
    out := AddPadBytes(aligned, cap);
  }

  /** Up to four terminator bits, then zero bits to the byte boundary. */
  method AddTerminator(bb: seq<bool>, cap: nat) returns (out: seq<bool>)
    requires |bb| <= cap && cap % 8 == 0
    ensures var t := bb + Falses(TerminatorLen(|bb|, cap));
      out == t + Falses(BitPadLen(|t|))
  {
    var tlen := if 4 < cap - |bb| then 4 else cap - |bb|;
    ZeroAccepted(tlen);
    var r1 := AppendBits(0, tlen, bb);
    out := r1.value;
    var plen := (8 - |out| % 8) % 8;
    ZeroAccepted(plen);
    var r2 := AppendBits(0, plen, out);
    out := r2.value;
  }

  /** Alternating pad bytes 0xEC, 0x11 until the capacity is reached. */
  method AddPadBytes(a: seq<bool>, cap: nat) returns (out: seq<bool>)
    requires |a| <= cap && |a| % 8 == 0 && cap % 8 == 0
    ensures out == a + PadBytes((cap - |a|) / 8)
  {
    ghost var n := (cap - |a|) / 8;
    assert |a| + 8 * n == cap;
    out := a;
    var padByte: Byte := 0xEC;
    ghost var k := 0;
    while |out| < cap
      invariant k <= n && out == a + PadBytes(k) && padByte == PadByte(k)
      decreases cap - |out|
    {
      PadByteBits(k);
      var r := AppendBits(padByte as int, 8, out);
      PadBytesStep(a, k);
      out := r.value;
      NextPadByte(k);
      padByte := padByte ^ 0xEC ^ 0x11;
      k := k + 1;
    }
  }

  lemma PadBytesStep(a: seq<bool>, k: nat)
    ensures a + PadBytes(k) + ByteBits(PadByte(k)) == a + PadBytes(k + 1)
  {
  }

  /** XOR with 0xEC ^ 0x11 alternates the two pad bytes. */
  lemma NextPadByte(k: nat)
    ensures PadByte(k) ^ 0xEC ^ 0x11 == PadByte(k + 1)
  {
  }

  /** Appending a pad byte with appendBits writes its eight bits. */
  lemma PadByteBits(k: nat)
    ensures AppendAccepts(PadByte(k) as int, 8)
    ensures ToBits(PadByte(k) as int % TwoTo32, 8) == ByteBits(PadByte(k))
  {
    ByteAccepted(PadByte(k) as int);
    ToBitsByte(PadByte(k));
  }

  // ---------------------------------------------------------------------
  // Packing into codewords

  /** The bit string completed with zero bits to a whole number of bytes. */
  function ZeroPadded(bb: seq<bool>): (r: seq<bool>)
    ensures |r| % 8 == 0 && |bb| <= |r| < |bb| + 8
    ensures forall i :: 0 <= i < |r| ==> r[i] == (i < |bb| && bb[i])
  {
    bb + Falses(BitPadLen(|bb|))
  }

  /** A whole number of bytes needs no zero padding. */
  lemma ZeroPaddedAligned(bb: seq<bool>)
    requires |bb| % 8 == 0
    ensures ZeroPadded(bb) == bb
  {
    assert BitPadLen(|bb|) == 0;
  }

  /** Byte `j` of a bit string, as eight bits. */
  function Chunk(p: seq<bool>, j: nat): (r: seq<bool>)
    requires 8 * j + 8 <= |p|
    ensures |r| == 8
  {
    p[8 * j..8 * j + 8]
  }

  /** The packing at the end of encodeSegments: enough zero codewords for
      all bits, then bit `i` ORed into codeword `i >>> 3` at weight
      2^(7 - (i & 7)). */
  method PackCodewords(bb: seq<bool>) returns (cw: seq<Byte>)
    ensures cw == PackBits(ZeroPadded(bb))
  {
    var data := ZeroCodewords(|bb|);
    OrInBits(data, bb);
    ghost var p := ZeroPadded(bb);
    forall q | 0 <= q < data.Length
      ensures data[q] == PackBits(p)[q]
    {
      PackBitsIndex(p, q);
    }
    cw := data[..];
  }

  /** `dataCodewords.push(0)` until the codewords can hold `n` bits. */
  method ZeroCodewords(n: nat) returns (data: array<Byte>)
    ensures fresh(data) && data.Length * 8 == |ZeroPadded(Falses(n))|
    ensures forall q :: 0 <= q < data.Length ==> data[q] == 0
  {
    var count := 0;
    while count * 8 < n
      invariant count * 8 < n + 8
    {
      count := count + 1;
    }
    data := new Byte[count](_ => 0);
  }

  /** `bb.forEach((b, i) => dataCodewords[i >>> 3] |= b << (7 - (i & 7)))`
      on zeroed codewords: afterwards each codeword is its byte of the
      zero-padded bits. */
  method OrInBits(data: array<Byte>, bb: seq<bool>)
    requires data.Length * 8 == |ZeroPadded(bb)|
    requires forall q :: 0 <= q < data.Length ==> data[q] == 0
    modifies data
    ensures forall q :: 0 <= q < data.Length ==> data[q] == BitsByte(Chunk(ZeroPadded(bb), q))
  {
    ghost var p := ZeroPadded(bb);
    ghost var q, k := 0, 0;
    for i := 0 to |bb|
      invariant i == 8 * q + k && 0 <= k < 8
      invariant forall j :: 0 <= j < q ==> data[j] == BitsByte(Chunk(p, j))
      invariant q < data.Length ==> data[q] == OrBits(Chunk(p, q), k)
      invariant forall j :: q < j < data.Length ==> data[j] == 0
    {
      PackStep(bb, i, q, k);
      data[i / 8] := data[i / 8] | Weight(bb[i], i % 8);
      assert data[q] == OrBits(Chunk(p, q), k + 1);
      if k == 7 {
        q, k := q + 1, 0;
      } else {
        k := k + 1;
      }
    }
    if k > 0 {
      OrBitsClearTail(Chunk(p, q), k, 8);
    }
  }

  /** Bit `i` = 8q + k of `bb` is bit k of codeword q. */
  lemma PackStep(bb: seq<bool>, i: int, q: int, k: int)
    requires 0 <= i < |bb| && i == 8 * q + k && 0 <= k < 8
    ensures i / 8 == q && i % 8 == k && 8 * q + 8 <= |ZeroPadded(bb)|
    ensures Chunk(ZeroPadded(bb), q)[k] == bb[i]
  {
  }

  // ---------------------------------------------------------------------
  // makeBytes as the source writes it

  /** Entry `i` of the source's bit list, the appended terminator and
      alignment zeros included. */
  function RawEntry(entries: seq<int>, i: nat): int
  {
    if i < |entries| then entries[i] else 0
  }

  /** Codeword `j` as the packing computes it from a bit list whose entries
      are numbers: `dataCodewords[i >>> 3] |= b << (7 - (i & 7))` in 32-bit
      arithmetic, over the eight entries of the codeword. */
  function RawCodeword(entries: seq<int>, j: nat, k: nat): bv32
    requires k <= 8
    requires forall i :: 0 <= i < |entries| ==> 0 <= entries[i] < 256
  {
    if k == 0 then 0
    else
      var b := RawEntry(entries, 8 * j + k - 1);
      RawCodeword(entries, j, k - 1) | ((b as bv32) << (8 - k))
  }

  /** The multiplier the remainder loop computes from a codeword `b`: the
      source's `b ^ result.shift()`, in 32-bit arithmetic. */
  function Factor(b: bv32, s: Byte): int
  {
    (b ^ (s as bv32)) as int
  }

  /** encodeText("A") as written: makeBytes hands the byte 0x41 to the bit
      list as one entry, the packing ORs 0x41 << 3 into the second codeword,
      which becomes 536, and the Reed-Solomon remainder then multiplies by
      536 XOR a byte, which reedSolomonMultiply rejects. */
  lemma MakeBytesAsWrittenOverflows()
    ensures var raw := RawSegmentBits(MakeBytesAsWritten([0x41]), 1);
      raw == LetterABits() && RawCodeword(raw, 1, 8) == 536
    ensures forall s: Byte :: !IsByteOperand(Factor(536, s))
  {
    LetterAEntries();
    LetterACodeword();
    forall s: Byte
      ensures !IsByteOperand(Factor(536, s))
    {
      WideFactor(s);
    }
  }

  /** The bit list of "A" at version 1: mode 0100, count 00000001, then the
      byte 0x41 as a single entry. */
  function LetterABits(): seq<int>
  {
    [0, 1, 0, 0, 0, 0, 0, 0, 0, 0, 0, 1, 0x41]
  }

  lemma LetterAEntries()
    ensures RawSegmentBits(MakeBytesAsWritten([0x41]), 1) == LetterABits()
  {
  }

  lemma LetterACodeword()
    ensures RawCodeword(LetterABits(), 1, 8) == 536
  {
    var raw := LetterABits();
    assert RawCodeword(raw, 1, 3) == 0;
    assert RawCodeword(raw, 1, 4) == 16;
    assert RawEntry(raw, 12) == 0x41;
    assert (0x41 as bv32) << 3 == 520;
    assert RawCodeword(raw, 1, 5) == 536;
    assert RawCodeword(raw, 1, 6) == 536;
    assert RawCodeword(raw, 1, 7) == 536;
  }

  lemma WideFactor(s: Byte)
    ensures 512 <= Factor(536, s) < 1024
  {
  }
}
