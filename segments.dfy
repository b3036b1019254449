/** Data segments: the encoding modes, the bit cost of a segment list, the
    bit string a segment list contributes to a symbol, and the conversion of
    text into a byte-mode segment (makeSegments, makeBytes, toUtf8ByteArray). */
module Segments {
  import opened Wrappers
  import opened Bits
  import opened Tables

  /** The encoding modes of the source's Mode objects. */
  datatype Mode = NumericMode | AlphanumericMode | ByteMode | KanjiMode | EciMode

  /** The 4-bit mode indicator. */
  function ModeBits(m: Mode): (r: nat)
    ensures r < 16
  {
    match m
    case NumericMode => 0x1
    case AlphanumericMode => 0x2
    case ByteMode => 0x4
    case KanjiMode => 0x8
    case EciMode => 0x7
  }

  /** Character count field width of a mode in one of the three version
      tiers (versions 1-9, 10-26 and 27-40). */
  function CharCountWidth(m: Mode, tier: nat): (r: nat)
    requires tier < 3
    ensures r <= 16
  {
    match m
    case NumericMode => if tier == 0 then 10 else if tier == 1 then 12 else 14
    case AlphanumericMode => if tier == 0 then 9 else if tier == 1 then 11 else 13
    case ByteMode => if tier == 0 then 8 else 16
    case KanjiMode => if tier == 0 then 8 else if tier == 1 then 10 else 12
    case EciMode => 0
  }

  /** numCharCountBits: the width of the character count field, chosen by
      version tier. */
  function NumCharCountBits(m: Mode, ver: Version): (r: nat)
    ensures 1 <= ver <= 9 ==> r == CharCountWidth(m, 0)
    ensures 10 <= ver <= 26 ==> r == CharCountWidth(m, 1)
    ensures 27 <= ver <= 40 ==> r == CharCountWidth(m, 2)
    ensures r <= 16
  {
    CharCountWidth(m, (ver + 7) / 17)
  }

  /** A segment: its mode, its character count and its data bits. */
  datatype Segment = Segment(mode: Mode, numChars: nat, bitData: seq<bool>)

  /** Whether the segment's character count fits its count field at `ver`
      (the source's `numChars < 1 << ccbits`). */
  predicate CountFits(seg: Segment, ver: Version)
  {
    seg.numChars < ShiftOne(NumCharCountBits(seg.mode, ver))
  }

  /** Bits one segment takes: mode indicator, count field and data. */
  function SegmentCost(seg: Segment, ver: Version): nat
  {
    4 + NumCharCountBits(seg.mode, ver) + |seg.bitData|
  }

  function SumCost(segs: seq<Segment>, ver: Version): nat
  {
    if |segs| == 0 then 0
    else SumCost(segs[..|segs| - 1], ver) + SegmentCost(segs[|segs| - 1], ver)
  }

  /** The bit cost of a segment list at a version, or None (the source's
      Infinity) when some count does not fit its field. */
  function TotalBits(segs: seq<Segment>, ver: Version): Option<nat>
  {
    if forall i :: 0 <= i < |segs| ==> CountFits(segs[i], ver) then Some(SumCost(segs, ver))
    else None
  }

  /** getTotalBits: adds up the segment costs, returning Infinity as soon as
      one count does not fit. */
  method GetTotalBits(segs: seq<Segment>, ver: Version) returns (r: Option<nat>)
    ensures r == TotalBits(segs, ver)
  {
    var result := 0;
    var i := 0;
    while i < |segs|
      invariant 0 <= i <= |segs|
      invariant forall j :: 0 <= j < i ==> CountFits(segs[j], ver)
      invariant result == SumCost(segs[..i], ver)
    {
      var seg := segs[i];
      var ccbits := NumCharCountBits(seg.mode, ver);
      if seg.numChars >= ShiftOne(ccbits) {
        return None;
      }
      assert segs[..i + 1][..i] == segs[..i];
      result := result + 4 + ccbits + |seg.bitData|;
      i := i + 1;
    }
    assert segs[..i] == segs;
    return Some(result);
  }

  /** The bits one segment contributes: mode indicator, character count and
      data (the body of encodeSegments' segment loop). */
  function SegmentBits(seg: Segment, ver: Version): seq<bool>
  {
    ToBits(ModeBits(seg.mode), 4) + ToBits(seg.numChars, NumCharCountBits(seg.mode, ver)) + seg.bitData
  }

  function SegmentsBits(segs: seq<Segment>, ver: Version): seq<bool>
  {
    if |segs| == 0 then [] else SegmentsBits(segs[..|segs| - 1], ver) + SegmentBits(segs[|segs| - 1], ver)
  }

  /** The reported bit cost is exactly the length of the bits the segments
      contribute. */
  lemma {:induction false} TotalBitsIsLength(segs: seq<Segment>, ver: Version)
    requires TotalBits(segs, ver).Some?
    ensures TotalBits(segs, ver).value == |SegmentsBits(segs, ver)|
  {
    if |segs| > 0 {
      var init := segs[..|segs| - 1];
      assert forall i :: 0 <= i < |init| ==> init[i] == segs[i];
      TotalBitsIsLength(init, ver);
    }
  }

  /** A segment list is too long for `ver` exactly when some count overflows
      its field. */
  lemma TotalBitsInfinite(segs: seq<Segment>, ver: Version)
    ensures TotalBits(segs, ver).None? <==>
      exists i :: 0 <= i < |segs| && segs[i].numChars >= ShiftOne(NumCharCountBits(segs[i].mode, ver))
  {
  }

  /** A segment's count field reads back as its character count. */
  lemma SegmentBitsReadBack(seg: Segment, ver: Version)
    requires CountFits(seg, ver)
    ensures var b := SegmentBits(seg, ver);
      var cc := NumCharCountBits(seg.mode, ver);
      FromBits(b[..4]) == ModeBits(seg.mode)
      && FromBits(b[4..4 + cc]) == seg.numChars
      && b[4 + cc..] == seg.bitData
  {
    var b := SegmentBits(seg, ver);
    var cc := NumCharCountBits(seg.mode, ver);
    assert b[..4] == ToBits(ModeBits(seg.mode), 4);
    assert b[4..4 + cc] == ToBits(seg.numChars, cc);
    ShiftOneIsPow2(4);
    ShiftOneIsPow2(cc);
    FromToBits(ModeBits(seg.mode), 4);
    FromToBits(seg.numChars, cc);
  }

  // ---------------------------------------------------------------------
  // Text to segments

  /** A UTF-16 code unit: what the engine reads from a string with
      `charCodeAt`. */
  type CodeUnit = c: int | 0 <= c < 0x10000

  /** A byte as the engine holds it: a number in 0..255. */
  type Octet = b: int | 0 <= b < 256

  /** The UTF-8 bytes the engine emits for one code unit.  The bit fields are
      disjoint, so the source's `|` is written as `+`. */
  function EncodeUnit(c: CodeUnit): (r: seq<Octet>)
    ensures |r| == (if c < 0x80 then 1 else if c < 0x800 then 2 else 3)
    ensures c < 0x80 ==> r == [c]
    ensures c >= 0x80 ==> 0xC0 <= r[0] && forall k :: 1 <= k < |r| ==> 0x80 <= r[k] < 0xC0
  {
    if c < 0x80 then [c]
    else if c < 0x800 then [0xC0 + c / 64, 0x80 + c % 64]
    else [0xE0 + c / 4096, 0x80 + c / 64 % 64, 0x80 + c % 64]
  }

  function Utf8Encode(s: seq<CodeUnit>): seq<Octet>
  {
    if |s| == 0 then [] else Utf8Encode(s[..|s| - 1]) + EncodeUnit(s[|s| - 1])
  }

  /** toUtf8ByteArray: the bytes of every code unit in turn.  A code unit is
      at most 0xFFFF, so the four-byte branch of the source never runs; each
      half of a surrogate pair becomes its own three-byte sequence. */
  method ToUtf8ByteArray(str: seq<CodeUnit>) returns (result: seq<Octet>)
    ensures result == Utf8Encode(str)
  {
    result := [];
    var i := 0;
    while i < |str|
      invariant 0 <= i <= |str|
      invariant result == Utf8Encode(str[..i])
    {
      var code := str[i];
      if code < 0x80 {
        result := result + [code];
      } else if code < 0x800 {
        result := result + [0xC0 + code / 64];
        result := result + [0x80 + code % 64];
      } else {
        result := result + [0xE0 + code / 4096];
        result := result + [0x80 + code / 64 % 64];
        result := result + [0x80 + code % 64];
      }
      assert str[..i + 1][..i] == str[..i];
      i := i + 1;
    }
    assert str[..i] == str;
  }

  predicate IsContinuation(b: Octet)
  {
    0x80 <= b < 0xC0
  }

  /** Decodes the first one-, two- or three-byte sequence: the code unit and
      the number of bytes it took. */
  function DecodeFirst(bs: seq<Octet>): Option<(CodeUnit, nat)>
  {
    if |bs| == 0 then None
    else if bs[0] < 0x80 then Some((bs[0], 1))
    else if 0xC0 <= bs[0] < 0xE0 && |bs| >= 2 && IsContinuation(bs[1]) then
      Some(((bs[0] as int - 0xC0) * 64 + (bs[1] as int - 0x80), 2))
    else if 0xE0 <= bs[0] < 0xF0 && |bs| >= 3 && IsContinuation(bs[1]) && IsContinuation(bs[2]) then
      Some(((bs[0] as int - 0xE0) * 4096 + (bs[1] as int - 0x80) * 64 + (bs[2] as int - 0x80), 3))
    else None
  }

  /** A reference decoder for the byte sequences the engine emits. */
  function Utf8Decode(bs: seq<Octet>): Option<seq<CodeUnit>>
    decreases |bs|
  {
    if |bs| == 0 then Some([])
    else match DecodeFirst(bs)
      case None => None
      case Some((c, n)) =>
        if 1 <= n <= |bs| then
          match Utf8Decode(bs[n..])
          case None => None
          case Some(rest) => Some([c] + rest)
        else None
  }

  lemma DecodeFirstEncodeUnit(c: CodeUnit, rest: seq<Octet>)
    ensures DecodeFirst(EncodeUnit(c) + rest) == Some((c, |EncodeUnit(c)|))
  {
  }

  /** Utf8Encode, written from the front. */
  lemma {:induction false} Utf8EncodeCons(c: CodeUnit, s: seq<CodeUnit>)
    ensures Utf8Encode([c] + s) == EncodeUnit(c) + Utf8Encode(s)
    decreases |s|
  {
    if |s| > 0 {
      var t := [c] + s;
      assert t[..|t| - 1] == [c] + s[..|s| - 1];
      Utf8EncodeCons(c, s[..|s| - 1]);
    }
  }

  /** The engine's UTF-8 conversion loses nothing: decoding its bytes gives
      back the code units. */
  lemma {:induction false} Utf8RoundTrip(s: seq<CodeUnit>)
    ensures Utf8Decode(Utf8Encode(s)) == Some(s)
    decreases |s|
  {
    if |s| > 0 {
      var e := EncodeUnit(s[0]);
      var rest := Utf8Encode(s[1..]);
      assert s == [s[0]] + s[1..];
      Utf8EncodeCons(s[0], s[1..]);
      DecodeFirstEncodeUnit(s[0], rest);
      assert (e + rest)[|e|..] == rest;
      Utf8RoundTrip(s[1..]);
    }
  }

  /** Each half of a surrogate pair is emitted as three bytes of its own (no
      four-byte sequence is ever produced). */
  lemma SurrogatesTakeThreeBytes(c: CodeUnit)
    requires 0xD800 <= c <= 0xDFFF
    ensures EncodeUnit(c) == [0xED, 0x80 + c / 64 % 64, 0x80 + c % 64]
    ensures 0xA0 <= EncodeUnit(c)[1] <= 0xBF
  {
  }

  /** The data bits of a byte string, eight bits per byte, most significant
      first. */
  function OctetsBits(data: seq<Octet>): (r: seq<bool>)
    ensures |r| == 8 * |data|
  {
    if |data| == 0 then [] else ToBits(data[0], 8) + OctetsBits(data[1..])
  }

  /** The bytes of a bit string of whole bytes. */
  function BitsOctets(bits: seq<bool>): (r: seq<Octet>)
    requires |bits| % 8 == 0
    ensures |r| == |bits| / 8
  {
    if |bits| == 0 then []
    else
      FromBitsBound(bits[..8]);
      assert Pow2(8) == 256;
      [FromBits(bits[..8])] + BitsOctets(bits[8..])
  }

  lemma {:induction false} OctetsBitsRoundTrip(data: seq<Octet>)
    ensures BitsOctets(OctetsBits(data)) == data
  {
    if |data| > 0 {
      var w := OctetsBits(data);
      assert w[..8] == ToBits(data[0], 8);
      assert w[8..] == OctetsBits(data[1..]);
      assert Pow2(8) == 256;
      FromToBits(data[0], 8);
      OctetsBitsRoundTrip(data[1..]);
    }
  }

  /** makeBytes, with the bytes expanded into the bit string the assembler
      expects: a byte-mode segment counting the bytes, whose data bits are
      the bytes most significant bit first. */
  function MakeBytes(data: seq<Octet>): (seg: Segment)
    ensures seg.mode == ByteMode && seg.numChars == |data|
    ensures |seg.bitData| == 8 * seg.numChars
    ensures BitsOctets(seg.bitData) == data
  {
    OctetsBitsRoundTrip(data);
    Segment(ByteMode, |data|, OctetsBits(data))
  }

  /** The segments makeSegments builds for `text`. */
  function TextSegments(text: seq<CodeUnit>): seq<Segment>
  {
    if |text| == 0 then [] else [MakeBytes(Utf8Encode(text))]
  }

  /** makeSegments: no segment for the empty string, otherwise one byte-mode
      segment holding the text's UTF-8 bytes. */
  method MakeSegments(text: seq<CodeUnit>) returns (segs: seq<Segment>)
    ensures segs == TextSegments(text)
    ensures |text| == 0 <==> segs == []
    ensures |text| > 0 ==> |segs| == 1 && segs[0].mode == ByteMode
    ensures |text| > 0 ==> segs[0].numChars == |Utf8Encode(text)|
    ensures |text| > 0 ==> |segs[0].bitData| == 8 * segs[0].numChars
    ensures |text| > 0 ==> Utf8Decode(BitsOctets(segs[0].bitData)) == Some(text)
  {
    if |text| == 0 {
      return [];
    }
    var bytes := ToUtf8ByteArray(text);
    Utf8RoundTrip(text);
    return [MakeBytes(bytes)];
  }

  /** A byte string whose length fits the byte-mode count field at `ver`
      yields a segment that fits (16-bit counts from version 10 on). */
  lemma MakeBytesFits(data: seq<Octet>, ver: Version)
    requires |data| < ShiftOne(NumCharCountBits(ByteMode, ver))
    ensures CountFits(MakeBytes(data), ver)
    ensures SegmentCost(MakeBytes(data), ver) == 4 + NumCharCountBits(ByteMode, ver) + 8 * |data|
  {
  }

  // ---------------------------------------------------------------------
  // makeBytes as the source writes it

  /** The bit list of the source, whose entries are numbers: 0 and 1 from
      appendBits, and whatever a segment's bitData holds. */
  datatype RawSegment = RawSegment(mode: Mode, numChars: nat, bitData: seq<int>)

  /** makeBytes as written: the byte values themselves become bitData. */
  function MakeBytesAsWritten(data: seq<Octet>): (seg: RawSegment)
    ensures seg.mode == ByteMode && seg.numChars == |data| && seg.bitData == data
  {
    RawSegment(ByteMode, |data|, data)
  }

  function BitValue(b: bool): int
  {
    if b then 1 else 0
  }

  /** The source's bit list after the segment loop, as written: the header
      bits as 0/1 entries followed by the raw bitData entries. */
  function RawSegmentBits(seg: RawSegment, ver: Version): seq<int>
  {
    var header := ToBits(ModeBits(seg.mode), 4) + ToBits(seg.numChars, NumCharCountBits(seg.mode, ver));
    seq(|header|, i requires 0 <= i < |header| => BitValue(header[i])) + seg.bitData
  }
}
