/** The QR Code symbol as the source's QrCode object builds it: a square
    grid of modules (dark = true) and, beside it, the flags of the modules
    that belong to function patterns, both updated in place by the drawing
    methods of assets/qr-generator.js. */
module Symbol {
  import opened Wrappers
  import opened Bits
  import opened Tables
  import opened Grids
  import opened Placement
  import opened Masking
  import opened Penalty

  /** `Math.max(Math.abs(dx), Math.abs(dy))`: the square ring, around a
      pattern's centre, that an offset lies on. */
  function Ring(dx: int, dy: int): nat
  {
    if Abs(dx) < Abs(dy) then Abs(dy) else Abs(dx)
  }

  // ---------------------------------------------------------------------
  // Format information (section 7.9 of ISO/IEC 18004)

  /** The generator of the (15, 5) BCH code,
      x^10 + x^8 + x^5 + x^4 + x^2 + x + 1. */
  const FormatGenerator: bv32 := 0x537

  /** The pattern XORed into the format word so that it is never all zero. */
  const FormatMask: bv32 := 0x5412

  /** Number of check bits of the format word. */
  const FormatChecks: nat := 10

  /** The five data bits: the level's two-bit code, then the mask number. */
  function FormatData(e: Ecc, mask: int): (d: bv32)
    requires 0 <= mask < 8
    ensures d < 32
  {
    ((FormatBits(e) as bv32) << 3) | (mask as bv32)
  }

  /** One step of the BCH remainder loop: shift left and, when bit 9 was
      set, subtract the generator. */
  function FormatShift(rem: bv32): bv32
  {
    (rem << 1) ^ ((rem >> 9) * FormatGenerator)
  }

  /** The register of the BCH remainder loop after `k` steps. */
  function FormatRemainder(data: bv32, k: nat): bv32
    requires k <= FormatChecks
  {
    if k == 0 then data else FormatShift(FormatRemainder(data, k - 1))
  }

  /** Data bits followed by the check bits, XORed with the mask. */
  function FormatJoin(data: bv32, rem: bv32): bv32
  {
    ((data << 10) | rem) ^ FormatMask
  }

  /** The 15-bit format word: data, ten check bits, then the XOR mask. */
  function FormatWord(e: Ecc, mask: int): bv32
    requires 0 <= mask < 8
  {
    var data := FormatData(e, mask);
    FormatJoin(data, FormatRemainder(data, FormatChecks))
  }

  /** The BCH computation at the head of drawFormatBits, for given data
      bits. */
  method ComputeFormatWord(data: bv32) returns (w: bv32)
    ensures w == FormatJoin(data, FormatRemainder(data, FormatChecks))
  {
    var rem := data;
    for i := 0 to FormatChecks
      invariant rem == FormatRemainder(data, i)
    {
      rem := FormatShift(rem);
    }
    w := FormatJoin(data, rem);
  }

  /** The register never reaches bit 10: the generator's leading term
      cancels the bit shifted into that place. */
  lemma {:induction false} FormatRemainderBound(data: bv32, k: nat)
    requires data < 1024 && k <= FormatChecks
    ensures FormatRemainder(data, k) < 1024
  {
    if k > 0 {
      FormatRemainderBound(data, k - 1);
      FormatShiftBound(FormatRemainder(data, k - 1));
    }
  }

  lemma FormatShiftBound(rem: bv32)
    requires rem < 1024
    ensures FormatShift(rem) < 1024
  {
    if rem < 512 {
      assert rem >> 9 == 0;
    } else {
      assert rem >> 9 == 1;
    }
  }

  /** The code is systematic: unmasking the format word and dropping the
      check bits gives back the level code and the mask, and the word has
      15 bits. */
  lemma FormatWordDecodes(e: Ecc, mask: int)
    requires 0 <= mask < 8
    ensures (FormatWord(e, mask) ^ FormatMask) >> 10 == FormatData(e, mask)
    ensures FormatWord(e, mask) < 0x8000
  {
    FormatRemainderBound(FormatData(e, mask), FormatChecks);
  }

  /** Distinct levels or masks give distinct format words, so a reader can
      recover both from the symbol. */
  lemma FormatWordInjective(e1: Ecc, m1: int, e2: Ecc, m2: int)
    requires 0 <= m1 < 8 && 0 <= m2 < 8
    requires FormatWord(e1, m1) == FormatWord(e2, m2)
    ensures e1 == e2 && m1 == m2
  {
    FormatWordDecodes(e1, m1);
    FormatWordDecodes(e2, m2);
    FormatDataInjective(e1, m1, e2, m2);
  }

  lemma FormatDataInjective(e1: Ecc, m1: int, e2: Ecc, m2: int)
    requires 0 <= m1 < 8 && 0 <= m2 < 8
    requires FormatData(e1, m1) == FormatData(e2, m2)
    ensures e1 == e2 && m1 == m2
  {
    var b1, b2 := FormatBits(e1) as bv32, FormatBits(e2) as bv32;
    assert FormatData(e1, m1) >> 3 == b1 && FormatData(e1, m1) & 7 == m1 as bv32;
    assert FormatData(e2, m2) >> 3 == b2 && FormatData(e2, m2) & 7 == m2 as bv32;
    FormatBitsInjective(e1, e2);
  }

  /** Entries of the format information table of ISO/IEC 18004 (annex C),
      step by step through the remainder loop. */
  lemma FormatWordLow0()
    ensures FormatWord(Low, 0) == 0x77C4
  {
    assert FormatData(Low, 0) == 8;
    assert FormatRemainder(8, 1) == 0x10;
    assert FormatRemainder(8, 2) == 0x20;
    assert FormatRemainder(8, 3) == 0x40;
    assert FormatRemainder(8, 4) == 0x80;
    assert FormatRemainder(8, 5) == 0x100;
    assert FormatRemainder(8, 6) == 0x200;
    assert FormatRemainder(8, 7) == 0x137;
    assert FormatRemainder(8, 8) == 0x26E;
    assert FormatRemainder(8, 9) == 0x1EB;
    assert FormatRemainder(8, 10) == 0x3D6;
  }

  lemma FormatWordQuartile0()
    ensures FormatWord(Quartile, 0) == 0x355F
  {
    assert FormatData(Quartile, 0) == 24;
    assert FormatRemainder(24, 1) == 0x30;
    assert FormatRemainder(24, 2) == 0x60;
    assert FormatRemainder(24, 3) == 0xC0;
    assert FormatRemainder(24, 4) == 0x180;
    assert FormatRemainder(24, 5) == 0x300;
    assert FormatRemainder(24, 6) == 0x337;
    assert FormatRemainder(24, 7) == 0x359;
    assert FormatRemainder(24, 8) == 0x385;
    assert FormatRemainder(24, 9) == 0x23D;
    assert FormatRemainder(24, 10) == 0x14D;
  }

  lemma FormatWordHigh7()
    ensures FormatWord(High, 7) == 0x083B
  {
    assert FormatData(High, 7) == 23;
    assert FormatRemainder(23, 1) == 0x2E;
    assert FormatRemainder(23, 2) == 0x5C;
    assert FormatRemainder(23, 3) == 0xB8;
    assert FormatRemainder(23, 4) == 0x170;
    assert FormatRemainder(23, 5) == 0x2E0;
    assert FormatRemainder(23, 6) == 0xF7;
    assert FormatRemainder(23, 7) == 0x1EE;
    assert FormatRemainder(23, 8) == 0x3DC;
    assert FormatRemainder(23, 9) == 0x28F;
    assert FormatRemainder(23, 10) == 0x29;
  }

  // ---------------------------------------------------------------------
  // Version information (versions 7 and up)

  /** The generator of the (18, 6) BCH code,
      x^12 + x^11 + x^10 + x^9 + x^8 + x^5 + x^2 + 1. */
  const VersionGenerator: bv32 := 0x1F25

  /** Number of check bits of the version word. */
  const VersionChecks: nat := 12

  /** One step of the version word's remainder loop (bit 11 is the top). */
  function VersionShift(rem: bv32): bv32
  {
    (rem << 1) ^ ((rem >> 11) * VersionGenerator)
  }

  function VersionRemainder(v: bv32, k: nat): bv32
    requires k <= VersionChecks
  {
    if k == 0 then v else VersionShift(VersionRemainder(v, k - 1))
  }

  /** Six version bits followed by the check bits. */
  function VersionJoin(v: bv32, rem: bv32): bv32
  {
    (v << 12) | rem
  }

  /** The 18-bit version word: six version bits and twelve check bits. */
  function VersionWord(ver: Version): bv32
  {
    var v := ver as bv32;
    VersionJoin(v, VersionRemainder(v, VersionChecks))
  }

  /** The BCH computation at the head of drawVersion, for given version
      bits. */
  method ComputeVersionWord(v: bv32) returns (w: bv32)
    ensures w == VersionJoin(v, VersionRemainder(v, VersionChecks))
  {
    var rem := v;
    for i := 0 to VersionChecks
      invariant rem == VersionRemainder(v, i)
    {
      rem := VersionShift(rem);
    }
    w := VersionJoin(v, rem);
  }

  lemma {:induction false} VersionRemainderBound(v: bv32, k: nat)
    requires v < 4096 && k <= VersionChecks
    ensures VersionRemainder(v, k) < 4096
  {
    if k > 0 {
      VersionRemainderBound(v, k - 1);
      VersionShiftBound(VersionRemainder(v, k - 1));
    }
  }

  lemma VersionShiftBound(rem: bv32)
    requires rem < 4096
    ensures VersionShift(rem) < 4096
  {
    if rem < 2048 {
      assert rem >> 11 == 0;
    } else {
      assert rem >> 11 == 1;
    }
  }

  /** The version word carries the version in its top six bits and has 18
      bits. */
  lemma VersionWordDecodes(ver: Version)
    ensures VersionWord(ver) >> 12 == ver as bv32
    ensures VersionWord(ver) < 0x40000
  {
    VersionRemainderBound(ver as bv32, VersionChecks);
  }

  /** Entries of the version information table of ISO/IEC 18004 (annex D). */
  lemma VersionWord7()
    ensures VersionWord(7) == 0x07C94
  {
    assert VersionRemainder(7, 1) == 0xE;
    assert VersionRemainder(7, 2) == 0x1C;
    assert VersionRemainder(7, 3) == 0x38;
    assert VersionRemainder(7, 4) == 0x70;
    assert VersionRemainder(7, 5) == 0xE0;
    assert VersionRemainder(7, 6) == 0x1C0;
    assert VersionRemainder(7, 7) == 0x380;
    assert VersionRemainder(7, 8) == 0x700;
    assert VersionRemainder(7, 9) == 0xE00;
    assert VersionRemainder(7, 10) == 0x325;
    assert VersionRemainder(7, 11) == 0x64A;
    assert VersionRemainder(7, 12) == 0xC94;
  }

  lemma VersionWord40()
    ensures VersionWord(40) == 0x28C69
  {
    assert VersionRemainder(40, 1) == 0x50;
    assert VersionRemainder(40, 2) == 0xA0;
    assert VersionRemainder(40, 3) == 0x140;
    assert VersionRemainder(40, 4) == 0x280;
    assert VersionRemainder(40, 5) == 0x500;
    assert VersionRemainder(40, 6) == 0xA00;
    assert VersionRemainder(40, 7) == 0xB25;
    assert VersionRemainder(40, 8) == 0x96F;
    assert VersionRemainder(40, 9) == 0xDFB;
    assert VersionRemainder(40, 10) == 0x4D3;
    assert VersionRemainder(40, 11) == 0x9A6;
    assert VersionRemainder(40, 12) == 0xC69;
  }

  // ---------------------------------------------------------------------
  // Function patterns

  /** The function patterns the source draws. */
  datatype Pattern =
    | Timing                      // row 6 and column 6
    | Finder(cx: int, cy: int)    // 7x7 finder with its light separator
    | Alignment(cx: int, cy: int) // 5x5 alignment pattern
    | FormatInfo(bits: seq<bool>)  // both copies of the format word
    | VersionInfo(bits: seq<bool>) // both copies of the version word

  /** Position of module (x, y) among the format modules in the order
      drawFormatBits sets them: bits 0..14 of the first copy, bits 0..14
      of the second copy, then the dark module; -1 for other modules. */
  function FormatStep(size: int, x: int, y: int): (s: int)
    ensures -1 <= s <= 30
  {
    if x == 8 && 0 <= y <= 5 then y
    else if x == 8 && y == 7 then 6
    else if x == 8 && y == 8 then 7
    else if x == 7 && y == 8 then 8
    else if y == 8 && 0 <= x <= 5 then 14 - x
    else if y == 8 && size - 8 <= x < size then 15 + (size - 1 - x)
    else if x == 8 && size - 7 <= y < size then 15 + (y - size + 15)
    else if x == 8 && y == size - 8 then 30
    else -1
  }

  /** Position of module (x, y) among the version modules in the order
      drawVersion sets them: step 2i is bit i in the block left of the
      top-right finder, step 2i + 1 the same bit in the transposed block
      above the bottom-left finder; -1 for other modules. */
  function VersionStep(size: int, x: int, y: int): (s: int)
    ensures -1 <= s < 36
  {
    if size - 11 <= x <= size - 9 && 0 <= y <= 5 then 2 * (3 * y + x - (size - 11))
    else if size - 11 <= y <= size - 9 && 0 <= x <= 5 then 2 * (3 * x + y - (size - 11)) + 1
    else -1
  }

  /** Position of module (x, y) in the order the source draws pattern `p`
      (-1 when `p` does not cover it). */
  function Step(p: Pattern, size: int, x: int, y: int): int
  {
    match p
    case Timing => if x == 6 then 2 * y else if y == 6 then 2 * x + 1 else -1
    case Finder(cx, cy) =>
      if Abs(x - cx) <= 4 && Abs(y - cy) <= 4 then 9 * (y - cy + 4) + (x - cx + 4) else -1
    case Alignment(cx, cy) =>
      if Abs(x - cx) <= 2 && Abs(y - cy) <= 2 then 5 * (y - cy + 2) + (x - cx + 2) else -1
    case FormatInfo(_) => FormatStep(size, x, y)
    case VersionInfo(_) => VersionStep(size, x, y)
  }

  /** The one module a finder pattern draws at a given step. */
  lemma FinderStepAt(cx: int, cy: int, dx: int, dy: int)
    requires -4 <= dx <= 4 && -4 <= dy <= 4
    ensures forall size, x, y :: Step(Finder(cx, cy), size, x, y) == 9 * (dy + 4) + (dx + 4) ==> x == cx + dx && y == cy + dy
  {
  }

  /** The one module an alignment pattern draws at a given step. */
  lemma AlignmentStepAt(cx: int, cy: int, dx: int, dy: int)
    requires -2 <= dx <= 2 && -2 <= dy <= 2
    ensures forall size, x, y :: Step(Alignment(cx, cy), size, x, y) == 5 * (dy + 2) + (dx + 2) ==> x == cx + dx && y == cy + dy
  {
  }

  /** Step 2i of the timing patterns is module i of column 6, step 2i + 1
      module i of row 6. */
  lemma TimingStepAt(i: int)
    requires 0 <= i
    ensures forall size, x, y :: Step(Timing, size, x, y) == 2 * i ==> x == 6 && y == i
    ensures forall size, x, y :: Step(Timing, size, x, y) == 2 * i + 1 ==> x == i && y == 6
  {
  }

  /** Step 2i of the version patterns is bit i of the block left of the
      top-right finder, step 2i + 1 the same bit of the transposed block. */
  lemma VersionStepAt(size: int, bits: seq<bool>, i: int)
    requires 0 <= i < 18
    ensures forall x, y :: Step(VersionInfo(bits), size, x, y) == 2 * i ==> x == size - 11 + i % 3 && y == i / 3
    ensures forall x, y :: Step(VersionInfo(bits), size, x, y) == 2 * i + 1 ==> x == i / 3 && y == size - 11 + i % 3
  {
  }

  /** Column and row of step `s` of the format patterns. */
  function FormatX(size: int, s: int): int
  {
    if s <= 7 then 8 else if s == 8 then 7 else if s <= 14 then 14 - s
    else if s <= 22 then size - 1 - (s - 15) else 8
  }

  function FormatY(size: int, s: int): int
  {
    if s <= 5 then s else if s <= 7 then s + 1 else if s <= 22 then 8
    else if s <= 29 then size - 30 + s else size - 8
  }

  /** The one module the format patterns draw at a given step. */
  lemma FormatStepAt(size: int, bits: seq<bool>, s: int)
    requires size >= 21 && 0 <= s <= 30
    ensures forall x, y :: Step(FormatInfo(bits), size, x, y) == s ==> x == FormatX(size, s) && y == FormatY(size, s)
  {
  }

  /** Number of drawing steps of a pattern. */
  function Steps(p: Pattern, size: int): int
  {
    match p
    case Timing => 2 * size
    case Finder(_, _) => 81
    case Alignment(_, _) => 25
    case FormatInfo(_) => 31
    case VersionInfo(_) => 36
  }

  /** The colour pattern `p` gives module (x, y). */
  function Shade(p: Pattern, size: int, x: int, y: int): bool
  {
    match p
    case Timing => if x == 6 then y % 2 == 0 else x % 2 == 0
    case Finder(cx, cy) => var d := Ring(x - cx, y - cy); d != 2 && d != 4
    case Alignment(cx, cy) => Ring(x - cx, y - cy) != 1
    case FormatInfo(bits) =>
      var s := FormatStep(size, x, y);
      if s == 30 then true else 0 <= s && s % 15 < |bits| && bits[s % 15]
    case VersionInfo(bits) =>
      var s := VersionStep(size, x, y);
      0 <= s && s / 2 < |bits| && bits[s / 2]
  }

  /** The first `n` bits of a word, as getBit reads them. */
  function WordBits(w: int, n: nat): (r: seq<bool>)
    requires n <= 32
    ensures |r| == n && forall i :: 0 <= i < n ==> r[i] == GetBit(w, i)
  {
    seq(n, i requires 0 <= i < n => GetBit(w, i))
  }

  /** `k` values from `bottom` upwards, `step` apart. */
  function Ladder(bottom: int, step: int, k: nat): (r: seq<int>)
    ensures |r| == k
    decreases k
  {
    if k == 0 then [] else [bottom] + Ladder(bottom + step, step, k - 1)
  }

  lemma {:induction false} LadderAt(bottom: int, step: int, k: nat, j: nat)
    requires j < k
    ensures Ladder(bottom, step, k)[j] == bottom + j * step
    decreases k
  {
    if j > 0 {
      LadderAt(bottom + step, step, k - 1, j - 1);
    }
  }

  /** A ladder is determined by its top rung. */
  lemma LadderFromTop(bottom: int, step: int, k: nat, j: nat)
    requires j < k
    ensures Ladder(bottom, step, k)[j] == Ladder(bottom, step, k)[k - 1] - (k - 1 - j) * step
  {
    LadderAt(bottom, step, k, j);
    LadderAt(bottom, step, k, k - 1);
    assert (k - 1) * step == j * step + (k - 1 - j) * step;
  }

  /** The alignment coordinates past the leading 6 form a ladder whose top
      rung is size - 7. */
  lemma LadderIsAlignmentPositions(v: Version, bottom: int)
    requires v >= 2
    requires Ladder(bottom, AlignStep(v), NumAlign(v) - 1)[NumAlign(v) - 2] == Size(v) - 7
    ensures [6] + Ladder(bottom, AlignStep(v), NumAlign(v) - 1) == AlignmentPositions(v)
  {
    var n, step := NumAlign(v), AlignStep(v);
    var l := Ladder(bottom, step, n - 1);
    forall j | 0 <= j < n - 1
      ensures l[j] == Size(v) - 7 - (n - 2 - j) * step
    {
      LadderFromTop(bottom, step, n - 1, j);
    }
  }

  /** The loop of getAlignmentPatternPositions: starting from [6], insert
      `top`, `top - step`, ... after the leading 6 until there are `n`
      entries. */
  method SplicePositions(top: int, step: int, n: int) returns (result: seq<int>, ghost bottom: int)
    requires n >= 1
    ensures result == [6] + Ladder(bottom, step, n - 1)
    ensures n >= 2 ==> result[n - 1] == top
  {
    result := [6];
    var pos := top;
    ghost var k := 0;
    while |result| < n
      invariant |result| == k + 1 <= n
      invariant result == [6] + Ladder(pos + step, step, k)
      invariant if k == 0 then pos == top else result[k] == top
    {
      assert result[1..] == Ladder(pos + step, step, k);
      result := [result[0]] + [pos] + result[1..];
      assert result == [6] + Ladder(pos, step, k + 1);
      pos := pos - step;
      k := k + 1;
    }
    bottom := pos + step;
  }

  /** Pattern `p` draws module (x, y). */
  predicate Covers(p: Pattern, size: int, x: int, y: int)
  {
    0 <= Step(p, size, x, y) < Steps(p, size)
  }

  /** The index of the last pattern of `ps` that draws module (x, y), or
      -1: when patterns are drawn in order, the last one decides. */
  function Top(ps: seq<Pattern>, size: int, x: int, y: int): (t: int)
    ensures -1 <= t < |ps|
    ensures t >= 0 ==> Covers(ps[t], size, x, y)
    ensures forall k :: t < k < |ps| ==> !Covers(ps[k], size, x, y)
  {
    if |ps| == 0 then -1
    else if Covers(ps[|ps| - 1], size, x, y) then |ps| - 1
    else Top(ps[..|ps| - 1], size, x, y)
  }

  /** Drawing one more pattern: it decides the modules it draws. */
  lemma TopSnoc(ps: seq<Pattern>, p: Pattern, size: int, x: int, y: int)
    ensures Top(ps + [p], size, x, y) == if Covers(p, size, x, y) then |ps| else Top(ps, size, x, y)
  {
    assert (ps + [p])[..|ps|] == ps;
  }

  /** Drawing a second list of patterns after a first one. */
  lemma {:induction false} TopAppend(a: seq<Pattern>, b: seq<Pattern>, size: int, x: int, y: int)
    ensures Top(a + b, size, x, y) == if Top(b, size, x, y) >= 0 then |a| + Top(b, size, x, y) else Top(a, size, x, y)
    decreases |b|
  {
    if |b| == 0 {
      assert a + b == a;
    } else {
      var b', p := b[..|b| - 1], b[|b| - 1];
      assert b == b' + [p];
      assert a + b == (a + b') + [p];
      TopSnoc(a + b', p, size, x, y);
      TopSnoc(b', p, size, x, y);
      TopAppend(a, b', size, x, y);
    }
  }

  /** Whether the alignment pattern at (pos[i], pos[j]) is one of the three
      that would overlap a finder pattern, which the source skips. */
  predicate IsCorner(i: int, j: int, n: int)
  {
    (i == 0 && j == 0) || (i == 0 && j == n - 1) || (i == n - 1 && j == 0)
  }

  /** The alignment patterns drawFunctionPatterns draws in row `i` of its
      nested loop, for columns 0 to j - 1: centre (pos[i], pos[j]). */
  function RowAlignments(pos: seq<int>, i: int, j: int): (r: seq<Pattern>)
    requires 0 <= i < |pos| && 0 <= j <= |pos|
    ensures forall k :: 0 <= k < |r| ==> r[k].Alignment? && r[k].cx == pos[i] && r[k].cy in pos
  {
    if j == 0 then []
    else RowAlignments(pos, i, j - 1) + (if IsCorner(i, j - 1, |pos|) then [] else [Alignment(pos[i], pos[j - 1])])
  }

  /** The alignment patterns of rows 0 to i - 1 of the nested loop. */
  function AllAlignments(pos: seq<int>, i: int): (r: seq<Pattern>)
    requires 0 <= i <= |pos|
    ensures forall k :: 0 <= k < |r| ==> r[k].Alignment? && r[k].cx in pos && r[k].cy in pos
  {
    if i == 0 then [] else AllAlignments(pos, i - 1) + RowAlignments(pos, i - 1, |pos|)
  }

  /** The timing patterns and the three finder patterns of a symbol of
      side `size`. */
  function TimingAndFinders(size: int): seq<Pattern>
  {
    [Timing] + [Finder(3, 3)] + [Finder(size - 4, 3)] + [Finder(3, size - 4)]
  }

  /** The version information, present from version 7 on. */
  function VersionPatterns(v: Version): seq<Pattern>
  {
    if v >= 7 then [VersionInfo(WordBits(VersionWord(v) as int, 18))] else []
  }

  /** The function patterns of a symbol in the order drawFunctionPatterns
      draws them (with format information for mask 0). */
  function FunctionPatterns(v: Version, e: Ecc): seq<Pattern>
  {
    TimingAndFinders(Size(v))
    + AllAlignments(AlignmentPositions(v), |AlignmentPositions(v)|)
    + [FormatInfo(WordBits(FormatWord(e, 0) as int, 15))]
    + VersionPatterns(v)
  }

  /** Patterns `above` drawn over layers `below`, all over grids `g0`
      (colours) and `f0` (function flags). */
  datatype Stack = Stack(g0: Grid, f0: Grid, below: seq<Pattern>, above: seq<Pattern>)

  /** The contents of a two-dimensional array, row by row. */
  ghost function Snapshot(a: array2<bool>): (g: Grid)
    reads a
    ensures |g| == a.Length0 && forall y :: 0 <= y < |g| ==> |g[y]| == a.Length1
    ensures forall y, x :: 0 <= y < a.Length0 && 0 <= x < a.Length1 ==> g[y][x] == a[y, x]
  {
    seq(a.Length0, y requires 0 <= y < a.Length0 reads a =>
      seq(a.Length1, x requires 0 <= x < a.Length1 reads a => a[y, x]))
  }

  class QrCode {
    /** The symbol's version and error correction level. */
    const version: Version
    const ecl: Ecc
    /** `version * 4 + 17`, the source's size getter. */
    const size: int
    /** The mask in use once the symbol is complete (-1 before). */
    var mask: int
    /** `modules[y, x]` is the colour of the module in column x, row y. */
    const modules: array2<bool>
    /** `isFunction[y, x]` marks the modules of function patterns. */
    const isFunction: array2<bool>

    ghost predicate Valid()
    {
      size == Size(version) && IsSymbolSize(size)
      && modules.Length0 == size && modules.Length1 == size
      && isFunction.Length0 == size && isFunction.Length1 == size
      && modules != isFunction
    }

    /** The first half of the source's constructor: an all-light grid with
        no function modules. */
    constructor Blank(ver: Version, level: Ecc)
      ensures Valid() && version == ver && ecl == level && mask == -1
      ensures fresh(modules) && fresh(isFunction)
      ensures forall y, x :: 0 <= y < size && 0 <= x < size ==> !modules[y, x] && !isFunction[y, x]
    {
      version := ver;
      ecl := level;
      size := Size(ver);
      mask := -1;
      modules := new bool[Size(ver), Size(ver)]((_, _) => false);
      isFunction := new bool[Size(ver), Size(ver)]((_, _) => false);
    }

    /** getModule: the colour of a module; coordinates outside the symbol
        read as light. */
    function GetModule(x: int, y: int): (dark: bool)
      requires Valid()
      reads modules
      ensures dark ==> 0 <= x < size && 0 <= y < size
      ensures 0 <= x < size && 0 <= y < size ==> (dark <==> modules[y, x])
    {
      0 <= x < size && 0 <= y < size && modules[y, x]
    }

    /** Drawing steps `lo` to `hi - 1` of `p` have coloured their modules
        with the pattern's colour and flagged them as function modules;
        every other module is as it was. */
    twostate predicate Painted(p: Pattern, lo: int, hi: int)
      requires Valid()
      reads modules, isFunction
    {
      forall y, x :: 0 <= y < size && 0 <= x < size ==>
        if lo <= Step(p, size, x, y) < hi then modules[y, x] == Shade(p, size, x, y) && isFunction[y, x]
        else modules[y, x] == old(modules[y, x]) && isFunction[y, x] == old(isFunction[y, x])
    }

    /** Every module drawn by some pattern of `ps` has the colour of the last
        one that draws it and is flagged; every other module still has its
        colour and flag from grids `g0` and `f0`. */
    ghost predicate Layers(g0: Grid, f0: Grid, ps: seq<Pattern>)
      requires Valid() && IsGrid(g0, size) && IsGrid(f0, size)
      reads modules, isFunction
    {
      forall y, x {:trigger Top(ps, size, x, y)} :: 0 <= y < size && 0 <= x < size ==>
        var t := Top(ps, size, x, y);
        if t >= 0 then modules[y, x] == Shade(ps[t], size, x, y) && isFunction[y, x]
        else modules[y, x] == g0[y][x] && isFunction[y, x] == f0[y][x]
    }

    /** Drawing all of the one pattern `s.above` over layers `s.below`. */
    twostate lemma ExtendLayers(s: Stack)
      requires Valid() && IsGrid(s.g0, size) && IsGrid(s.f0, size) && |s.above| == 1
      requires old(Layers(s.g0, s.f0, s.below))
      requires Painted(s.above[0], 0, Steps(s.above[0], size))
      ensures Layers(s.g0, s.f0, s.below + s.above)
    {
      forall y, x | 0 <= y < size && 0 <= x < size {
        TopSnoc(s.below, s.above[0], size, x, y);
      }
    }

    /** Drawing layers `s.above` over layers `s.below`. */
    twostate lemma StackLayers(s: Stack)
      requires Valid() && IsGrid(s.g0, size) && IsGrid(s.f0, size)
      requires old(Layers(s.g0, s.f0, s.below))
      requires Layers(old(Snapshot(modules)), old(Snapshot(isFunction)), s.above)
      ensures Layers(s.g0, s.f0, s.below + s.above)
    {
      var a, b := s.below, s.above;
      forall y, x | 0 <= y < size && 0 <= x < size
        ensures var t := Top(a + b, size, x, y);
          if t >= 0 then modules[y, x] == Shade((a + b)[t], size, x, y) && isFunction[y, x]
          else modules[y, x] == s.g0[y][x] && isFunction[y, x] == s.f0[y][x]
      {
        TopAppend(a, b, size, x, y);
        var t := Top(b, size, x, y);
        if t >= 0 {
          assert (a + b)[|a| + t] == b[t];
        } else {
          assert modules[y, x] == old(modules[y, x]) && isFunction[y, x] == old(isFunction[y, x]);
        }
      }
    }

    /** setFunctionModule: colour one module and flag it. */
    method SetFunctionModule(x: int, y: int, dark: bool)
      requires Valid() && 0 <= x < size && 0 <= y < size
      modifies modules, isFunction
      ensures modules[y, x] == dark && isFunction[y, x]
      ensures forall j, i :: 0 <= j < size && 0 <= i < size && (j != y || i != x) ==>
        modules[j, i] == old(modules[j, i]) && isFunction[j, i] == old(isFunction[j, i])
    {
      modules[y, x] := dark;
      isFunction[y, x] := true;
    }

    /** drawFinderPattern: the 9x9 square around (x, y), clipped to the
        symbol: rings 0, 1 and 3 dark, rings 2 and 4 light. */
    method DrawFinderPattern(x: int, y: int)
      requires Valid()
      modifies modules, isFunction
      ensures Painted(Finder(x, y), 0, 81)
    {
      var dy := -4;
      while dy <= 4
        invariant -4 <= dy <= 5
        invariant Painted(Finder(x, y), 0, 9 * (dy + 4))
      {
        DrawFinderRow(x, y, dy);
        dy := dy + 1;
      }
    }

    /** One row of drawFinderPattern's loop. */
    method DrawFinderRow(x: int, y: int, dy: int)
      requires Valid() && -4 <= dy <= 4
      modifies modules, isFunction
      ensures Painted(Finder(x, y), 9 * (dy + 4), 9 * (dy + 5))
    {
      var dx := -4;
      while dx <= 4
        invariant -4 <= dx <= 5
        invariant Painted(Finder(x, y), 9 * (dy + 4), 9 * (dy + 4) + (dx + 4))
      {
        FinderStepAt(x, y, dx, dy);
        var dist := Ring(dx, dy);
        var xx, yy := x + dx, y + dy;
        if 0 <= xx < size && 0 <= yy < size {
          SetFunctionModule(xx, yy, dist != 2 && dist != 4);
        }
        dx := dx + 1;
      }
    }

    /** drawAlignmentPattern: the 5x5 square around (x, y): ring 1 light,
        the centre and ring 2 dark.  The source does not clip; its callers
        keep the square inside the symbol. */
    method DrawAlignmentPattern(x: int, y: int)
      requires Valid() && 2 <= x < size - 2 && 2 <= y < size - 2
      modifies modules, isFunction
      ensures Painted(Alignment(x, y), 0, 25)
    {
      var dy := -2;
      while dy <= 2
        invariant -2 <= dy <= 3
        invariant Painted(Alignment(x, y), 0, 5 * (dy + 2))
      {
        DrawAlignmentRow(x, y, dy);
        dy := dy + 1;
      }
    }

    /** One row of drawAlignmentPattern's loop. */
    method DrawAlignmentRow(x: int, y: int, dy: int)
      requires Valid() && 2 <= x < size - 2 && 2 <= y < size - 2 && -2 <= dy <= 2
      modifies modules, isFunction
      ensures Painted(Alignment(x, y), 5 * (dy + 2), 5 * (dy + 3))
    {
      var dx := -2;
      while dx <= 2
        invariant -2 <= dx <= 3
        invariant Painted(Alignment(x, y), 5 * (dy + 2), 5 * (dy + 2) + (dx + 2))
      {
        AlignmentStepAt(x, y, dx, dy);
        SetFunctionModule(x + dx, y + dy, Ring(dx, dy) != 1);
        dx := dx + 1;
      }
    }

    /** drawFormatBits: both copies of the format word for this symbol's
        level and mask `m`, and the dark module beside the bottom-left
        copy. */
    method DrawFormatBits(m: int)
      requires Valid() && 0 <= m < 8
      modifies modules, isFunction
      ensures Painted(FormatInfo(WordBits(FormatWord(ecl, m) as int, 15)), 0, 31)
    {
      var w := ComputeFormatWord(FormatData(ecl, m));
      var bits := w as int;
      DrawFirstFormatCopy(bits);
      DrawSecondFormatCopy(bits);
    }

    /** The copy of the format word around the top-left finder pattern. */
    method DrawFirstFormatCopy(bits: int)
      requires Valid()
      modifies modules, isFunction
      ensures Painted(FormatInfo(WordBits(bits, 15)), 0, 15)
    {
      FormatColumnTop(bits);
      FormatCorner(bits);
      FormatRowLeft(bits);
    }

    /** Bits 0 to 5 in column 8, rows 0 to 5. */
    method FormatColumnTop(bits: int)
      requires Valid()
      modifies modules, isFunction
      ensures Painted(FormatInfo(WordBits(bits, 15)), 0, 6)
    {
      for i := 0 to 6
        invariant Painted(FormatInfo(WordBits(bits, 15)), 0, i)
      {
        FormatStepAt(size, WordBits(bits, 15), i);
        SetFunctionModule(8, i, GetBit(bits, i));
      }
    }

    /** Bits 6 to 8 around the corner of the timing patterns. */
    method FormatCorner(bits: int)
      requires Valid()
      modifies modules, isFunction
      ensures Painted(FormatInfo(WordBits(bits, 15)), 6, 9)
    {
      FormatStepAt(size, WordBits(bits, 15), 6);
      FormatStepAt(size, WordBits(bits, 15), 7);
      FormatStepAt(size, WordBits(bits, 15), 8);
      SetFunctionModule(8, 7, GetBit(bits, 6));
      SetFunctionModule(8, 8, GetBit(bits, 7));
      SetFunctionModule(7, 8, GetBit(bits, 8));
    }

    /** Bits 9 to 14 in row 8, columns 5 down to 0. */
    method FormatRowLeft(bits: int)
      requires Valid()
      modifies modules, isFunction
      ensures Painted(FormatInfo(WordBits(bits, 15)), 9, 15)
    {
      for i := 9 to 15
        invariant Painted(FormatInfo(WordBits(bits, 15)), 9, i)
      {
        FormatStepAt(size, WordBits(bits, 15), i);
        SetFunctionModule(14 - i, 8, GetBit(bits, i));
      }
    }

    /** The copy split between the top-right and bottom-left finder
        patterns, and the dark module. */
    method DrawSecondFormatCopy(bits: int)
      requires Valid()
      modifies modules, isFunction
      ensures Painted(FormatInfo(WordBits(bits, 15)), 15, 31)
    {
      FormatRowRight(bits);
      FormatColumnBottom(bits);
      FormatStepAt(size, WordBits(bits, 15), 30);
      SetFunctionModule(8, size - 8, true);
    }

    /** Bits 0 to 7 in row 8, from the right edge leftwards. */
    method FormatRowRight(bits: int)
      requires Valid()
      modifies modules, isFunction
      ensures Painted(FormatInfo(WordBits(bits, 15)), 15, 23)
    {
      for i := 0 to 8
        invariant Painted(FormatInfo(WordBits(bits, 15)), 15, 15 + i)
      {
        FormatStepAt(size, WordBits(bits, 15), 15 + i);
        SetFunctionModule(size - 1 - i, 8, GetBit(bits, i));
      }
    }

    /** Bits 8 to 14 in column 8, the bottom seven rows. */
    method FormatColumnBottom(bits: int)
      requires Valid()
      modifies modules, isFunction
      ensures Painted(FormatInfo(WordBits(bits, 15)), 23, 30)
    {
      for i := 8 to 15
        invariant Painted(FormatInfo(WordBits(bits, 15)), 23, 15 + i)
      {
        FormatStepAt(size, WordBits(bits, 15), 15 + i);
        SetFunctionModule(8, size - 15 + i, GetBit(bits, i));
      }
    }

    /** drawVersion: from version 7, both copies of the version word;
        below 7, nothing. */
    method DrawVersion()
      requires Valid()
      modifies modules, isFunction
      ensures Painted(VersionInfo(WordBits(VersionWord(version) as int, 18)), 0, if version < 7 then 0 else 36)
    {
      if version < 7 {
        return;
      }
      var w := ComputeVersionWord(version as bv32);
      DrawVersionBits(w as int);
    }

    /** The loop of drawVersion: bit i goes to the block left of the
        top-right finder and, transposed, above the bottom-left one. */
    method DrawVersionBits(bits: int)
      requires Valid()
      modifies modules, isFunction
      ensures Painted(VersionInfo(WordBits(bits, 18)), 0, 36)
    {
      for i := 0 to 18
        invariant Painted(VersionInfo(WordBits(bits, 18)), 0, 2 * i)
      {
        DrawVersionBit(bits, i);
      }
    }

    /** One iteration of drawVersion's loop: both modules of bit i. */
    method DrawVersionBit(bits: int, i: int)
      requires Valid() && 0 <= i < 18
      modifies modules, isFunction
      ensures Painted(VersionInfo(WordBits(bits, 18)), 2 * i, 2 * i + 2)
    {
      VersionStepAt(size, WordBits(bits, 18), i);
      var bit := GetBit(bits, i);
      var a, b := size - 11 + i % 3, i / 3;
      SetFunctionModule(a, b, bit);
      SetFunctionModule(b, a, bit);
    }

    /** drawFunctionPatterns: timing patterns, the three finder patterns,
        the alignment patterns, format information for mask 0 and version
        information, each drawn over the ones before. */
    method DrawFunctionPatterns()
      requires Valid()
      modifies modules, isFunction
      ensures Layers(old(Snapshot(modules)), old(Snapshot(isFunction)), FunctionPatterns(version, ecl))
    {
      ghost var g0, f0 := Snapshot(modules), Snapshot(isFunction);
      assert Layers(g0, f0, []);
      LayerTimingAndFinders(g0, f0);
      ghost var ps := TimingAndFinders(size);
      LayerAlignments(g0, f0, ps);
      ps := ps + AllAlignments(AlignmentPositions(version), |AlignmentPositions(version)|);
      LayerFormatAndVersion(g0, f0, ps);
    }

    /** The steps of drawFunctionPatterns, each stated as one more layer
        over grids `g0` and `f0`. */
    method LayerTiming(ghost g0: Grid, ghost f0: Grid)
      requires Valid() && IsGrid(g0, size) && IsGrid(f0, size) && Layers(g0, f0, [])
      modifies modules, isFunction
      ensures Layers(g0, f0, [Timing])
    {
      label before:
      DrawTimingPatterns();
      ExtendLayers@before(Stack(g0, f0, [], [Timing]));
    }

    method LayerTimingAndFinders(ghost g0: Grid, ghost f0: Grid)
      requires Valid() && IsGrid(g0, size) && IsGrid(f0, size) && Layers(g0, f0, [])
      modifies modules, isFunction
      ensures Layers(g0, f0, TimingAndFinders(size))
    {
      LayerTiming(g0, f0);
      LayerFinder(3, 3, g0, f0, [Timing]);
      LayerFinder(size - 4, 3, g0, f0, [Timing] + [Finder(3, 3)]);
      LayerFinder(3, size - 4, g0, f0, [Timing] + [Finder(3, 3)] + [Finder(size - 4, 3)]);
    }

    method LayerFinder(x: int, y: int, ghost g0: Grid, ghost f0: Grid, ghost ps: seq<Pattern>)
      requires Valid() && IsGrid(g0, size) && IsGrid(f0, size) && Layers(g0, f0, ps)
      modifies modules, isFunction
      ensures Layers(g0, f0, ps + [Finder(x, y)])
    {
      label before:
      DrawFinderPattern(x, y);
      ExtendLayers@before(Stack(g0, f0, ps, [Finder(x, y)]));
    }

    method LayerAlignments(ghost g0: Grid, ghost f0: Grid, ghost ps: seq<Pattern>)
      requires Valid() && IsGrid(g0, size) && IsGrid(f0, size) && Layers(g0, f0, ps)
      modifies modules, isFunction
      ensures Layers(g0, f0, ps + AllAlignments(AlignmentPositions(version), |AlignmentPositions(version)|))
    {
      var pos := GetAlignmentPatternPositions();
      label before:
      DrawAlignmentPatterns(pos);
      StackLayers@before(Stack(g0, f0, ps, AllAlignments(pos, |pos|)));
    }

    method LayerFormatAndVersion(ghost g0: Grid, ghost f0: Grid, ghost ps: seq<Pattern>)
      requires Valid() && IsGrid(g0, size) && IsGrid(f0, size) && Layers(g0, f0, ps)
      modifies modules, isFunction
      ensures Layers(g0, f0, ps + [FormatInfo(WordBits(FormatWord(ecl, 0) as int, 15))] + VersionPatterns(version))
    {
      LayerFormat(0, g0, f0, ps);
      LayerVersion(g0, f0, ps + [FormatInfo(WordBits(FormatWord(ecl, 0) as int, 15))]);
    }

    method LayerFormat(m: int, ghost g0: Grid, ghost f0: Grid, ghost ps: seq<Pattern>)
      requires Valid() && 0 <= m < 8
      requires IsGrid(g0, size) && IsGrid(f0, size) && Layers(g0, f0, ps)
      modifies modules, isFunction
      ensures Layers(g0, f0, ps + [FormatInfo(WordBits(FormatWord(ecl, m) as int, 15))])
    {
      label before:
      DrawFormatBits(m);
      ExtendLayers@before(Stack(g0, f0, ps, [FormatInfo(WordBits(FormatWord(ecl, m) as int, 15))]));
    }

    method LayerVersion(ghost g0: Grid, ghost f0: Grid, ghost ps: seq<Pattern>)
      requires Valid() && IsGrid(g0, size) && IsGrid(f0, size) && Layers(g0, f0, ps)
      modifies modules, isFunction
      ensures Layers(g0, f0, ps + VersionPatterns(version))
    {
      label before:
      DrawVersion();
      if version >= 7 {
        ExtendLayers@before(Stack(g0, f0, ps, [VersionInfo(WordBits(VersionWord(version) as int, 18))]));
      } else {
        assert ps + [] == ps;
      }
    }

    /** The nested loop of drawFunctionPatterns: an alignment pattern at
        every pair of coordinates except the three finder corners. */
    method DrawAlignmentPatterns(pos: seq<int>)
      requires Valid() && pos == AlignmentPositions(version)
      modifies modules, isFunction
      ensures Layers(old(Snapshot(modules)), old(Snapshot(isFunction)), AllAlignments(pos, |pos|))
    {
      ghost var g0, f0 := Snapshot(modules), Snapshot(isFunction);
      for i := 0 to |pos|
        invariant Layers(g0, f0, AllAlignments(pos, i))
      {
        label row:
        DrawAlignmentLine(pos, i);
        StackLayers@row(Stack(g0, f0, AllAlignments(pos, i), RowAlignments(pos, i, |pos|)));
      }
    }

    /** One pass of the inner loop: the alignment patterns centred in
        column pos[i]. */
    method DrawAlignmentLine(pos: seq<int>, i: int)
      requires Valid() && pos == AlignmentPositions(version) && 0 <= i < |pos|
      modifies modules, isFunction
      ensures Layers(old(Snapshot(modules)), old(Snapshot(isFunction)), RowAlignments(pos, i, |pos|))
    {
      ghost var g0, f0 := Snapshot(modules), Snapshot(isFunction);
      for j := 0 to |pos|
        invariant Layers(g0, f0, RowAlignments(pos, i, j))
      {
        DrawAlignmentAt(pos, i, j, g0, f0);
      }
    }

    /** One iteration of the inner loop: the pattern at (pos[i], pos[j])
        unless it is a finder corner. */
    method DrawAlignmentAt(pos: seq<int>, i: int, j: int, ghost g0: Grid, ghost f0: Grid)
      requires Valid() && pos == AlignmentPositions(version) && 0 <= i < |pos| && 0 <= j < |pos|
      requires IsGrid(g0, size) && IsGrid(f0, size) && Layers(g0, f0, RowAlignments(pos, i, j))
      modifies modules, isFunction
      ensures Layers(g0, f0, RowAlignments(pos, i, j + 1))
    {
      if !IsCorner(i, j, |pos|) {
        AlignmentPositionsInside(version);
        label before:
        DrawAlignmentPattern(pos[i], pos[j]);
        ExtendLayers@before(Stack(g0, f0, RowAlignments(pos, i, j), [Alignment(pos[i], pos[j])]));
        assert RowAlignments(pos, i, j + 1) == RowAlignments(pos, i, j) + [Alignment(pos[i], pos[j])];
      } else {
        assert RowAlignments(pos, i, j + 1) == RowAlignments(pos, i, j);
      }
    }

    /** The timing patterns: row 6 and column 6 alternate dark and light,
        dark on even coordinates. */
    method DrawTimingPatterns()
      requires Valid()
      modifies modules, isFunction
      ensures Painted(Timing, 0, 2 * size)
    {
      for i := 0 to size
        invariant Painted(Timing, 0, 2 * i)
      {
        TimingStepAt(i);
        SetFunctionModule(6, i, i % 2 == 0);
        SetFunctionModule(i, 6, i % 2 == 0);
      }
    }

    /** getAlignmentPatternPositions: the coordinates, built by inserting
        each next-lower position after the leading 6. */
    method GetAlignmentPatternPositions() returns (result: seq<int>)
      requires Valid()
      ensures result == AlignmentPositions(version)
    {
      if version == 1 {
        return [];
      }
      var numAlign := version / 7 + 2;
      var step := if version == 32 then 26
        else (version * 4 + 4 + (numAlign * 2 - 2) - 1) / (numAlign * 2 - 2) * 2;
      assert step == AlignStep(version);
      ghost var bottom;
      result, bottom := SplicePositions(size - 7, step, numAlign);
      LadderIsAlignmentPositions(version, bottom);
    }

    // -------------------------------------------------------------------
    // Data placement

    /** The modules visited before position (p, vert, j) of the zigzag
        hold their bits of `data` as placed on grid `g0` with flags `f`;
        every other module still has its colour from `g0`. */
    ghost predicate PlacedUpTo(g0: Grid, f: Grid, data: seq<Byte>, p: int, vert: int, j: int)
      requires Valid() && IsGrid(g0, size) && IsGrid(f, size)
      reads modules
    {
      forall y, x :: 0 <= y < size && 0 <= x < size ==>
        modules[y, x] == if Visited(size, x, y, p, vert, j) then Placed(g0, f, size, data, x, y) else g0[y][x]
    }

    /** drawCodewords: throws "Invalid data length" unless `data` holds
        exactly the number of codewords the version has room for; otherwise
        lays the bits of `data` along the zigzag into the modules that are
        not function modules, until the data runs out. */
    method DrawCodewords(data: seq<Byte>) returns (r: Outcome)
      requires Valid()
      modifies modules
      ensures r.Fail? <==> |data| != RawCodewords(version)
      ensures r.Fail? ==> r.error == InvalidDataLength && unchanged(modules)
      ensures r.Pass? ==> forall y, x :: 0 <= y < size && 0 <= x < size ==>
        modules[y, x] == Placed(old(Snapshot(modules)), Snapshot(isFunction), size, data, x, y)
    {
      if |data| != NumRawDataModules(version) / 8 {
        return Fail(InvalidDataLength);
      }
      ghost var g0, f := Snapshot(modules), Snapshot(isFunction);
      assert PlacedUpTo(g0, f, data, 0, 0, 0);
      var i := 0;
      var right := size - 1;
      ghost var p := 0;
      while right >= 1
        invariant 0 <= p <= Pairs(size)
        invariant right == if size - 1 - 2 * p >= 6 then size - 1 - 2 * p else size - 2 - 2 * p
        invariant i == Min(Before(f, size, p, 0, 0), 8 * |data|)
        invariant PlacedUpTo(g0, f, data, p, 0, 0)
        decreases right
      {
        if right == 6 {
          right := 5;
        }
        i := DrawCodewordStrip(data, right, i, p, g0, f);
        right := right - 2;
        p := p + 1;
      }
      r := Pass;
    }

    /** The iterations of drawCodewords' outer loop for one strip. */
    method DrawCodewordStrip(data: seq<Byte>, right: int, i0: int, ghost p: int, ghost g0: Grid, ghost f: Grid)
      returns (i: int)
      requires Valid() && IsGrid(g0, size) && f == Snapshot(isFunction)
      requires 0 <= p < Pairs(size) && right == Right(size, p)
      requires i0 == Min(Before(f, size, p, 0, 0), 8 * |data|)
      requires PlacedUpTo(g0, f, data, p, 0, 0)
      modifies modules
      ensures i == Min(Before(f, size, p + 1, 0, 0), 8 * |data|)
      ensures PlacedUpTo(g0, f, data, p + 1, 0, 0)
    {
      i := i0;
      for vert := 0 to size
        invariant i == Min(Before(f, size, p, vert, 0), 8 * |data|)
        invariant PlacedUpTo(g0, f, data, p, vert, 0)
      {
        i := DrawCodewordRow(data, right, vert, i, p, g0, f);
      }
    }

    /** One row of a strip: the right-hand module, then the left-hand one. */
    method DrawCodewordRow(data: seq<Byte>, right: int, vert: int, i0: int, ghost p: int, ghost g0: Grid, ghost f: Grid)
      returns (i: int)
      requires Valid() && IsGrid(g0, size) && f == Snapshot(isFunction)
      requires 0 <= p < Pairs(size) && right == Right(size, p) && 0 <= vert < size
      requires i0 == Min(Before(f, size, p, vert, 0), 8 * |data|)
      requires PlacedUpTo(g0, f, data, p, vert, 0)
      modifies modules
      ensures i == Min(Before(f, size, p, vert + 1, 0), 8 * |data|)
      ensures PlacedUpTo(g0, f, data, p, vert + 1, 0)
    {
      i := i0;
      for j := 0 to 2
        invariant i == Min(Before(f, size, p, vert, j), 8 * |data|)
        invariant PlacedUpTo(g0, f, data, p, vert, j)
      {
        i := DrawCodewordBit(data, right, vert, j, i, p, g0, f);
      }
    }

    /** The body of drawCodewords' innermost loop: module (right - j, y)
        takes bit i of the data when it is not a function module and the
        data is not used up.  `i >>> 3` and `i & 7` of the non-negative
        counter are `i / 8` and `i % 8`. */
    method DrawCodewordBit(data: seq<Byte>, right: int, vert: int, j: int, i0: int,
                           ghost p: int, ghost g0: Grid, ghost f: Grid)
      returns (i: int)
      requires Valid() && IsGrid(g0, size) && f == Snapshot(isFunction)
      requires 0 <= p < Pairs(size) && right == Right(size, p) && 0 <= vert < size && 0 <= j < 2
      requires i0 == Min(Before(f, size, p, vert, j), 8 * |data|)
      requires PlacedUpTo(g0, f, data, p, vert, j)
      modifies modules
      ensures i == Min(Before(f, size, p, vert, j + 1), 8 * |data|)
      ensures PlacedUpTo(g0, f, data, p, vert, j + 1)
    {
      var x := right - j;
      var upward := Upward(right);
      var y := if upward then size - 1 - vert else vert;
      StepCell(size, p, vert, j);
      i := i0;
      if !isFunction[y, x] && i < |data| * 8 {
        BytesBitsIndex(data, i);
        modules[y, x] := ByteBit(data[i / 8], 7 - i % 8);
        i := i + 1;
      }
      forall y', x' | 0 <= y' < size && 0 <= x' < size
        ensures modules[y', x'] ==
          if Visited(size, x', y', p, vert, j + 1) then Placed(g0, f, size, data, x', y') else g0[y'][x']
      {
        VisitedNext(size, x', y', p, vert, j);
      }
    }

    // -------------------------------------------------------------------
    // Masking

    /** applyMask: throws "Mask value out of range" for a mask outside
        0..7; otherwise inverts every module that is not a function module
        and satisfies the mask's condition. */
    method ApplyMask(m: int) returns (r: Outcome)
      requires Valid()
      modifies modules
      ensures r.Fail? <==> m < 0 || m > 7
      ensures r.Fail? ==> r.error == MaskOutOfRange && unchanged(modules)
      ensures r.Pass? ==> forall y, x :: 0 <= y < size && 0 <= x < size ==>
        modules[y, x] == MaskedModule(old(Snapshot(modules)), Snapshot(isFunction), m, x, y)
    {
      if m < 0 || m > 7 {
        return Fail(MaskOutOfRange);
      }
      ghost var g0, f := Snapshot(modules), Snapshot(isFunction);
      for y := 0 to size
        invariant forall j, i :: 0 <= j < size && 0 <= i < size ==>
          modules[j, i] == if j < y then MaskedModule(g0, f, m, i, j) else g0[j][i]
      {
        MaskRow(m, y, g0, f);
      }
      r := Pass;
    }

    /** One row of applyMask's loop. */
    method MaskRow(m: int, y: int, ghost g0: Grid, ghost f: Grid)
      requires Valid() && 0 <= m <= 7 && 0 <= y < size
      requires IsGrid(g0, size) && f == Snapshot(isFunction)
      requires forall j, i :: 0 <= j < size && 0 <= i < size ==>
        modules[j, i] == if j < y then MaskedModule(g0, f, m, i, j) else g0[j][i]
      modifies modules
      ensures forall j, i :: 0 <= j < size && 0 <= i < size ==>
        modules[j, i] == if j <= y then MaskedModule(g0, f, m, i, j) else g0[j][i]
    {
      for x := 0 to size
        invariant forall j, i :: 0 <= j < size && 0 <= i < size ==>
          modules[j, i] == if j < y || (j == y && i < x) then MaskedModule(g0, f, m, i, j) else g0[j][i]
      {
        var invert := Inverts(m, x, y);
        if !isFunction[y, x] && invert {
          modules[y, x] := !modules[y, x];
        }
      }
    }

    // -------------------------------------------------------------------
    // Penalty

    /** finderPenaltyAddHistory: the finished run goes in front of the
        history, in place, and the oldest run drops out. */
    method FinderPenaltyAddHistory(currentRunLength: int, runHistory: array<int>)
      requires Valid() && runHistory.Length == 7
      modifies runHistory
      ensures runHistory[..] == AddHistory(currentRunLength, old(runHistory[..]), size)
    {
      var run := currentRunLength;
      if runHistory[0] == 0 {
        run := run + size;
      }
      // pop, then unshift: every entry moves one place back
      var k := 6;
      while k > 0
        invariant 0 <= k <= 6
        invariant forall t :: 0 <= t <= k ==> runHistory[t] == old(runHistory[t])
        invariant forall t :: k < t < 7 ==> runHistory[t] == old(runHistory[t - 1])
      {
        runHistory[k] := runHistory[k - 1];
        k := k - 1;
      }
      runHistory[0] := run;
    }

    /** finderPenaltyTerminateAndCount: ends the line's last run against
        the light border and counts finder-like patterns once more. */
    method FinderPenaltyTerminateAndCount(currentRunColor: bool, currentRunLength: int, runHistory: array<int>)
      returns (count: int)
      requires Valid() && runHistory.Length == 7
      modifies runHistory
      ensures runHistory[..] == TerminateHistory(currentRunColor, currentRunLength, old(runHistory[..]), size)
      ensures count == CountPatterns(runHistory[..])
    {
      var run := currentRunLength;
      if currentRunColor {
        FinderPenaltyAddHistory(run, runHistory);
        run := 0;
      }
      run := run + size;
      FinderPenaltyAddHistory(run, runHistory);
      count := CountPatterns(runHistory[..]);
    }

    /** The body of getPenaltyScore's run loops, for a module of colour
        `c`: a module of the run's colour lengthens it (N1 at length 5, one
        more for every module after); any other ends the run, records it in
        the history and, after a light run, adds N3 for every finder-like
        pattern. */
    method ScanModule(c: bool, runColor: bool, run: int, runHistory: array<int>, result0: int)
      returns (newColor: bool, newRun: int, result: int)
      requires Valid() && runHistory.Length == 7
      modifies runHistory
      ensures var s := ScanStep(Scan(runColor, run, old(runHistory[..]), result0), c, size);
        newColor == s.color && newRun == s.run && runHistory[..] == s.history && result == s.score
    {
      newColor, newRun, result := runColor, run, result0;
      if c == runColor {
        newRun := newRun + 1;
        if newRun == 5 {
          result := result + N1;
        } else if newRun > 5 {
          result := result + 1;
        }
      } else {
        FinderPenaltyAddHistory(newRun, runHistory);
        if !runColor {
          result := result + CountPatterns(runHistory[..]) * N3;
        }
        newColor := c;
        newRun := 1;
      }
    }

    /** One iteration of getPenaltyScore's row loop: the N1 and N3 penalty
        of row y. */
    method RowRunPenalty(y: int) returns (result: int)
      requires Valid() && 0 <= y < size
      ensures result == LineScore(Snapshot(modules)[y], size)
    {
      ghost var line := Snapshot(modules)[y];
      result := 0;
      var runColor := false;
      var runX := 0;
      var runHistory := new int[7](_ => 0);
      assert runHistory[..] == EmptyHistory;
      ghost var scan := ScanLine(line, 0, size);
      for x := 0 to size
        invariant scan == ScanLine(line, x, size)
        invariant runHistory[..] == scan.history && runColor == scan.color && runX == scan.run
        invariant result == scan.score
      {
        runColor, runX, result := ScanModule(modules[y, x], runColor, runX, runHistory, result);
        scan := ScanStep(scan, line[x], size);
      }
      var count := FinderPenaltyTerminateAndCount(runColor, runX, runHistory);
      result := result + count * N3;
    }

    /** One iteration of getPenaltyScore's column loop: the N1 and N3
        penalty of column x. */
    method ColumnRunPenalty(x: int) returns (result: int)
      requires Valid() && 0 <= x < size
      ensures result == LineScore(Column(Snapshot(modules), size, x), size)
    {
      ghost var line := Column(Snapshot(modules), size, x);
      result := 0;
      var runColor := false;
      var runY := 0;
      var runHistory := new int[7](_ => 0);
      assert runHistory[..] == EmptyHistory;
      ghost var scan := ScanLine(line, 0, size);
      for y := 0 to size
        invariant scan == ScanLine(line, y, size)
        invariant runHistory[..] == scan.history && runColor == scan.color && runY == scan.run
        invariant result == scan.score
      {
        runColor, runY, result := ScanModule(modules[y, x], runColor, runY, runHistory, result);
        scan := ScanStep(scan, line[y], size);
      }
      var count := FinderPenaltyTerminateAndCount(runColor, runY, runHistory);
      result := result + count * N3;
    }

    /** The row loop of getPenaltyScore. */
    method RowRunsPenalty() returns (result: int)
      requires Valid()
      ensures result == RowsScore(Snapshot(modules), size, size)
    {
      ghost var g := Snapshot(modules);
      result := 0;
      for y := 0 to size
        invariant result == RowsScore(g, size, y)
      {
        var line := RowRunPenalty(y);
        result := result + line;
      }
    }

    /** The column loop of getPenaltyScore. */
    method ColumnRunsPenalty() returns (result: int)
      requires Valid()
      ensures result == ColumnsScore(Snapshot(modules), size, size)
    {
      ghost var g := Snapshot(modules);
      result := 0;
      for x := 0 to size
        invariant result == ColumnsScore(g, size, x)
      {
        var line := ColumnRunPenalty(x);
        result := result + line;
      }
    }

    /** The 2x2 block loop of getPenaltyScore. */
    method BlocksPenalty() returns (result: int)
      requires Valid()
      ensures result == Blocks(Snapshot(modules), size, size - 1)
    {
      ghost var g := Snapshot(modules);
      result := 0;
      for y := 0 to size - 1
        invariant result == Blocks(g, size, y)
      {
        var row := BlockRowPenalty(y);
        result := result + row;
      }
    }

    /** One row of the block loop: N2 for every block of one colour whose
        top-left module is in row y. */
    method BlockRowPenalty(y: int) returns (result: int)
      requires Valid() && 0 <= y < size - 1
      ensures result == RowBlocks(Snapshot(modules), size, y, size - 1)
    {
      ghost var g := Snapshot(modules);
      result := 0;
      for x := 0 to size - 1
        invariant result == RowBlocks(g, size, y, x)
      {
        var color := modules[y, x];
        if color == modules[y, x + 1] && color == modules[y + 1, x] && color == modules[y + 1, x + 1] {
          result := result + N2;
        }
      }
    }

    /** The dark-module count of getPenaltyScore. */
    method CountDark() returns (black: int)
      requires Valid()
      ensures black == Dark(Snapshot(modules), size, size)
    {
      ghost var g := Snapshot(modules);
      black := 0;
      for y := 0 to size
        invariant black == Dark(g, size, y)
      {
        var sum := 0;
        for x := 0 to size
          invariant sum == RowDark(g[y], x)
        {
          sum := sum + if modules[y, x] then 1 else 0;
        }
        black := black + sum;
      }
    }

    /** getPenaltyScore: the penalty of the symbol as it stands, never
        negative. */
    method GetPenaltyScore() returns (result: int)
      requires Valid()
      ensures result == PenaltyScore(Snapshot(modules), size)
      ensures result >= 0
    {
      var lines := LinePenalties();
      var area := AreaPenalties();
      result := lines + area;
      PenaltyNonNegative(Snapshot(modules), size);
    }

    /** The run and finder-like parts of getPenaltyScore, over rows and
        columns. */
    method LinePenalties() returns (lines: int)
      requires Valid()
      ensures lines == RowsScore(Snapshot(modules), size, size) + ColumnsScore(Snapshot(modules), size, size)
    {
      var rows := RowRunsPenalty();
      var columns := ColumnRunsPenalty();
      lines := rows + columns;
    }

    /** The 2-by-2 block part and the balance part of getPenaltyScore. */
    method AreaPenalties() returns (area: int)
      requires Valid()
      ensures area == Blocks(Snapshot(modules), size, size - 1)
        + BalanceScore(Dark(Snapshot(modules), size, size), size * size)
    {
      var blocks := BlocksPenalty();
      var black := CountDark();
      var balance := BalancePenalty(black);
      area := blocks + balance;
    }

    /** The last rule of getPenaltyScore: N4 for every 5% step, beyond the
        first, that the share of dark modules lies away from one half. */
    method BalancePenalty(black: int) returns (penalty: int)
      requires Valid()
      ensures penalty == BalanceScore(black, size * size)
    {
      var total := size * size;
      SquarePositive(size);
      var k := CeilDiv(Abs(black * 20 - total * 10), total) - 1;
      penalty := k * N4;
    }
  }
}
