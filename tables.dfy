/** Capacity tables of the QR Code symbol (ISO/IEC 18004, tables 1 and 9):
    the raw module count of each version and, per version and error
    correction level, the Reed-Solomon block structure. */
module Tables {

  /** A symbol version. */
  type Version = v: int | 1 <= v <= 40 witness 1

  /** Error correction level (the source's Ecc objects). */
  datatype Ecc = Low | Medium | Quartile | High

  /** The level's index into the tables. */
  function Ordinal(e: Ecc): nat
  {
    match e
    case Low => 0
    case Medium => 1
    case Quartile => 2
    case High => 3
  }

  /** The two-bit level code written into the format information. */
  function FormatBits(e: Ecc): (r: nat)
    ensures r < 4
  {
    match e
    case Low => 1
    case Medium => 0
    case Quartile => 3
    case High => 2
  }

  /** The level codes are a permutation of 0..3, so the format bits identify
      the level. */
  lemma FormatBitsInjective(e1: Ecc, e2: Ecc)
    ensures FormatBits(e1) == FormatBits(e2) ==> e1 == e2
  {
  }

  /** Side length of a symbol in modules. */
  function Size(v: Version): (r: int)
    ensures 21 <= r <= 177 && r % 4 == 1
  {
    v * 4 + 17
  }

  /** The source's ECC_CODEWORDS_PER_BLOCK table, one function per level
      (row), one case per version (column); the unused column 0 holds -1,
      as does every index outside 1..40. */
  function EccCodewordsLow(v: int): int
  {
    match v
    case 0 => -1
    case 1 => 7 case 2 => 10 case 3 => 15 case 4 => 20 case 5 => 26 case 6 => 18 case 7 => 20 case 8 => 24
    case 9 => 30 case 10 => 18 case 11 => 20 case 12 => 24 case 13 => 26 case 14 => 30 case 15 => 22 case 16 => 24
    case 17 => 28 case 18 => 30 case 19 => 28 case 20 => 28 case 21 => 28 case 22 => 28 case 23 => 30 case 24 => 30
    case 25 => 26 case 26 => 28 case 27 => 30 case 28 => 30 case 29 => 30 case 30 => 30 case 31 => 30 case 32 => 30
    case 33 => 30 case 34 => 30 case 35 => 30 case 36 => 30 case 37 => 30 case 38 => 30 case 39 => 30 case 40 => 30
    case _ => -1
  }

  function EccCodewordsMedium(v: int): int
  {
    match v
    case 0 => -1
    case 1 => 10 case 2 => 16 case 3 => 26 case 4 => 18 case 5 => 24 case 6 => 16 case 7 => 18 case 8 => 22
    case 9 => 22 case 10 => 26 case 11 => 30 case 12 => 22 case 13 => 22 case 14 => 24 case 15 => 24 case 16 => 28
    case 17 => 28 case 18 => 26 case 19 => 26 case 20 => 26 case 21 => 26 case 22 => 28 case 23 => 28 case 24 => 28
    case 25 => 28 case 26 => 28 case 27 => 28 case 28 => 28 case 29 => 28 case 30 => 28 case 31 => 28 case 32 => 28
    case 33 => 28 case 34 => 28 case 35 => 28 case 36 => 28 case 37 => 28 case 38 => 28 case 39 => 28 case 40 => 28
    case _ => -1
  }

  function EccCodewordsQuartile(v: int): int
  {
    match v
    case 0 => -1
    case 1 => 13 case 2 => 22 case 3 => 18 case 4 => 26 case 5 => 18 case 6 => 24 case 7 => 18 case 8 => 22
    case 9 => 20 case 10 => 24 case 11 => 28 case 12 => 26 case 13 => 24 case 14 => 20 case 15 => 30 case 16 => 24
    case 17 => 28 case 18 => 28 case 19 => 26 case 20 => 30 case 21 => 28 case 22 => 30 case 23 => 30 case 24 => 30
    case 25 => 30 case 26 => 28 case 27 => 30 case 28 => 30 case 29 => 30 case 30 => 30 case 31 => 30 case 32 => 30
    case 33 => 30 case 34 => 30 case 35 => 30 case 36 => 30 case 37 => 30 case 38 => 30 case 39 => 30 case 40 => 30
    case _ => -1
  }

  function EccCodewordsHigh(v: int): int
  {
    match v
    case 0 => -1
    case 1 => 17 case 2 => 28 case 3 => 22 case 4 => 16 case 5 => 22 case 6 => 28 case 7 => 26 case 8 => 26
    case 9 => 24 case 10 => 28 case 11 => 24 case 12 => 28 case 13 => 22 case 14 => 24 case 15 => 24 case 16 => 30
    case 17 => 28 case 18 => 28 case 19 => 26 case 20 => 28 case 21 => 30 case 22 => 24 case 23 => 30 case 24 => 30
    case 25 => 30 case 26 => 30 case 27 => 30 case 28 => 30 case 29 => 30 case 30 => 30 case 31 => 30 case 32 => 30
    case 33 => 30 case 34 => 30 case 35 => 30 case 36 => 30 case 37 => 30 case 38 => 30 case 39 => 30 case 40 => 30
    case _ => -1
  }


  /** The source's NUM_ERROR_CORRECTION_BLOCKS table, laid out the same way. */
  function NumBlocksLow(v: int): int
  {
    match v
    case 0 => -1
    case 1 => 1 case 2 => 1 case 3 => 1 case 4 => 1 case 5 => 1 case 6 => 2 case 7 => 2 case 8 => 2
    case 9 => 2 case 10 => 4 case 11 => 4 case 12 => 4 case 13 => 4 case 14 => 4 case 15 => 6 case 16 => 6
    case 17 => 6 case 18 => 6 case 19 => 7 case 20 => 8 case 21 => 8 case 22 => 9 case 23 => 9 case 24 => 10
    case 25 => 12 case 26 => 12 case 27 => 12 case 28 => 13 case 29 => 14 case 30 => 15 case 31 => 16 case 32 => 17
    case 33 => 18 case 34 => 19 case 35 => 19 case 36 => 20 case 37 => 21 case 38 => 22 case 39 => 24 case 40 => 25
    case _ => -1
  }

  function NumBlocksMedium(v: int): int
  {
    match v
    case 0 => -1
    case 1 => 1 case 2 => 1 case 3 => 1 case 4 => 2 case 5 => 2 case 6 => 4 case 7 => 4 case 8 => 4
    case 9 => 5 case 10 => 5 case 11 => 5 case 12 => 8 case 13 => 9 case 14 => 9 case 15 => 10 case 16 => 10
    case 17 => 11 case 18 => 13 case 19 => 14 case 20 => 16 case 21 => 17 case 22 => 17 case 23 => 18 case 24 => 20
    case 25 => 21 case 26 => 23 case 27 => 25 case 28 => 26 case 29 => 28 case 30 => 29 case 31 => 31 case 32 => 33
    case 33 => 35 case 34 => 37 case 35 => 38 case 36 => 40 case 37 => 43 case 38 => 45 case 39 => 47 case 40 => 49
    case _ => -1
  }

  function NumBlocksQuartile(v: int): int
  {
    match v
    case 0 => -1
    case 1 => 1 case 2 => 1 case 3 => 2 case 4 => 2 case 5 => 4 case 6 => 4 case 7 => 6 case 8 => 6
    case 9 => 8 case 10 => 8 case 11 => 8 case 12 => 10 case 13 => 12 case 14 => 16 case 15 => 12 case 16 => 17
    case 17 => 16 case 18 => 18 case 19 => 21 case 20 => 20 case 21 => 23 case 22 => 23 case 23 => 25 case 24 => 27
    case 25 => 29 case 26 => 34 case 27 => 34 case 28 => 35 case 29 => 38 case 30 => 40 case 31 => 43 case 32 => 45
    case 33 => 48 case 34 => 51 case 35 => 53 case 36 => 56 case 37 => 59 case 38 => 62 case 39 => 65 case 40 => 68
    case _ => -1
  }

  function NumBlocksHigh(v: int): int
  {
    match v
    case 0 => -1
    case 1 => 1 case 2 => 1 case 3 => 2 case 4 => 4 case 5 => 4 case 6 => 4 case 7 => 5 case 8 => 6
    case 9 => 8 case 10 => 8 case 11 => 11 case 12 => 11 case 13 => 16 case 14 => 16 case 15 => 18 case 16 => 16
    case 17 => 19 case 18 => 21 case 19 => 25 case 20 => 25 case 21 => 25 case 22 => 34 case 23 => 30 case 24 => 32
    case 25 => 35 case 26 => 37 case 27 => 40 case 28 => 42 case 29 => 45 case 30 => 48 case 31 => 51 case 32 => 54
    case 33 => 57 case 34 => 60 case 35 => 63 case 36 => 66 case 37 => 70 case 38 => 74 case 39 => 77 case 40 => 81
    case _ => -1
  }


  /** ECC codewords per block at a level and version. */
  function BlockEccLen(e: Ecc, v: Version): int
  {
    match e
    case Low => EccCodewordsLow(v)
    case Medium => EccCodewordsMedium(v)
    case Quartile => EccCodewordsQuartile(v)
    case High => EccCodewordsHigh(v)
  }

  /** Number of error correction blocks at a level and version. */
  function NumBlocks(e: Ecc, v: Version): int
  {
    match e
    case Low => NumBlocksLow(v)
    case Medium => NumBlocksMedium(v)
    case Quartile => NumBlocksQuartile(v)
    case High => NumBlocksHigh(v)
  }

  /** Number of alignment pattern coordinates per axis (before the three
      finder corners are skipped). */
  function NumAlign(v: Version): int
  {
    v / 7 + 2
  }

  /** getNumRawDataModules: the number of modules left for data and ECC bits
      once all function patterns are drawn. */
  function NumRawDataModules(v: Version): int
  {
    var result := (16 * v + 128) * v + 64;
    if v >= 2 then
      var numAlign := NumAlign(v);
      result - ((25 * numAlign - 10) * numAlign - 55) - (if v >= 7 then 36 else 0)
    else result
  }

  /** Modules taken by function patterns, counted pattern by pattern: three
      finder patterns with their separators (8 by 8 each), two timing
      patterns between them, both copies of the format information together
      with the dark module, the alignment patterns (5 by 5, minus the 5
      modules each one on a timing pattern shares with it) and, from
      version 7, both 6-by-3 version blocks. */
  function FunctionModules(v: Version): int
  {
    var n := NumAlign(v);
    3 * 64 + 2 * (Size(v) - 16) + 31
    + (if v >= 2 then 25 * (n * n - 3) - 10 * (n - 2) else 0)
    + (if v >= 7 then 36 else 0)
  }

  /** The closed form of getNumRawDataModules agrees with the pattern-by-
      pattern count of the function modules. */
  lemma RawDataModulesCount(v: Version)
    ensures NumRawDataModules(v) == Size(v) * Size(v) - FunctionModules(v)
  {
    var n := NumAlign(v);
    assert Size(v) * Size(v) == 16 * v * v + 136 * v + 289;
    assert (25 * n - 10) * n == 25 * (n * n) - 10 * n;
  }

  /** Whole codewords that fit in the data area. */
  function RawCodewords(v: Version): int
  {
    NumRawDataModules(v) / 8
  }

  /** getNumDataCodewords: data codewords at a version and level, once the
      ECC codewords of all blocks are set aside. */
  function NumDataCodewords(v: Version, e: Ecc): int
  {
    RawCodewords(v) - BlockEccLen(e, v) * NumBlocks(e, v)
  }

  /** The remainder bits of each version, as listed by ISO/IEC 18004
      (table 1): data modules that do not make a whole codeword. */
  function RemainderBits(v: Version): int
  {
    if v == 1 then 0
    else if v <= 6 then 7
    else if v <= 13 then 0
    else if v <= 20 then 3
    else if v <= 27 then 4
    else if v <= 34 then 3
    else 0
  }

  /** The sanity facts about one level of one version that the block split
      relies on. */
  predicate LevelOk(v: Version, e: Ecc)
  {
    var nb := NumBlocks(e, v);
    1 <= nb && 7 <= BlockEccLen(e, v) <= 30
    && RawCodewords(v) / nb >= BlockEccLen(e, v) + 1
    && NumDataCodewords(v, e) >= nb
  }

  /** Spacing of the alignment pattern coordinates: 26 for version 32,
      otherwise the even number that spreads them from 6 to size - 7
      (`Math.ceil` on a positive quotient is integer division rounded up). */
  function AlignStep(v: Version): int
    requires v >= 2
  {
    var d := NumAlign(v) * 2 - 2;
    if v == 32 then 26 else (v * 4 + 4 + d - 1) / d * 2
  }

  /** The alignment pattern coordinates of a version, in increasing order:
      none for version 1, otherwise 6 followed by size - 7 and the positions
      `step` apart below it. */
  function AlignmentPositions(v: Version): (r: seq<int>)
    ensures v == 1 ==> r == []
    ensures v >= 2 ==> |r| == NumAlign(v) && r[0] == 6 && r[|r| - 1] == Size(v) - 7
  {
    if v == 1 then []
    else
      var n := NumAlign(v);
      [6] + seq(n - 1, j => Size(v) - 7 - (n - 2 - j) * AlignStep(v))
  }

  /** The facts about one version that are checked entry by entry. */
  predicate VersionOk(v: Version)
  {
    LevelOk(v, Low) && LevelOk(v, Medium) && LevelOk(v, Quartile) && LevelOk(v, High)
    && NumDataCodewords(v, Low) >= NumDataCodewords(v, Medium)
    && NumDataCodewords(v, Medium) >= NumDataCodewords(v, Quartile)
    && NumDataCodewords(v, Quartile) >= NumDataCodewords(v, High)
    && NumRawDataModules(v) % 8 == RemainderBits(v)
    && (v == 1 || (AlignStep(v) >= 2 && Size(v) - 7 - (NumAlign(v) - 2) * AlignStep(v) > 6))
  }

  /** Every version's table entries pass the checks (version by version
      below). */
  lemma VersionFacts(v: Version)
    ensures VersionOk(v)
  {
    if v == 1 { Version1Ok(); }
    else if v == 2 { Version2Ok(); }
    else if v == 3 { Version3Ok(); }
    else if v == 4 { Version4Ok(); }
    else if v == 5 { Version5Ok(); }
    else if v == 6 { Version6Ok(); }
    else if v == 7 { Version7Ok(); }
    else if v == 8 { Version8Ok(); }
    else if v == 9 { Version9Ok(); }
    else if v == 10 { Version10Ok(); }
    else if v == 11 { Version11Ok(); }
    else if v == 12 { Version12Ok(); }
    else if v == 13 { Version13Ok(); }
    else if v == 14 { Version14Ok(); }
    else if v == 15 { Version15Ok(); }
    else if v == 16 { Version16Ok(); }
    else if v == 17 { Version17Ok(); }
    else if v == 18 { Version18Ok(); }
    else if v == 19 { Version19Ok(); }
    else if v == 20 { Version20Ok(); }
    else if v == 21 { Version21Ok(); }
    else if v == 22 { Version22Ok(); }
    else if v == 23 { Version23Ok(); }
    else if v == 24 { Version24Ok(); }
    else if v == 25 { Version25Ok(); }
    else if v == 26 { Version26Ok(); }
    else if v == 27 { Version27Ok(); }
    else if v == 28 { Version28Ok(); }
    else if v == 29 { Version29Ok(); }
    else if v == 30 { Version30Ok(); }
    else if v == 31 { Version31Ok(); }
    else if v == 32 { Version32Ok(); }
    else if v == 33 { Version33Ok(); }
    else if v == 34 { Version34Ok(); }
    else if v == 35 { Version35Ok(); }
    else if v == 36 { Version36Ok(); }
    else if v == 37 { Version37Ok(); }
    else if v == 38 { Version38Ok(); }
    else if v == 39 { Version39Ok(); }
    else if v == 40 { Version40Ok(); }
  }

  lemma Version1Ok()
    ensures VersionOk(1)
  {
    assert NumRawDataModules(1) == 208;
    assert NumDataCodewords(1, Low) == 19 && LevelOk(1, Low);
    assert NumDataCodewords(1, Medium) == 16 && LevelOk(1, Medium);
    assert NumDataCodewords(1, Quartile) == 13 && LevelOk(1, Quartile);
    assert NumDataCodewords(1, High) == 9 && LevelOk(1, High);
  }
  lemma Version2Ok()
    ensures VersionOk(2)
  {
    assert NumRawDataModules(2) == 359;
    assert NumDataCodewords(2, Low) == 34 && LevelOk(2, Low);
    assert NumDataCodewords(2, Medium) == 28 && LevelOk(2, Medium);
    assert NumDataCodewords(2, Quartile) == 22 && LevelOk(2, Quartile);
    assert NumDataCodewords(2, High) == 16 && LevelOk(2, High);
  }
  lemma Version3Ok()
    ensures VersionOk(3)
  {
    assert NumRawDataModules(3) == 567;
    assert NumDataCodewords(3, Low) == 55 && LevelOk(3, Low);
    assert NumDataCodewords(3, Medium) == 44 && LevelOk(3, Medium);
    assert NumDataCodewords(3, Quartile) == 34 && LevelOk(3, Quartile);
    assert NumDataCodewords(3, High) == 26 && LevelOk(3, High);
  }
  lemma Version4Ok()
    ensures VersionOk(4)
  {
    assert NumRawDataModules(4) == 807;
    assert NumDataCodewords(4, Low) == 80 && LevelOk(4, Low);
    assert NumDataCodewords(4, Medium) == 64 && LevelOk(4, Medium);
    assert NumDataCodewords(4, Quartile) == 48 && LevelOk(4, Quartile);
    assert NumDataCodewords(4, High) == 36 && LevelOk(4, High);
  }
  lemma Version5Ok()
    ensures VersionOk(5)
  {
    assert NumRawDataModules(5) == 1079;
    assert NumDataCodewords(5, Low) == 108 && LevelOk(5, Low);
    assert NumDataCodewords(5, Medium) == 86 && LevelOk(5, Medium);
    assert NumDataCodewords(5, Quartile) == 62 && LevelOk(5, Quartile);
    assert NumDataCodewords(5, High) == 46 && LevelOk(5, High);
  }
  lemma Version6Ok()
    ensures VersionOk(6)
  {
    assert NumRawDataModules(6) == 1383;
    assert NumDataCodewords(6, Low) == 136 && LevelOk(6, Low);
    assert NumDataCodewords(6, Medium) == 108 && LevelOk(6, Medium);
    assert NumDataCodewords(6, Quartile) == 76 && LevelOk(6, Quartile);
    assert NumDataCodewords(6, High) == 60 && LevelOk(6, High);
  }
  lemma Version7Ok()
    ensures VersionOk(7)
  {
    assert NumRawDataModules(7) == 1568;
    assert NumDataCodewords(7, Low) == 156 && LevelOk(7, Low);
    assert NumDataCodewords(7, Medium) == 124 && LevelOk(7, Medium);
    assert NumDataCodewords(7, Quartile) == 88 && LevelOk(7, Quartile);
    assert NumDataCodewords(7, High) == 66 && LevelOk(7, High);
  }
  lemma Version8Ok()
    ensures VersionOk(8)
  {
    assert NumRawDataModules(8) == 1936;
    assert NumDataCodewords(8, Low) == 194 && LevelOk(8, Low);
    assert NumDataCodewords(8, Medium) == 154 && LevelOk(8, Medium);
    assert NumDataCodewords(8, Quartile) == 110 && LevelOk(8, Quartile);
    assert NumDataCodewords(8, High) == 86 && LevelOk(8, High);
  }
  lemma Version9Ok()
    ensures VersionOk(9)
  {
    assert NumRawDataModules(9) == 2336;
    assert NumDataCodewords(9, Low) == 232 && LevelOk(9, Low);
    assert NumDataCodewords(9, Medium) == 182 && LevelOk(9, Medium);
    assert NumDataCodewords(9, Quartile) == 132 && LevelOk(9, Quartile);
    assert NumDataCodewords(9, High) == 100 && LevelOk(9, High);
  }
  lemma Version10Ok()
    ensures VersionOk(10)
  {
    assert NumRawDataModules(10) == 2768;
    assert NumDataCodewords(10, Low) == 274 && LevelOk(10, Low);
    assert NumDataCodewords(10, Medium) == 216 && LevelOk(10, Medium);
    assert NumDataCodewords(10, Quartile) == 154 && LevelOk(10, Quartile);
    assert NumDataCodewords(10, High) == 122 && LevelOk(10, High);
  }
  lemma Version11Ok()
    ensures VersionOk(11)
  {
    assert NumRawDataModules(11) == 3232;
    assert NumDataCodewords(11, Low) == 324 && LevelOk(11, Low);
    assert NumDataCodewords(11, Medium) == 254 && LevelOk(11, Medium);
    assert NumDataCodewords(11, Quartile) == 180 && LevelOk(11, Quartile);
    assert NumDataCodewords(11, High) == 140 && LevelOk(11, High);
  }
  lemma Version12Ok()
    ensures VersionOk(12)
  {
    assert NumRawDataModules(12) == 3728;
    assert NumDataCodewords(12, Low) == 370 && LevelOk(12, Low);
    assert NumDataCodewords(12, Medium) == 290 && LevelOk(12, Medium);
    assert NumDataCodewords(12, Quartile) == 206 && LevelOk(12, Quartile);
    assert NumDataCodewords(12, High) == 158 && LevelOk(12, High);
  }
  lemma Version13Ok()
    ensures VersionOk(13)
  {
    assert NumRawDataModules(13) == 4256;
    assert NumDataCodewords(13, Low) == 428 && LevelOk(13, Low);
    assert NumDataCodewords(13, Medium) == 334 && LevelOk(13, Medium);
    assert NumDataCodewords(13, Quartile) == 244 && LevelOk(13, Quartile);
    assert NumDataCodewords(13, High) == 180 && LevelOk(13, High);
  }
  lemma Version14Ok()
    ensures VersionOk(14)
  {
    assert NumRawDataModules(14) == 4651;
    assert NumDataCodewords(14, Low) == 461 && LevelOk(14, Low);
    assert NumDataCodewords(14, Medium) == 365 && LevelOk(14, Medium);
    assert NumDataCodewords(14, Quartile) == 261 && LevelOk(14, Quartile);
    assert NumDataCodewords(14, High) == 197 && LevelOk(14, High);
  }
  lemma Version15Ok()
    ensures VersionOk(15)
  {
    assert NumRawDataModules(15) == 5243;
    assert NumDataCodewords(15, Low) == 523 && LevelOk(15, Low);
    assert NumDataCodewords(15, Medium) == 415 && LevelOk(15, Medium);
    assert NumDataCodewords(15, Quartile) == 295 && LevelOk(15, Quartile);
    assert NumDataCodewords(15, High) == 223 && LevelOk(15, High);
  }
  lemma Version16Ok()
    ensures VersionOk(16)
  {
    assert NumRawDataModules(16) == 5867;
    assert NumDataCodewords(16, Low) == 589 && LevelOk(16, Low);
    assert NumDataCodewords(16, Medium) == 453 && LevelOk(16, Medium);
    assert NumDataCodewords(16, Quartile) == 325 && LevelOk(16, Quartile);
    assert NumDataCodewords(16, High) == 253 && LevelOk(16, High);
  }
  lemma Version17Ok()
    ensures VersionOk(17)
  {
    assert NumRawDataModules(17) == 6523;
    assert NumDataCodewords(17, Low) == 647 && LevelOk(17, Low);
    assert NumDataCodewords(17, Medium) == 507 && LevelOk(17, Medium);
    assert NumDataCodewords(17, Quartile) == 367 && LevelOk(17, Quartile);
    assert NumDataCodewords(17, High) == 283 && LevelOk(17, High);
  }
  lemma Version18Ok()
    ensures VersionOk(18)
  {
    assert NumRawDataModules(18) == 7211;
    assert NumDataCodewords(18, Low) == 721 && LevelOk(18, Low);
    assert NumDataCodewords(18, Medium) == 563 && LevelOk(18, Medium);
    assert NumDataCodewords(18, Quartile) == 397 && LevelOk(18, Quartile);
    assert NumDataCodewords(18, High) == 313 && LevelOk(18, High);
  }
  lemma Version19Ok()
    ensures VersionOk(19)
  {
    assert NumRawDataModules(19) == 7931;
    assert NumDataCodewords(19, Low) == 795 && LevelOk(19, Low);
    assert NumDataCodewords(19, Medium) == 627 && LevelOk(19, Medium);
    assert NumDataCodewords(19, Quartile) == 445 && LevelOk(19, Quartile);
    assert NumDataCodewords(19, High) == 341 && LevelOk(19, High);
  }
  lemma Version20Ok()
    ensures VersionOk(20)
  {
    assert NumRawDataModules(20) == 8683;
    assert NumDataCodewords(20, Low) == 861 && LevelOk(20, Low);
    assert NumDataCodewords(20, Medium) == 669 && LevelOk(20, Medium);
    assert NumDataCodewords(20, Quartile) == 485 && LevelOk(20, Quartile);
    assert NumDataCodewords(20, High) == 385 && LevelOk(20, High);
  }
  lemma Version21Ok()
    ensures VersionOk(21)
  {
    assert NumRawDataModules(21) == 9252;
    assert NumDataCodewords(21, Low) == 932 && LevelOk(21, Low);
    assert NumDataCodewords(21, Medium) == 714 && LevelOk(21, Medium);
    assert NumDataCodewords(21, Quartile) == 512 && LevelOk(21, Quartile);
    assert NumDataCodewords(21, High) == 406 && LevelOk(21, High);
  }
  lemma Version22Ok()
    ensures VersionOk(22)
  {
    assert NumRawDataModules(22) == 10068;
    assert NumDataCodewords(22, Low) == 1006 && LevelOk(22, Low);
    assert NumDataCodewords(22, Medium) == 782 && LevelOk(22, Medium);
    assert NumDataCodewords(22, Quartile) == 568 && LevelOk(22, Quartile);
    assert NumDataCodewords(22, High) == 442 && LevelOk(22, High);
  }
  lemma Version23Ok()
    ensures VersionOk(23)
  {
    assert NumRawDataModules(23) == 10916;
    assert NumDataCodewords(23, Low) == 1094 && LevelOk(23, Low);
    assert NumDataCodewords(23, Medium) == 860 && LevelOk(23, Medium);
    assert NumDataCodewords(23, Quartile) == 614 && LevelOk(23, Quartile);
    assert NumDataCodewords(23, High) == 464 && LevelOk(23, High);
  }
  lemma Version24Ok()
    ensures VersionOk(24)
  {
    assert NumRawDataModules(24) == 11796;
    assert NumDataCodewords(24, Low) == 1174 && LevelOk(24, Low);
    assert NumDataCodewords(24, Medium) == 914 && LevelOk(24, Medium);
    assert NumDataCodewords(24, Quartile) == 664 && LevelOk(24, Quartile);
    assert NumDataCodewords(24, High) == 514 && LevelOk(24, High);
  }
  lemma Version25Ok()
    ensures VersionOk(25)
  {
    assert NumRawDataModules(25) == 12708;
    assert NumDataCodewords(25, Low) == 1276 && LevelOk(25, Low);
    assert NumDataCodewords(25, Medium) == 1000 && LevelOk(25, Medium);
    assert NumDataCodewords(25, Quartile) == 718 && LevelOk(25, Quartile);
    assert NumDataCodewords(25, High) == 538 && LevelOk(25, High);
  }
  lemma Version26Ok()
    ensures VersionOk(26)
  {
    assert NumRawDataModules(26) == 13652;
    assert NumDataCodewords(26, Low) == 1370 && LevelOk(26, Low);
    assert NumDataCodewords(26, Medium) == 1062 && LevelOk(26, Medium);
    assert NumDataCodewords(26, Quartile) == 754 && LevelOk(26, Quartile);
    assert NumDataCodewords(26, High) == 596 && LevelOk(26, High);
  }
  lemma Version27Ok()
    ensures VersionOk(27)
  {
    assert NumRawDataModules(27) == 14628;
    assert NumDataCodewords(27, Low) == 1468 && LevelOk(27, Low);
    assert NumDataCodewords(27, Medium) == 1128 && LevelOk(27, Medium);
    assert NumDataCodewords(27, Quartile) == 808 && LevelOk(27, Quartile);
    assert NumDataCodewords(27, High) == 628 && LevelOk(27, High);
  }
  lemma Version28Ok()
    ensures VersionOk(28)
  {
    assert NumRawDataModules(28) == 15371;
    assert NumDataCodewords(28, Low) == 1531 && LevelOk(28, Low);
    assert NumDataCodewords(28, Medium) == 1193 && LevelOk(28, Medium);
    assert NumDataCodewords(28, Quartile) == 871 && LevelOk(28, Quartile);
    assert NumDataCodewords(28, High) == 661 && LevelOk(28, High);
  }
  lemma Version29Ok()
    ensures VersionOk(29)
  {
    assert NumRawDataModules(29) == 16411;
    assert NumDataCodewords(29, Low) == 1631 && LevelOk(29, Low);
    assert NumDataCodewords(29, Medium) == 1267 && LevelOk(29, Medium);
    assert NumDataCodewords(29, Quartile) == 911 && LevelOk(29, Quartile);
    assert NumDataCodewords(29, High) == 701 && LevelOk(29, High);
  }
  lemma Version30Ok()
    ensures VersionOk(30)
  {
    assert NumRawDataModules(30) == 17483;
    assert NumDataCodewords(30, Low) == 1735 && LevelOk(30, Low);
    assert NumDataCodewords(30, Medium) == 1373 && LevelOk(30, Medium);
    assert NumDataCodewords(30, Quartile) == 985 && LevelOk(30, Quartile);
    assert NumDataCodewords(30, High) == 745 && LevelOk(30, High);
  }
  lemma Version31Ok()
    ensures VersionOk(31)
  {
    assert NumRawDataModules(31) == 18587;
    assert NumDataCodewords(31, Low) == 1843 && LevelOk(31, Low);
    assert NumDataCodewords(31, Medium) == 1455 && LevelOk(31, Medium);
    assert NumDataCodewords(31, Quartile) == 1033 && LevelOk(31, Quartile);
    assert NumDataCodewords(31, High) == 793 && LevelOk(31, High);
  }
  lemma Version32Ok()
    ensures VersionOk(32)
  {
    assert NumRawDataModules(32) == 19723;
    assert NumDataCodewords(32, Low) == 1955 && LevelOk(32, Low);
    assert NumDataCodewords(32, Medium) == 1541 && LevelOk(32, Medium);
    assert NumDataCodewords(32, Quartile) == 1115 && LevelOk(32, Quartile);
    assert NumDataCodewords(32, High) == 845 && LevelOk(32, High);
  }
  lemma Version33Ok()
    ensures VersionOk(33)
  {
    assert NumRawDataModules(33) == 20891;
    assert NumDataCodewords(33, Low) == 2071 && LevelOk(33, Low);
    assert NumDataCodewords(33, Medium) == 1631 && LevelOk(33, Medium);
    assert NumDataCodewords(33, Quartile) == 1171 && LevelOk(33, Quartile);
    assert NumDataCodewords(33, High) == 901 && LevelOk(33, High);
  }
  lemma Version34Ok()
    ensures VersionOk(34)
  {
    assert NumRawDataModules(34) == 22091;
    assert NumDataCodewords(34, Low) == 2191 && LevelOk(34, Low);
    assert NumDataCodewords(34, Medium) == 1725 && LevelOk(34, Medium);
    assert NumDataCodewords(34, Quartile) == 1231 && LevelOk(34, Quartile);
    assert NumDataCodewords(34, High) == 961 && LevelOk(34, High);
  }
  lemma Version35Ok()
    ensures VersionOk(35)
  {
    assert NumRawDataModules(35) == 23008;
    assert NumDataCodewords(35, Low) == 2306 && LevelOk(35, Low);
    assert NumDataCodewords(35, Medium) == 1812 && LevelOk(35, Medium);
    assert NumDataCodewords(35, Quartile) == 1286 && LevelOk(35, Quartile);
    assert NumDataCodewords(35, High) == 986 && LevelOk(35, High);
  }
  lemma Version36Ok()
    ensures VersionOk(36)
  {
    assert NumRawDataModules(36) == 24272;
    assert NumDataCodewords(36, Low) == 2434 && LevelOk(36, Low);
    assert NumDataCodewords(36, Medium) == 1914 && LevelOk(36, Medium);
    assert NumDataCodewords(36, Quartile) == 1354 && LevelOk(36, Quartile);
    assert NumDataCodewords(36, High) == 1054 && LevelOk(36, High);
  }
  lemma Version37Ok()
    ensures VersionOk(37)
  {
    assert NumRawDataModules(37) == 25568;
    assert NumDataCodewords(37, Low) == 2566 && LevelOk(37, Low);
    assert NumDataCodewords(37, Medium) == 1992 && LevelOk(37, Medium);
    assert NumDataCodewords(37, Quartile) == 1426 && LevelOk(37, Quartile);
    assert NumDataCodewords(37, High) == 1096 && LevelOk(37, High);
  }
  lemma Version38Ok()
    ensures VersionOk(38)
  {
    assert NumRawDataModules(38) == 26896;
    assert NumDataCodewords(38, Low) == 2702 && LevelOk(38, Low);
    assert NumDataCodewords(38, Medium) == 2102 && LevelOk(38, Medium);
    assert NumDataCodewords(38, Quartile) == 1502 && LevelOk(38, Quartile);
    assert NumDataCodewords(38, High) == 1142 && LevelOk(38, High);
  }
  lemma Version39Ok()
    ensures VersionOk(39)
  {
    assert NumRawDataModules(39) == 28256;
    assert NumDataCodewords(39, Low) == 2812 && LevelOk(39, Low);
    assert NumDataCodewords(39, Medium) == 2216 && LevelOk(39, Medium);
    assert NumDataCodewords(39, Quartile) == 1582 && LevelOk(39, Quartile);
    assert NumDataCodewords(39, High) == 1222 && LevelOk(39, High);
  }
  lemma Version40Ok()
    ensures VersionOk(40)
  {
    assert NumRawDataModules(40) == 29648;
    assert NumDataCodewords(40, Low) == 2956 && LevelOk(40, Low);
    assert NumDataCodewords(40, Medium) == 2334 && LevelOk(40, Medium);
    assert NumDataCodewords(40, Quartile) == 1666 && LevelOk(40, Quartile);
    assert NumDataCodewords(40, High) == 1276 && LevelOk(40, High);
  }

  /** Every level of every version has at least one block, 7 to 30 ECC
      codewords per block and at least one data codeword in every block. */
  lemma BlockStructure(v: Version, e: Ecc)
    ensures 1 <= NumBlocks(e, v) && 7 <= BlockEccLen(e, v) <= 30
    ensures RawCodewords(v) / NumBlocks(e, v) >= BlockEccLen(e, v) + 1
    ensures NumDataCodewords(v, e) >= NumBlocks(e, v) >= 1
  {
    VersionFacts(v);
    match e
    case Low =>
    case Medium =>
    case Quartile =>
    case High =>
  }

  /** A stronger level never holds more data. */
  lemma CapacityByLevel(v: Version, e1: Ecc, e2: Ecc)
    requires Ordinal(e1) <= Ordinal(e2)
    ensures NumDataCodewords(v, e1) >= NumDataCodewords(v, e2)
  {
    VersionFacts(v);
  }

  /** The data area splits into whole codewords plus the remainder bits the
      standard lists. */
  lemma RemainderBitsAgree(v: Version)
    ensures NumRawDataModules(v) == 8 * RawCodewords(v) + RemainderBits(v)
  {
    VersionFacts(v);
  }

  /** The alignment coordinates stay between 6 and size - 7, so every
      alignment pattern lies inside the symbol. */
  lemma AlignmentPositionsInside(v: Version)
    ensures forall i :: 0 <= i < |AlignmentPositions(v)| ==>
      6 <= AlignmentPositions(v)[i] <= Size(v) - 7
  {
    if v >= 2 {
      AlignmentSpacing(v);
      var n, step, p := NumAlign(v), AlignStep(v), AlignmentPositions(v);
      forall k | 1 <= k < |p| ensures 6 < p[k] <= Size(v) - 7 {
        AlignmentAt(v, k);
        ScaleMonotone(n - 1 - k, n - 2, step);
      }
    }
  }

  /** The alignment coordinates strictly increase. */
  lemma AlignmentPositionsIncreasing(v: Version)
    ensures forall i, j :: 0 <= i < j < |AlignmentPositions(v)| ==>
      AlignmentPositions(v)[i] < AlignmentPositions(v)[j]
  {
    if v >= 2 {
      AlignmentSpacing(v);
      var n, step, p := NumAlign(v), AlignStep(v), AlignmentPositions(v);
      forall i, j | 0 <= i < j < |p| ensures p[i] < p[j] {
        AlignmentAt(v, j);
        if i == 0 {
          ScaleMonotone(n - 1 - j, n - 2, step);
        } else {
          AlignmentAt(v, i);
          ScaleStrict(n - 1 - j, n - 1 - i, step);
        }
      }
    }
  }

  lemma AlignmentSpacing(v: Version)
    requires v >= 2
    ensures AlignStep(v) >= 2 && Size(v) - 7 - (NumAlign(v) - 2) * AlignStep(v) > 6
  {
    VersionFacts(v);
  }

  lemma AlignmentAt(v: Version, k: int)
    requires v >= 2 && 1 <= k < NumAlign(v)
    ensures AlignmentPositions(v)[k] == Size(v) - 7 - (NumAlign(v) - 1 - k) * AlignStep(v)
  {
    var n := NumAlign(v);
    assert n - 2 - (k - 1) == n - 1 - k;
  }

  lemma ScaleStrict(a: int, b: int, s: int)
    requires 0 <= a < b && s >= 1
    ensures a * s < b * s
  {
  }

  lemma ScaleMonotone(a: int, b: int, s: int)
    requires 0 <= a <= b && s >= 0
    ensures 0 <= a * s <= b * s
  {
  }

  /** Reference coordinates from ISO/IEC 18004 (annex E). */
  lemma AlignmentExamples()
    ensures AlignmentPositions(2) == [6, 18]
    ensures AlignmentPositions(7) == [6, 22, 38]
    ensures AlignmentPositions(32) == [6, 34, 60, 86, 112, 138]
    ensures AlignmentPositions(40) == [6, 30, 58, 86, 114, 142, 170]
  {
  }

  /** Reference capacities from ISO/IEC 18004 (table 7): version 1 holds
      19, 16, 13 and 9 data codewords at L, M, Q and H; version 40-L holds
      2956. */
  lemma CapacityExamples()
    ensures NumDataCodewords(1, Low) == 19 && NumDataCodewords(1, Medium) == 16
    ensures NumDataCodewords(1, Quartile) == 13 && NumDataCodewords(1, High) == 9
    ensures NumDataCodewords(40, Low) == 2956 && NumDataCodewords(40, High) == 1276
  {
  }
}
