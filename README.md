# QR Code encoding engine, modelled in Dafny

This project models the QR Code encoder in `assets/qr-generator.js`, a trimmed port of Project Nayuki's generator. It follows the symbol structure of ISO/IEC 18004:2015; section numbers below are that edition's. Text goes through these stages:

- the text becomes UTF-8 bytes and then one byte-mode segment;
- the smallest version whose capacity holds the segment's bits is chosen, and the error-correction level is raised as far as that version allows;
- the bit stream gets a terminator, bit padding and the alternating pad bytes 0xEC / 0x11, and is packed into data codewords;
- the data codewords are split into blocks, each block gets its Reed–Solomon remainder over GF(256) (section 7.5 of ISO/IEC 18004:2015), and the blocks are interleaved;
- the function patterns (timing, finders, alignment patterns, format and version information with their BCH codes) are drawn on a square grid;
- the codewords are laid into the free modules along the zigzag path;
- each of the eight masks is tried and scored by the N1–N4 penalty rules, and the lowest-scoring one is drawn with its format information (section 7.9 of ISO/IEC 18004:2015).

Each file is one module:

| file | module | models |
|---|---|---|
| `wrappers.dfy` | `Wrappers` | `Option`, `Result`, `Outcome` and the source's error kinds (`RangeError` messages) |
| `bits.dfy` | `Bits` | `appendBits`, `getBit`, most-significant-first bit/number conversion, byte packing |
| `tables.dfy` | `Tables` | `Ecc`, `size`, the two 4×41 tables, `getNumRawDataModules`, `getNumDataCodewords`, alignment positions |
| `gf256.dfy` | `GaloisField` | `reedSolomonMultiply` |
| `segments.dfy` | `Segments` | `Mode`, segments, `numCharCountBits`, `getTotalBits`, `toUtf8ByteArray`, `makeBytes`, `makeSegments` |
| `reedsolomon.dfy` | `ReedSolomon` | `reedSolomonComputeDivisor`, `reedSolomonComputeRemainder` |
| `interleave.dfy` | `Interleaving` | `addEccAndInterleave` |
| `encoder.dfy` | `Encoder` | the version loop, level boosting and codeword assembly of `encodeSegments` |
| `grid.dfy` | `Grids` | square grids of booleans as values |
| `placement.dfy` | `Placement` | the zigzag traversal of `drawCodewords`, as a rank of each free module |
| `masking.dfy` | `Masking` | the eight mask conditions of `applyMask` |
| `penalty.dfy` | `Penalty` | the penalty rules of `getPenaltyScore` and the run-history helpers, as functions |
| `symbol.dfy` | `Symbol` | class `QrCode` with the `modules` and `isFunction` arrays and every drawing, masking and scoring method |
| `generator.dfy` | `Generator` | the constructor, the automatic mask search, `encodeSegments` and `encodeText` |

How the source's code maps onto Dafny:

- The code that builds the grid has class form, because it updates the arrays in place. `Symbol.QrCode` holds two `array2<bool>`. Each drawing method is proved against a grid-valued function: `Placement.PlaceGrid`, `Masking.MaskGrid`, `Generator.LayerGrid` and `Penalty.PenaltyScore`.
- The loops that rewrite arrays become methods with loop invariants:
  - `reedSolomonComputeDivisor` (an `array<Byte>` updated in place);
  - the `runHistory` array of the penalty helpers;
  - the codeword packing of line 117.
- The loops that push onto lists become methods over sequences with loop invariants, each proved equal to a specification function:
  - `getTotalBits`;
  - `toUtf8ByteArray`;
  - the bit-buffer assembly;
  - `reedSolomonComputeRemainder`;
  - the block split and interleave.
- Exceptions become `Result` or `Outcome` values that carry the source's error kind.
- JavaScript's `Infinity` from `getTotalBits` becomes `None`.

## Model

| member | source | states |
|---|---|---|
| GaloisField.MultiplyBytes | assets/qr-generator.js:424-429 | the shift-and-reduce loop computes the product `Mul(x, y)` in GF(256) modulo 0x11D |
| GaloisField.ReedSolomonMultiply | assets/qr-generator.js:421-430 | fails with "Byte out of range" exactly when an operand has a bit above bit 7 (`x >>> 8 != 0` on 32-bit values); otherwise it returns the field product of the operands' bytes |
| GaloisField.ByteOperandsAccepted | assets/qr-generator.js:422-423 | every operand in 0..255 passes the range check and is used unchanged |
| GaloisField.LargeOperandsRejected | assets/qr-generator.js:422-423 | operands 256..2^32−1, and negative ones whose 32-bit pattern has high bits set, are rejected |
| GaloisField.MulZero | assets/qr-generator.js:424-429 | zero is absorbing on both sides |
| GaloisField.MulOne | assets/qr-generator.js:424-429 | one is the identity |
| GaloisField.MulTwo | assets/qr-generator.js:424-429 | multiplying by 2 is one shift with reduction (xtime) |
| GaloisField.ReducingPolynomial | assets/qr-generator.js:426 | 0x80·2 reduces to 0x1D, so the modulus is x^8+x^4+x^3+x^2+1 |
| Bits.AppendBits | assets/qr-generator.js:486-491 | fails with "Value out of range" exactly when `len` is outside 0..31 or `val >>> len != 0`; otherwise appends exactly the `len` low bits of the 32-bit value, most significant first |
| Bits.AppendBitsReadBack | assets/qr-generator.js:486-491 | after an accepted append, the old buffer is a prefix, `len` bits were added, they read back as `val`, and bit j is `getBit(val, len-1-j)` |
| Bits.FromToBits | assets/qr-generator.js:489-490 | a value below 2^len written as `len` bits reads back as itself |
| Bits.ToFromBits | assets/qr-generator.js:489-490 | a bit list read as a number and written back with the same length is unchanged |
| Bits.ToBitsIndex | assets/qr-generator.js:489-490 | entry j of the written bits is bit `len-1-j` of the value |
| Bits.FromBitsBound | assets/qr-generator.js:489-490 | `n` bits read as a number give less than 2^n |
| Bits.ShrZero | assets/qr-generator.js:487 | `val >>> len` is zero exactly when `val < 2^len` |
| Bits.GetBitHigh | assets/qr-generator.js:493-495 | `getBit` reads a zero at every position at or above the value's width |
| Bits.ByteBitsRoundTrip | assets/qr-generator.js:114-117 | splitting a byte into 8 bits and packing them back gives the byte |
| Bits.BitsByteRoundTrip | assets/qr-generator.js:114-117 | packing 8 bits into a byte and splitting it gives the bits |
| Bits.PackBitsRoundTrip | assets/qr-generator.js:114-117 | a bit list of whole bytes, packed and unpacked, is unchanged |
| Bits.BytesBitsRoundTrip | assets/qr-generator.js:114-117 | a byte list, unpacked and packed, is unchanged |
| Bits.PackBitsIndex | assets/qr-generator.js:117 | codeword j is bits 8j..8j+7 packed with the first one as the most significant |
| Bits.PackBitsConcat | assets/qr-generator.js:114-117 | packing distributes over concatenation of whole bytes |
| Bits.BytesBitsIndex | assets/qr-generator.js:266 | bit i of a codeword list is `getBit(data[i >>> 3], 7 - (i & 7))` |
| Tables.Size | assets/qr-generator.js:130-132 | the size `4·version + 17` is 21..177 and 1 modulo 4 |
| Tables.FormatBits | assets/qr-generator.js:503-506 | each level's format code is below 4 |
| Tables.FormatBitsInjective | assets/qr-generator.js:503-506 | the four levels have distinct two-bit format codes |
| Tables.RawDataModulesCount | assets/qr-generator.js:376-385 | for every version, the closed formula equals the module count minus a pattern-by-pattern count of the function modules |
| Tables.RemainderBitsAgree | assets/qr-generator.js:376-385 | the raw modules are 8 per raw codeword plus the version's remainder bits (0, 3, 4 or 7) |
| Tables.VersionFacts | assets/qr-generator.js:472-484 | for every version, the transcribed entries pass the cross-checks: per level 1+ blocks of 7..30 ECC bytes with room for data, capacities falling from L to H, raw modules modulo 8 equal to the remainder bits, and alignment spacing that fits |
| Tables.BlockStructure | assets/qr-generator.js:226-230 | every (version, level) has at least one block, 7..30 ECC bytes per block, short blocks longer than their ECC part and at least one data codeword per block |
| Tables.CapacityByLevel | assets/qr-generator.js:387-391 | a higher level never has more data codewords than a lower one of the same version |
| Tables.CapacityExamples | assets/qr-generator.js:387-391 | capacities of versions 1 and 40 agree with the standard's table (19/16/13/9; 2956 and 1276) |
| Tables.AlignmentPositions | assets/qr-generator.js:362-373 | no positions for version 1; otherwise `floor(v/7)+2` positions, first 6 and last `size-7` |
| Tables.AlignmentPositionsInside | assets/qr-generator.js:362-373 | every position lies in 6..size−7 |
| Tables.AlignmentPositionsIncreasing | assets/qr-generator.js:362-373 | the positions strictly increase |
| Tables.AlignmentAt | assets/qr-generator.js:367-371 | position k, counted from the end, is `size - 7 - (numAlign-1-k)·step` |
| Tables.AlignmentSpacing | assets/qr-generator.js:366-368 | the step is at least 2, and the second position stays above 6 |
| Tables.AlignmentExamples | assets/qr-generator.js:362-373 | versions 2, 7, 32 (step 26) and 40 give the standard's positions |
| Segments.ModeBits | assets/qr-generator.js:518-522 | each mode indicator fits in 4 bits |
| Segments.CharCountWidth | assets/qr-generator.js:518-522 | each mode's count field is at most 16 bits wide in every tier |
| Segments.NumCharCountBits | assets/qr-generator.js:514-516 | the count field width is tier 0 for versions 1–9, tier 1 for 10–26 and tier 2 for 27–40, and at most 16 |
| Segments.GetTotalBits | assets/qr-generator.js:456-465 | the loop with early exit returns the fold `TotalBits` |
| Segments.TotalBitsInfinite | assets/qr-generator.js:460-461 | the cost is infinite exactly when some segment's `numChars` does not fit in `1 << ccbits` |
| Segments.TotalBitsIsLength | assets/qr-generator.js:456-465 | a finite cost is the length of the bits the segments are written as |
| Segments.SegmentBitsReadBack | assets/qr-generator.js:101-107 | a segment's bits read back as its mode indicator, its character count and its payload |
| Segments.EncodeUnit | assets/qr-generator.js:62-83 | a code unit takes 1, 2 or 3 bytes by range; ASCII is itself, otherwise a lead byte ≥ 0xC0 and continuation bytes 0x80..0xBF |
| Segments.ToUtf8ByteArray | assets/qr-generator.js:62-83 | the loop returns the concatenated per-unit encoding |
| Segments.Utf8RoundTrip | assets/qr-generator.js:62-83 | decoding the bytes gives back exactly the code units |
| Segments.SurrogatesTakeThreeBytes | assets/qr-generator.js:71-80 | a surrogate half takes the 3-byte branch and gives 0xED, 0xA0..0xBF, continuation; the 4-byte branch is never reached |
| Segments.OctetsBitsRoundTrip | assets/qr-generator.js:58-60 | bytes written as bits and read back are unchanged |
| Segments.MakeBytes | assets/qr-generator.js:58-60 | a byte-mode segment that counts the bytes and carries 8 bits per byte which read back as the bytes (the corrected reading; see Findings) |
| Segments.MakeBytesFits | assets/qr-generator.js:58-60 | when the count fits, the segment costs `4 + ccbits + 8·|data|` |
| Segments.MakeBytesAsWritten | assets/qr-generator.js:58-60 | as written: the payload holds the byte values themselves |
| Segments.MakeSegments | assets/qr-generator.js:53-56 | empty text gives no segments; other text gives one byte-mode segment whose payload decodes back to the text |
| ReedSolomon.Generator | assets/qr-generator.js:393-409 | the generator polynomial of degree k is monic with k+1 coefficients |
| ReedSolomon.DivisorIsGenerator | assets/qr-generator.js:393-409 | the divisor after all passes is the generator ∏(x − 2^i), i < degree, without its leading 1 |
| ReedSolomon.MulRootStepIsMulLinear | assets/qr-generator.js:400-405 | one pass of the inner loop multiplies the polynomial by (x − root) |
| ReedSolomon.ComputeDivisor | assets/qr-generator.js:393-409 | the in-place array loop returns the generator's coefficients below the leading one |
| ReedSolomon.InitialDivisor | assets/qr-generator.js:394-397 | the fresh array is `degree-1` zeros then a 1 |
| ReedSolomon.MulRootPass | assets/qr-generator.js:400-405 | one in-place pass leaves the array multiplied by the root step |
| ReedSolomon.ComputeRemainder | assets/qr-generator.js:411-419 | the shift/push loop returns the polynomial remainder `Remainder(data, divisor)` |
| ReedSolomon.FeedAppend | assets/qr-generator.js:413-417 | feeding data in two parts equals feeding it at once |
| ReedSolomon.RemainderOfCodewordIsZero | assets/qr-generator.js:411-419 | data followed by its remainder has remainder zero: every block is a codeword |
| Interleaving.LayoutOf | assets/qr-generator.js:226-230 | the block layout of a (version, level) takes its counts from the tables and is consistent |
| Interleaving.AddEccAndInterleave | assets/qr-generator.js:220-251 | fails with "Invalid data length" exactly when the data does not have `getNumDataCodewords` entries; otherwise returns the interleaved blocks with their ECC |
| Interleaving.Interleaved | assets/qr-generator.js:232-250 | block split and column reading together give `Codewords` |
| Interleaving.SplitBlocks | assets/qr-generator.js:232-241 | the loop slices, pads and extends each block as `Blocks` says |
| Interleaving.Blocks | assets/qr-generator.js:232-241 | there are `numBlocks` blocks, each of length `shortBlockLen + 1` |
| Interleaving.BlocksCoverData | assets/qr-generator.js:234-236 | the slices end exactly at the end of the data, and there is at least one short block |
| Interleaving.SplitIsLossless | assets/qr-generator.js:234-236 | the blocks' data parts concatenate back to the data |
| Interleaving.BlockIsCodeword | assets/qr-generator.js:237-240 | each block's last `blockEccLen` bytes are the remainder of its data |
| Interleaving.ShortBlocksFill | assets/qr-generator.js:229-230 | the blocks, less the short blocks' missing entries, are exactly the raw codewords |
| Interleaving.ReadColumns | assets/qr-generator.js:243-249 | the nested loop reads the blocks column by column, skipping the short blocks' padding column |
| Interleaving.InterleaveLength | assets/qr-generator.js:243-249 | the number of entries read is `n·blocks − numShort` when the skipped column is read |
| Interleaving.CodewordsLength | assets/qr-generator.js:243-250 | the result has `floor(rawModules/8)` entries, the length `drawCodewords` demands |
| Encoder.CapacityBits | assets/qr-generator.js:92 | the capacity in bits is a positive multiple of 8 |
| Encoder.SelectVersion | assets/qr-generator.js:91-123 | returns the smallest version from `minVersion` up to the larger bound that fits; fails with "Data too long" exactly when none fits |
| Encoder.Fits | assets/qr-generator.js:92-94 | the test is whether the finite cost is within the capacity |
| Encoder.BoostLevel | assets/qr-generator.js:95-100 | the boosted level still fits, is no lower, and no higher level fits |
| Encoder.AppendSegments | assets/qr-generator.js:101-107 | the buffer holds every segment's header and payload in order |
| Encoder.AppendSegment | assets/qr-generator.js:102-107 | one segment appends its mode, its count and its payload bits |
| Encoder.TerminatorLen | assets/qr-generator.js:109 | at most 4 terminator bits, never past capacity, and exactly 4 unless capacity is reached |
| Encoder.BitPadLen | assets/qr-generator.js:110 | fewer than 8 padding bits bring the length to a multiple of 8 |
| Encoder.AlignedLen | assets/qr-generator.js:109-110 | after terminator and padding, the length is a multiple of 8 within capacity |
| Encoder.DataBits | assets/qr-generator.js:108-112 | the padded stream is exactly capacity long |
| Encoder.DataBitsShape | assets/qr-generator.js:108-112 | the stream is the segment bits, then zeros up to the byte boundary, then the pad bytes |
| Encoder.TerminatorBounds | assets/qr-generator.js:109-110 | terminator and bit padding add fewer than 12 bits, and at least 4 when there is room |
| Encoder.Terminate | assets/qr-generator.js:108-112 | the three appends give `DataBits` |
| Encoder.AddTerminator | assets/qr-generator.js:109-110 | appends the terminator zeros and then the bit padding |
| Encoder.AddPadBytes | assets/qr-generator.js:111-112 | fills the remaining bytes with the pad sequence |
| Encoder.NextPadByte | assets/qr-generator.js:111 | `padByte ^= 0xEC ^ 0x11` moves to the next pad byte (0xEC, 0x11 alternating) |
| Encoder.PadBytesPacked | assets/qr-generator.js:111-112 | the pad bits pack into 0xEC, 0x11, 0xEC, … |
| Encoder.DataCodewordsShape | assets/qr-generator.js:108-117 | the data codewords number `getNumDataCodewords`, start with the segment bits and end with pad bytes |
| Encoder.DataCodewordsPrefix | assets/qr-generator.js:108-117 | the codewords' bits begin with the segment bits |
| Encoder.DataCodewordsPads | assets/qr-generator.js:111-117 | the codewords after the aligned prefix alternate 0xEC and 0x11, starting with 0xEC |
| Encoder.ZeroPadded | assets/qr-generator.js:114-117 | the buffer extended with zeros to the next byte boundary |
| Encoder.PackCodewords | assets/qr-generator.js:114-117 | the zero fill and OR loop give the zero-padded buffer packed into bytes |
| Encoder.ZeroCodewords | assets/qr-generator.js:114-116 | the while loop pushes one zero per started byte of the buffer |
| Encoder.OrInBits | assets/qr-generator.js:117 | after the forEach, every codeword is its 8 bits packed most significant first |
| Encoder.MakeBytesAsWrittenOverflows | assets/qr-generator.js:58-60 | as written, "A" at version 1 gives codeword 1 = 536, and every Reed–Solomon factor from it is out of byte range |
| Placement.StepCell | assets/qr-generator.js:258-264 | each step of the zigzag visits a module inside the symbol, off column 6, and the step can be recovered from the module |
| Placement.CellStep | assets/qr-generator.js:258-264 | every module off column 6 is visited by exactly the step computed from its coordinates |
| Placement.PlaceGrid | assets/qr-generator.js:253-272 | the placed grid has each module set to its placed bit or its old colour |
| Placement.RanksDistinct | assets/qr-generator.js:257-268 | two different free modules receive different bit indices |
| Placement.RankBelowTotal | assets/qr-generator.js:257-268 | every free module's index is below the number of free modules |
| Placement.RankAttained | assets/qr-generator.js:257-268 | every index below the number of free modules is received by some free module |
| Masking.MaskGrid | assets/qr-generator.js:274-294 | the masked grid inverts exactly the non-function modules where the mask condition holds |
| Masking.MaskTwiceRestores | assets/qr-generator.js:274-294 | applying the same mask twice restores the grid |
| Masking.MaskChanges | assets/qr-generator.js:290-291 | a module changes exactly when it is not a function module and the mask condition holds |
| Penalty.AddHistory | assets/qr-generator.js:449-454 | the run history remains 7 long, shifted by one |
| Penalty.CountPatterns | assets/qr-generator.js:432-437 | at most 2; positive only for the 1:1:3:1:1 core with a 4-fold light border on one side |
| Penalty.CountPatternsExact | assets/qr-generator.js:432-437 | positive exactly for a core with one wide border, and 2 exactly when both borders are wide |
| Penalty.TerminateHistory | assets/qr-generator.js:439-447 | the terminated history is still 7 long |
| Penalty.ScanStep | assets/qr-generator.js:303-317 | one module of a line never lowers the score |
| Penalty.ScanLine | assets/qr-generator.js:299-319 | a line's scan keeps a 7-entry history and a non-negative score |
| Penalty.Column | assets/qr-generator.js:321-341 | the column read is the x-th entry of every row |
| Penalty.BalanceNonNegative | assets/qr-generator.js:356-358 | on an odd-sized symbol the N4 multiplier `ceil(|20b−10t|/t) − 1` is never negative |
| Penalty.BalanceZeroIff | assets/qr-generator.js:356-358 | the N4 term is zero exactly when dark modules are within 5 % of half |
| Penalty.PenaltyNonNegative | assets/qr-generator.js:296-360 | the total penalty of any odd-sized grid is non-negative |
| Penalty.FinderLineScore | assets/qr-generator.js:299-319 | a lone 1:1:3:1:1 line of 7 modules scores the finder penalty twice (the light border counts on both sides) |
| Penalty.LongRunScore | assets/qr-generator.js:304-309 | a run of 7 dark modules scores N1 plus 1 for each module past 5 |
| Symbol.FormatData | assets/qr-generator.js:158 | the 5 data bits of the format word |
| Symbol.ComputeFormatWord | assets/qr-generator.js:158-162 | the BCH loop gives the data bits, then the 10-bit remainder modulo 0x537, XOR 0x5412 |
| Symbol.FormatWordDecodes | assets/qr-generator.js:158-162 | the format word is 15 bits, and removing the XOR pattern gives back level and mask in the top 5 bits |
| Symbol.FormatWordInjective | assets/qr-generator.js:158-162 | different (level, mask) pairs give different format words |
| Symbol.FormatDataInjective | assets/qr-generator.js:158 | different (level, mask) pairs give different data bits |
| Symbol.FormatWordLow0 | assets/qr-generator.js:158-162 | level L, mask 0 gives 0x77C4 (the standard's table) |
| Symbol.FormatWordQuartile0 | assets/qr-generator.js:158-162 | level Q, mask 0 gives 0x355F |
| Symbol.FormatWordHigh7 | assets/qr-generator.js:158-162 | level H, mask 7 gives 0x083B |
| Symbol.ComputeVersionWord | assets/qr-generator.js:182-185 | the BCH loop gives the version, then the 12-bit remainder modulo 0x1F25 |
| Symbol.VersionWordDecodes | assets/qr-generator.js:182-185 | the version word is 18 bits, with the version in the top 6 |
| Symbol.VersionWord7 | assets/qr-generator.js:182-185 | version 7 gives 0x07C94 (the standard's table) |
| Symbol.VersionWord40 | assets/qr-generator.js:182-185 | version 40 gives 0x28C69 |
| Symbol.FormatStep | assets/qr-generator.js:164-176 | each module is one of the 31 format-drawing steps, or none |
| Symbol.VersionStep | assets/qr-generator.js:187-193 | each module is one of the 36 version-drawing steps, or none |
| Symbol.WordBits | assets/qr-generator.js:493-495 | entry i is `getBit(w, i)` |
| Symbol.LadderIsAlignmentPositions | assets/qr-generator.js:366-372 | the positions the splice loop builds are the alignment positions |
| Symbol.SplicePositions | assets/qr-generator.js:369-371 | the splice loop builds 6 followed by the ladder of positions, ending at `size - 7` |
| Symbol.Top | assets/qr-generator.js:134-155 | the last pattern drawing a module, so later patterns overwrite earlier ones |
| Symbol.TopSnoc | assets/qr-generator.js:134-155 | drawing one more pattern makes it the top exactly on the modules it covers |
| Symbol.TopAppend | assets/qr-generator.js:134-155 | drawing a list of patterns puts the top of the list over earlier layers |
| Symbol.QrCode.Blank | assets/qr-generator.js:8-22 | a fresh all-light grid of size `4·version+17` with no function modules and no mask |
| Symbol.QrCode.GetModule | assets/qr-generator.js:126-128 | the module's colour inside the symbol, light outside it |
| Symbol.QrCode.SetFunctionModule | assets/qr-generator.js:215-218 | colours one module, flags it, and changes nothing else |
| Symbol.QrCode.DrawFinderPattern | assets/qr-generator.js:196-206 | the 9×9 area around the centre, clipped to the symbol, gets the finder's rings and is flagged |
| Symbol.QrCode.DrawAlignmentPattern | assets/qr-generator.js:208-213 | the 5×5 area gets the alignment rings and is flagged |
| Symbol.QrCode.DrawFormatBits | assets/qr-generator.js:157-177 | both copies of the format word of (level, mask) and the dark module are drawn and flagged |
| Symbol.QrCode.DrawFirstFormatCopy | assets/qr-generator.js:164-170 | the copy around the top-left finder is drawn |
| Symbol.QrCode.DrawSecondFormatCopy | assets/qr-generator.js:172-176 | the split copy and the dark module are drawn |
| Symbol.QrCode.DrawVersion | assets/qr-generator.js:179-194 | nothing below version 7; otherwise both 6×3 copies of the version word are drawn |
| Symbol.QrCode.DrawTimingPatterns | assets/qr-generator.js:135-138 | row 6 and column 6 alternate dark and light, starting dark |
| Symbol.QrCode.DrawAlignmentPatterns | assets/qr-generator.js:144-151 | every pair of positions except the three finder corners gets an alignment pattern, in loop order |
| Symbol.QrCode.DrawFunctionPatterns | assets/qr-generator.js:134-155 | the grid becomes the layering of timing, finders, alignment patterns, format (mask 0) and version |
| Symbol.QrCode.GetAlignmentPatternPositions | assets/qr-generator.js:362-374 | returns the alignment positions of the version |
| Symbol.QrCode.DrawCodewords | assets/qr-generator.js:253-272 | fails with "Invalid data length" unless there are `floor(rawModules/8)` codewords (grid unchanged); otherwise each free module receives its codeword bit by zigzag index |
| Symbol.QrCode.ApplyMask | assets/qr-generator.js:274-294 | fails with "Mask value out of range" outside 0..7 (grid unchanged); otherwise the grid becomes the masked grid |
| Symbol.QrCode.MaskRow | assets/qr-generator.js:276-293 | one row of the scan masks that row and leaves the later rows |
| Symbol.QrCode.FinderPenaltyAddHistory | assets/qr-generator.js:449-454 | the pop/unshift leaves the history of `AddHistory` |
| Symbol.QrCode.FinderPenaltyTerminateAndCount | assets/qr-generator.js:439-447 | leaves the terminated history and returns its pattern count |
| Symbol.QrCode.ScanModule | assets/qr-generator.js:304-316 | one loop step is the scan step over the run colour, length, history and score |
| Symbol.QrCode.RowRunPenalty | assets/qr-generator.js:299-319 | one row scores `LineScore` of the row |
| Symbol.QrCode.ColumnRunPenalty | assets/qr-generator.js:321-341 | one column scores `LineScore` of the column |
| Symbol.QrCode.RowRunsPenalty | assets/qr-generator.js:299-319 | the row loop sums the row scores |
| Symbol.QrCode.ColumnRunsPenalty | assets/qr-generator.js:321-341 | the column loop sums the column scores |
| Symbol.QrCode.BlocksPenalty | assets/qr-generator.js:343-351 | the 2×2 loop scores N2 per same-coloured block |
| Symbol.QrCode.BlockRowPenalty | assets/qr-generator.js:344-350 | one row of 2×2 blocks |
| Symbol.QrCode.CountDark | assets/qr-generator.js:353-355 | counts the dark modules |
| Symbol.QrCode.BalancePenalty | assets/qr-generator.js:356-358 | the N4 term of the dark count |
| Symbol.QrCode.GetPenaltyScore | assets/qr-generator.js:296-360 | the penalty of the current grid, never negative |
| Symbol.QrCode.LinePenalties | assets/qr-generator.js:299-341 | the run and finder penalties of rows and columns |
| Symbol.QrCode.AreaPenalties | assets/qr-generator.js:343-358 | the block and balance penalties |
| Generator.LayerGrid | assets/qr-generator.js:134-155 | each module has the colour of the last pattern drawing it, light elsewhere |
| Generator.LayerMap | assets/qr-generator.js:134-155 | exactly the modules some pattern draws are flagged |
| Generator.FunctionMapReserved | assets/qr-generator.js:153 | the format modules are function modules, so masks never touch them |
| Generator.FormatCellIsFunction | assets/qr-generator.js:153 | each format module is covered by a function pattern |
| Generator.Framed | assets/qr-generator.js:157-177 | drawing format information changes only the format modules |
| Generator.FinishFormat | assets/qr-generator.js:42-44 | the finished symbol shows the format word of its own mask, and the dark module |
| Generator.Penalties | assets/qr-generator.js:28-40 | one penalty per mask, eight in all |
| Generator.Create | assets/qr-generator.js:8-46 | fails with "Invalid data length" or "Mask value out of range" exactly on those inputs; otherwise the symbol is the version's function patterns with the interleaved codewords, the given or lowest-penalty mask, and that mask's format information |
| Generator.Complete | assets/qr-generator.js:26-44 | from the function-pattern grid: places the codewords, picks the mask and finishes the symbol |
| Generator.DrawFunctions | assets/qr-generator.js:24 | the blank grid becomes the function-pattern grid and map |
| Generator.DrawData | assets/qr-generator.js:26 | the codewords are placed into the function-pattern grid |
| Generator.ChooseMask | assets/qr-generator.js:28-40 | the mask chosen has the lowest penalty, ties going to the lowest index, and the unmasked grid is restored |
| Generator.LowestStep | assets/qr-generator.js:34-37 | one comparison with strict `<` keeps the lowest-first index |
| Generator.TryMask | assets/qr-generator.js:31-38 | scores mask i on the finished grid and restores the unmasked grid |
| Generator.PaintTrial | assets/qr-generator.js:31-32 | mask and format bits drawn give the finished grid of that mask |
| Generator.MaskTrial | assets/qr-generator.js:31 | the mask is applied to the data grid |
| Generator.UndoTrial | assets/qr-generator.js:38 | applying the mask again returns to the unmasked grid; the format modules are restored by the next trial |
| Generator.DataCodewords | assets/qr-generator.js:101-117 | the data codewords number `getNumDataCodewords` |
| Generator.EncodeSegments | assets/qr-generator.js:85-124 | fails with "Data too long" exactly when no version in range fits; otherwise the smallest fitting version, the boosted level, and the constructor's symbol over the assembled codewords |
| Generator.ChooseLevel | assets/qr-generator.js:93-100 | the level used fits; with boosting it is the highest fitting level at or above the request; without boosting it is the request |
| Generator.BuildCodewords | assets/qr-generator.js:101-117 | the bit buffer assembly and packing give `DataCodewords` |
| Generator.EncodeText | assets/qr-generator.js:48-51 | fails with "Data too long" exactly when the text's segments fit no version; otherwise the smallest fitting version, the level boosted to the highest one that still fits (never below `ecl`), and the automatically masked symbol |

## Left out

- `toCanvas` (assets/qr-generator.js:526-551) is canvas drawing, which is I/O over `getModule`.
- The export object and module shim (assets/qr-generator.js:524-557) are left out; they expose the API and compute nothing.
- `assets/script.js` is left out. It is page wiring, script loading, URL validation and a web fallback, not engine logic.
- The constructor's `this.isFunction = []` (assets/qr-generator.js:45) is not modelled. The arrays are fixed fields, and the flags stay readable after construction.
- JavaScript's bitwise operators are written out arithmetically, or on `bv32` for the BCH loops. `>>>` is a 32-bit logical shift (`% 2^32`).
- `Math.ceil` and `Math.floor` of non-negative integer quotients are modelled as integer division rounded up or down, which gives the same integers. No floating point is modelled.
- Generator.EncodeSegments: `minVersion` and `maxVersion` must lie in 0..40. 0 stands for an omitted argument, matching `|| 1` and `|| 40`. `NaN`, fractional and out-of-range versions are not modelled. The omitted `mask` and `boostEcl` defaults are explicit parameters, which `EncodeText` passes as -1 and true.
- Generator.EncodeSegments, Generator.EncodeText: no property is stated end-to-end from text to modules through the source's `makeBytes`, because that path breaks (see Findings). The model runs text through the corrected `MakeBytes`.
- Symbol.QrCode.SetFunctionModule: it requires coordinates inside the symbol. The source would write outside its arrays, and no caller passes such coordinates.
- Symbol.QrCode.DrawAlignmentPattern: it requires the 5×5 area to lie inside the symbol. Every alignment position satisfies this (`Tables.AlignmentPositionsInside`).
- ReedSolomon.ComputeRemainder: it requires a divisor of degree at least 1. Every block has 7..30 ECC bytes (`Tables.BlockStructure`).
- Generator.Create, Interleaving.AddEccAndInterleave, ReedSolomon.ComputeRemainder: codewords are typed as bytes. The source accepts any number array and throws "Byte out of range" from `reedSolomonMultiply` when an entry is not a byte (assets/qr-generator.js:414-416, 422-423). That throw is shown only through Encoder.MakeBytesAsWrittenOverflows and GaloisField.LargeOperandsRejected.
- Segments.EncodeUnit: text is a sequence of UTF-16 code units (0..0xFFFF), as `charCodeAt` returns them. The 4-byte branch (assets/qr-generator.js:75-80) is unreachable, and a surrogate half takes 3 bytes, as written.
- Penalty.CountPatterns: its own ensures is one direction only. The converse and the count of 2 are in `Penalty.CountPatternsExact`.
- GaloisField: commutativity, associativity and distributivity of the field multiplication are not proved. The Reed–Solomon zero-remainder property is proved over the remainder recurrence directly.
- The model does not prove that the free modules of the function map number exactly `8·rawCodewords + remainder bits`. `Placement` proves that indices below the free-module count reach every free module once. `Tables.RawDataModulesCount` gives the count formula.
- The Mode constants NUMERIC, ALPHANUMERIC, KANJI and ECI are modelled as modes with their indicators and widths. Only byte mode has a segment builder in the source.

Where the written design and the code differ, the model follows the code:

- Penalty.BalanceZeroIff: N4 is `ceil(|20·dark − 10·total| / total) − 1` (assets/qr-generator.js:357). A "floor of the percentage deviation over 5" reading differs on exact multiples, such as an all-light or all-dark grid.
- Penalty.PenaltyNonNegative: the penalty scores every module, including the function modules (assets/qr-generator.js:296-360). A reading that skips function modules would give different scores.
- Segments.MakeBytes: the segment carries bits, not the raw bytes, which is the contract the assembler and `getTotalBits` rely on (see Findings).

## Findings

| source | as written | input that shows it | evidently intended | confidence | as-written member | corrected member |
|---|---|---|---|---|---|---|
| assets/qr-generator.js:58-60 | `makeBytes` stores the byte values as `bitData`. `encodeSegments` pushes each entry as one "bit" (105-106), and line 117 ORs `b << (7 - (i & 7))`, so whole bytes land in a codeword. | `encodeText("A", …)` at version 1: the entries are 0,1,0,0, 0,0,0,0,0,0,0,1, 65. Codeword 1 becomes 536, every Reed–Solomon factor from it lies in 512..1023, and `reedSolomonMultiply` throws "Byte out of range" (422-423). | `bitData` holds the 8 bits of each byte, most significant first, so `getTotalBits` counts 8 per byte and codewords stay bytes | not executed | Encoder.MakeBytesAsWrittenOverflows | Segments.MakeBytes |
