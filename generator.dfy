/** The QrCode constructor and the encodeSegments / encodeText entry points
    of assets/qr-generator.js: function patterns, codewords, the automatic
    choice of the data mask (section 7.8.3 of ISO/IEC 18004) and the format
    information of the chosen mask, over the grid values of the symbol at
    each stage. */
module Generator {
  import opened Wrappers
  import opened Bits
  import opened Tables
  import opened Grids
  import opened Placement
  import opened Masking
  import opened Penalty
  import opened Segments
  import opened Encoder
  import opened Interleaving
  import opened Symbol

  // ---------------------------------------------------------------------
  // The symbol at each stage, as values

  /** The colours patterns `ps` leave on an all-light n-by-n grid: the
      colour of the last pattern drawing a module, light elsewhere. */
  function LayerGrid(ps: seq<Pattern>, n: int): (g: Grid)
    requires n >= 0
    ensures IsGrid(g, n)
    ensures forall y, x :: 0 <= y < n && 0 <= x < n ==>
      g[y][x] == (Top(ps, n, x, y) >= 0 && Shade(ps[Top(ps, n, x, y)], n, x, y))
  {
    seq(n, y requires 0 <= y < n => seq(n, x requires 0 <= x < n =>
      Top(ps, n, x, y) >= 0 && Shade(ps[Top(ps, n, x, y)], n, x, y)))
  }

  /** The function flags patterns `ps` leave: the modules some pattern
      draws. */
  function LayerMap(ps: seq<Pattern>, n: int): (f: Grid)
    requires n >= 0
    ensures IsGrid(f, n)
    ensures forall y, x :: 0 <= y < n && 0 <= x < n ==> f[y][x] == (Top(ps, n, x, y) >= 0)
  {
    seq(n, y requires 0 <= y < n => seq(n, x requires 0 <= x < n => Top(ps, n, x, y) >= 0))
  }

  /** The colours and flags drawFunctionPatterns leaves on the blank grid. */
  function FunctionGrid(v: Version, e: Ecc): (g: Grid)
    ensures IsGrid(g, Size(v))
  {
    LayerGrid(FunctionPatterns(v, e), Size(v))
  }

  function FunctionMap(v: Version, e: Ecc): (f: Grid)
    ensures IsGrid(f, Size(v))
  {
    LayerMap(FunctionPatterns(v, e), Size(v))
  }

  /** The grid once drawCodewords has laid the final codewords `cw` into the
      function patterns. */
  function DataGrid(v: Version, e: Ecc, cw: seq<Byte>): (g: Grid)
    ensures IsGrid(g, Size(v))
  {
    PlaceGrid(FunctionGrid(v, e), FunctionMap(v, e), Size(v), cw)
  }

  /** The modules the format information occupies. */
  predicate FormatCell(n: int, x: int, y: int)
  {
    FormatStep(n, x, y) >= 0
  }

  /** Flags `f` mark every format module as a function module. */
  predicate Reserved(f: Grid, n: int)
  {
    IsGrid(f, n) && forall y, x :: 0 <= y < n && 0 <= x < n && FormatCell(n, x, y) ==> f[y][x]
  }

  /** The 15 bits of the format word for level `e` and mask `m`, least
      significant first. */
  function FormatBitsOf(e: Ecc, m: int): (b: seq<bool>)
    requires 0 <= m < 8
    ensures |b| == 15
  {
    WordBits(FormatWord(e, m) as int, 15)
  }

  /** The format information drawFormatBits draws for level `e`, mask `m`. */
  function FormatPattern(e: Ecc, m: int): Pattern
    requires 0 <= m < 8
  {
    FormatInfo(FormatBitsOf(e, m))
  }

  /** Grid `g` with the format information `p` drawn over it. */
  function Framed(g: Grid, n: int, p: Pattern): (r: Grid)
    requires IsGrid(g, n)
    ensures IsGrid(r, n)
    ensures forall y, x :: 0 <= y < n && 0 <= x < n ==>
      r[y][x] == if FormatCell(n, x, y) then Shade(p, n, x, y) else g[y][x]
  {
    seq(n, y requires 0 <= y < n => seq(n, x requires 0 <= x < n =>
      if FormatCell(n, x, y) then Shade(p, n, x, y) else g[y][x]))
  }

  /** Codeword grid `d` with function flags `f` finished with mask `m`: the
      mask applied, then the format information of level `e` and `m`
      drawn. */
  function Finish(d: Grid, f: Grid, n: int, e: Ecc, m: int): (g: Grid)
    requires IsGrid(d, n) && IsGrid(f, n) && 0 <= m < 8
    ensures IsGrid(g, n)
  {
    Framed(MaskGrid(d, f, n, m), n, FormatPattern(e, m))
  }

  /** The penalty the constructor computes for mask `m`. */
  function MaskPenalty(d: Grid, f: Grid, n: int, e: Ecc, m: int): int
    requires IsGrid(d, n) && IsGrid(f, n) && n >= 1 && 0 <= m < 8
  {
    PenaltyScore(Finish(d, f, n, e, m), n)
  }

  /** The penalties of the eight masks. */
  function Penalties(d: Grid, f: Grid, n: int, e: Ecc): (s: seq<int>)
    requires IsGrid(d, n) && IsGrid(f, n) && n >= 1
    ensures |s| == 8
  {
    seq(8, m requires 0 <= m < 8 => MaskPenalty(d, f, n, e, m))
  }

  /** Entry `m` is the lowest of `scores`, and every entry before it is
      higher: the index a scan with a strict `<` keeps. */
  predicate IsLowest(scores: seq<int>, m: int)
  {
    0 <= m < |scores|
    && (forall j :: 0 <= j < |scores| ==> scores[m] <= scores[j])
    && (forall j :: 0 <= j < m ==> scores[m] < scores[j])
  }

  // ---------------------------------------------------------------------
  // Properties of the stages

  /** The format modules belong to a function pattern: drawFunctionPatterns
      reserves them with the format information of mask 0. */
  lemma FunctionMapReserved(v: Version, e: Ecc)
    ensures Reserved(FunctionMap(v, e), Size(v))
  {
    forall y, x | 0 <= y < Size(v) && 0 <= x < Size(v) && FormatCell(Size(v), x, y)
      ensures FunctionMap(v, e)[y][x]
    {
      FormatCellIsFunction(v, e, x, y);
    }
  }

  lemma FormatCellIsFunction(v: Version, e: Ecc, x: int, y: int)
    requires 0 <= x < Size(v) && 0 <= y < Size(v) && FormatCell(Size(v), x, y)
    ensures Top(FunctionPatterns(v, e), Size(v), x, y) >= 0
  {
    var n, pos := Size(v), AlignmentPositions(v);
    var a := TimingAndFinders(n) + AllAlignments(pos, |pos|);
    var p := FormatInfo(WordBits(FormatWord(e, 0) as int, 15));
    assert Covers(p, n, x, y);
    TopSnoc(a, p, n, x, y);
    TopAppend(a + [p], VersionPatterns(v), n, x, y);
  }

  /** A mask leaves the format modules alone, so a finished symbol shows
      the format information of its own mask: the module at format step
      `s` holds bit `s % 15` of the format word, and the one at step 30 is
      dark. */
  lemma FinishFormat(d: Grid, f: Grid, n: int, e: Ecc, m: int)
    requires IsGrid(d, n) && IsGrid(f, n) && 0 <= m < 8
    ensures forall y, x :: 0 <= y < n && 0 <= x < n && FormatStep(n, x, y) >= 0 ==>
      Finish(d, f, n, e, m)[y][x]
      == if FormatStep(n, x, y) == 30 then true else FormatBitsOf(e, m)[FormatStep(n, x, y) % 15]
  {
    var p := FormatPattern(e, m);
    var g := MaskGrid(d, f, n, m);
    assert Finish(d, f, n, e, m) == Framed(g, n, p);
  }

  // ---------------------------------------------------------------------
  // The constructor

  /** Symbol `q` is finished over final codewords `cw` with mask argument
      `msk`: the chosen mask is `msk`, or the one of lowest penalty when
      `msk` is -1; the modules are the codeword grid with that mask and its
      format information, and the function flags those of the function
      patterns. */
  ghost predicate IsSymbolFor(q: QrCode, cw: seq<Byte>, msk: int)
    reads q, q.modules, q.isFunction
  {
    q.Valid() && 0 <= q.mask < 8
    && (msk == -1 ==> IsLowest(Penalties(DataGrid(q.version, q.ecl, cw), FunctionMap(q.version, q.ecl), q.size, q.ecl), q.mask))
    && (msk != -1 ==> q.mask == msk)
    && Snapshot(q.modules) == Finish(DataGrid(q.version, q.ecl, cw), FunctionMap(q.version, q.ecl), q.size, q.ecl, q.mask)
    && Snapshot(q.isFunction) == FunctionMap(q.version, q.ecl)
  }

  /** The symbol `q` is the one the constructor builds from version `ver`,
      level `ecl`, data codewords `data` and mask argument `msk`. */
  ghost predicate IsSymbolOf(q: QrCode, ver: Version, ecl: Ecc, data: seq<Byte>, msk: int)
    reads q, q.modules, q.isFunction
  {
    |data| == NumDataCodewords(ver, ecl) && q.version == ver && q.ecl == ecl
    && IsSymbolFor(q, Codewords(data, LayoutOf(ver, ecl)), msk)
  }

  /** new QrCode(ver, ecl, dataCodewords, mask): throws "Invalid data
      length" when the data codewords do not fill the version at that
      level, and "Mask value out of range" when the mask is neither -1 nor
      one of 0..7; otherwise draws the function patterns, lays out the
      codewords with their error correction, picks the mask (the one with
      the lowest penalty when `msk` is -1) and draws it with its format
      information. */
  method Create(ver: Version, ecl: Ecc, dataCodewords: seq<Byte>, msk: int) returns (r: Result<QrCode>)
    ensures r.Failure? <==> |dataCodewords| != NumDataCodewords(ver, ecl) || (msk != -1 && !(0 <= msk < 8))
    ensures r.Failure? ==> r.error == if |dataCodewords| != NumDataCodewords(ver, ecl) then InvalidDataLength else MaskOutOfRange
    ensures r.Success? ==> fresh(r.value) && fresh(r.value.modules) && fresh(r.value.isFunction)
    ensures r.Success? ==> IsSymbolOf(r.value, ver, ecl, dataCodewords, msk)
  {
    var q := new QrCode.Blank(ver, ecl);
    DrawFunctions(q);
    var allCodewords := AddEccAndInterleave(dataCodewords, ver, ecl);
    if allCodewords.Failure? {
      return Failure(allCodewords.error);
    }
    CodewordsLength(dataCodewords, LayoutOf(ver, ecl));
    var o := Complete(q, allCodewords.value, msk);
    if o.Fail? {
      return Failure(o.error);
    }
    return Success(q);
  }

  /** The rest of the constructor once the codewords are known:
      drawCodewords, the mask choice when `msk` is -1, then applyMask and
      drawFormatBits with the chosen mask. */
  method Complete(q: QrCode, cw: seq<Byte>, msk: int) returns (o: Outcome)
    requires q.Valid() && |cw| == RawCodewords(q.version)
    requires Snapshot(q.modules) == FunctionGrid(q.version, q.ecl)
    requires Snapshot(q.isFunction) == FunctionMap(q.version, q.ecl)
    modifies q, q.modules, q.isFunction
    ensures o.Fail? <==> msk != -1 && !(0 <= msk < 8)
    ensures o.Fail? ==> o.error == MaskOutOfRange
    ensures o.Pass? ==> IsSymbolFor(q, cw, msk)
  {
    DrawData(q, cw);
    ghost var d, f := DataGrid(q.version, q.ecl, cw), FunctionMap(q.version, q.ecl);
    FunctionMapReserved(q.version, q.ecl);
    var m := msk;
    if m == -1 {
      m := ChooseMask(q, d, f);
    }
    q.mask := m;
    o := PaintTrial(q, d, f, m);
  }

  /** drawFunctionPatterns on the blank grid. */
  method DrawFunctions(q: QrCode)
    requires q.Valid()
    requires forall y, x :: 0 <= y < q.size && 0 <= x < q.size ==> !q.modules[y, x] && !q.isFunction[y, x]
    modifies q.modules, q.isFunction
    ensures Snapshot(q.modules) == FunctionGrid(q.version, q.ecl)
    ensures Snapshot(q.isFunction) == FunctionMap(q.version, q.ecl)
  {
    q.DrawFunctionPatterns();
    ghost var ps := FunctionPatterns(q.version, q.ecl);
    GridsEqual(Snapshot(q.modules), LayerGrid(ps, q.size), q.size);
    GridsEqual(Snapshot(q.isFunction), LayerMap(ps, q.size), q.size);
  }

  /** drawCodewords over the function patterns, with exactly as many
      codewords as the version holds. */
  method DrawData(q: QrCode, cw: seq<Byte>)
    requires q.Valid() && |cw| == RawCodewords(q.version)
    requires Snapshot(q.modules) == FunctionGrid(q.version, q.ecl)
    requires Snapshot(q.isFunction) == FunctionMap(q.version, q.ecl)
    modifies q.modules
    ensures Snapshot(q.modules) == DataGrid(q.version, q.ecl, cw)
    ensures Snapshot(q.isFunction) == FunctionMap(q.version, q.ecl)
  {
    var o := q.DrawCodewords(cw);
    GridsEqual(Snapshot(q.modules), DataGrid(q.version, q.ecl, cw), q.size);
  }

  /** Between trials: the function flags are `f`, and every module outside
      the format information is that of the codeword grid `d`. */
  ghost predicate Unmasked(q: QrCode, d: Grid, f: Grid)
    reads q.modules, q.isFunction
  {
    q.Valid() && IsGrid(d, q.size) && Reserved(f, q.size) && Snapshot(q.isFunction) == f
    && forall y, x :: 0 <= y < q.size && 0 <= x < q.size && !FormatCell(q.size, x, y) ==> q.modules[y, x] == d[y][x]
  }

  /** The mask loop of the constructor: each mask is applied, its format
      information drawn and the penalty taken, and the mask applied again;
      a penalty replaces the best so far only when strictly lower (the
      best so far starts as Infinity, here None). */
  method ChooseMask(q: QrCode, ghost d: Grid, ghost f: Grid) returns (best: int)
    requires Unmasked(q, d, f)
    modifies q.modules, q.isFunction
    ensures IsLowest(Penalties(d, f, q.size, q.ecl), best)
    ensures Unmasked(q, d, f)
  {
    ghost var all := Penalties(d, f, q.size, q.ecl);
    var minPenalty: Option<int> := None;
    best := -1;
    for i := 0 to 8
      invariant Unmasked(q, d, f)
      invariant minPenalty.None? <==> i == 0
      invariant i > 0 ==> IsLowest(all[..i], best) && minPenalty == Some(all[best])
    {
      var penalty := TryMask(q, d, f, i);
      assert penalty == all[i];
      ghost var previous := best;
      if minPenalty.None? || penalty < minPenalty.value {
        best := i;
        minPenalty := Some(penalty);
      }
      LowestStep(all, i, previous, best);
    }
    assert all[..8] == all;
  }

  /** One step of the scan: the lowest of one more entry. */
  lemma LowestStep(s: seq<int>, i: int, best: int, next: int)
    requires 0 <= i < |s| && (i > 0 ==> IsLowest(s[..i], best))
    requires next == if i == 0 || s[i] < s[best] then i else best
    ensures IsLowest(s[..i + 1], next)
  {
  }

  /** One iteration of the mask loop. */
  method TryMask(q: QrCode, ghost d: Grid, ghost f: Grid, i: int) returns (penalty: int)
    requires Unmasked(q, d, f) && 0 <= i < 8
    modifies q.modules, q.isFunction
    ensures penalty == MaskPenalty(d, f, q.size, q.ecl, i)
    ensures Unmasked(q, d, f)
  {
    var o := PaintTrial(q, d, f, i);
    penalty := q.GetPenaltyScore();
    UndoTrial(q, d, f, i);
  }

  /** applyMask(m) then drawFormatBits(m): the symbol becomes the finished
      symbol of mask `m`; a mask outside 0..7 throws and changes nothing. */
  method PaintTrial(q: QrCode, ghost d: Grid, ghost f: Grid, m: int) returns (o: Outcome)
    requires Unmasked(q, d, f)
    modifies q.modules, q.isFunction
    ensures o.Fail? <==> m < 0 || m > 7
    ensures o.Fail? ==> o.error == MaskOutOfRange && Unmasked(q, d, f)
    ensures o.Pass? ==> Snapshot(q.modules) == Finish(d, f, q.size, q.ecl, m)
    ensures o.Pass? ==> Snapshot(q.isFunction) == f
  {
    o := MaskTrial(q, d, f, m);
    if o.Fail? {
      return;
    }
    q.DrawFormatBits(m);
    GridsEqual(Snapshot(q.modules), Finish(d, f, q.size, q.ecl, m), q.size);
    GridsEqual(Snapshot(q.isFunction), f, q.size);
  }

  /** The first applyMask(m) of a trial: the modules outside the format
      information become those of the masked codeword grid. */
  method MaskTrial(q: QrCode, ghost d: Grid, ghost f: Grid, m: int) returns (o: Outcome)
    requires Unmasked(q, d, f)
    modifies q.modules
    ensures o.Fail? <==> m < 0 || m > 7
    ensures o.Fail? ==> o.error == MaskOutOfRange && Unmasked(q, d, f)
    ensures o.Pass? ==> MaskedData(q, d, f, m)
  {
    o := q.ApplyMask(m);
  }

  /** The function flags are `f`, and every module outside the format
      information is that of codeword grid `d` with mask `m`. */
  ghost predicate MaskedData(q: QrCode, d: Grid, f: Grid, m: int)
    requires 0 <= m < 8
    reads q.modules, q.isFunction
  {
    q.Valid() && IsGrid(d, q.size) && Reserved(f, q.size) && Snapshot(q.isFunction) == f
    && forall y, x :: 0 <= y < q.size && 0 <= x < q.size && !FormatCell(q.size, x, y) ==>
      q.modules[y, x] == MaskGrid(d, f, q.size, m)[y][x]
  }

  /** The second applyMask(m) of a trial: masking is an XOR and leaves the
      format modules alone, so the codeword grid is back outside the format
      information. */
  method UndoTrial(q: QrCode, ghost d: Grid, ghost f: Grid, m: int)
    requires q.Valid() && IsGrid(d, q.size) && Reserved(f, q.size) && 0 <= m < 8
    requires Snapshot(q.modules) == Finish(d, f, q.size, q.ecl, m)
    requires Snapshot(q.isFunction) == f
    modifies q.modules
    ensures Unmasked(q, d, f)
  {
    var o := q.ApplyMask(m);
  }

  // ---------------------------------------------------------------------
  // encodeSegments and encodeText

  /** `minVersion || 1` and `maxVersion || 40`: 0 stands for the default. */
  function OrDefault(v: int, d: Version): Version
    requires 0 <= v <= 40
  {
    if v == 0 then d else v
  }

  /** The data codewords encodeSegments builds for segments that fit
      version `v` at level `e`: the segment bits, terminator, bit padding
      and pad bytes, packed eight bits to a codeword. */
  function DataCodewords(segs: seq<Segment>, v: Version, e: Ecc): (cw: seq<Byte>)
    requires FitsAt(segs, v, e)
    ensures |cw| == NumDataCodewords(v, e)
  {
    TotalBitsIsLength(segs, v);
    PackBits(DataBits(SegmentsBits(segs, v), CapacityBits(v, e)))
  }

  /** No version from `lo` to `hi` holds the segments at level `ecl`. */
  predicate NoVersionFits(segs: seq<Segment>, ecl: Ecc, lo: Version, hi: Version)
  {
    forall w: Version :: lo <= w <= Max(lo, hi) ==> !FitsAt(segs, w, ecl)
  }

  /** encodeSegments: the smallest version from minVersion on that holds
      the segments ("Data too long" when none up to maxVersion does), the
      level raised as far as the data allows when boostEcl is set, the data
      codewords, then the constructor with the mask argument. */
  method EncodeSegments(segs: seq<Segment>, ecl: Ecc, minVersion: int, maxVersion: int, mask: int, boostEcl: bool)
    returns (r: Result<QrCode>)
    requires 0 <= minVersion <= 40 && 0 <= maxVersion <= 40
    ensures var lo, hi := OrDefault(minVersion, 1), OrDefault(maxVersion, 40);
      NoVersionFits(segs, ecl, lo, hi) ==> r == Failure(DataTooLong)
    ensures var lo, hi := OrDefault(minVersion, 1), OrDefault(maxVersion, 40);
      !NoVersionFits(segs, ecl, lo, hi) ==>
        (r.Failure? <==> mask != -1 && !(0 <= mask < 8)) && (r.Failure? ==> r.error == MaskOutOfRange)
    ensures r.Success? ==> fresh(r.value) && fresh(r.value.modules) && fresh(r.value.isFunction)
    ensures r.Success? ==> var q, lo, hi := r.value, OrDefault(minVersion, 1), OrDefault(maxVersion, 40);
      lo <= q.version <= Max(lo, hi) && FitsAt(segs, q.version, ecl)
      && (forall w: Version :: lo <= w < q.version ==> !FitsAt(segs, w, ecl))
      && FitsAt(segs, q.version, q.ecl)
      && (boostEcl ==> Ordinal(ecl) <= Ordinal(q.ecl)
                       && forall f: Ecc :: Ordinal(q.ecl) < Ordinal(f) ==> !FitsAt(segs, q.version, f))
      && (!boostEcl ==> q.ecl == ecl)
      && IsSymbolOf(q, q.version, q.ecl, DataCodewords(segs, q.version, q.ecl), mask)
  {
    var lo, hi := OrDefault(minVersion, 1), OrDefault(maxVersion, 40);
    var selected := SelectVersion(segs, ecl, lo, hi);
    if selected.Failure? {
      return Failure(selected.error);
    }
    var version := selected.value;
    var e := ChooseLevel(segs, version, ecl, boostEcl);
    var dataCodewords := BuildCodewords(segs, version, e);
    r := Create(version, e, dataCodewords, mask);
  }

  /** The level encodeSegments uses at the chosen version: with boostEcl,
      the highest of Medium, Quartile and High, tried in that order, whose
      capacity still holds the data, when it is above `ecl`. */
  method ChooseLevel(segs: seq<Segment>, version: Version, ecl: Ecc, boostEcl: bool) returns (e: Ecc)
    requires FitsAt(segs, version, ecl)
    ensures FitsAt(segs, version, e)
    ensures boostEcl ==> Ordinal(ecl) <= Ordinal(e) && forall f: Ecc :: Ordinal(e) < Ordinal(f) ==> !FitsAt(segs, version, f)
    ensures !boostEcl ==> e == ecl
  {
    var dataUsedBits := GetTotalBits(segs, version);
    e := ecl;
    if boostEcl {
      e := BoostLevel(dataUsedBits.value, version, ecl);
    }
  }

  /** The middle of encodeSegments: the segment bits, the terminator, the
      bit padding and the pad bytes, packed into codewords. */
  method BuildCodewords(segs: seq<Segment>, version: Version, e: Ecc) returns (dataCodewords: seq<Byte>)
    requires FitsAt(segs, version, e)
    ensures dataCodewords == DataCodewords(segs, version, e)
  {
    var bb := AppendSegments(segs, version);
    TotalBitsIsLength(segs, version);
    var dataCapacityBits := CapacityBits(version, e);
    bb := Terminate(bb, dataCapacityBits);
    dataCodewords := PackCodewords(bb);
    ZeroPaddedAligned(bb);
  }

  /** encodeText: the text as one byte segment of its UTF-8 encoding (no
      segment for the empty text), at level `ecl` with the defaults of
      encodeSegments: versions 1 to 40, automatic mask, boosted level. */
  method EncodeText(text: seq<CodeUnit>, ecl: Ecc) returns (r: Result<QrCode>)
    ensures NoVersionFits(TextSegments(text), ecl, 1, 40) <==> r.Failure?
    ensures r.Failure? ==> r.error == DataTooLong
    ensures r.Success? ==> fresh(r.value) && fresh(r.value.modules) && fresh(r.value.isFunction)
    ensures r.Success? ==> var q := r.value;
      FitsAt(TextSegments(text), q.version, q.ecl)
      && (forall w: Version :: 1 <= w < q.version ==> !FitsAt(TextSegments(text), w, ecl))
      && Ordinal(ecl) <= Ordinal(q.ecl)
      && (forall f: Ecc :: Ordinal(q.ecl) < Ordinal(f) ==> !FitsAt(TextSegments(text), q.version, f))
      && IsSymbolOf(q, q.version, q.ecl, DataCodewords(TextSegments(text), q.version, q.ecl), -1)
  {
    var segs := MakeSegments(text);
    r := EncodeSegments(segs, ecl, 1, 40, -1, true);
  }
}
