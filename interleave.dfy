/** addEccAndInterleave: the data codewords are split into blocks, each
    block gets its Reed-Solomon ECC codewords, and the blocks are read out
    column by column (section 7.6 of ISO/IEC 18004). */
module Interleaving {
  import opened Wrappers
  import opened Bits
  import opened Tables
  import opened ReedSolomon

  /** The block structure of one version and level: total codewords, number
      of blocks and ECC codewords per block. */
  datatype Layout = Layout(rawCodewords: int, numBlocks: int, blockEccLen: int)

  /** At least one block, and every block keeps at least one data codeword
      after its ECC codewords. */
  predicate ValidLayout(l: Layout)
  {
    1 <= l.numBlocks && 1 <= l.blockEccLen && l.rawCodewords / l.numBlocks >= l.blockEccLen + 1
  }

  /** Data codewords: what is left once every block's ECC codewords are set
      aside. */
  function DataLen(l: Layout): int
  {
    l.rawCodewords - l.blockEccLen * l.numBlocks
  }

  /** The layout of a version and level, as the tables give it. */
  function LayoutOf(v: Version, e: Ecc): (l: Layout)
    ensures ValidLayout(l)
    ensures DataLen(l) == NumDataCodewords(v, e) && l.rawCodewords == RawCodewords(v)
    ensures l.blockEccLen == BlockEccLen(e, v) && l.numBlocks == NumBlocks(e, v)
  {
    BlockStructure(v, e);
    Layout(RawCodewords(v), NumBlocks(e, v), BlockEccLen(e, v))
  }

  /** Number of blocks that are one data codeword short. */
  function NumShortBlocks(l: Layout): int
    requires ValidLayout(l)
  {
    l.numBlocks - l.rawCodewords % l.numBlocks
  }

  /** Length of a short block, data and ECC together. */
  function ShortBlockLen(l: Layout): int
    requires ValidLayout(l)
  {
    l.rawCodewords / l.numBlocks
  }

  /** Data codewords of block `i`: one more in the long blocks. */
  function BlockDataLen(l: Layout, i: int): (r: int)
    requires ValidLayout(l)
    ensures r >= 1
  {
    ShortBlockLen(l) - l.blockEccLen + (if i < NumShortBlocks(l) then 0 else 1)
  }

  /** Index of the first data codeword of block `i`. */
  function BlockStart(l: Layout, i: nat): (r: nat)
    requires ValidLayout(l)
  {
    if i == 0 then 0 else BlockStart(l, i - 1) + BlockDataLen(l, i - 1)
  }

  lemma {:induction false} BlockStartClosed(l: Layout, i: nat)
    requires ValidLayout(l)
    ensures BlockStart(l, i) == i * (ShortBlockLen(l) - l.blockEccLen)
      + (if i > NumShortBlocks(l) then i - NumShortBlocks(l) else 0)
  {
    if i > 0 {
      BlockStartClosed(l, i - 1);
      var d := ShortBlockLen(l) - l.blockEccLen;
      assert i * d == (i - 1) * d + d;
    }
  }

  /** The blocks take up the data codewords exactly, and between one and
      all of them are short. */
  lemma BlocksCoverData(l: Layout)
    requires ValidLayout(l)
    ensures BlockStart(l, l.numBlocks) == DataLen(l)
    ensures 1 <= NumShortBlocks(l) <= l.numBlocks
  {
    var nb, ecc, s := l.numBlocks, l.blockEccLen, ShortBlockLen(l);
    BlockStartClosed(l, nb);
    assert l.rawCodewords == nb * s + l.rawCodewords % nb;
    assert nb * (s - ecc) == nb * s - ecc * nb;
  }

  lemma {:induction false} BlockStartMonotone(l: Layout, i: nat, j: nat)
    requires ValidLayout(l) && i <= j
    ensures BlockStart(l, i) + (if i < j then BlockDataLen(l, i) else 0) <= BlockStart(l, j)
  {
    if i < j {
      BlockStartMonotone(l, i, j - 1);
    }
  }

  /** The generator polynomial coefficients shared by every block. */
  function BlockDivisor(l: Layout): (r: seq<Byte>)
    requires ValidLayout(l)
    ensures |r| == l.blockEccLen
  {
    Generator(l.blockEccLen)[1..]
  }

  /** The data codewords of block `i`. */
  function BlockData(data: seq<Byte>, l: Layout, i: nat): (r: seq<Byte>)
    requires ValidLayout(l) && |data| == DataLen(l) && i < l.numBlocks
    ensures |r| == BlockDataLen(l, i)
  {
    BlocksCoverData(l);
    BlockStartMonotone(l, i + 1, l.numBlocks);
    data[BlockStart(l, i)..BlockStart(l, i) + BlockDataLen(l, i)]
  }

  /** Block `i`: its data codewords, a 0 placeholder in a short block (so
      that all blocks have the same length), then its ECC codewords. */
  function Block(data: seq<Byte>, l: Layout, i: nat): (r: seq<Byte>)
    requires ValidLayout(l) && |data| == DataLen(l) && i < l.numBlocks
    ensures |r| == ShortBlockLen(l) + 1
  {
    var dat := BlockData(data, l, i);
    dat + (if i < NumShortBlocks(l) then [0] else []) + Remainder(dat, BlockDivisor(l))
  }

  /** All blocks, in order. */
  function Blocks(data: seq<Byte>, l: Layout): (r: seq<seq<Byte>>)
    requires ValidLayout(l) && |data| == DataLen(l)
    ensures |r| == l.numBlocks
    ensures forall j :: 0 <= j < |r| ==> |r[j]| == ShortBlockLen(l) + 1
  {
    seq(l.numBlocks, i requires 0 <= i < l.numBlocks => Block(data, l, i))
  }

  /** Column `i` of the top `m` blocks, leaving out the placeholder column of
      the short blocks. */
  function ColumnEntries(blocks: seq<seq<Byte>>, i: nat, skip: int, numShort: int, m: nat): seq<Byte>
    requires m <= |blocks| && forall j :: 0 <= j < |blocks| ==> i < |blocks[j]|
  {
    if m == 0 then []
    else
      ColumnEntries(blocks, i, skip, numShort, m - 1)
      + (if i != skip || m - 1 >= numShort then [blocks[m - 1][i]] else [])
  }

  /** The first `n` columns of the blocks, read column by column. */
  function Interleave(blocks: seq<seq<Byte>>, n: nat, skip: int, numShort: int): seq<Byte>
    requires forall j :: 0 <= j < |blocks| ==> n <= |blocks[j]|
  {
    if n == 0 then []
    else Interleave(blocks, n - 1, skip, numShort) + ColumnEntries(blocks, n - 1, skip, numShort, |blocks|)
  }

  /** The codewords of a symbol: its blocks read column by column. */
  function Codewords(data: seq<Byte>, l: Layout): seq<Byte>
    requires ValidLayout(l) && |data| == DataLen(l)
  {
    Interleave(Blocks(data, l), ShortBlockLen(l) + 1, ShortBlockLen(l) - l.blockEccLen, NumShortBlocks(l))
  }

  /** addEccAndInterleave: throws "Invalid data length" unless there are
      exactly as many data codewords as the version and level hold;
      otherwise the blocks with their ECC codewords, interleaved. */
  method AddEccAndInterleave(data: seq<Byte>, ver: Version, ecl: Ecc) returns (r: Result<seq<Byte>>)
    ensures r.Success? <==> |data| == NumDataCodewords(ver, ecl)
    ensures r.Failure? ==> r.error == InvalidDataLength
    ensures r.Success? ==> r.value == Codewords(data, LayoutOf(ver, ecl))
  {
    var l := LayoutOf(ver, ecl);
    if |data| != DataLen(l) {
      return Failure(InvalidDataLength);
    }
    var result := Interleaved(data, l);
    return Success(result);
  }

  /** The body of addEccAndInterleave once the length check has passed. */
  method Interleaved(data: seq<Byte>, l: Layout) returns (result: seq<Byte>)
    requires ValidLayout(l) && |data| == DataLen(l)
    ensures result == Codewords(data, l)
  {
    var blocks := SplitBlocks(data, l);
    result := ReadColumns(blocks, l.rawCodewords / l.numBlocks + 1,
      l.rawCodewords / l.numBlocks - l.blockEccLen, l.numBlocks - l.rawCodewords % l.numBlocks);
  }

  /** The first loop of addEccAndInterleave: cut each block's data
      codewords, pad short blocks and append the remainder. */
  method SplitBlocks(data: seq<Byte>, l: Layout) returns (blocks: seq<seq<Byte>>)
    requires ValidLayout(l) && |data| == DataLen(l)
    ensures blocks == Blocks(data, l)
  {
    BlocksCoverData(l);
    var numBlocks := l.numBlocks;
    var blockEccLen := l.blockEccLen;
    var numShortBlocks := numBlocks - l.rawCodewords % numBlocks;
    var shortBlockLen := l.rawCodewords / numBlocks;
    blocks := [];
    var rsDiv := ComputeDivisor(blockEccLen);
    var i, k := 0, 0;
    while i < numBlocks
      invariant 0 <= i <= numBlocks && k == BlockStart(l, i)
      invariant |blocks| == i && forall t :: 0 <= t < i ==> blocks[t] == Block(data, l, t)
    {
      BlockStartMonotone(l, i + 1, numBlocks);
      var dat := data[k..k + shortBlockLen - blockEccLen + (if i < numShortBlocks then 0 else 1)];
      assert dat == BlockData(data, l, i);
      k := k + |dat|;
      var ecc := ComputeRemainder(dat, rsDiv);
      if i < numShortBlocks {
        dat := dat + [0];
      }
      blocks := blocks + [dat + ecc];
      i := i + 1;
    }
  }

  /** The second loop of addEccAndInterleave: read the blocks column by
      column, skipping the placeholder of each short block. */
  method ReadColumns(blocks: seq<seq<Byte>>, n: nat, skip: int, numShort: int) returns (result: seq<Byte>)
    requires forall j :: 0 <= j < |blocks| ==> n <= |blocks[j]|
    ensures result == Interleave(blocks, n, skip, numShort)
  {
    result := [];
    var i := 0;
    while i < n
      invariant 0 <= i <= n
      invariant result == Interleave(blocks, i, skip, numShort)
    {
      var j := 0;
      while j < |blocks|
        invariant 0 <= j <= |blocks|
        invariant result == Interleave(blocks, i, skip, numShort)
          + ColumnEntries(blocks, i, skip, numShort, j)
      {
        if i != skip || j >= numShort {
          result := result + [blocks[j][i]];
        }
        j := j + 1;
      }
      i := i + 1;
    }
  }

  lemma {:induction false} ColumnLength(blocks: seq<seq<Byte>>, i: nat, skip: int, numShort: nat, m: nat)
    requires m <= |blocks| && forall j :: 0 <= j < |blocks| ==> i < |blocks[j]|
    ensures |ColumnEntries(blocks, i, skip, numShort, m)| ==
      if i != skip then m else if m <= numShort then 0 else m - numShort
  {
    if m > 0 {
      ColumnLength(blocks, i, skip, numShort, m - 1);
    }
  }

  lemma {:induction false} InterleaveLength(blocks: seq<seq<Byte>>, n: nat, skip: nat, numShort: nat)
    requires forall j :: 0 <= j < |blocks| ==> n <= |blocks[j]|
    requires numShort <= |blocks|
    ensures |Interleave(blocks, n, skip, numShort)| == n * |blocks| - (if skip < n then numShort else 0)
  {
    if n > 0 {
      InterleaveLength(blocks, n - 1, skip, numShort);
      ColumnLength(blocks, n - 1, skip, numShort, |blocks|);
      assert n * |blocks| == (n - 1) * |blocks| + |blocks|;
    }
  }

  /** The interleaved codewords fill the data area exactly: as many as
      drawCodewords requires. */
  lemma CodewordsLength(data: seq<Byte>, l: Layout)
    requires ValidLayout(l) && |data| == DataLen(l)
    ensures |Codewords(data, l)| == l.rawCodewords
  {
    BlocksCoverData(l);
    var nb, s := l.numBlocks, ShortBlockLen(l);
    InterleaveLength(Blocks(data, l), s + 1, s - l.blockEccLen, NumShortBlocks(l));
    ShortBlocksFill(l);
  }

  /** Short blocks of length s and long blocks of length s + 1 add up to
      the codeword count. */
  lemma ShortBlocksFill(l: Layout)
    requires ValidLayout(l)
    ensures (ShortBlockLen(l) + 1) * l.numBlocks - NumShortBlocks(l) == l.rawCodewords
  {
    var nb, s := l.numBlocks, ShortBlockLen(l);
    assert (s + 1) * nb == s * nb + nb;
    assert l.rawCodewords == nb * s + l.rawCodewords % nb;
  }

  /** Every block ends in exactly blockEccLen ECC codewords, and its data
      codewords followed by them form a Reed-Solomon codeword of the
      block's generator polynomial. */
  lemma BlockIsCodeword(data: seq<Byte>, l: Layout, i: nat)
    requires ValidLayout(l) && |data| == DataLen(l) && i < l.numBlocks
    ensures var b := Block(data, l, i);
      var ecc := b[|b| - l.blockEccLen..];
      |ecc| == l.blockEccLen
      && Remainder(BlockData(data, l, i) + ecc, BlockDivisor(l)) == Zeros(l.blockEccLen)
  {
    var b := Block(data, l, i);
    var dat := BlockData(data, l, i);
    assert b[|b| - l.blockEccLen..] == Remainder(dat, BlockDivisor(l));
    RemainderOfCodewordIsZero(dat, BlockDivisor(l));
  }

  /** The data codewords of the first `n` blocks, in block order. */
  function AllBlockData(data: seq<Byte>, l: Layout, n: nat): seq<Byte>
    requires ValidLayout(l) && |data| == DataLen(l) && n <= l.numBlocks
  {
    if n == 0 then [] else AllBlockData(data, l, n - 1) + BlockData(data, l, n - 1)
  }

  /** The blocks' data codewords, in block order, are the data codewords:
      no codeword is lost, repeated or reordered by the split. */
  lemma {:induction false} BlockDataConcat(data: seq<Byte>, l: Layout, n: nat)
    requires ValidLayout(l) && |data| == DataLen(l) && n <= l.numBlocks
    ensures BlockStart(l, n) <= |data|
    ensures AllBlockData(data, l, n) == data[..BlockStart(l, n)]
  {
    BlocksCoverData(l);
    BlockStartMonotone(l, n, l.numBlocks);
    if n > 0 {
      BlockDataConcat(data, l, n - 1);
      assert data[..BlockStart(l, n)] == data[..BlockStart(l, n - 1)] + BlockData(data, l, n - 1);
    }
  }

  lemma SplitIsLossless(data: seq<Byte>, l: Layout)
    requires ValidLayout(l) && |data| == DataLen(l)
    ensures AllBlockData(data, l, l.numBlocks) == data
  {
    BlockDataConcat(data, l, l.numBlocks);
    BlocksCoverData(l);
  }
}
