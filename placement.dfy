/** The zigzag order in which drawCodewords (assets/qr-generator.js) lays
    the codeword bits into the modules no function pattern claims
    (section 7.7.3 of ISO/IEC 18004): two-column strips from the right edge
    leftwards, skipping the timing column 6, read alternately upwards and
    downwards, right column before left column in every row. */
module Placement {
  import opened Bits
  import opened Grids

  /** The side lengths of QR Code symbols that the traversal relies on. */
  predicate IsSymbolSize(size: int)
  {
    size >= 21 && size % 2 == 1
  }

  /** Number of two-column strips: every column except column 6. */
  function Pairs(size: int): int
  {
    (size - 1) / 2
  }

  /** The right-hand column of strip `p`.  The source counts `right` down
      from size - 1 in steps of 2 and moves it from 6 to 5 once, so every
      strip left of the timing column is shifted by one. */
  function Right(size: int, p: int): int
  {
    if size - 1 - 2 * p >= 7 then size - 1 - 2 * p else size - 2 - 2 * p
  }

  /** The source's `((right + 1) & 2) === 0`, for a non-negative `right`:
      bit 1 of right + 1 is clear, and the strip is read from the bottom
      row up. */
  predicate Upward(right: int)
  {
    ((right + 1) / 2) % 2 == 0
  }

  /** The row at step `vert` of strip `p`. */
  function RowOf(size: int, p: int, vert: int): int
  {
    if Upward(Right(size, p)) then size - 1 - vert else vert
  }

  /** The strip that column x (not 6) belongs to. */
  function PairOf(size: int, x: int): int
  {
    if x >= 7 then (size - 1 - x) / 2 else (size - 2 - x) / 2
  }

  /** Which column of its strip x is: 0 the right one, 1 the left one. */
  function SideOf(size: int, x: int): int
  {
    if x >= 7 then (size - 1 - x) % 2 else (size - 2 - x) % 2
  }

  /** The step along its strip at which module (x, y) is visited. */
  function VertOf(size: int, x: int, y: int): int
  {
    if Upward(Right(size, PairOf(size, x))) then size - 1 - y else y
  }

  /** Step (p, vert, j) of the traversal: strip p, step vert along it,
      side j. */
  predicate IsStep(size: int, p: int, vert: int, j: int)
  {
    0 <= p < Pairs(size) && 0 <= vert < size && 0 <= j < 2
  }

  /** The points between steps: (p, vert, j) for 0 <= j <= 2 is the point
      before side j of row vert (j = 2 being after both sides), (p, size, 0)
      the end of strip p, and (Pairs(size), 0, 0) the end of the traversal. */
  predicate IsPosition(size: int, p: int, vert: int, j: int)
  {
    (0 <= p < Pairs(size) && ((0 <= vert < size && 0 <= j <= 2) || (vert == size && j == 0)))
    || (p == Pairs(size) && vert == 0 && j == 0)
  }

  /** (p1, v1, j1) comes before (p2, v2, j2) in the traversal. */
  predicate Precedes(p1: int, v1: int, j1: int, p2: int, v2: int, j2: int)
  {
    p1 < p2 || (p1 == p2 && (v1 < v2 || (v1 == v2 && j1 < j2)))
  }

  /** Every step visits one module of the symbol other than column 6, and
      that module's strip, side and step are the step's own. */
  lemma StepCell(size: int, p: int, vert: int, j: int)
    requires IsSymbolSize(size) && IsStep(size, p, vert, j)
    ensures 0 <= Right(size, p) - j < size && Right(size, p) - j != 6
    ensures 0 <= RowOf(size, p, vert) < size
    ensures PairOf(size, Right(size, p) - j) == p && SideOf(size, Right(size, p) - j) == j
    ensures VertOf(size, Right(size, p) - j, RowOf(size, p, vert)) == vert
  {
  }

  /** Every module outside column 6 is visited, by the step its strip,
      side and step name. */
  lemma CellStep(size: int, x: int, y: int)
    requires IsSymbolSize(size) && 0 <= x < size && x != 6 && 0 <= y < size
    ensures IsStep(size, PairOf(size, x), VertOf(size, x, y), SideOf(size, x))
    ensures Right(size, PairOf(size, x)) - SideOf(size, x) == x
    ensures RowOf(size, PairOf(size, x), VertOf(size, x, y)) == y
  {
  }

  /** Step (p, vert, j) falls on a module that `f` does not flag. */
  predicate IsFree(f: Grid, size: int, p: int, vert: int, j: int)
    requires IsSymbolSize(size) && IsGrid(f, size) && IsStep(size, p, vert, j)
  {
    StepCell(size, p, vert, j);
    !f[RowOf(size, p, vert)][Right(size, p) - j]
  }

  /** The number of free modules the traversal visits before position
      (p, vert, j): the value of drawCodewords' bit counter there, as long
      as the data lasts. */
  function Before(f: Grid, size: int, p: int, vert: int, j: int): nat
    requires IsSymbolSize(size) && IsGrid(f, size) && IsPosition(size, p, vert, j)
    decreases p, vert, j
  {
    if j > 0 then Before(f, size, p, vert, j - 1) + (if IsFree(f, size, p, vert, j - 1) then 1 else 0)
    else if vert > 0 then Before(f, size, p, vert - 1, 2)
    else if p > 0 then Before(f, size, p - 1, size, 0)
    else 0
  }

  function Min(a: int, b: int): int
  {
    if a < b then a else b
  }

  /** The number of free modules in the whole traversal. */
  function FreeModules(f: Grid, size: int): nat
    requires IsSymbolSize(size) && IsGrid(f, size)
  {
    Before(f, size, Pairs(size), 0, 0)
  }

  /** The position of a module outside column 6 among the free modules. */
  function Rank(f: Grid, size: int, x: int, y: int): nat
    requires IsSymbolSize(size) && IsGrid(f, size) && 0 <= x < size && x != 6 && 0 <= y < size
  {
    CellStep(size, x, y);
    Before(f, size, PairOf(size, x), VertOf(size, x, y), SideOf(size, x))
  }

  /** The colour drawCodewords leaves on module (x, y) of grid `g0`: a free
      module outside column 6 whose rank is within the data gets that bit of
      the data (most significant bit of each byte first); every other
      module keeps its colour. */
  function Placed(g0: Grid, f: Grid, size: int, data: seq<Byte>, x: int, y: int): bool
    requires IsSymbolSize(size) && IsGrid(g0, size) && IsGrid(f, size)
    requires 0 <= x < size && 0 <= y < size
  {
    if x != 6 && !f[y][x] && Rank(f, size, x, y) < 8 * |data|
    then BytesBits(data)[Rank(f, size, x, y)]
    else g0[y][x]
  }

  /** The codeword grid as a value: every module as drawCodewords leaves it. */
  function PlaceGrid(g0: Grid, f: Grid, size: int, data: seq<Byte>): (g: Grid)
    requires IsSymbolSize(size) && IsGrid(g0, size) && IsGrid(f, size)
    ensures IsGrid(g, size)
    ensures forall y, x :: 0 <= y < size && 0 <= x < size ==> g[y][x] == Placed(g0, f, size, data, x, y)
  {
    seq(size, y requires 0 <= y < size =>
      seq(size, x requires 0 <= x < size => Placed(g0, f, size, data, x, y)))
  }

  /** Module (x, y) is visited before position (p, vert, j). */
  predicate Visited(size: int, x: int, y: int, p: int, vert: int, j: int)
  {
    x != 6 && Precedes(PairOf(size, x), VertOf(size, x, y), SideOf(size, x), p, vert, j)
  }

  /** One step of the traversal visits exactly its own module. */
  lemma VisitedNext(size: int, x: int, y: int, p: int, vert: int, j: int)
    requires IsSymbolSize(size) && IsStep(size, p, vert, j) && 0 <= x < size && 0 <= y < size
    ensures Visited(size, x, y, p, vert, j + 1) <==>
      Visited(size, x, y, p, vert, j) || (x == Right(size, p) - j && y == RowOf(size, p, vert))
  {
    StepCell(size, p, vert, j);
    if x != 6 {
      CellStep(size, x, y);
    }
  }

  // ---------------------------------------------------------------------
  // Every free module takes a different bit, and every bit finds a module

  /** The counter grows by one at every free step: a free step's count is
      below the count at any later position. */
  lemma {:induction false} BeforeIncreases(f: Grid, size: int, p1: int, v1: int, j1: int, p2: int, v2: int, j2: int)
    requires IsSymbolSize(size) && IsGrid(f, size)
    requires IsStep(size, p1, v1, j1) && IsFree(f, size, p1, v1, j1)
    requires IsPosition(size, p2, v2, j2) && Precedes(p1, v1, j1, p2, v2, j2)
    ensures Before(f, size, p1, v1, j1) < Before(f, size, p2, v2, j2)
    decreases p2, v2, j2
  {
    if j2 > 0 {
      if !(p1 == p2 && v1 == v2 && j1 == j2 - 1) {
        BeforeIncreases(f, size, p1, v1, j1, p2, v2, j2 - 1);
      }
    } else if v2 > 0 {
      BeforeIncreases(f, size, p1, v1, j1, p2, v2 - 1, 2);
    } else {
      BeforeIncreases(f, size, p1, v1, j1, p2 - 1, size, 0);
    }
  }

  /** Two different free modules get different bits of the data. */
  lemma RanksDistinct(f: Grid, size: int, x1: int, y1: int, x2: int, y2: int)
    requires IsSymbolSize(size) && IsGrid(f, size)
    requires 0 <= x1 < size && x1 != 6 && 0 <= y1 < size && !f[y1][x1]
    requires 0 <= x2 < size && x2 != 6 && 0 <= y2 < size && !f[y2][x2]
    requires x1 != x2 || y1 != y2
    ensures Rank(f, size, x1, y1) != Rank(f, size, x2, y2)
  {
    CellStep(size, x1, y1);
    CellStep(size, x2, y2);
    var p1, v1, j1 := PairOf(size, x1), VertOf(size, x1, y1), SideOf(size, x1);
    var p2, v2, j2 := PairOf(size, x2), VertOf(size, x2, y2), SideOf(size, x2);
    if Precedes(p1, v1, j1, p2, v2, j2) {
      BeforeIncreases(f, size, p1, v1, j1, p2, v2, j2);
    } else {
      assert Precedes(p2, v2, j2, p1, v1, j1);
      BeforeIncreases(f, size, p2, v2, j2, p1, v1, j1);
    }
  }

  /** Every free module ranks below the number of free modules. */
  lemma RankBelowTotal(f: Grid, size: int, x: int, y: int)
    requires IsSymbolSize(size) && IsGrid(f, size)
    requires 0 <= x < size && x != 6 && 0 <= y < size && !f[y][x]
    ensures Rank(f, size, x, y) < FreeModules(f, size)
  {
    CellStep(size, x, y);
    BeforeIncreases(f, size, PairOf(size, x), VertOf(size, x, y), SideOf(size, x), Pairs(size), 0, 0);
  }

  /** Below the count at a position, every count is taken by a free step
      before it. */
  lemma {:induction false} CountAttained(f: Grid, size: int, p: int, vert: int, j: int, r: nat)
    returns (q: int, w: int, k: int)
    requires IsSymbolSize(size) && IsGrid(f, size) && IsPosition(size, p, vert, j)
    requires r < Before(f, size, p, vert, j)
    ensures IsStep(size, q, w, k) && IsFree(f, size, q, w, k) && Before(f, size, q, w, k) == r
    decreases p, vert, j
  {
    if j > 0 {
      if r < Before(f, size, p, vert, j - 1) {
        q, w, k := CountAttained(f, size, p, vert, j - 1, r);
      } else {
        q, w, k := p, vert, j - 1;
      }
    } else if vert > 0 {
      q, w, k := CountAttained(f, size, p, vert - 1, 2, r);
    } else {
      q, w, k := CountAttained(f, size, p - 1, size, 0, r);
    }
  }

  /** Every rank below the number of free modules belongs to a free
      module: while the data has no more bits than there are free modules,
      every bit is drawn. */
  lemma RankAttained(f: Grid, size: int, r: nat) returns (x: int, y: int)
    requires IsSymbolSize(size) && IsGrid(f, size) && r < FreeModules(f, size)
    ensures 0 <= x < size && x != 6 && 0 <= y < size && !f[y][x]
    ensures Rank(f, size, x, y) == r
  {
    var q, w, k := CountAttained(f, size, Pairs(size), 0, 0, r);
    StepCell(size, q, w, k);
    x, y := Right(size, q) - k, RowOf(size, q, w);
  }
}
