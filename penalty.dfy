/** The penalty score getPenaltyScore (assets/qr-generator.js) gives a
    masked symbol, as values over its grid (section 7.8.3 of
    ISO/IEC 18004): runs of five or more same-coloured modules, 2x2 blocks,
    finder-like 1:1:3:1:1 patterns and the balance of dark modules. */
module Penalty {
  import opened Grids

  /** The source's PENALTY_N1..PENALTY_N4. */
  const N1: int := 3
  const N2: int := 3
  const N3: int := 40
  const N4: int := 10

  // ---------------------------------------------------------------------
  // The run history of one line

  /** A fresh run history: the last seven run lengths, most recent first. */
  const EmptyHistory: seq<int> := [0, 0, 0, 0, 0, 0, 0]

  /** finderPenaltyAddHistory: a finished run goes in front and the oldest
      drops out; the first run of a line, which touches the light border
      outside the symbol, is lengthened by `size`. */
  function AddHistory(run: int, h: seq<int>, size: int): (r: seq<int>)
    requires |h| == 7
    ensures |r| == 7 && r[1..] == h[..6]
  {
    [if h[0] == 0 then run + size else run] + h[..6]
  }

  /** finderPenaltyCountPatterns: how many sides of the dark-light-dark
      core 1:1:3:1:1 ending at the most recent run have a light run at
      least four units long (0, 1 or 2). */
  function CountPatterns(h: seq<int>): (r: nat)
    requires |h| == 7
    ensures r <= 2
    ensures r > 0 ==> h[1] > 0 && h[2] == h[1] && h[3] == 3 * h[1] && h[4] == h[1] && h[5] == h[1]
    ensures r > 0 ==> (h[0] >= 4 * h[1] && h[6] >= h[1]) || (h[6] >= 4 * h[1] && h[0] >= h[1])
  {
    var n := h[1];
    var core := n > 0 && h[2] == n && h[3] == n * 3 && h[4] == n && h[5] == n;
    (if core && h[0] >= n * 4 && h[6] >= n then 1 else 0)
    + (if core && h[6] >= n * 4 && h[0] >= n then 1 else 0)
  }

  /** The most recent runs (before the newest) are dark-light-dark in the
      proportions 1:1:3:1:1. */
  predicate FinderCore(h: seq<int>)
    requires |h| == 7
  {
    h[1] > 0 && h[2] == h[1] && h[3] == 3 * h[1] && h[4] == h[1] && h[5] == h[1]
  }

  /** CountPatterns counts a side exactly when the core is there with light
      of at least four units on that side and one unit on the other. */
  lemma CountPatternsExact(h: seq<int>)
    requires |h| == 7
    ensures CountPatterns(h) > 0 <==>
      FinderCore(h) && ((h[0] >= 4 * h[1] && h[6] >= h[1]) || (h[6] >= 4 * h[1] && h[0] >= h[1]))
    ensures CountPatterns(h) == 2 <==>
      FinderCore(h) && h[0] >= 4 * h[1] && h[6] >= 4 * h[1]
  {
  }

  /** The history finderPenaltyTerminateAndCount leaves: the current run if
      it is dark, then the light border beyond the line's end. */
  function TerminateHistory(color: bool, run: int, h: seq<int>, size: int): (r: seq<int>)
    requires |h| == 7
    ensures |r| == 7
  {
    var h1 := if color then AddHistory(run, h, size) else h;
    AddHistory((if color then 0 else run) + size, h1, size)
  }

  /** The state of getPenaltyScore's scan along a line. */
  datatype Scan = Scan(color: bool, run: int, history: seq<int>, score: int)

  /** One module of the scan: a module of the run's colour lengthens it
      (N1 at length 5, one more for every module after); any other ends it,
      records it and, when a light run ends, counts finder-like patterns. */
  function ScanStep(s: Scan, c: bool, size: int): (r: Scan)
    requires |s.history| == 7
    ensures |r.history| == 7 && r.score >= s.score
  {
    if c == s.color then
      var run := s.run + 1;
      Scan(s.color, run, s.history, s.score + (if run == 5 then N1 else if run > 5 then 1 else 0))
    else
      var h := AddHistory(s.run, s.history, size);
      Scan(c, 1, h, s.score + (if !s.color then CountPatterns(h) * N3 else 0))
  }

  /** The scan after the first k modules of a line, which starts as a light
      run of length 0. */
  function ScanLine(line: seq<bool>, k: nat, size: int): (s: Scan)
    requires k <= |line|
    ensures |s.history| == 7 && s.score >= 0
  {
    if k == 0 then Scan(false, 0, EmptyHistory, 0) else ScanStep(ScanLine(line, k - 1, size), line[k - 1], size)
  }

  /** The N1 and N3 penalty of one row or column. */
  function LineScore(line: seq<bool>, size: int): (r: nat)
  {
    var s := ScanLine(line, |line|, size);
    s.score + CountPatterns(TerminateHistory(s.color, s.run, s.history, size)) * N3
  }

  // ---------------------------------------------------------------------
  // The whole grid

  /** Column x of grid g, top to bottom. */
  function Column(g: Grid, n: int, x: int): (c: seq<bool>)
    requires IsGrid(g, n) && 0 <= x < n
    ensures |c| == n && forall y :: 0 <= y < n ==> c[y] == g[y][x]
  {
    seq(n, y requires 0 <= y < n => g[y][x])
  }

  /** The line penalties of rows 0 to k - 1. */
  function RowsScore(g: Grid, n: int, k: int): nat
    requires IsGrid(g, n) && 0 <= k <= n
  {
    if k == 0 then 0 else RowsScore(g, n, k - 1) + LineScore(g[k - 1], n)
  }

  /** The line penalties of columns 0 to k - 1. */
  function ColumnsScore(g: Grid, n: int, k: int): nat
    requires IsGrid(g, n) && 0 <= k <= n
  {
    if k == 0 then 0 else ColumnsScore(g, n, k - 1) + LineScore(Column(g, n, k - 1), n)
  }

  /** The 2x2 block with top-left module (x, y) has one colour. */
  predicate IsBlock(g: Grid, n: int, x: int, y: int)
    requires IsGrid(g, n) && 0 <= x < n - 1 && 0 <= y < n - 1
  {
    var c := g[y][x];
    c == g[y][x + 1] && c == g[y + 1][x] && c == g[y + 1][x + 1]
  }

  /** N2 for every one-coloured block with its top-left corner in row y,
      column below k. */
  function RowBlocks(g: Grid, n: int, y: int, k: int): nat
    requires IsGrid(g, n) && 0 <= y < n - 1 && 0 <= k <= n - 1
  {
    if k == 0 then 0 else RowBlocks(g, n, y, k - 1) + (if IsBlock(g, n, k - 1, y) then N2 else 0)
  }

  /** N2 for every one-coloured block with its top-left corner above row k. */
  function Blocks(g: Grid, n: int, k: int): nat
    requires IsGrid(g, n) && 0 <= k <= n - 1
  {
    if k == 0 then 0 else Blocks(g, n, k - 1) + RowBlocks(g, n, k - 1, n - 1)
  }

  /** Number of dark modules among the first k of a row. */
  function RowDark(row: seq<bool>, k: int): nat
    requires 0 <= k <= |row|
  {
    if k == 0 then 0 else RowDark(row, k - 1) + (if row[k - 1] then 1 else 0)
  }

  /** Number of dark modules in rows 0 to k - 1. */
  function Dark(g: Grid, n: int, k: int): nat
    requires IsGrid(g, n) && 0 <= k <= n
  {
    if k == 0 then 0 else Dark(g, n, k - 1) + RowDark(g[k - 1], n)
  }

  /** `Math.ceil(a / t)` for a non-negative a and positive t. */
  function CeilDiv(a: nat, t: int): int
    requires t > 0
  {
    (a + t - 1) / t
  }

  /** The balance factor k: how many 5% steps the share of dark modules
      lies away from one half, less one. */
  function Balance(dark: int, total: int): int
    requires total > 0
  {
    CeilDiv(Abs(dark * 20 - total * 10), total) - 1
  }

  /** N4 once per balance step. */
  function BalanceScore(dark: int, total: int): int
    requires total > 0
  {
    Balance(dark, total) * N4
  }

  /** The penalty of an n-by-n grid. */
  function PenaltyScore(g: Grid, n: int): int
    requires IsGrid(g, n) && n >= 1
  {
    RowsScore(g, n, n) + ColumnsScore(g, n, n) + Blocks(g, n, n - 1)
    + BalanceScore(Dark(g, n, n), n * n)
  }

  // ---------------------------------------------------------------------
  // Properties

  /** With an odd number of modules the dark share is never exactly one
      half, so the balance factor is never negative. */
  lemma BalanceNonNegative(dark: int, total: int)
    requires total > 0 && total % 2 == 1
    ensures Balance(dark, total) >= 0
  {
    var a := Abs(dark * 20 - total * 10);
    assert (2 * dark - total) % 2 == 1;
    assert a >= 10;
    assert a + total - 1 >= total;
    DivAtLeastOne(a + total - 1, total);
  }

  lemma DivAtLeastOne(a: int, t: int)
    requires t > 0 && a >= t
    ensures a / t >= 1
  {
  }

  /** The balance rule costs nothing exactly when the dark share lies
      within 5% of one half: |20 dark - 10 total| <= total. */
  lemma BalanceZeroIff(dark: int, total: int)
    requires total > 0 && total % 2 == 1
    ensures Balance(dark, total) == 0 <==> Abs(dark * 20 - total * 10) <= total
  {
    var a := Abs(dark * 20 - total * 10);
    assert (2 * dark - total) % 2 == 1;
    assert a >= 1;
    if a <= total {
      DivIsOne(a + total - 1, total);
    } else {
      DivAtLeastTwo(a + total - 1, total);
    }
  }

  lemma DivIsOne(a: int, t: int)
    requires t > 0 && t <= a < 2 * t
    ensures a / t == 1
  {
  }

  lemma DivAtLeastTwo(a: int, t: int)
    requires t > 0 && a >= 2 * t
    ensures a / t >= 2
  {
  }

  /** The penalty of a symbol (odd side) is never negative. */
  lemma PenaltyNonNegative(g: Grid, n: int)
    requires IsGrid(g, n) && n >= 1 && n % 2 == 1
    ensures PenaltyScore(g, n) >= 0
  {
    assert (n * n) % 2 == 1 by {
      OddSquare(n);
    }
    BalanceNonNegative(Dark(g, n, n), n * n);
  }

  lemma SquarePositive(n: int)
    requires n >= 1
    ensures n * n >= 1
  {
  }

  lemma OddSquare(n: int)
    requires n % 2 == 1
    ensures (n * n) % 2 == 1
  {
    var k := n / 2;
    assert n == 2 * k + 1;
    assert n * n == 2 * (2 * k * k + 2 * k) + 1;
  }

  /** finderPenaltyAddHistory on a history written out. */
  lemma AddHistoryOf(run: int, a: int, b: int, c: int, d: int, e: int, f: int, g: int, size: int)
    ensures AddHistory(run, [a, b, c, d, e, f, g], size) == [if a == 0 then run + size else run, a, b, c, d, e, f]
  {
  }

  /** A finder pattern on a line of its own, light border on both sides:
      both of its sides count, 2 * N3. */
  lemma FinderLineScore()
    ensures LineScore([true, false, true, true, true, false, true], 7) == 2 * N3
  {
    var line := [true, false, true, true, true, false, true];
    AddHistoryOf(0, 0, 0, 0, 0, 0, 0, 0, 7);
    assert ScanLine(line, 1, 7) == Scan(true, 1, [7, 0, 0, 0, 0, 0, 0], 0);
    AddHistoryOf(1, 7, 0, 0, 0, 0, 0, 0, 7);
    assert ScanLine(line, 2, 7) == Scan(false, 1, [1, 7, 0, 0, 0, 0, 0], 0);
    AddHistoryOf(1, 1, 7, 0, 0, 0, 0, 0, 7);
    assert ScanLine(line, 3, 7) == Scan(true, 1, [1, 1, 7, 0, 0, 0, 0], 0);
    assert ScanLine(line, 5, 7) == Scan(true, 3, [1, 1, 7, 0, 0, 0, 0], 0);
    AddHistoryOf(3, 1, 1, 7, 0, 0, 0, 0, 7);
    assert ScanLine(line, 6, 7) == Scan(false, 1, [3, 1, 1, 7, 0, 0, 0], 0);
    AddHistoryOf(1, 3, 1, 1, 7, 0, 0, 0, 7);
    assert ScanLine(line, 7, 7) == Scan(true, 1, [1, 3, 1, 1, 7, 0, 0], 0);
    AddHistoryOf(1, 1, 3, 1, 1, 7, 0, 0, 7);
    AddHistoryOf(7, 1, 1, 3, 1, 1, 7, 0, 7);
    assert TerminateHistory(true, 1, [1, 3, 1, 1, 7, 0, 0], 7) == [7, 1, 1, 3, 1, 1, 7];
  }

  /** A dark run of seven: N1 at the fifth module and one for each of the
      two after it; no finder-like pattern. */
  lemma LongRunScore()
    ensures LineScore([true, true, true, true, true, true, true], 7) == N1 + 2
  {
    var line := [true, true, true, true, true, true, true];
    AddHistoryOf(0, 0, 0, 0, 0, 0, 0, 0, 7);
    assert ScanLine(line, 1, 7) == Scan(true, 1, [7, 0, 0, 0, 0, 0, 0], 0);
    assert ScanLine(line, 4, 7) == Scan(true, 4, [7, 0, 0, 0, 0, 0, 0], 0);
    assert ScanLine(line, 5, 7) == Scan(true, 5, [7, 0, 0, 0, 0, 0, 0], N1);
    assert ScanLine(line, 7, 7) == Scan(true, 7, [7, 0, 0, 0, 0, 0, 0], N1 + 2);
    AddHistoryOf(7, 7, 0, 0, 0, 0, 0, 0, 7);
    AddHistoryOf(7, 7, 7, 0, 0, 0, 0, 0, 7);
    assert TerminateHistory(true, 7, [7, 0, 0, 0, 0, 0, 0], 7) == [7, 7, 7, 0, 0, 0, 0];
  }
}
