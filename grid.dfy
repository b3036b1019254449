/** A symbol's modules as a value: row y, column x is `g[y][x]`. */
module Grids {
  type Grid = seq<seq<bool>>

  /** Distance from zero, for coordinate offsets and penalty balances. */
  function Abs(a: int): nat
  {
    if a < 0 then -a else a
  }

  /** `g` is an n-by-n grid. */
  predicate IsGrid(g: Grid, n: int)
  {
    |g| == n && forall y :: 0 <= y < n ==> |g[y]| == n
  }

  /** Two n-by-n grids that agree module by module are equal. */
  lemma GridsEqual(a: Grid, b: Grid, n: int)
    requires IsGrid(a, n) && IsGrid(b, n)
    requires forall y, x :: 0 <= y < n && 0 <= x < n ==> a[y][x] == b[y][x]
    ensures a == b
  {
    forall y | 0 <= y < n
      ensures a[y] == b[y]
    {
      assert forall x :: 0 <= x < n ==> a[y][x] == b[y][x];
    }
  }
}
