/** The eight data masks of applyMask (assets/qr-generator.js; section
    7.8.2 of ISO/IEC 18004): each inverts the modules outside function
    patterns where its condition on column x and row y holds. */
module Masking {
  import opened Grids

  /** The condition of mask `m` at column x, row y, as applyMask's switch
      writes it (`%` of non-negative numbers, `Math.floor` of non-negative
      quotients). */
  predicate Inverts(m: int, x: int, y: int)
    requires 0 <= m <= 7 && 0 <= x && 0 <= y
  {
    if m == 0 then (x + y) % 2 == 0
    else if m == 1 then y % 2 == 0
    else if m == 2 then x % 3 == 0
    else if m == 3 then (x + y) % 3 == 0
    else if m == 4 then (x / 3 + y / 2) % 2 == 0
    else if m == 5 then x * y % 2 + x * y % 3 == 0
    else if m == 6 then (x * y % 2 + x * y % 3) % 2 == 0
    else ((x + y) % 2 + x * y % 3) % 2 == 0
  }

  /** The colour mask `m` gives module (x, y) of grid `g` with function
      flags `f`: inverted where the mask applies to a non-function module. */
  function MaskedModule(g: Grid, f: Grid, m: int, x: int, y: int): bool
    requires 0 <= m <= 7 && 0 <= y < |g| && 0 <= x < |g[y]| && y < |f| && x < |f[y]|
  {
    if !f[y][x] && Inverts(m, x, y) then !g[y][x] else g[y][x]
  }

  /** Grid `g` with mask `m` applied. */
  function MaskGrid(g: Grid, f: Grid, n: int, m: int): (r: Grid)
    requires IsGrid(g, n) && IsGrid(f, n) && 0 <= m <= 7
    ensures IsGrid(r, n)
    ensures forall y, x :: 0 <= y < n && 0 <= x < n ==> r[y][x] == MaskedModule(g, f, m, x, y)
  {
    seq(n, y requires 0 <= y < n => seq(n, x requires 0 <= x < n => MaskedModule(g, f, m, x, y)))
  }

  /** Masking is an XOR: applying the same mask twice restores the grid. */
  lemma MaskTwiceRestores(g: Grid, f: Grid, n: int, m: int)
    requires IsGrid(g, n) && IsGrid(f, n) && 0 <= m <= 7
    ensures MaskGrid(MaskGrid(g, f, n, m), f, n, m) == g
  {
    GridsEqual(MaskGrid(MaskGrid(g, f, n, m), f, n, m), g, n);
  }

  /** A mask never changes a function module, and changes a non-function
      module exactly where its condition holds. */
  lemma MaskChanges(g: Grid, f: Grid, n: int, m: int, x: int, y: int)
    requires IsGrid(g, n) && IsGrid(f, n) && 0 <= m <= 7 && 0 <= x < n && 0 <= y < n
    ensures MaskGrid(g, f, n, m)[y][x] != g[y][x] <==> !f[y][x] && Inverts(m, x, y)
  {
  }
}
