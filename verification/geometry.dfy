/** Pixel sizes, tile sizes and the per-level tile grid (`_getGridSize`). */
module Geometry {

  /** A pair of pixel counts or tile counts: `x` is the width axis, `y` the height axis. */
  datatype Size = Size(x: nat, y: nat)

  /** The edge length of a square tile; the grid arithmetic divides by it. */
  type TileSize = t: nat | t >= 1 witness 256

  /** `Math.ceil(n / t)` on naturals: the fewest tiles of edge `t` that cover `n` pixels. */
  function CeilDiv(n: nat, t: TileSize): (c: nat)
    ensures n <= c * t
    ensures c >= 1 ==> (c - 1) * t < n
    ensures c == 0 <==> n == 0
  {
    var q := (n + t - 1) / t;
    assert n + t - 1 == q * t + (n + t - 1) % t;
    q
  }

  /** `divideBy(2).floor()`: both axes halved and rounded down. */
  function Halve(s: Size): (h: Size)
    ensures 2 * h.x <= s.x <= 2 * h.x + 1
    ensures 2 * h.y <= s.y <= 2 * h.y + 1
  {
    Size(s.x / 2, s.y / 2)
  }

  /** True when a level is covered by a single tile, which ends the pyramid loop. */
  predicate FitsInTile(s: Size, t: TileSize)
  {
    s.x <= t && s.y <= t
  }

  /** The tile grid of one level: the number of columns and rows that cover it. */
  function GridSizeOf(s: Size, t: TileSize): (g: Size)
    ensures g.x * t >= s.x && g.y * t >= s.y
    ensures g.x >= 1 ==> (g.x - 1) * t < s.x
    ensures g.y >= 1 ==> (g.y - 1) * t < s.y
  {
    Size(CeilDiv(s.x, t), CeilDiv(s.y, t))
  }
}
