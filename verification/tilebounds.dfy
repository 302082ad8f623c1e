/** Which tiles exist at a zoom level (`_tileShouldBeLoaded`) and how large they are drawn (`_addTile`). */
module TileBounds {
  import opened Geometry

  /** True when the tile at column `x`, row `y` lies inside the level's grid. */
  predicate TileShouldBeLoaded(x: int, y: int, gridSize: Size)
  {
    0 <= x < gridSize.x && 0 <= y < gridSize.y
  }

  /**
   * The drawn length of a tile along one axis: the last of `count` tiles gets
   * the remainder of the level's `length`, every other tile the full tile size.
   */
  function AxisExtent(index: int, count: nat, length: nat, t: TileSize): (e: int)
    ensures count == CeilDiv(length, t) && 0 <= index < count ==> 1 <= e <= t
  {
    if index == count - 1 then
      assert count * t == (count - 1) * t + t;
      length - t * (count - 1)
    else
      t
  }

  /**
   * The drawn width and height of a tile; the last column and the last row are
   * adjusted independently, so the corner tile gets both remainders.
   */
  function TileExtent(x: int, y: int, imageSize: Size, gridSize: Size, t: TileSize): (e: (int, int))
    ensures gridSize == GridSizeOf(imageSize, t) && TileShouldBeLoaded(x, y, gridSize) ==>
              1 <= e.0 <= t && 1 <= e.1 <= t
    ensures x != gridSize.x - 1 ==> e.0 == t
    ensures y != gridSize.y - 1 ==> e.1 == t
  {
    (AxisExtent(x, gridSize.x, imageSize.x, t), AxisExtent(y, gridSize.y, imageSize.y, t))
  }

  /** A tile is in the grid exactly when its top-left pixel lies inside the level's image. */
  lemma InBoundsIffOriginInImage(x: int, y: int, imageSize: Size, t: TileSize)
    ensures TileShouldBeLoaded(x, y, GridSizeOf(imageSize, t))
            <==> (0 <= x && x * t < imageSize.x && 0 <= y && y * t < imageSize.y)
  {
    var g := GridSizeOf(imageSize, t);
    OriginInside(x, g.x, imageSize.x, t);
    OriginInside(y, g.y, imageSize.y, t);
  }

  lemma OriginInside(i: int, count: nat, length: nat, t: TileSize)
    requires count == CeilDiv(length, t)
    ensures (0 <= i < count) <==> (0 <= i && i * t < length)
  {
    if 0 <= i < count {
      MulLeq(i, count - 1, t);
    } else if 0 <= i {
      MulLeq(count, i, t);
    }
  }

  lemma MulLeq(a: nat, b: nat, t: nat)
    requires a <= b
    ensures a * t <= b * t
  {
    assert b * t == a * t + (b - a) * t;
  }

  /** The last tile of a non-empty axis is 1 to `t` pixels long and ends exactly at the level's edge. */
  lemma EdgeExtentBounds(length: nat, t: TileSize)
    requires length >= 1
    ensures var count := CeilDiv(length, t);
            var e := AxisExtent(count - 1, count, length, t);
            1 <= e <= t && (count - 1) * t + e == length
  {
  }

  /** The summed drawn lengths of the first `n` tiles along an axis. */
  function SumExtents(n: nat, count: nat, length: nat, t: TileSize): int
  {
    if n == 0 then 0 else SumExtents(n - 1, count, length, t) + AxisExtent(n - 1, count, length, t)
  }

  /** The tiles of a row (or column) together span the level's width (or height) exactly. */
  lemma {:induction false} TilesCoverAxis(length: nat, t: TileSize)
    ensures var count := CeilDiv(length, t);
            SumExtents(count, count, length, t) == length
  {
    var count := CeilDiv(length, t);
    if count > 0 {
      FullTilesSum(count - 1, count, length, t);
    }
  }

  lemma {:induction false} FullTilesSum(n: nat, count: nat, length: nat, t: TileSize)
    requires n < count
    ensures SumExtents(n, count, length, t) == n * t
  {
    if n > 0 {
      FullTilesSum(n - 1, count, length, t);
    }
  }
}
