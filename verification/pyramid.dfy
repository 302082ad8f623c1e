/** The zoom pyramid built by the layer's constructor (`initialize`). */
module Pyramid {
  import opened Geometry

  /**
   * The lists the constructor keeps: `imageSize[z]` and `gridSize[z]` describe
   * zoom level `z`, index 0 being the coarsest level; `maxZoom` is the option
   * the constructor sets.
   */
  datatype Layers = Layers(imageSize: seq<Size>, gridSize: seq<Size>, maxZoom: int)

  /** The elements of `s` in the opposite order (`Array.prototype.reverse`). */
  function Reverse<T>(s: seq<T>): (r: seq<T>)
    ensures |r| == |s|
    ensures forall i :: 0 <= i < |s| ==> r[i] == s[|s| - 1 - i]
  {
    if |s| == 0 then [] else Reverse(s[1..]) + [s[0]]
  }

  /**
   * The shape of the coarsest-first level list for an image of `width` x `height`:
   * the finest level is the image itself, each level is the next finer one
   * halved and floored, the coarsest level fits in one tile and no other does.
   */
  ghost predicate PyramidShape(levels: seq<Size>, width: nat, height: nat, t: TileSize)
  {
    && |levels| >= 1
    && levels[|levels| - 1] == Size(width, height)
    && FitsInTile(levels[0], t)
    && (forall k :: 1 <= k < |levels| ==> levels[k - 1] == Halve(levels[k]))
    && (forall k :: 1 <= k < |levels| ==> !FitsInTile(levels[k], t))
  }

  /** True when every grid entry is the tile grid of the level at the same index. */
  ghost predicate GridMatches(levels: seq<Size>, grids: seq<Size>, t: TileSize)
  {
    |grids| == |levels| && forall k :: 0 <= k < |levels| ==> grids[k] == GridSizeOf(levels[k], t)
  }

  /**
   * The constructor's loop: starting from the full image, halve until both axes
   * fit in one tile, recording each size and its grid, then reverse both lists.
   */
  method BuildPyramid(width: nat, height: nat, tileSize: TileSize) returns (p: Layers)
    ensures PyramidShape(p.imageSize, width, height, tileSize)
    ensures GridMatches(p.imageSize, p.gridSize, tileSize)
    ensures p.maxZoom == |p.gridSize| - 1
  {
    var imageSize := Size(width, height);
    var sizes := [imageSize];
    var grids := [GridSizeOf(imageSize, tileSize)];
    while imageSize.x > tileSize || imageSize.y > tileSize
      invariant |sizes| >= 1 && sizes[0] == Size(width, height)
      invariant imageSize == sizes[|sizes| - 1]
      invariant forall k :: 1 <= k < |sizes| ==> sizes[k] == Halve(sizes[k - 1])
      invariant forall k :: 0 <= k < |sizes| - 1 ==> !FitsInTile(sizes[k], tileSize)
      invariant GridMatches(sizes, grids, tileSize)
      decreases imageSize.x + imageSize.y
    {
      imageSize := Halve(imageSize);
      sizes := sizes + [imageSize];
      grids := grids + [GridSizeOf(imageSize, tileSize)];
    }
    var levels := Reverse(sizes);
    var levelGrids := Reverse(grids);
    p := Layers(levels, levelGrids, |levelGrids| - 1);
  }

  /** Two level lists with the pyramid shape for the same image are equal. */
  lemma {:induction false} PyramidShapeUnique(a: seq<Size>, b: seq<Size>, width: nat, height: nat, t: TileSize)
    requires PyramidShape(a, width, height, t)
    requires PyramidShape(b, width, height, t)
    ensures a == b
  {
    if |a| < |b| {
      AgreeFromTop(a, b, width, height, t, |a| - 1);
      assert false;
    } else if |b| < |a| {
      AgreeFromTop(a, b, width, height, t, |b| - 1);
      assert false;
    }
    forall k | 0 <= k < |a|
      ensures a[k] == b[k]
    {
      AgreeFromTop(a, b, width, height, t, |a| - 1 - k);
    }
  }

  lemma {:induction false} AgreeFromTop(a: seq<Size>, b: seq<Size>, width: nat, height: nat, t: TileSize, j: nat)
    requires PyramidShape(a, width, height, t)
    requires PyramidShape(b, width, height, t)
    requires j < |a| && j < |b|
    ensures a[|a| - 1 - j] == b[|b| - 1 - j]
  {
    if j > 0 {
      AgreeFromTop(a, b, width, height, t, j - 1);
      assert a[|a| - 1 - j] == Halve(a[|a| - j]);
      assert b[|b| - 1 - j] == Halve(b[|b| - j]);
    }
  }

  /** The pyramid has a single level exactly when the image already fits in one tile. */
  lemma SingleLevelIffFits(levels: seq<Size>, width: nat, height: nat, t: TileSize)
    requires PyramidShape(levels, width, height, t)
    ensures |levels| == 1 <==> (width <= t && height <= t)
  {
  }

  /** A 2000 x 1500 image with 256-pixel tiles has four levels, the coarsest 250 x 187. */
  lemma ExamplePyramid(levels: seq<Size>)
    requires PyramidShape(levels, 2000, 1500, 256)
    ensures levels == [Size(250, 187), Size(500, 375), Size(1000, 750), Size(2000, 1500)]
    ensures |levels| - 1 == 3
  {
    var expected := [Size(250, 187), Size(500, 375), Size(1000, 750), Size(2000, 1500)];
    assert PyramidShape(expected, 2000, 1500, 256);
    PyramidShapeUnique(levels, expected, 2000, 1500, 256);
  }

  /** Halving floors each axis separately, so a thin image reaches a level of height zero. */
  lemma ThinImageHasEmptyLevel(levels: seq<Size>)
    requires PyramidShape(levels, 1000, 1, 256)
    ensures levels == [Size(250, 0), Size(500, 0), Size(1000, 1)]
    ensures GridSizeOf(levels[1], 256) == Size(2, 0)
  {
    var expected := [Size(250, 0), Size(500, 0), Size(1000, 1)];
    assert PyramidShape(expected, 1000, 1, 256);
    PyramidShapeUnique(levels, expected, 1000, 1, 256);
  }
}
