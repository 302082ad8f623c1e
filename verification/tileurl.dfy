/** The address of one tile image (`getTileUrl`). */
module TileUrl {
  import opened Geometry
  import opened Pyramid
  import opened TileBounds
  import opened Quadkey
  import opened Folders

  /** The tile's file name digits: its quadkey without the leading digit. */
  function BaseFileName(x: nat, y: nat, zoom: nat): (name: string)
    ensures |name| == zoom
    ensures forall k :: 0 <= k < zoom ==> name[k] == QuadDigit(x, y, zoom - 1 - k)
  {
    var q := ToQuad(x, y, zoom);
    Substring(q, 1, |q|)
  }

  /** `url`, then the enclosing folders, then `r`, the file name digits and `.jpg`. */
  function GetTileUrl(url: string, x: nat, y: nat, zoom: nat): (u: string)
    ensures |u| == |url| + 4 * (zoom / 3) + zoom + 5
    ensures u[..|url|] == url
    ensures u[|u| - 4..] == ".jpg"
    ensures zoom == 0 ==> u == url + "r.jpg"
  {
    var name := BaseFileName(x, y, zoom);
    url + EnclosingFolders(name) + "r" + name + ".jpg"
  }

  /** For tiles below `2^zoom` on both axes, the trimmed digit is '0', so nothing is lost. */
  lemma TrimmedDigitIsZero(x: nat, y: nat, zoom: nat)
    requires x < Pow2(zoom) && y < Pow2(zoom)
    ensures ToQuad(x, y, zoom) == "0" + BaseFileName(x, y, zoom)
  {
    LeadingDigitZero(x, y, zoom);
    var q := ToQuad(x, y, zoom);
    assert q == [q[0]] + q[1..];
  }

  /** The file name of a tile below `2^zoom` on both axes decodes back to that tile. */
  lemma BaseFileNameDecodes(x: nat, y: nat, zoom: nat)
    requires x < Pow2(zoom) && y < Pow2(zoom)
    ensures IsQuadKey(BaseFileName(x, y, zoom))
    ensures DecodeColumn(BaseFileName(x, y, zoom)) == x
    ensures DecodeRow(BaseFileName(x, y, zoom)) == y
  {
    var name := BaseFileName(x, y, zoom);
    var p := Pow2(zoom + 1);
    TrimmedDigitIsZero(x, y, zoom);
    DecodeToQuad(x, y, zoom);
    DivModUnique(x, p, 0, x);
    DivModUnique(y, p, 0, y);
    DecodeLeadingZero(name);
  }

  /** Tiles below `2^zoom` on both axes have distinct URLs under the same base URL. */
  lemma GetTileUrlInjective(url: string, x1: nat, y1: nat, x2: nat, y2: nat, zoom: nat)
    requires x1 < Pow2(zoom) && y1 < Pow2(zoom) && x2 < Pow2(zoom) && y2 < Pow2(zoom)
    requires GetTileUrl(url, x1, y1, zoom) == GetTileUrl(url, x2, y2, zoom)
    ensures x1 == x2 && y1 == y2
  {
    var n1 := BaseFileName(x1, y1, zoom);
    var n2 := BaseFileName(x2, y2, zoom);
    var u1 := GetTileUrl(url, x1, y1, zoom);
    var u2 := GetTileUrl(url, x2, y2, zoom);
    var start := |url| + 4 * (zoom / 3) + 1;
    assert u1[start..start + zoom] == n1;
    assert u2[start..start + zoom] == n2;
    BaseFileNameDecodes(x1, y1, zoom);
    BaseFileNameDecodes(x2, y2, zoom);
  }

  /**
   * A 513-pixel-wide level at zoom 1 has three columns; column 2 has key "10",
   * and trimming its leading '1' gives it the URL of column 0.
   */
  lemma ColumnTwoSharesUrlWithColumnZero(url: string)
    ensures ToQuad(2, 0, 1)[0] == '1'
    ensures GetTileUrl(url, 2, 0, 1) == GetTileUrl(url, 0, 0, 1)
  {
    WideLevelKey();
    assert ToQuad(0, 0, 1) == "00" by {
      assert Bit(0, 1) == 0 && Bit(0, 0) == 0;
    }
  }

  /**
   * A 513 x 200 image with 256-pixel tiles has the levels 256 x 100 and 513 x 200,
   * and column 2, row 0 lies inside the grid of zoom 1, so the layer requests it.
   */
  lemma WideImageLoadsColumnTwo(levels: seq<Size>)
    requires PyramidShape(levels, 513, 200, 256)
    ensures levels == [Size(256, 100), Size(513, 200)]
    ensures TileShouldBeLoaded(2, 0, GridSizeOf(levels[1], 256))
  {
    var expected := [Size(256, 100), Size(513, 200)];
    assert PyramidShape(expected, 513, 200, 256);
    PyramidShapeUnique(levels, expected, 513, 200, 256);
  }
}
