# Gigapan tile addressing, modelled in Dafny

`L.TileLayer.Gigapan` is a Leaflet tile layer for images tiled by Gigapan Stitch. Its core is a
small, pure tile-addressing scheme, and this project models that core:

- **Zoom pyramid** (`initialize`, `_getGridSize`). Starting from the image size, both axes are
  halved and floored until both fit in one tile. Each level's size and its tile grid,
  `ceil(size / tileSize)` per axis, are recorded. Both lists are then reversed so that level 0 is
  the coarsest, and `maxZoom` is the number of levels minus one.
- **Best-fit zoom** (`_getBestFitZoom`). The scan starts at the finest level. It returns the first
  level above 0 whose size, scaled by `tolerance`, is strictly smaller than the map viewport on
  both axes. If no level fits, the result is 0.
- **Tile bounds and edge sizing** (`_tileShouldBeLoaded` and the width and height arithmetic of
  `_addTile`).
- **Path encoding** (`_toQuad`, `_getEnclosingFolders`, `getTileUrl`). A tile's quadkey is
  bit-interleaved base 4: the column bit weighs 1, the row bit weighs 2, and the most significant
  bit comes first. The file name is the quadkey minus its first digit. The folders are `r` plus the
  first two digits, then the following groups of three, `floor(n/3)` folders in all for an
  `n`-digit name. So the name's last one to three digits are never in a folder: `rABCDE.jpg` lies in
  `rAB/` alone.

Modules follow these parts: `Geometry` (sizes, ceiling division, halving), `Pyramid`, `BestFit`,
`TileBounds`, `Quadkey`, `Folders` and `TileUrl`. Everything is a pure function over naturals,
sequences and strings. The pyramid loop and the best-fit scan are methods whose loops mirror the
source's `while` loops. The map's current zoom, the viewport size and the base URL become
parameters. All functions are deterministic, so equal arguments give equal URLs.

Facts about the code that the model makes explicit:

- The folder groups are contiguous and do not overlap: digit ranges `[0,2)`, `[2,5)`, `[5,8)`, …
  (`i*3-1 .. i*3+2` for `i >= 1`). `Folders.FolderDigitsArePrefix` proves that the folders hold
  exactly the first `3k - 1` digits of the name, once each, with `k = floor(n/3)`.
- Halving floors each axis, so a 2000 x 1500 image's coarsest level is 250 x 187
  (`Pyramid.ExamplePyramid`).
- Because each axis is floored on its own, a level can be 0 pixels on one axis. A 1000 x 1 image
  with 256-pixel tiles has the levels 250 x 0, 500 x 0 and 1000 x 1
  (`Pyramid.ThinImageHasEmptyLevel`).
- The constructor does not validate sizes. Widths and heights are naturals, and the tile size is a
  positive natural, because the grid divides by it.

For a column and row below `2^(zoom+1)`, the trimmed leading quadkey digit is `0` exactly when
both are below `2^zoom`. The floor-halving pyramid can produce a level with more columns than
`2^zoom`. A 513 x 200 image with 256-pixel tiles has the levels 256 x 100 and 513 x 200, and zoom 1
then has three columns, so column 2 is requested (`TileUrl.WideImageLoadsColumnTwo`). Column 2 has
the quadkey `"10"`, and trimming the `1` gives it the same URL as column 0
(`TileUrl.ColumnTwoSharesUrlWithColumnZero`). The leading-zero fact, the decoding of the file name
and URL injectivity are therefore proved under the hypothesis `column, row < 2^zoom`.

## Model

| member | source | states |
|---|---|---|
| `Geometry.CeilDiv` | L.TileLayer.Gigapan.js:53 | `Math.ceil(n / t)`: `c` tiles cover `n` pixels, `c - 1` tiles do not, and `c` is 0 exactly when `n` is 0 |
| `Geometry.Halve` | L.TileLayer.Gigapan.js:29 | each axis of the halved size is the floor of half the original: `2h <= s <= 2h + 1` |
| `Geometry.GridSizeOf` | L.TileLayer.Gigapan.js:51-54 | the grid has the fewest columns and rows that cover the level on each axis |
| `Pyramid.Reverse` | L.TileLayer.Gigapan.js:34-35 | the reversed list has the same length, and element `i` is element `n-1-i` of the input |
| `Pyramid.BuildPyramid` | L.TileLayer.Gigapan.js:22-37 | the last level is the full image and the first fits in one tile; each level is the next finer one halved and floored; no level above 0 fits in one tile; each grid entry is the grid of the same-index level; `maxZoom` is the length minus one |
| `Pyramid.PyramidShapeUnique` | L.TileLayer.Gigapan.js:28-35 | the pyramid shape determines the level list completely: two lists with that shape for one image are equal |
| `Pyramid.SingleLevelIffFits` | L.TileLayer.Gigapan.js:28 | the pyramid has exactly one level if and only if the image fits in one tile on both axes |
| `Pyramid.ExamplePyramid` | L.TileLayer.Gigapan.js:22-37 | a 2000 x 1500 image with 256-pixel tiles has levels 250x187, 500x375, 1000x750, 2000x1500, so `maxZoom` is 3 |
| `Pyramid.ThinImageHasEmptyLevel` | L.TileLayer.Gigapan.js:28-31 | a 1000 x 1 image yields levels of height 0, whose grid has no rows |
| `BestFit.BestFitZoom` | L.TileLayer.Gigapan.js:56-70 | the zoom is a valid level; if it is above 0, that level scaled by `tolerance` is smaller than the viewport on both axes; every finer level fails that test; level 0 is returned, fit or not, when nothing above it fits |
| `BestFit.BestFitUnique` | L.TileLayer.Gigapan.js:56-70 | at most one zoom meets the best-fit conditions, so those conditions pin down the result |
| `TileBounds.InBoundsIffOriginInImage` | L.TileLayer.Gigapan.js:72-75 | a tile passes the in-grid test exactly when its top-left pixel lies inside the level's image |
| `TileBounds.TileExtent` | L.TileLayer.Gigapan.js:85-91 | tiles outside the last column keep the full tile width, and tiles outside the last row keep the full height; every in-grid tile is drawn 1 to `tileSize` pixels on each axis |
| `TileBounds.EdgeExtentBounds` | L.TileLayer.Gigapan.js:85-91 | on a non-empty axis, the last tile is 1 to `tileSize` long and ends exactly at the level's edge: `(count-1)*tileSize + edge = length` |
| `TileBounds.TilesCoverAxis` | L.TileLayer.Gigapan.js:85-91 | the drawn lengths of all tiles along an axis add up to exactly the level's width or height |
| `Quadkey.ToQuad` | L.TileLayer.Gigapan.js:131-142 | the key has `z + 1` characters, each from `'0'` to `'3'`; digit `k` is `bit(x, z-k) + 2*bit(y, z-k)` |
| `Quadkey.DecodeColumn` | L.TileLayer.Gigapan.js:133-140 | reading the column bits back from a key gives a value below `2^length` |
| `Quadkey.DecodeRow` | L.TileLayer.Gigapan.js:133-140 | reading the row bits back from a key gives a value below `2^length` |
| `Quadkey.DecodeToQuad` | L.TileLayer.Gigapan.js:131-142 | decoding `ToQuad(x, y, z)` recovers `x mod 2^(z+1)` and `y mod 2^(z+1)` |
| `Quadkey.ToQuadInjective` | L.TileLayer.Gigapan.js:131-142 | on `[0, 2^(z+1))` in both axes, distinct tiles have distinct keys |
| `Quadkey.LeadingDigitZero` | L.TileLayer.Gigapan.js:131-142 | for coordinates below `2^(z+1)`, the leading digit is `'0'` if and only if both are below `2^z` |
| `Quadkey.WideLevelKey` | L.TileLayer.Gigapan.js:131-142 | column 2, row 0 at zoom 1 has the key `"10"`, whose leading digit is not `'0'` |
| `Folders.Substring` | L.TileLayer.Gigapan.js:119-122 | JavaScript `substring` for `a <= b`: the plain slice when the end is within the string, the rest of the string from `a` when only the end is past it, and empty when the start is past the end |
| `Folders.EnclosingFolders` | L.TileLayer.Gigapan.js:114-126 | the path has `4 * floor(n/3)` characters and is empty for `n < 3`; the first folder is `r` plus digits `[0,2)` plus `/`; folder `i >= 1` is digits `[3i-1, 3i+2)` plus `/`; every slice ends within the name, so `substring` never clamps |
| `Folders.FolderListDigits` | L.TileLayer.Gigapan.js:116-124 | the first `k >= 1` folders, with their `r` and `/` removed, are exactly the first `3k - 1` digits in order |
| `Folders.FolderDigitsArePrefix` | L.TileLayer.Gigapan.js:112-125 | the folder path of a name holds exactly its first `3*floor(n/3) - 1` digits, or none when `n < 3`: the groups are contiguous and disjoint |
| `Folders.ExampleFolders` | L.TileLayer.Gigapan.js:112-124 | `rABCDEFG.jpg` lies in `rAB/CDE/`, and `rABCDE.jpg` lies in `rAB/` only |
| `TileUrl.BaseFileName` | L.TileLayer.Gigapan.js:104-107 | the file name digits are the quadkey minus its first digit: `zoom` digits, and digit `k` encodes bit `zoom-1-k` |
| `TileUrl.GetTileUrl` | L.TileLayer.Gigapan.js:103-109 | the URL starts with the base URL and ends in `.jpg`; its length is `|url| + 4*floor(zoom/3) + zoom + 5`; at zoom 0 it is `url + "r.jpg"` |
| `TileUrl.TrimmedDigitIsZero` | L.TileLayer.Gigapan.js:105-107 | for tiles below `2^zoom` on both axes, the trimmed digit is `'0'`, so the quadkey is `"0"` plus the file name |
| `TileUrl.BaseFileNameDecodes` | L.TileLayer.Gigapan.js:103-108 | for tiles below `2^zoom` on both axes, the file name decodes back to the tile's column and row |
| `TileUrl.GetTileUrlInjective` | L.TileLayer.Gigapan.js:103-108 | for tiles below `2^zoom` on both axes, two tiles with the same base URL and zoom share a URL only if they are the same tile |
| `TileUrl.ColumnTwoSharesUrlWithColumnZero` | L.TileLayer.Gigapan.js:103-108 | at zoom 1, column 2 has a leading digit `'1'`, and its URL equals that of column 0 |
| `TileUrl.WideImageLoadsColumnTwo` | L.TileLayer.Gigapan.js:22-37 | a 513 x 200 image with 256-pixel tiles has exactly the levels 256x100 and 513x200, and column 2, row 0 passes the grid test at zoom 1, so a tile beyond `2^zoom` columns is requested |

## Left out

- `onAdd` (L.TileLayer.Gigapan.js:40-49): it calls into Leaflet's `map.getSize`, `crs.pointToLatLng` and `map.setView`, which are not part of this model; only the zoom chosen by `_getBestFitZoom` is modelled.
- The DOM side of `_addTile` (L.TileLayer.Gigapan.js:78-80, 93-100): tile creation, positioning, the `_tiles` map, loading and `appendChild`. Non-edge tiles are assumed to keep the default size `tileSize`.
- `L.setOptions`, the `L.TileLayer.extend` inheritance and the `L.tileLayer.gigapan` factory: library glue.
- `tolerance` is a Dafny `real`, and halving is natural-number division by 2; floating-point rounding in `* tolerance`, `divideBy(2).floor()` and `Math.ceil(x / tileSize)` is not modelled.
- Bits are taken as `x / 2^i % 2` on unbounded naturals. JavaScript's `1 << i` and `&` work on 32-bit integers, so from zoom 32 on, where `1 << i` wraps to `1 << (i mod 32)`, the source's quadkeys differ from the model's.
- `parseInt` on string-valued `width` and `height` options, and negative or non-integer sizes, are not modelled: sizes are naturals.
- `Quadkey.LeadingDigitZero`: proved only for coordinates below `2^(z+1)`, because `_toQuad` gives no leading-zero guarantee beyond that (see `Quadkey.WideLevelKey`).
- `TileUrl.GetTileUrlInjective`: proved only for tiles below `2^zoom` on both axes, because in-grid tiles beyond that can share a URL (see `TileUrl.ColumnTwoSharesUrlWithColumnZero`).
