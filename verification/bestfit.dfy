/** The initial zoom chosen when the layer is added to a map (`_getBestFitZoom`). */
module BestFit {
  import opened Geometry

  /**
   * True when a level, shrunk by `tolerance`, is strictly smaller than the
   * map viewport on both axes.
   */
  predicate FitsViewport(level: Size, mapSize: Size, tolerance: real)
  {
    (level.x as real) * tolerance < mapSize.x as real
    && (level.y as real) * tolerance < mapSize.y as real
  }

  /**
   * Scans from the finest level down and returns the first level above 0 that
   * fits the viewport; when none does, the loop runs out at level 0, which is
   * returned whether or not it fits.
   */
  method BestFitZoom(imageSize: seq<Size>, mapSize: Size, tolerance: real) returns (zoom: nat)
    requires |imageSize| >= 1
    ensures zoom < |imageSize|
    ensures zoom > 0 ==> FitsViewport(imageSize[zoom], mapSize, tolerance)
    ensures forall k :: zoom < k < |imageSize| ==> !FitsViewport(imageSize[k], mapSize, tolerance)
  {
    zoom := |imageSize| - 1;
    while zoom != 0
      invariant zoom < |imageSize|
      invariant forall k :: zoom < k < |imageSize| ==> !FitsViewport(imageSize[k], mapSize, tolerance)
    {
      if FitsViewport(imageSize[zoom], mapSize, tolerance) {
        return;
      }
      zoom := zoom - 1;
    }
  }

  /** The three clauses above pin the zoom down: at most one level satisfies them. */
  lemma BestFitUnique(imageSize: seq<Size>, mapSize: Size, tolerance: real, z1: nat, z2: nat)
    requires z1 < |imageSize| && z2 < |imageSize|
    requires z1 > 0 ==> FitsViewport(imageSize[z1], mapSize, tolerance)
    requires forall k :: z1 < k < |imageSize| ==> !FitsViewport(imageSize[k], mapSize, tolerance)
    requires z2 > 0 ==> FitsViewport(imageSize[z2], mapSize, tolerance)
    requires forall k :: z2 < k < |imageSize| ==> !FitsViewport(imageSize[k], mapSize, tolerance)
    ensures z1 == z2
  {
  }
}
