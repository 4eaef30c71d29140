/**
  The integer part of `calculateAndDisplayFullness`: the occupied area is
  the `reduce` over the placed rectangles, and it equals the summed areas of
  the blocks the run placed.
*/
module Occupancy {
  import opened Wrappers
  import opened Geometry
  import opened Scan
  import opened Engine

  /** The area one placed rectangle covers. */
  function Area(r: Rect): int
  {
    (r.right - r.left) * (r.bottom - r.top)
  }

  /**
    The `reduce` of `calculateAndDisplayFullness`: starting from 0, add each
    rectangle's area in output order. Rectangles of non-negative extent
    never give a negative total.
  */
  function OccupiedArea(rects: seq<Rect>): (total: int)
    ensures (forall k :: 0 <= k < |rects| ==> rects[k].left <= rects[k].right && rects[k].top <= rects[k].bottom)
            ==> total >= 0
  {
    if rects == [] then 0
    else OccupiedArea(rects[..|rects| - 1]) + Area(rects[|rects| - 1])
  }

  /** `containerSize.width * containerSize.height`. */
  function TotalArea(c: Container): int
  {
    c.width * c.height
  }

  /** The summed `width * height` of the blocks one run places. */
  function PlacedBlockArea(c: Container, blocks: seq<Block>): int
    decreases |blocks|
  {
    if blocks == [] then 0
    else
      var n := |blocks| - 1;
      PlacedBlockArea(c, blocks[..n])
        + (if Placed(c, blocks, n) then blocks[n].width * blocks[n].height else 0)
  }

  /**
    The occupied area of a run's output is the total area of the blocks it
    placed: dropped blocks contribute nothing, placed ones their full size.
  */
  lemma {:induction false} OccupiedAreaOfRun(c: Container, blocks: seq<Block>)
    ensures OccupiedArea(Run(c, blocks)) == PlacedBlockArea(c, blocks)
    decreases |blocks|
  {
    if blocks != [] {
      var n := |blocks| - 1;
      var before := Run(c, blocks[..n]);
      OccupiedAreaOfRun(c, blocks[..n]);
      match FirstFit(c, before, blocks[n])
      case None =>
        assert Run(c, blocks) == before;
      case Some(p) =>
        var rects := before + [PlaceAt(p, blocks[n], n + 1)];
        assert Run(c, blocks) == rects;
        assert rects[..|rects| - 1] == before;
    }
  }
}
