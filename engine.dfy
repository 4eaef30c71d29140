/**
  One run of `calculateCoordinates` as a function of the container and of
  the blocks' orientations at the start of the run, and the guarantees that
  run gives: containment, pairwise non-overlap, faithful ranks, first fit,
  and rotate-and-drop for blocks that find no corner.

  `Run` walks the block list front to back, one block per step, exactly as
  the `forEach` does; `Session.Layout.CalculateCoordinates` is proved to
  compute it.
*/
module Engine {
  import opened Wrappers
  import opened Geometry
  import opened Scan

  /**
    The rectangles one run produces, in output order. Block `n` (0-based)
    is tried against the rectangles of blocks `0 .. n-1`; it is placed at
    its first fit with `initialOrder == n + 1`, or contributes nothing.
  */
  function Run(c: Container, blocks: seq<Block>): (rects: seq<Rect>)
    ensures |rects| <= |blocks|
    decreases |blocks|
  {
    if blocks == [] then []
    else
      var n := |blocks| - 1;
      var before := Run(c, blocks[..n]);
      match FirstFit(c, before, blocks[n])
      case Some(p) => before + [PlaceAt(p, blocks[n], n + 1)]
      case None => before
  }

  /** Block `i` finds a corner in this run (against the rectangles of the blocks before it). */
  predicate Placed(c: Container, blocks: seq<Block>, i: nat)
    requires i < |blocks|
  {
    FirstFit(c, Run(c, blocks[..i]), blocks[i]).Some?
  }

  /**
    The block list after the run: a block that found no corner has been
    rotated once by `rotateBlock`; every other block is as it was.
  */
  function Settled(c: Container, blocks: seq<Block>): (after: seq<Block>)
    ensures |after| == |blocks|
  {
    seq(|blocks|, i requires 0 <= i < |blocks| =>
      if Placed(c, blocks, i) then blocks[i] else Rotated(blocks[i]))
  }

  /** One more block: the run of the longer list extends the run of the shorter one. */
  lemma RunExtends(c: Container, blocks: seq<Block>, i: nat)
    requires i < |blocks|
    ensures Run(c, blocks[..i + 1]) ==
      match FirstFit(c, Run(c, blocks[..i]), blocks[i])
      case Some(p) => Run(c, blocks[..i]) + [PlaceAt(p, blocks[i], i + 1)]
      case None => Run(c, blocks[..i])
  {
    assert blocks[..i + 1][..i] == blocks[..i];
  }

  /** The orientation block `i` has after the run. */
  lemma SettledAt(c: Container, blocks: seq<Block>, i: nat)
    requires i < |blocks|
    ensures Settled(c, blocks)[i] ==
      if FirstFit(c, Run(c, blocks[..i]), blocks[i]).Some? then blocks[i] else Rotated(blocks[i])
  {
  }

  /** Every rectangle of a run lies inside the container. */
  lemma {:induction false} RunInsideContainer(c: Container, blocks: seq<Block>)
    ensures forall k :: 0 <= k < |Run(c, blocks)| ==> Inside(c, Run(c, blocks)[k])
  {
    if blocks != [] {
      RunInsideContainer(c, blocks[..|blocks| - 1]);
    }
  }

  /**
    Ranks are faithful: each rectangle's `initialOrder` is the 1-based index
    of a block, ranks strictly increase along the output (so no block
    contributes two rectangles), and the rectangle has exactly that block's
    width and height as they were when the run started.
  */
  lemma {:induction false} RunRanks(c: Container, blocks: seq<Block>)
    ensures forall k :: 0 <= k < |Run(c, blocks)| ==> 1 <= Run(c, blocks)[k].initialOrder <= |blocks|
    ensures forall k :: 0 <= k < |Run(c, blocks)| ==>
      && Run(c, blocks)[k].right - Run(c, blocks)[k].left == blocks[Run(c, blocks)[k].initialOrder - 1].width
      && Run(c, blocks)[k].bottom - Run(c, blocks)[k].top == blocks[Run(c, blocks)[k].initialOrder - 1].height
    ensures forall j, k :: 0 <= j < k < |Run(c, blocks)| ==>
      Run(c, blocks)[j].initialOrder < Run(c, blocks)[k].initialOrder
  {
    if blocks != [] {
      var n := |blocks| - 1;
      var before := Run(c, blocks[..n]);
      RunRanks(c, blocks[..n]);
      var rects := Run(c, blocks);
      assert |before| <= |rects|;
      forall k | 0 <= k < |before|
        ensures rects[k] == before[k]
        ensures blocks[..n][before[k].initialOrder - 1] == blocks[before[k].initialOrder - 1]
      {
      }
    }
  }

  /** No two rectangles of one run overlap; touching edges are allowed. */
  lemma {:induction false} RunPairwiseDisjoint(c: Container, blocks: seq<Block>)
    ensures forall j, k :: 0 <= j < |Run(c, blocks)| && 0 <= k < |Run(c, blocks)| && j != k ==>
      !Overlapping(Run(c, blocks)[j], Run(c, blocks)[k])
  {
    if blocks != [] {
      var n := |blocks| - 1;
      var before := Run(c, blocks[..n]);
      RunPairwiseDisjoint(c, blocks[..n]);
      match FirstFit(c, before, blocks[n])
      case None =>
        assert Run(c, blocks) == before;
      case Some(p) =>
        var r := PlaceAt(p, blocks[n], n + 1);
        assert Run(c, blocks) == before + [r];
        forall j | 0 <= j < |before|
          ensures !Overlapping(before[j], r) && !Overlapping(r, before[j])
        {
          assert !Hits(before[j], p.x, p.y, blocks[n]);
        }
    }
  }

  /**
    The rectangles of a shorter block list are a prefix of the run's
    output, and everything after that prefix comes from later blocks.
  */
  lemma {:induction false} RunPrefix(c: Container, blocks: seq<Block>, n: nat)
    requires n <= |blocks|
    ensures |Run(c, blocks[..n])| <= |Run(c, blocks)|
    ensures Run(c, blocks)[..|Run(c, blocks[..n])|] == Run(c, blocks[..n])
    ensures forall k :: |Run(c, blocks[..n])| <= k < |Run(c, blocks)| ==> Run(c, blocks)[k].initialOrder > n
    decreases |blocks|
  {
    if n < |blocks| {
      var m := |blocks| - 1;
      RunPrefix(c, blocks[..m], n);
      assert blocks[..m][..n] == blocks[..n];
    } else {
      assert blocks[..n] == blocks;
    }
  }

  /**
    First fit: every rectangle of the output sits at the first corner, in
    row-major order, at which its block fits next to the rectangles before
    it; those rectangles are exactly what the blocks before it produced.
  */
  lemma {:induction false} RunFirstFit(c: Container, blocks: seq<Block>, k: nat)
    requires k < |Run(c, blocks)|
    ensures 0 <= Run(c, blocks)[k].initialOrder - 1 < |blocks|
    ensures Run(c, blocks)[..k] == Run(c, blocks[..Run(c, blocks)[k].initialOrder - 1])
    ensures IsFirstFit(c, Run(c, blocks)[..k], blocks[Run(c, blocks)[k].initialOrder - 1],
                       Run(c, blocks)[k].left, Run(c, blocks)[k].top)
    decreases |blocks|
  {
    var n := |blocks| - 1;
    var before := Run(c, blocks[..n]);
    var rects := Run(c, blocks);
    if k < |before| {
      RunFirstFit(c, blocks[..n], k);
      var i := before[k].initialOrder - 1;
      assert rects[k] == before[k] && rects[..k] == before[..k];
      assert blocks[..n][..i] == blocks[..i];
    } else {
      assert rects[..k] == before;
      assert blocks[..n] == blocks[..rects[k].initialOrder - 1];
    }
  }

  /** Block `i` (0-based) has a rectangle, ranked `i + 1`, in the run's output. */
  predicate HasRect(c: Container, blocks: seq<Block>, i: nat)
  {
    exists k :: 0 <= k < |Run(c, blocks)| && Run(c, blocks)[k].initialOrder == i + 1
  }

  /** A block has a rectangle in the output exactly when it found a corner. */
  lemma {:induction false} PlacedIffRanked(c: Container, blocks: seq<Block>, i: nat)
    requires i < |blocks|
    ensures Placed(c, blocks, i) <==> HasRect(c, blocks, i)
    decreases |blocks|
  {
    var n := |blocks| - 1;
    var before := Run(c, blocks[..n]);
    RunRanks(c, blocks[..n]);
    if i < n {
      PlacedIffRanked(c, blocks[..n], i);
      assert blocks[..n][..i] == blocks[..i];
    } else {
      assert blocks[..i] == blocks[..n];
    }
    match FirstFit(c, before, blocks[n])
    case None =>
      assert Run(c, blocks) == before;
    case Some(p) =>
      var rects := before + [PlaceAt(p, blocks[n], n + 1)];
      assert Run(c, blocks) == rects;
      if i == n {
        assert rects[|before|].initialOrder == i + 1;
      } else if HasRect(c, blocks, i) {
        var k :| 0 <= k < |rects| && rects[k].initialOrder == i + 1;
        assert before[k] == rects[k];
      }
  }

  /** A block with a rectangle leaves the run in the orientation it had. */
  lemma PlacedKeepsOrientation(c: Container, blocks: seq<Block>, i: nat)
    requires i < |blocks| && HasRect(c, blocks, i)
    ensures Settled(c, blocks)[i] == blocks[i]
  {
    PlacedIffRanked(c, blocks, i);
    SettledAt(c, blocks, i);
  }

  /**
    A block without a rectangle found no corner anywhere against the
    rectangles before it, and leaves the run rotated exactly once.
  */
  lemma DroppedIsRotated(c: Container, blocks: seq<Block>, i: nat)
    requires i < |blocks| && !HasRect(c, blocks, i)
    ensures Settled(c, blocks)[i] == Rotated(blocks[i])
    ensures NoFit(c, Run(c, blocks[..i]), blocks[i])
  {
    PlacedIffRanked(c, blocks, i);
    SettledAt(c, blocks, i);
  }

  /**
    Rotate and drop: a block without a rectangle found no corner anywhere
    and leaves the run rotated exactly once; a block with a rectangle
    leaves it unchanged. The rotated block is not tried again in this run.
  */
  lemma RotateAndDrop(c: Container, blocks: seq<Block>, i: nat)
    requires i < |blocks|
    ensures HasRect(c, blocks, i) ==> Settled(c, blocks)[i] == blocks[i]
    ensures !HasRect(c, blocks, i)
      ==> Settled(c, blocks)[i] == Rotated(blocks[i]) && NoFit(c, Run(c, blocks[..i]), blocks[i])
  {
    if HasRect(c, blocks, i) {
      PlacedKeepsOrientation(c, blocks, i);
    } else {
      DroppedIsRotated(c, blocks, i);
    }
  }

  /**
    A block wider or taller than the container has an empty scan range: it
    gets no rectangle and is rotated.
  */
  lemma OversizedBlockIsDropped(c: Container, blocks: seq<Block>, i: nat)
    requires i < |blocks|
    requires blocks[i].width > c.width || blocks[i].height > c.height
    ensures !Placed(c, blocks, i)
    ensures Settled(c, blocks)[i] == Rotated(blocks[i])
    ensures !HasRect(c, blocks, i)
  {
    PlacedIffRanked(c, blocks, i);
  }
}
