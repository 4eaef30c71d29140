/**
  Worked placements: small containers and block lists whose runs are
  derived from the first-fit characterisation rather than by unfolding the
  scan cell by cell.
*/
module Scenarios {
  import opened Wrappers
  import opened Geometry
  import opened Scan
  import opened Engine
  import opened Occupancy

  /** A 50x50 block in a 100x100 container goes to the origin; a quarter is occupied. */
  lemma SingleBlockAtOrigin()
    ensures Run(Container(100, 100), [Block(50, 50)]) == [Rect(0, 0, 50, 50, 1)]
    ensures OccupiedArea(Run(Container(100, 100), [Block(50, 50)])) == 2500
    ensures TotalArea(Container(100, 100)) == 10000
  {
    var c, b := Container(100, 100), Block(50, 50);
    assert [b][..0] == [];
    FirstFitUnique(c, [], b, 0, 0);
    assert Run(c, [b]) == [Rect(0, 0, 50, 50, 1)];
    assert [Rect(0, 0, 50, 50, 1)][..0] == [];
  }

  /**
    In a 100x50 container a 60x60 block fits in neither orientation: it is
    rotated, contributes nothing, and the 10x10 block after it takes the
    origin with rank 2.
  */
  lemma OversizedBlockSkipped()
    ensures Run(Container(100, 50), [Block(60, 60), Block(10, 10)]) == [Rect(0, 0, 10, 10, 2)]
    ensures Settled(Container(100, 50), [Block(60, 60), Block(10, 10)]) == [Block(60, 60), Block(10, 10)]
    ensures OccupiedArea(Run(Container(100, 50), [Block(60, 60), Block(10, 10)])) == 100
  {
    var c, big, small := Container(100, 50), Block(60, 60), Block(10, 10);
    var blocks := [big, small];
    assert blocks[..0] == [] && blocks[..1] == [big] && [big][..0] == [];
    FirstFitNone(c, [], big);
    assert Run(c, [big]) == [];
    FirstFitUnique(c, [], small, 0, 0);
    assert Run(c, blocks) == [Rect(0, 0, 10, 10, 2)];
    SettledAt(c, blocks, 0);
    SettledAt(c, blocks, 1);
    assert [Rect(0, 0, 10, 10, 2)][..0] == [];
  }

  /**
    Two 5x5 blocks in a 10x10 container: the first at the origin, the second
    at the first corner of row 0 that clears it, `(5, 0)`, touching its edge.
  */
  lemma TwoSquaresSideBySide()
    ensures Run(Container(10, 10), [Block(5, 5), Block(5, 5)]) == [Rect(0, 0, 5, 5, 1), Rect(0, 5, 10, 5, 2)]
    ensures OccupiedArea(Run(Container(10, 10), [Block(5, 5), Block(5, 5)])) == 50
  {
    var c, b := Container(10, 10), Block(5, 5);
    var blocks := [b, b];
    var first := Rect(0, 0, 5, 5, 1);
    assert blocks[..1] == [b] && [b][..0] == [];
    FirstFitUnique(c, [], b, 0, 0);
    assert Run(c, [b]) == [first];
    forall x, y | InScan(c, b, x, y) && Precedes(x, y, 5, 0)
      ensures !Fits(c, [first], x, y, b)
    {
      assert Hits([first][0], x, y, b);
    }
    assert !Hits([first][0], 5, 0, b);
    FirstFitUnique(c, [first], b, 5, 0);
    var rects := [first, Rect(0, 5, 10, 5, 2)];
    assert Run(c, blocks) == rects;
    assert rects[..1] == [first] && [first][..0] == [];
  }

  /**
    A 40x60 block in a 100x50 container is rotated to 60x40 but not placed
    in the same run; the next run places it, rotated, at the origin.
  */
  lemma RotatedBlockWaitsForNextRun()
    ensures Run(Container(100, 50), [Block(40, 60)]) == []
    ensures Settled(Container(100, 50), [Block(40, 60)]) == [Block(60, 40)]
    ensures Run(Container(100, 50), Settled(Container(100, 50), [Block(40, 60)])) == [Rect(0, 0, 60, 40, 1)]
  {
    var c, tall, wide := Container(100, 50), Block(40, 60), Block(60, 40);
    assert [tall][..0] == [] && [wide][..0] == [];
    FirstFitNone(c, [], tall);
    assert Run(c, [tall]) == [];
    SettledAt(c, [tall], 0);
    assert Settled(c, [tall]) == [wide];
    FirstFitUnique(c, [], wide, 0, 0);
  }
}
