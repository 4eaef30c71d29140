/**
  The geometric vocabulary of the placement engine: blocks, the container,
  placed rectangles, and the two tests every candidate top-left corner must
  pass (`checkOverlap` and `checkOutsideContainer` in script.js).

  All coordinates are whole pixels. The source never validates block sizes,
  so widths and heights are arbitrary integers here; none of the engine's
  guarantees needs them to be positive.
*/
module Geometry {

  /** A block waiting to be placed. A failed placement swaps its sides in place. */
  datatype Block = Block(width: int, height: int)

  /** The container the blocks are packed into. */
  datatype Container = Container(width: int, height: int)

  /**
    The geometric part of one entry of `blockCoordinates`: the rectangle a
    block occupies and the block's 1-based position in the block list.
  */
  datatype Rect = Rect(top: int, left: int, right: int, bottom: int, initialOrder: int)

  /** A candidate top-left corner `(x, y)`. */
  datatype Corner = Corner(x: int, y: int)

  /** `rotateBlock`: the block with its width and height swapped. */
  function Rotated(b: Block): Block
  {
    Block(b.height, b.width)
  }

  /** The rectangle that block `b` covers when its top-left corner is `p`. */
  function PlaceAt(p: Corner, b: Block, rank: int): Rect
  {
    Rect(p.y, p.x, p.x + b.width, p.y + b.height, rank)
  }

  /**
    One disjunct of `checkOverlap`: a block of size `b` with its corner at
    `(x, y)` overlaps the placed rectangle `r`. The intervals are open, so
    rectangles that only share an edge do not overlap.
  */
  predicate Hits(r: Rect, x: int, y: int, b: Block)
  {
    x < r.right && x + b.width > r.left && y < r.bottom && y + b.height > r.top
  }

  /** `checkOverlap`: the candidate overlaps some rectangle placed earlier in this run. */
  predicate CheckOverlap(rects: seq<Rect>, x: int, y: int, b: Block)
  {
    exists k :: 0 <= k < |rects| && Hits(rects[k], x, y, b)
  }

  /** `checkOutsideContainer`: the candidate sticks out of the container. */
  predicate CheckOutsideContainer(c: Container, x: int, y: int, b: Block)
  {
    x < 0 || y < 0 || x + b.width > c.width || y + b.height > c.height
  }

  /** The acceptance test of the scan: no overlap and not outside the container. */
  predicate Fits(c: Container, rects: seq<Rect>, x: int, y: int, b: Block)
  {
    !CheckOverlap(rects, x, y, b) && !CheckOutsideContainer(c, x, y, b)
  }

  /** Two placed rectangles share interior points (the overlap test, stated between rectangles). */
  predicate Overlapping(a: Rect, r: Rect)
  {
    a.left < r.right && r.left < a.right && a.top < r.bottom && r.top < a.bottom
  }

  /** A placed rectangle lies within the container. */
  predicate Inside(c: Container, r: Rect)
  {
    0 <= r.left && 0 <= r.top && r.right <= c.width && r.bottom <= c.height
  }

  /**
    The test `checkOverlap` applies to a candidate is exactly the overlap of
    the rectangle the candidate would occupy, and that relation is symmetric:
    which of two rectangles was placed first does not matter.
  */
  lemma HitsIsOverlapping(r: Rect, p: Corner, b: Block, rank: int)
    ensures Hits(r, p.x, p.y, b) <==> Overlapping(r, PlaceAt(p, b, rank))
    ensures Overlapping(r, PlaceAt(p, b, rank)) <==> Overlapping(PlaceAt(p, b, rank), r)
  {
  }

  /** Rectangles that only touch along an edge do not overlap. */
  lemma TouchingEdgesDoNotOverlap(a: Rect, r: Rect)
    requires a.right == r.left || a.bottom == r.top
    ensures !Overlapping(a, r) && !Overlapping(r, a)
  {
  }

  /**
    A corner passes `checkOutsideContainer` exactly when it lies in the range
    the scan walks (`0 <= y <= height - b.height`, `0 <= x <= width - b.width`),
    so inside the scan that test never rejects anything.
  */
  lemma InsideIffInScanRange(c: Container, x: int, y: int, b: Block)
    ensures !CheckOutsideContainer(c, x, y, b)
        <==> 0 <= y <= c.height - b.height && 0 <= x <= c.width - b.width
  {
  }
}
