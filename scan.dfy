/**
  The first-fit search for one block: candidate corners are tried in
  row-major order (`y` outer, `x` inner) and the first one that fits wins.

  `FirstFit` is the reference definition, a recursive scan whose contract
  says what "first fit" means; `FindCorner` is the nested `for` loops of
  `calculateCoordinates`, proved to return the same answer.
*/
module Scan {
  import opened Wrappers
  import opened Geometry

  /** The corner lies in the range the scan walks for block `b`. */
  predicate InScan(c: Container, b: Block, x: int, y: int)
  {
    0 <= y <= c.height - b.height && 0 <= x <= c.width - b.width
  }

  /** `(x1, y1)` is visited before `(x2, y2)` by a row-major scan. */
  predicate Precedes(x1: int, y1: int, x2: int, y2: int)
  {
    y1 < y2 || (y1 == y2 && x1 < x2)
  }

  /** `(x, y)` is the first corner of the scan at which `b` fits. */
  ghost predicate IsFirstFit(c: Container, rects: seq<Rect>, b: Block, x: int, y: int)
  {
    && InScan(c, b, x, y)
    && Fits(c, rects, x, y, b)
    && forall x', y' :: InScan(c, b, x', y') && Precedes(x', y', x, y) ==> !Fits(c, rects, x', y', b)
  }

  /** No integer corner at all admits `b` next to `rects` inside `c`. */
  ghost predicate NoFit(c: Container, rects: seq<Rect>, b: Block)
  {
    forall x, y :: !Fits(c, rects, x, y, b)
  }

  /** The inner loop: the first `x' >= x` of row `y` at which `b` fits. */
  function ScanRow(c: Container, rects: seq<Rect>, b: Block, y: int, x: int): (r: Option<int>)
    decreases c.width - b.width - x + 1
    ensures r.Some? ==> x <= r.value <= c.width - b.width && Fits(c, rects, r.value, y, b)
    ensures forall x' :: x <= x' <= c.width - b.width && (r.None? || x' < r.value)
              ==> !Fits(c, rects, x', y, b)
  {
    if x > c.width - b.width then None
    else if Fits(c, rects, x, y, b) then Some(x)
    else ScanRow(c, rects, b, y, x + 1)
  }

  /** The outer loop: the first fitting corner in rows `y` and below. */
  function ScanRows(c: Container, rects: seq<Rect>, b: Block, y: int): (r: Option<Corner>)
    decreases c.height - b.height - y + 1
    ensures r.Some? ==> y <= r.value.y && InScan(c, b, r.value.x, r.value.y)
                        && Fits(c, rects, r.value.x, r.value.y, b)
    ensures forall x', y' :: y <= y' && InScan(c, b, x', y')
                             && (r.None? || Precedes(x', y', r.value.x, r.value.y))
              ==> !Fits(c, rects, x', y', b)
  {
    if y > c.height - b.height then None
    else match ScanRow(c, rects, b, y, 0)
      case Some(x) => Some(Corner(x, y))
      case None => ScanRows(c, rects, b, y + 1)
  }

  /**
    The corner the scan accepts for `b`, if any: the row-major first fit,
    or, when nothing fits in the scan range, a proof that no corner at all
    fits (the containment test already confines corners to that range).
  */
  function FirstFit(c: Container, rects: seq<Rect>, b: Block): (r: Option<Corner>)
    ensures r.Some? ==> IsFirstFit(c, rects, b, r.value.x, r.value.y)
    ensures r.None? ==> NoFit(c, rects, b)
  {
    var r := ScanRows(c, rects, b, 0);
    assert r.None? ==> NoFit(c, rects, b) by {
      if r.None? {
        forall x, y ensures !Fits(c, rects, x, y, b) {
          InsideIffInScanRange(c, x, y, b);
        }
      }
    }
    r
  }

  /**
    First fit is unique: whichever corner satisfies the first-fit
    characterisation is the one `FirstFit` returns.
  */
  lemma FirstFitUnique(c: Container, rects: seq<Rect>, b: Block, x: int, y: int)
    requires IsFirstFit(c, rects, b, x, y)
    ensures FirstFit(c, rects, b) == Some(Corner(x, y))
  {
  }

  /** When no corner of the scan range fits, `FirstFit` finds nothing. */
  lemma FirstFitNone(c: Container, rects: seq<Rect>, b: Block)
    requires forall x, y :: InScan(c, b, x, y) ==> !Fits(c, rects, x, y, b)
    ensures FirstFit(c, rects, b) == None
  {
  }

  /**
    The two nested `for` loops of `calculateCoordinates`: `y` from 0 to
    `c.height - b.height`, `x` from 0 to `c.width - b.width`, stopping at the
    first corner that neither overlaps nor lies outside the container.
  */
  method FindCorner(c: Container, rects: seq<Rect>, b: Block) returns (found: bool, x: int, y: int)
    ensures found <==> FirstFit(c, rects, b).Some?
    ensures found ==> FirstFit(c, rects, b) == Some(Corner(x, y))
  {
    found, x, y := false, 0, 0;
    var row := 0;
    while row <= c.height - b.height
      invariant 0 <= row && !found
      invariant forall x', y' :: 0 <= y' < row && InScan(c, b, x', y') ==> !Fits(c, rects, x', y', b)
      decreases c.height - b.height - row
    {
      var col := 0;
      while col <= c.width - b.width
        invariant 0 <= col && !found
        invariant forall x' :: 0 <= x' < col ==> !Fits(c, rects, x', row, b)
        decreases c.width - b.width - col
      {
        var overlap := CheckOverlap(rects, col, row, b);
        var outsideContainer := CheckOutsideContainer(c, col, row, b);
        if !overlap && !outsideContainer {
          found, x, y := true, col, row;
          break;
        }
        col := col + 1;
      }
      if found {
        break;
      }
      row := row + 1;
    }
    if found {
      FirstFitUnique(c, rects, b, x, y);
    } else {
      FirstFitNone(c, rects, b);
    }
  }
}
