/**
  The script's process-wide state and the functions that change it: the
  block list (`blocks`), the colour registry (`blockColors`) and the
  container size, with `calculateCoordinates`, its `forEach` callback,
  `rotateBlock`, `getBlockColor`, `addBlock` and the placement/occupancy
  step of `calculateBlockPlacement`.
*/
module Session {
  import opened Wrappers
  import opened Geometry
  import opened Scan
  import opened Engine
  import opened Occupancy
  import opened Colors

  /** One entry of `blockCoordinates`: where a block went, and its colour. */
  datatype BlockCoordinate = BlockCoordinate(rect: Rect, color: Color)

  /** The geometric parts of a list of entries. */
  function Rects(coords: seq<BlockCoordinate>): seq<Rect>
  {
    seq(|coords|, k requires 0 <= k < |coords| => coords[k].rect)
  }

  /** The registry key of the block a placed rectangle came from. */
  function RectKey(r: Rect): string
  {
    DimensionKey(Block(r.right - r.left, r.bottom - r.top))
  }

  /** The keys of the rectangles in `coords`. */
  ghost function KeysOf(coords: seq<BlockCoordinate>): set<string>
  {
    set k | 0 <= k < |coords| :: RectKey(coords[k].rect)
  }

  /** Every entry carries the colour the registry holds for its footprint. */
  ghost predicate Painted(coords: seq<BlockCoordinate>, colors: map<string, Color>)
  {
    forall k :: 0 <= k < |coords| ==>
      RectKey(coords[k].rect) in colors && coords[k].color == colors[RectKey(coords[k].rect)]
  }

  /** `after` keeps every entry of `before`, with its colour unchanged. */
  ghost predicate Keeps(before: map<string, Color>, after: map<string, Color>)
  {
    forall key :: key in before ==> key in after && after[key] == before[key]
  }

  /**
    The registry after a run has kept every entry it had at the start,
    holds the colour of every entry placed so far, and has gained no other key.
  */
  ghost predicate Tracks(start: map<string, Color>, colors: map<string, Color>, coords: seq<BlockCoordinate>)
  {
    && Painted(coords, colors)
    && Keeps(start, colors)
    && colors.Keys == start.Keys + KeysOf(coords)
  }

  /** Blocks `0 .. index-1` have their orientation after the run; the rest are untouched. */
  ghost predicate SettledUpTo(c: Container, start: seq<Block>, blocks: seq<Block>, index: nat)
  {
    && |blocks| == |start|
    && index <= |blocks|
    && (forall j :: 0 <= j < index ==> blocks[j] == Settled(c, start)[j])
    && (forall j :: index <= j < |blocks| ==> blocks[j] == start[j])
  }

  lemma RectsAppend(coords: seq<BlockCoordinate>, entry: BlockCoordinate)
    ensures Rects(coords + [entry]) == Rects(coords) + [entry.rect]
  {
  }

  /** The keys of a list with one more entry: the old keys and the new entry's. */
  lemma KeysOfAppend(prior: seq<BlockCoordinate>, entry: BlockCoordinate)
    ensures KeysOf(prior + [entry]) == KeysOf(prior) + {RectKey(entry.rect)}
  {
    var extended := prior + [entry];
    forall key | key in KeysOf(extended)
      ensures key in KeysOf(prior) + {RectKey(entry.rect)}
    {
      var k :| 0 <= k < |extended| && key == RectKey(extended[k].rect);
      if k < |prior| {
        assert extended[k] == prior[k];
      }
    }
    forall key | key in KeysOf(prior)
      ensures key in KeysOf(extended)
    {
      var k :| 0 <= k < |prior| && key == RectKey(prior[k].rect);
      assert extended[k] == prior[k];
    }
    assert extended[|prior|] == entry;
  }

  /** An entry coloured from the registry, appended to painted entries whose colours are kept. */
  lemma PaintedAppend(prior: seq<BlockCoordinate>, priorColors: map<string, Color>,
                      entry: BlockCoordinate, colors: map<string, Color>)
    requires Painted(prior, priorColors) && Keeps(priorColors, colors)
    requires RectKey(entry.rect) in colors && entry.color == colors[RectKey(entry.rect)]
    ensures Painted(prior + [entry], colors)
  {
    var extended := prior + [entry];
    forall k | 0 <= k < |extended|
      ensures RectKey(extended[k].rect) in colors && extended[k].color == colors[RectKey(extended[k].rect)]
    {
      if k < |prior| {
        assert extended[k] == prior[k];
      }
    }
  }

  /** Appending one entry coloured from the registry keeps `Tracks`. */
  lemma TracksStep(start: map<string, Color>, prior: seq<BlockCoordinate>, priorColors: map<string, Color>,
                   entry: BlockCoordinate, colors: map<string, Color>)
    requires Tracks(start, priorColors, prior)
    requires Keeps(priorColors, colors)
    requires RectKey(entry.rect) in colors && entry.color == colors[RectKey(entry.rect)]
    requires colors.Keys == priorColors.Keys + {RectKey(entry.rect)}
    ensures Tracks(start, colors, prior + [entry])
  {
    KeysOfAppend(prior, entry);
    PaintedAppend(prior, priorColors, entry, colors);
  }

  /** Settling block `index` moves `SettledUpTo` one block on. */
  lemma SettledStep(c: Container, start: seq<Block>, blocks: seq<Block>, index: nat)
    requires SettledUpTo(c, start, blocks, index) && index < |blocks|
    ensures SettledUpTo(c, start, blocks[index := Settled(c, start)[index]], index + 1)
  {
  }

  /**
    What the `forEach` callback does for block `index` of `before`, given the
    entries placed so far: at the block's first fit it appends an entry with
    the registry's colour for the block, and the registry gains at most that
    block's key; with no fit it rotates the block and adds nothing. Either
    way every colour already in the registry stays.
  */
  ghost predicate CallbackEffect(c: Container, index: nat, coords: seq<BlockCoordinate>,
                                 before: seq<Block>, colorsBefore: map<string, Color>,
                                 result: seq<BlockCoordinate>, after: seq<Block>, colorsAfter: map<string, Color>)
    requires index < |before|
  {
    && Keeps(colorsBefore, colorsAfter)
    && match FirstFit(c, Rects(coords), before[index])
       case Some(p) =>
         && DimensionKey(before[index]) in colorsAfter
         && result == coords + [BlockCoordinate(PlaceAt(p, before[index], index + 1),
                                                colorsAfter[DimensionKey(before[index])])]
         && colorsAfter.Keys == colorsBefore.Keys + {DimensionKey(before[index])}
         && after == before
       case None =>
         && result == coords
         && colorsAfter == colorsBefore
         && after == before[index := Rotated(before[index])]
  }

  /** After the callback for block `index`, blocks `0 .. index` have their settled orientation. */
  lemma CallbackSettles(c: Container, start: seq<Block>, index: nat, coords: seq<BlockCoordinate>,
                        before: seq<Block>, colorsBefore: map<string, Color>,
                        result: seq<BlockCoordinate>, after: seq<Block>, colorsAfter: map<string, Color>)
    requires index < |start|
    requires SettledUpTo(c, start, before, index)
    requires Rects(coords) == Run(c, start[..index])
    requires CallbackEffect(c, index, coords, before, colorsBefore, result, after, colorsAfter)
    ensures SettledUpTo(c, start, after, index + 1)
  {
    SettledAt(c, start, index);
    SettledStep(c, start, before, index);
    assert after == before[index := Settled(c, start)[index]];
  }

  /** After the callback for block `index`, the entries' rectangles are the run of blocks `0 .. index`. */
  lemma CallbackRects(c: Container, start: seq<Block>, index: nat, coords: seq<BlockCoordinate>,
                      before: seq<Block>, colorsBefore: map<string, Color>,
                      result: seq<BlockCoordinate>, after: seq<Block>, colorsAfter: map<string, Color>)
    requires index < |start| == |before| && before[index] == start[index]
    requires Rects(coords) == Run(c, start[..index])
    requires CallbackEffect(c, index, coords, before, colorsBefore, result, after, colorsAfter)
    ensures Rects(result) == Run(c, start[..index + 1])
  {
    RunExtends(c, start, index);
    if FirstFit(c, Rects(coords), before[index]).Some? {
      RectsAppend(coords, result[|coords|]);
    }
  }

  /** After the callback for block `index`, the registry still tracks the entries. */
  lemma CallbackTracks(c: Container, startColors: map<string, Color>, index: nat, coords: seq<BlockCoordinate>,
                       before: seq<Block>, colorsBefore: map<string, Color>,
                       result: seq<BlockCoordinate>, after: seq<Block>, colorsAfter: map<string, Color>)
    requires index < |before|
    requires Tracks(startColors, colorsBefore, coords)
    requires CallbackEffect(c, index, coords, before, colorsBefore, result, after, colorsAfter)
    ensures Tracks(startColors, colorsAfter, result)
  {
    if FirstFit(c, Rects(coords), before[index]).Some? {
      var entry := result[|coords|];
      assert result == coords + [entry];
      assert RectKey(entry.rect) == DimensionKey(before[index]) by {
        assert before[index] == Block(entry.rect.right - entry.rect.left, entry.rect.bottom - entry.rect.top);
      }
      TracksStep(startColors, coords, colorsBefore, entry, colorsAfter);
    }
  }

  /** One callback moves the invariants of the `forEach` one block on. */
  lemma CallbackStep(c: Container, start: seq<Block>, startColors: map<string, Color>, index: nat,
                     coords: seq<BlockCoordinate>, before: seq<Block>, colorsBefore: map<string, Color>,
                     result: seq<BlockCoordinate>, after: seq<Block>, colorsAfter: map<string, Color>)
    requires index < |start|
    requires SettledUpTo(c, start, before, index)
    requires Rects(coords) == Run(c, start[..index])
    requires Tracks(startColors, colorsBefore, coords)
    requires CallbackEffect(c, index, coords, before, colorsBefore, result, after, colorsAfter)
    ensures SettledUpTo(c, start, after, index + 1)
    ensures Rects(result) == Run(c, start[..index + 1])
    ensures Tracks(startColors, colorsAfter, result)
  {
    CallbackSettles(c, start, index, coords, before, colorsBefore, result, after, colorsAfter);
    CallbackRects(c, start, index, coords, before, colorsBefore, result, after, colorsAfter);
    CallbackTracks(c, startColors, index, coords, before, colorsBefore, result, after, colorsAfter);
  }

  class Layout {
    /** `blocks`: the blocks in insertion order, with their current orientation. */
    var blocks: seq<Block>
    /** `blockColors`: dimension key to colour, filled lazily, never emptied. */
    var blockColors: map<string, Color>
    /** `containerSize`. */
    var containerSize: Container

    /** Every colour in the registry is a `#RRGGBB` string, the form `generateRandomColor` produces. */
    ghost predicate Valid()
      reads this
    {
      forall key :: key in blockColors ==> IsHexColor(blockColors[key])
    }

    constructor (container: Container)
      ensures Valid()
      ensures blocks == [] && blockColors == map[] && containerSize == container
    {
      blocks := [];
      blockColors := map[];
      containerSize := container;
    }

    /**
      `getBlockColor`: the registry's colour for the block's current
      dimensions. A hit returns the stored colour and leaves the registry
      alone; a miss stores a fresh colour under exactly that one key.
    */
    method GetBlockColor(block: Block) returns (color: Color)
      requires Valid()
      modifies this`blockColors
      ensures Valid()
      ensures DimensionKey(block) in blockColors && color == blockColors[DimensionKey(block)]
      ensures DimensionKey(block) in old(blockColors) ==> blockColors == old(blockColors)
      ensures DimensionKey(block) !in old(blockColors) ==>
        blockColors == old(blockColors)[DimensionKey(block) := color] && IsHexColor(color)
    {
      var dimensionKey := DimensionKey(block);
      // A missing key reads as `undefined`; both it and "" are falsy.
      var existingColor := if dimensionKey in blockColors then blockColors[dimensionKey] else "";
      if existingColor != "" {
        color := existingColor;
      } else {
        color := GenerateRandomColor();
        blockColors := blockColors[dimensionKey := color];
      }
    }

    /** `rotateBlock`: swap the width and height of block `index` in place. */
    method RotateBlock(index: nat)
      requires index < |blocks|
      modifies this`blocks
      ensures blocks == old(blocks)[index := Rotated(old(blocks)[index])]
    {
      var block := blocks[index];
      var temp := block.width;
      blocks := blocks[index := Block(block.height, temp)];
    }

    /**
      The `forEach` callback of `calculateCoordinates` for block `index`:
      scan for its first fit against the entries placed so far and append
      the entry, or rotate the block and add nothing. The `while` loop runs
      its body once: afterwards either `placed` or `rotation` is set.
    */
    method PlaceBlock(coords: seq<BlockCoordinate>, index: nat) returns (result: seq<BlockCoordinate>)
      requires Valid() && index < |blocks|
      modifies this`blocks, this`blockColors
      ensures Valid()
      ensures CallbackEffect(containerSize, index, coords, old(blocks), old(blockColors), result, blocks, blockColors)
    {
      var block := blocks[index];
      var placed := false;
      var rotation := false;
      result := coords;
      while !placed && !rotation
        invariant Valid() && |blocks| == |old(blocks)|
        invariant Keeps(old(blockColors), blockColors)
        invariant !placed && !rotation ==>
          result == coords && blocks == old(blocks) && blockColors == old(blockColors)
        invariant placed ==>
          && !rotation
          && FirstFit(containerSize, Rects(coords), block).Some?
          && DimensionKey(block) in blockColors
          && result == coords + [BlockCoordinate(
               PlaceAt(FirstFit(containerSize, Rects(coords), block).value, block, index + 1),
               blockColors[DimensionKey(block)])]
          && blockColors.Keys == old(blockColors).Keys + {DimensionKey(block)}
          && blocks == old(blocks)
        invariant rotation ==>
          && FirstFit(containerSize, Rects(coords), block).None?
          && result == coords && blockColors == old(blockColors)
          && blocks == old(blocks)[index := Rotated(block)]
        decreases if placed || rotation then 0 else 1
      {
        var found, x, y := FindCorner(containerSize, Rects(result), block);
        if found {
          var color := GetBlockColor(block);
          result := result + [BlockCoordinate(Rect(y, x, x + block.width, y + block.height, index + 1), color)];
          placed := true;
        }
        if !placed && !rotation {
          RotateBlock(index);
          rotation := true;
        }
      }
    }

    /**
      `calculateCoordinates`: one placement run over the whole block list.
      The entries' rectangles are `Run` of the orientations the blocks had
      when the run started, the block list afterwards is `Settled`, and every
      entry carries the registry's colour for its footprint. The registry
      only gains the keys of placed footprints; no entry changes.
    */
    method CalculateCoordinates() returns (coords: seq<BlockCoordinate>)
      requires Valid()
      modifies this`blocks, this`blockColors
      ensures Valid()
      ensures Rects(coords) == Run(containerSize, old(blocks))
      ensures blocks == Settled(containerSize, old(blocks))
      ensures Painted(coords, blockColors)
      ensures Keeps(old(blockColors), blockColors)
      ensures blockColors.Keys == old(blockColors).Keys + KeysOf(coords)
    {
      coords := [];
      var index := 0;
      while index < |blocks|
        invariant Valid()
        invariant SettledUpTo(containerSize, old(blocks), blocks, index)
        invariant Rects(coords) == Run(containerSize, old(blocks)[..index])
        invariant Tracks(old(blockColors), blockColors, coords)
      {
        ghost var prior, priorColors, priorBlocks := coords, blockColors, blocks;
        coords := PlaceBlock(coords, index);
        CallbackStep(containerSize, old(blocks), old(blockColors), index,
                     prior, priorBlocks, priorColors, coords, blocks, blockColors);
        index := index + 1;
      }
      assert old(blocks)[..index] == old(blocks);
    }

    /**
      `calculateBlockPlacement` without the DOM: run the placement and
      compute the occupied and total areas that the fullness figure is
      made of.
    */
    method CalculateBlockPlacement() returns (coords: seq<BlockCoordinate>, occupiedArea: int, totalArea: int)
      requires Valid()
      modifies this`blocks, this`blockColors
      ensures Valid()
      ensures Rects(coords) == Run(containerSize, old(blocks))
      ensures blocks == Settled(containerSize, old(blocks))
      ensures Painted(coords, blockColors) && Keeps(old(blockColors), blockColors)
      ensures blockColors.Keys == old(blockColors).Keys + KeysOf(coords)
      ensures occupiedArea == PlacedBlockArea(containerSize, old(blocks))
      ensures totalArea == TotalArea(containerSize)
    {
      coords := CalculateCoordinates();
      totalArea := TotalArea(containerSize);
      occupiedArea := OccupiedArea(Rects(coords));
      OccupiedAreaOfRun(containerSize, old(blocks));
    }

    /**
      `addBlock` once its two inputs have parsed as integers: append the
      block and recompute the placement of the whole list.
    */
    method AddBlock(width: int, height: int) returns (coords: seq<BlockCoordinate>, occupiedArea: int, totalArea: int)
      requires Valid()
      modifies this`blocks, this`blockColors
      ensures Valid()
      ensures Rects(coords) == Run(containerSize, old(blocks) + [Block(width, height)])
      ensures blocks == Settled(containerSize, old(blocks) + [Block(width, height)])
      ensures Painted(coords, blockColors) && Keeps(old(blockColors), blockColors)
      ensures blockColors.Keys == old(blockColors).Keys + KeysOf(coords)
      ensures occupiedArea == PlacedBlockArea(containerSize, old(blocks) + [Block(width, height)])
      ensures totalArea == TotalArea(containerSize)
    {
      blocks := blocks + [Block(width, height)];
      coords, occupiedArea, totalArea := CalculateBlockPlacement();
    }
  }

  /**
    Two recomputations in a row, as a resize or an added block triggers:
    entries of the same footprint get the same colour, within one run and
    across the two.
  */
  method RecomputeTwice(layout: Layout) returns (first: seq<BlockCoordinate>, second: seq<BlockCoordinate>)
    requires layout.Valid()
    modifies layout`blocks, layout`blockColors
    ensures forall j, k :: 0 <= j < |first| && 0 <= k < |first| && RectKey(first[j].rect) == RectKey(first[k].rect)
              ==> first[j].color == first[k].color
    ensures forall j, k :: 0 <= j < |first| && 0 <= k < |second| && RectKey(first[j].rect) == RectKey(second[k].rect)
              ==> first[j].color == second[k].color
  {
    first := layout.CalculateCoordinates();
    second := layout.CalculateCoordinates();
  }
}
