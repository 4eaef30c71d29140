# Greedy block placement, modelled in Dafny

`script.js` packs a list of rectangular blocks into a rectangular container.
It runs one greedy pass, `calculateCoordinates`. For each block, in list
order, it scans the candidate top-left corners row by row. Within a row it
scans left to right. It accepts the first corner where the block neither
overlaps a rectangle placed earlier in the pass (`checkOverlap`) nor sticks
out of the container (`checkOutsideContainer`).

A placed block gets an entry `{top, left, right, bottom, initialOrder,
color}`. Its colour comes from a registry keyed by `"<width>-<height>"`
(`getBlockColor`, `blockColors`). A new key gets a random `#RRGGBB` colour
(`generateRandomColor`). A block that finds no corner is rotated in place
(`rotateBlock`) and leaves the pass without an entry. It is tried again,
rotated, only in the next pass. The occupied area is the sum of the entries'
areas (the `reduce` in `calculateAndDisplayFullness`).

The project has seven modules:

- `Wrappers`: `Option`.
- `Geometry`: blocks, the container, placed rectangles, and the two tests.
- `Scan`: the row-major scan. `FirstFit` is a recursive reference
  definition. `FindCorner` has the source's nested loops, with `break`s, and
  is proved to compute `FirstFit`.
- `Engine`: `Run`, the rectangles of one whole pass as a function of the
  block list at the start of the pass, and `Settled`, the block list after
  it. Lemmas about them: every rectangle lies inside the container, no two
  overlap, ranks are faithful and increasing, each rectangle is a first fit,
  and a block is rotated and dropped exactly when it finds no corner.
- `Occupancy`: the `reduce`, and its value on a pass's output.
- `Colors`: colour strings, the dimension key, and the key's injectivity.
- `Session`: the script's global state as a class `Layout`, with fields
  `blocks`, `blockColors` and `containerSize`. Its methods mutate those
  fields the way the script does. `CalculateCoordinates` is proved to
  produce `Run` and leave `Settled`, and to keep every entry's colour equal
  to the registry's colour for its footprint.
- `Scenarios`: worked examples of whole passes.

Three behaviours of the script worth noting:

- Block sizes are arbitrary integers. The script never checks that they
  are positive, and no guarantee here needs them to be.
- The registry key is the ordered pair `"<width>-<height>"`: a 20x10
  block and a 10x20 block get different keys
  (`Colors.DimensionKeyInjective`).
- A truthiness test on the stored colour decides whether the registry
  already has one. The model writes that test out. Since every stored
  colour is a seven-character `#RRGGBB` string (`Session.Layout.Valid`), it
  agrees with key presence.

## Model

| member | source | states |
|---|---|---|
| Geometry.HitsIsOverlapping | script.js:89-97 | The per-rectangle test of `checkOverlap` holds exactly when the candidate's rectangle and the placed one share interior points, and that relation is symmetric |
| Geometry.TouchingEdgesDoNotOverlap | script.js:91-96 | Rectangles that only share an edge do not overlap (the comparisons are strict) |
| Geometry.InsideIffInScanRange | script.js:99-105 | A corner passes `checkOutsideContainer` exactly when it lies in the range the scan walks |
| Scan.ScanRow | script.js:54-74 | The inner scan of one row returns an in-range `x` that fits, and no earlier `x` of the row fits; `None` means no `x` of the row fits |
| Scan.ScanRows | script.js:53-77 | The scan from row `y` down returns an in-range corner that fits, and no corner before it in row-major order fits; `None` means no corner from row `y` on fits |
| Scan.FirstFit | script.js:53-77 | The result is the row-major first corner that fits; `None` means that no corner at all passes both tests |
| Scan.FirstFitUnique | script.js:53-76 | Any in-range corner that fits and has no fitting corner before it is the one the scan returns |
| Scan.FirstFitNone | script.js:53-77 | If no in-range corner fits, the scan finds nothing |
| Scan.FindCorner | script.js:53-77 | The nested loops with their `break`s succeed exactly when a fitting corner exists, and then they stop at the first one |
| Engine.Run | script.js:45-87 | One pass produces at most one rectangle per block |
| Engine.Settled | script.js:79-82 | After a pass the block list has the same length as before |
| Engine.RunInsideContainer | script.js:53-69 | Every rectangle of a pass lies inside the container |
| Engine.RunRanks | script.js:62-69 | Each rectangle's `initialOrder` is a 1-based block index, ranks strictly increase along the output, and the rectangle has that block's width and height as at the start of the pass |
| Engine.RunPairwiseDisjoint | script.js:55-59 | No two rectangles of one pass overlap |
| Engine.RunPrefix | script.js:48-84 | The rectangles of the first `n` blocks are a prefix of the output, and every later rectangle has a rank above `n` |
| Engine.RunFirstFit | script.js:53-76 | Every rectangle sits at the first corner where its block fits next to exactly the rectangles of the blocks before it |
| Engine.PlacedIffRanked | script.js:48-84 | A block has a rectangle in the output if and only if its scan found a corner |
| Engine.PlacedKeepsOrientation | script.js:59-72 | A block that has a rectangle in the output ends the pass in the orientation it started with |
| Engine.DroppedIsRotated | script.js:79-82 | A block without a rectangle fits at no corner against the rectangles before it, and ends the pass rotated exactly once |
| Engine.RotateAndDrop | script.js:79-82 | A block with a rectangle keeps its orientation. A block without one fits at no corner and ends the pass rotated exactly once |
| Engine.OversizedBlockIsDropped | script.js:52-82 | A block wider or taller than the container is never placed and is rotated |
| Occupancy.OccupiedArea | script.js:151-155 | The `reduce` over rectangles of non-negative extent is non-negative |
| Occupancy.OccupiedAreaOfRun | script.js:150-155 | The occupied area of a pass's output is the summed area of the blocks it placed |
| Colors.GenerateRandomColor | script.js:26-33 | The colour is `#` followed by six upper-case hexadecimal digits |
| Colors.DecimalDigits | script.js:109 | A natural number renders as at least one decimal digit, and as a single digit exactly when it is below 10 |
| Colors.NumberString | script.js:109 | An integer renders as a non-empty string that starts with `-` exactly when it is negative |
| Colors.DimensionKeyInjective | script.js:109 | Two blocks have the same registry key if and only if they have the same width and the same height |
| Session.Layout.constructor | script.js:1-6 | The script starts with no blocks, an empty registry and the given container |
| Session.Layout.GetBlockColor | script.js:108-119 | The colour returned is the registry's colour for the block's key. On a hit the registry is unchanged. On a miss exactly that key is added, with a fresh hex colour |
| Session.Layout.RotateBlock | script.js:121-125 | Block `index` has its width and height swapped, and no other block changes |
| Session.Layout.PlaceBlock | script.js:48-84 | The `forEach` callback either appends an entry at the block's first fit, coloured from the registry, or rotates the block and adds nothing. Registry colours already present are kept |
| Session.Layout.CalculateCoordinates | script.js:45-87 | The entries' rectangles are `Run` of the block list at the start of the pass, and the block list afterwards is `Settled`. Every entry carries the registry's colour for its footprint. The registry keeps its old entries and gains only the keys of placed footprints |
| Session.Layout.CalculateBlockPlacement | script.js:35-43 | Recomputes the placement, with the same guarantees as `CalculateCoordinates`, including that the registry gains only the keys of placed footprints. The occupied area is the summed area of the placed blocks; the total area is width times height |
| Session.Layout.AddBlock | script.js:165-176 | Appends the block and recomputes the placement of the whole list, with the added block last. The registry keeps its colours and gains only the keys of placed footprints |
| Session.RecomputeTwice | script.js:108-119 | Entries with the same footprint have the same colour, within one pass and across two consecutive passes |
| Scenarios.SingleBlockAtOrigin | script.js:45-87 | A 50x50 block in a 100x100 container lands at the origin, covering 2500 of 10000 |
| Scenarios.OversizedBlockSkipped | script.js:45-87 | In a 100x50 container a 60x60 block is dropped, and a following 10x10 block is placed at the origin with rank 2 |
| Scenarios.TwoSquaresSideBySide | script.js:45-87 | Two 5x5 blocks in a 10x10 container sit edge to edge at `x = 0` and `x = 5` |
| Scenarios.RotatedBlockWaitsForNextRun | script.js:45-87 | A 40x60 block in a 100x50 container is rotated but not placed in its pass, and is placed, rotated, in the next pass |

## Left out

- Loading the initial block list with `fetch` and JSON parsing (script.js:8-24): it is network I/O. A block list is an input of the model.
- The distribution of `Math.random` in `generateRandomColor` (script.js:30): each digit is an unconstrained choice among the sixteen letters.
- DOM work: clearing the container, `displayBlocksOnUI`, `createBlockElement`, the fullness label and `console.log` (script.js:36-37, 127-147, 159-162).
- The fullness ratio `1 - occupiedArea / totalArea` and its `Math.round` (script.js:157, 160): they are floating point, and an empty container divides by zero. The model stops at the two integer areas.
- The resize listener and the window-derived container size (script.js:3-6, 178-184). The container is an integer input.
- A fractional container height such as `innerHeight * 0.8` (script.js:5, 181) is not modelled. For integer blocks the scan bound and `checkOutsideContainer` (script.js:53, 104) treat it as its floor. The total area (script.js:150) does not: the script multiplies by the fractional height, while `Occupancy.TotalArea` uses an integer height.
- The script's numbers are IEEE doubles, exact for integers only up to 2^53 (script.js:65-66, 150, 153). The model's `int` is unbounded, so coordinates and areas beyond that range are not rounded as in the script.
- `parseInt` and the `isNaN` guard of `addBlock` (script.js:169-172). `Session.Layout.AddBlock` starts from two parsed integers.
- Colors.NumberString: renders every integer as plain digits. It ignores JavaScript's exponent notation for magnitudes of 10^21 and above.
- Occupancy.OccupiedAreaOfRun: states only that the occupied area equals the placed blocks' area. That this is at most the container's area, which follows from containment and non-overlap, is not proved.
- Aliasing: `rotateBlock` mutates a block object that the script's block list shares. The model has one owner of the list, `Session.Layout.blocks`, and rotates entry `index` of it.
