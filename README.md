# raycast_test core, modelled in Dafny

This project models the core of a small SFML platformer: the pixel-mask
generators and their debug printer, the configuration tables built at
start-up (name lookups, the row-major rectangle grids cut out of the sprite
sheets, the per-frame masks and the walkable-tile flags), the global flag
records, the sprite class hierarchy, the quadtree's `insert`, and the two
`collisionHelper` overloads with `extractCollisionData` and the raycast
cache. Each part keeps the form of the code it models:

- **Mutated objects are classes.** `Sprite`, `Quadtree`, `RaycastResult`,
  the flag records and the global asset tables are classes whose methods
  change fields.
- **Loops are methods.** The generators, the debug printer, the grid
  builders, the tile walk and the quadtree filter are methods with loops,
  proved against specification functions.
- **Pure helpers are functions.** Name lookups, span arithmetic and the
  collision lambda are functions.

Modules, one per file:

| file | module | what it holds |
|---|---|---|
| `results.dfy` | `Results` | `Option` and `Result` |
| `geometry.dfy` | `Geometry` | `Vec2`, `IntRect`, `FloatRect`, `contains` |
| `cpp_int.dfy` | `CppInt` | C++ integer semantics: unsigned wrap, truncating `/` and `%`, `std::clamp`, float-to-int casts |
| `bitmask.dfy` | `Bitmask` | `createBitmask`, `createBitmaskForBottom`, `printBitmaskDebug` |
| `config_tables.dfy` | `ConfigTables` | `toDirection`, `toSfColor`, `makeRectsAndBitmasks`, the `TILES_BOOLS` loop |
| `flags.dfy` | `FlagSystem` | `FlagEvents`, `SceneEvents`, `GameSceneEvents1` |
| `sprites.dfy` | `Sprites` | the sprite hierarchy, flattened into one class with a `Kind` |
| `quadtree.dfy` | `SpatialIndex` | `Quadtree` and its `insert` |
| `collision.dfy` | `Collision` | `CollisionData`, `RaycastResult`, both `collisionHelper` overloads |

**Conventions**

- Coordinates are mathematical reals, and pixel, index and size values are
  unbounded integers. Where the code's C++ conversions matter, the model
  writes them out: `static_cast<int>` of a float, the `unsigned int` and
  `size_t` conversions, integer `/` and `%`, and `std::clamp`.
- Everything the core calls but does not define enters as a parameter:
  - the collision kernels of `physics.cpp` (box, circle, sweep and pixel
    tests), as function-typed parameters (the lambda as written never calls
    the sweep kernel; see "## Findings");
  - the quadtree `query` results, as sequences;
  - the walkable flag of each tile, as a function;
  - a sprite's global bounds and radius.

**Details of the tile walk that the model takes from the code**

- The tile walk skips tiles that are *not* walkable and checks the walkable
  ones, as the comment at `physics.hpp:238-241` says.
- Tile columns are clamped to `[0, TILEMAP_HEIGHT]` and rows to
  `[0, TILEMAP_WIDTH]`, both bounds inclusive.
- The tile index is `y * TILES_COLUMNS + x`.
- The "up to four tiles" are four *walkable tiles checked*, not four cells
  visited.

## Model

| member | source | states |
|---|---|---|
| `FlagSystem.FlagEvents.constructor` | test/test-src/game/globals/globals.hpp:189 | the six key flags and the mouse flag start false; `gameEnd` is left out of the initialiser list, so nothing is promised about it |
| `FlagSystem.FlagEvents.ResetFlags` | test/test-src/game/globals/globals.hpp:192-195 | all eight flags are false afterwards |
| `FlagSystem.FlagEvents.AllFlagKeyReleased` | test/test-src/game/globals/globals.hpp:198-205 | the six key flags are false; `gameEnd` and `mouseClicked` keep their values |
| `FlagSystem.SceneEvents.constructor` | test/test-src/game/globals/globals.hpp:214 | both scene flags start false |
| `FlagSystem.SceneEvents.ResetFlags` | test/test-src/game/globals/globals.hpp:216-220 | the zero-fill leaves both flags false |
| `FlagSystem.GameSceneEvents1.constructor` | test/test-src/game/globals/globals.hpp:229 | a fresh record is "scene starting" and nothing else |
| `FlagSystem.GameSceneEvents1.ResetFlags` | test/test-src/game/globals/globals.hpp:231-235 | the zero-fill clears all four flags, `sceneStart` included, unlike the constructor |
| `ConfigTables.ToDirection` | test/test-src/game/globals/globals.cpp:37-47 | each of the four names maps to its direction, in both directions of the iff; every other string, case variants included, gives `NONE` |
| `ConfigTables.ToSfColor` | test/test-src/game/globals/globals.cpp:49-66 | each table name gives its colour; unknown names give black; the result is fully transparent exactly for "TRANSPARENT" |
| `ConfigTables.MakeRectGrid` | test/test-src/game/globals/globals.cpp:264-286 | the nested row/column loop yields `rows * cols` rectangles, none when either count is not positive; entry `k` is the cell at column `k % cols`, row `k / cols` |
| `ConfigTables.AnimationFrameCount` | test/test-src/game/globals/globals.cpp:266-267 | with `indexMax / rows` columns an animation sheet yields at most `indexMax` frames, and more than `indexMax - rows`; exactly `indexMax` when the row count divides it |
| `ConfigTables.GridCellsDistinct` | test/test-src/game/globals/globals.cpp:280-285 | two grid entries are the same rectangle exactly when they have the same index |
| `ConfigTables.GridCellInSheet` | test/test-src/game/globals/globals.cpp:280-285 | every grid cell lies inside the `cols * cellW` by `rows * cellH` sheet |
| `ConfigTables.TileMasksPresent` | test/test-src/game/globals/globals.cpp:288-292 | on a tile sheet large enough for the grid, every tile rectangle passes the mask guard, so every tile gets a mask |
| `ConfigTables.AssetTables.MakeRectsAndBitmasks` | test/test-src/game/globals/globals.cpp:264-301 | appends the 32-pixel player grid, the 16-pixel bullet grid and the tile grid, leaving earlier entries alone; appends one full mask per tile rectangle and one bottom-three-rows mask per player frame |
| `ConfigTables.MakeMasks` | test/test-src/game/globals/globals.cpp:288-292 | the tile-mask loop yields `createBitmask` of each tile rectangle, in order |
| `ConfigTables.MakeBottomMasks` | test/test-src/game/globals/globals.cpp:294-298 | the player-mask loop yields `createBitmaskForBottom(…, 0, 3)` of each frame, in order |
| `ConfigTables.InitTileFlags` | test/test-src/game/globals/globals.cpp:184-190 | after the loop, flag `i` is true exactly when `i == 6`, for every `i < TILES_NUM`; later entries are untouched |
| `Bitmask.DefaultMaskIsAbove128` | test/test-src/game/globals/globals.cpp:354-367 | with the default `transparency = 0`, bit `y * width + x` of the generated mask is set exactly when row `y` is sampled and that pixel's alpha exceeds 128 |
| `Bitmask.GuardAdmitsNegativeWidth` | test/test-src/game/globals/globals.cpp:340-345 | the bounds guard as written accepts a rectangle of width -1 on a 2x1 texture, and the last column the loop then reads, `left + width - 1` with the width as `unsigned int`, lies past the texture's right edge |
| `Bitmask.MaskSize` | test/test-src/game/globals/globals.cpp:351 | the byte count holds one bit per pixel with fewer than 8 bits to spare |
| `Bitmask.MaskSizeIsCeiling` | test/test-src/game/globals/globals.cpp:351 | the byte count is the ceiling of `width * height / 8`: enough for every pixel, with fewer than 8 spare bits |
| `Bitmask.MaskBitIsPixelTest` | test/test-src/game/globals/globals.cpp:354-367 | bit `i` of a mask (byte `i / 8`, position `i % 8`) is set exactly when `i = y * width + x` names a sampled pixel whose alpha passes; every other bit, the padding included, is zero |
| `Bitmask.SampleRows` | test/test-src/game/globals/globals.cpp:354-367 | the nested loops OR-ing into the zeroed buffer produce exactly the specified mask |
| `Bitmask.SampleRow` | test/test-src/game/globals/globals.cpp:355-366 | one pass of the outer loop over row `y` extends the buffer from the bits of the pixels before row `y` to those before row `y + 1` |
| `Bitmask.SamplePixel` | test/test-src/game/globals/globals.cpp:356-366 | one inner-loop step turns a buffer holding the bits of the first `k` pixels into one holding the first `k + 1` |
| `Bitmask.CreateBitmask` | test/test-src/game/globals/globals.cpp:332-370 | no mask when the texture is missing or the rectangle is not inside it; this is the corrected guard, which also rejects a negative width or height; otherwise the mask of all rows |
| `Bitmask.BottomStartRow` | test/test-src/game/globals/globals.cpp:395 | the first sampled row never lies below the rectangle |
| `Bitmask.BottomStartRowCases` | test/test-src/game/globals/globals.cpp:395 | the first sampled row is `height - rows` when `0 <= rows <= height`, and 0 when `rows` is larger or negative |
| `Bitmask.CreateBitmaskForBottom` | test/test-src/game/globals/globals.cpp:372-413 | the same corrected guard as `Bitmask.CreateBitmask`; otherwise the mask of the rows from the start row to the bottom |
| `Bitmask.BottomMaskMatchesFullMask` | test/test-src/game/globals/globals.cpp:395-410 | the bottom-rows mask is the full mask with the rows above the start row cleared |
| `Bitmask.PrintBitmaskDebug` | test/test-src/game/globals/globals.cpp:414-433 | the logged text is `height` lines of `width` characters, each ended by a newline; the character for pixel `i` is '1' exactly when the bit the printer reads is set |
| `Bitmask.PrintDebugRow` | test/test-src/game/globals/globals.cpp:418-428 | the inner loop builds line `y` of that text |
| `Bitmask.DebugTextAt` | test/test-src/game/globals/globals.cpp:416-430 | the text has `height * (width + 1)` characters; character `y * (width + 1) + x` is pixel `(x, y)`, or the newline when `x == width` |
| `Bitmask.DebugBitMirrorsWriterBit` | test/test-src/game/globals/globals.cpp:421-423 | the printer's bit for pixel `i` is the one the generators wrote for pixel `8 * (i / 8) + 7 - i % 8` |
| `Bitmask.DebugPrintMisreadsSinglePixel` | test/test-src/game/globals/globals.cpp:421 | a 1x1 opaque texture gives a mask with bit 0 set, yet the printer shows '0' |
| `Bitmask.CorrectedDebugTextShowsPixels` | test/test-src/game/globals/globals.cpp:414-433 | printing in the generators' bit order shows '1' at column `x` of line `y` exactly when that pixel is sampled and passes |
| `Sprites.Sprite.constructor` | test/test-assets/sprites/sprites.cpp:10-33 | visible exactly when the texture is alive with no zero side, and then the drawable gets position, scale and the full texture rectangle; animated kinds start at frame 0 with changes enabled; moving kinds keep speed and acceleration; the player faces (1, 0) with its origin at the centre of its first frame; every other kind starts with the zero direction of `sprites.hpp:121` |
| `Sprites.Sprite.IsAnimated` | test/test-assets/sprites/sprites.hpp:38 | false for the base and non-static sprites, true for `Animated` and the classes derived from it (the override at `sprites.hpp:75`) |
| `Sprites.Sprite.UpdateVisibility` | test/test-assets/sprites/sprites.cpp:105-119 | the sprite becomes invisible once it leaves the world grown by the offset, and is never made visible again |
| `Sprites.OutOfWorldIsOutsideBox` | test/test-assets/sprites/sprites.cpp:107-110 | the four-way test is exactly "outside the closed box `[-offset, world + offset]`" |
| `Sprites.Sprite.GetCurrIndex` | test/test-assets/sprites/sprites.hpp:73 | the frame index for animated kinds, 0 for the others |
| `Sprites.Sprite.GetRects` | test/test-assets/sprites/sprites.cpp:121-133 | an error exactly when an animated sprite has no frames; otherwise frame `currentIndex % size` for any index below 2^64, so the current one while the index is in range; the empty rectangle for kinds that do not animate |
| `Sprites.Sprite.GetBitmask` | test/test-assets/sprites/sprites.cpp:136-148 | an error exactly when the index is past the mask list; otherwise that entry; no mask for kinds that do not animate |
| `Sprites.Sprite.GetDirectionVector` | test/test-assets/sprites/sprites.hpp:114 | the stored direction for moving kinds, zero for the others |
| `Sprites.Sprite.GetSpeed` | test/test-assets/sprites/sprites.hpp:115 | the stored speed for moving kinds, 0 for the others |
| `Sprites.Sprite.GetAcceleration` | test/test-assets/sprites/sprites.hpp:116 | the stored acceleration for moving kinds, zero for the others |
| `Sprites.Sprite.GetMoveState` | test/test-assets/sprites/sprites.hpp:105 | the stored move state for moving kinds, false for the others |
| `Sprites.Sprite.SetRects` | test/test-assets/sprites/sprites.cpp:56-66 | shows frame `animNum` when it is below `indexMax` and a frame of the list; otherwise the error is swallowed and the rectangle stays |
| `Sprites.SetRectsGuardAdmitsIndexMax` | test/test-assets/sprites/sprites.cpp:58 | with 12 frames and `indexMax` 12 the guard as written accepts 12, one past the last frame |
| `Sprites.SetRectsAcceptsOnlyFrames` | test/test-assets/sprites/sprites.cpp:58-61 | the corrected test accepts only valid frame indices; when the list holds at least `indexMax` frames it differs from the written guard only at `indexMax` |
| `Sprites.NextFrame` | test/test-assets/sprites/sprites.cpp:73-76 | one step on, wrapping to 0 at `indexMax`: `(i + 1) % indexMax` for an index in range |
| `Sprites.FrameCycle` | test/test-assets/sprites/sprites.cpp:68-85 | after `n` frame changes the index is `(i + n) % indexMax` |
| `Sprites.FrameIndexStaysInRange` | test/test-assets/sprites/sprites.cpp:73-76 | frame changes keep the index in `[0, indexMax)` and repeat with period `indexMax` |
| `Sprites.Sprite.ChangeAnimation` | test/test-assets/sprites/sprites.cpp:68-85 | nothing happens while changes are disabled; below the change time the time accumulates; past it the frame advances with wrap, the time resets and the new frame is shown through the corrected `setRects` guard |
| `Sprites.Sprite.PlayerChangeAnimation` | test/test-assets/sprites/sprites.cpp:157-186 | `firstTurnInstance` becomes whether the two turn flags differed; past the change time the frame moves in 6..11 while A is held and in 0..5 otherwise, the new frame is shown through the corrected `setRects` guard, and `prevTurnBool` records that A was not held |
| `Sprites.PlayerNextIndexRanges` | test/test-assets/sprites/sprites.cpp:168-174 | without A the next index is `(i + 1) % 6`; with A an index in 6..11 moves to `6 + (i - 5) % 6` |
| `Sprites.PlayerTurnLingers` | test/test-assets/sprites/sprites.cpp:170 | with A held, the truncating `%` takes an index in 0..4 one frame on inside 1..5, not into 6..11 |
| `Sprites.PlayerApproach` | test/test-assets/sprites/sprites.cpp:170 | holding A from any frame in 0..11, the index is either in 6..11 or still climbing through 0..5 |
| `Sprites.PlayerLeftRunSettles` | test/test-assets/sprites/sprites.cpp:168-170 | holding A for six or more frame changes always reaches and stays in 6..11 |
| `Sprites.PlayerRightRunAtOnce` | test/test-assets/sprites/sprites.cpp:173 | without A, one frame change is enough to be in 0..5 |
| `Sprites.Sprite.SetVisibleState` | test/test-assets/sprites/sprites.hpp:28 | the visibility becomes the argument |
| `Sprites.Sprite.SetScreenPosition` | test/test-assets/sprites/sprites.hpp:30 | the screen position becomes the argument |
| `Sprites.Sprite.SetAnimation` | test/test-assets/sprites/sprites.hpp:65 | the frame list is replaced |
| `Sprites.Sprite.SetAnimChangeState` | test/test-assets/sprites/sprites.hpp:67 | frame changes are enabled or disabled |
| `Sprites.Sprite.SetMoveState` | test/test-assets/sprites/sprites.hpp:106 | the move state becomes the argument |
| `Sprites.Sprite.ChangePosition` | test/test-assets/sprites/sprites.hpp:107 | the logical position changes and the drawable does not |
| `Sprites.Sprite.SetSpeed` | test/test-assets/sprites/sprites.hpp:108 | the speed becomes the argument |
| `Sprites.Sprite.SetAcceleration` | test/test-assets/sprites/sprites.hpp:109 | the acceleration becomes the argument |
| `Sprites.Sprite.SetDirectionVector` | test/test-assets/sprites/sprites.hpp:111 | the direction becomes the argument |
| `Sprites.Sprite.UpdatePos` | test/test-assets/sprites/sprites.hpp:117 | the drawable moves to the logical position |
| `Sprites.Sprite.UpdatePlayer` | test/test-assets/sprites/sprites.cpp:151-155 | the logical and the drawn position both become the new position |
| `Sprites.Sprite.SetJumpingState` | test/test-assets/sprites/sprites.hpp:146 | the jumping flag becomes the argument |
| `Sprites.Sprite.SetFallingState` | test/test-assets/sprites/sprites.hpp:147 | the falling flag becomes the argument |
| `SpatialIndex.Quadtree.constructor` | test/test-src/game/physics/physics.hpp:22 | a node over the given bounds with no sprites and no children; depth and limits default to 0, 10 and 5 |
| `SpatialIndex.Quadtree.Insert` | test/test-src/game/physics/physics.hpp:27-46 | the tree keeps its invariant and footprint, and its contents become the specified insertion: appended at a leaf, handed to the first child containing the anchor, dropped otherwise |
| `SpatialIndex.InsertAt` | test/test-src/game/physics/physics.hpp:27-46 | insertion keeps the node's bounds and its number of children, and leaves the tree as it was when the sprite is dropped |
| `SpatialIndex.FirstContaining` | test/test-src/game/physics/physics.hpp:35-41 | the child chosen is the first whose bounds contain the point; none means no child does |
| `SpatialIndex.FirstContainingIsFirst` | test/test-src/game/physics/physics.hpp:35-41 | a left-to-right scan that stops at the first containing child picks the child `FirstContaining` names |
| `SpatialIndex.InsertAddsExactlyOnce` | test/test-src/game/physics/physics.hpp:27-46 | inserting adds exactly one copy of the sprite when it lands and nothing when it is dropped; no other sprite is gained or lost |
| `SpatialIndex.InsertPreservesShape` | test/test-src/game/physics/physics.hpp:27-46 | insertion never creates, removes or moves a node |
| `ConfigTables.AssetTables.constructor` | test/test-src/game/globals/globals.hpp:103-144 | the global rectangle and mask vectors start empty |
| `Collision.RaycastResult.constructor` | test/test-src/game/physics/physics.hpp:63-66 | the cache holds the given times and counter |
| `Collision.ExtractCollisionData` | test/test-src/game/physics/physics.hpp:136-156 | fails exactly when an animated sprite has no frames or its current index is past its masks; animated sprites take the bounds' corner, the current frame's size and the current mask; others take their position, the bounds' size and no mask |
| `Collision.ViewCorner` | test/test-src/game/physics/physics.hpp:174-180 | the view's box starts half its size up and left of its centre |
| `Collision.TileSpan` | test/test-src/game/physics/physics.hpp:198-211 | start and end indices are clamped into `[0, TILEMAP_HEIGHT]` for x and `[0, TILEMAP_WIDTH]` for y |
| `Collision.SpanOrdered` | test/test-src/game/physics/physics.hpp:198-211 | for a box of non-negative size neither range is empty: start never exceeds end |
| `Collision.CellsCount` | test/test-src/game/physics/physics.hpp:218-219 | the walk visits `(endY - startY + 1) * (endX - startX + 1)` cells, none when a range is empty |
| `Collision.CellsInSpan` | test/test-src/game/physics/physics.hpp:218-219 | a cell is visited exactly when both its coordinates lie in the span |
| `Collision.WalkableCellsFilter` | test/test-src/game/physics/physics.hpp:229-241 | the walkable cells are exactly the visited cells whose tile is walkable |
| `Collision.Probe` | test/test-src/game/physics/physics.hpp:216-256 | with no tests left the walk reports nothing; a reported collision is always a walkable cell of the walk that the box test hits |
| `Collision.ProbeTestsFirstWalkable` | test/test-src/game/physics/physics.hpp:216-256 | the walk reports a collision exactly when one of the first four walkable cells is hit; non-walkable tiles are never checked and never counted |
| `Collision.TileMapCollision` | test/test-src/game/physics/physics.hpp:216-256 | the nested loop with its checked-tile counter returns the specified walk |
| `Collision.TileRowCollision` | test/test-src/game/physics/physics.hpp:220-255 | the inner column loop: it checks at most the tests that are left; a hit is a collision of the walk over this row and the rows below, and otherwise the walk continues over the rows below with the tests still left |
| `Collision.CollisionWithTarget` | test/test-src/game/physics/physics.hpp:158-262 | extraction errors propagate; the mouse is a 1x1 box, the view its own rectangle, a tile map the walk over its span; any other target gives false |
| `Collision.LambdaAsWritten` | test/test-src/game/physics/physics.hpp:288-304 | the lambda as compiled never reports a collision for a sweep kernel, whose ten parameters fail the five-argument test, nor for any other callable outside the three matched shapes |
| `Collision.SweepKernelNeverRuns` | test/test-src/game/physics/physics.hpp:293-295 | a sweep kernel that always reports a hit gives false through the lambda as written, while the intended lambda with an empty cache runs it and reports the hit |
| `Collision.LambdaAgreesOffSweep` | test/test-src/game/physics/physics.hpp:288-304 | for every kernel other than the sweep, the intended and the written lambda give the same answer and leave the cache counter alone |
| `Collision.LambdaOutcome` | test/test-src/game/physics/physics.hpp:293-299 | the lambda as intended: only the sweep kernel may change the cache counter, and only to 0; with the counter at 0 the answer is the sweep's; with it set, the answer is whether the elapsed time passed the cached time, and the counter is cleared exactly when it is; an unknown kernel gives false |
| `Collision.IntendedLambda` | test/test-src/game/physics/physics.hpp:293-299 | run against the global `RaycastResult`, the answer and the new counter are those of `LambdaOutcome`, written into the cache in place; the cached times are untouched |
| `Collision.RaycastCacheSpentOnce` | test/test-src/game/physics/physics.hpp:293-299 | in the intended lambda, once a cached hit is reported the counter is 0, so the next call runs the sweep |
| `Collision.FindDistinctPair` | test/test-src/game/physics/physics.hpp:310-317 | the double loop reaches the lambda exactly when some pair of candidates is two different sprites |
| `Collision.NoDistinctPairMeansOneSprite` | test/test-src/game/physics/physics.hpp:310-317 | with both candidate lists non-empty, no distinct pair means every candidate is one and the same sprite |
| `Collision.CollisionHelper` | test/test-src/game/physics/physics.hpp:264-323 | false for a missing sprite; extraction errors propagate; without a quadtree, or when a distinct pair exists, the written lambda's answer; otherwise false; a sweep kernel never yields a collision, and the cache is never read or written |
| `CppInt.ToUnsigned32` | test/test-src/game/globals/globals.cpp:350-351 | conversion to `unsigned int` is the value modulo 2^32 |
| `CppInt.ToSizeT` | test/test-src/game/physics/physics.hpp:154 | conversion of an `int` to `size_t` is the value modulo 2^64 |
| `CppInt.TDiv` | test/test-assets/sprites/sprites.hpp:137 | integer `/` truncates toward zero: the quotient's magnitude is the largest `m` with `m * abs(b) <= abs(a)`, it is non-negative when the operands' signs agree and non-positive otherwise, and it equals floor division on non-negative operands |
| `CppInt.TRemRange` | test/test-assets/sprites/sprites.cpp:170 | integer `%` by a positive divisor is in `[0, b)` for non-negative operands and in `(-b, 0]` for negative ones |
| `CppInt.Clamp` | test/test-src/game/physics/physics.hpp:208-211 | `std::clamp` returns the value when in range and the nearer bound otherwise |
| `CppInt.TruncToInt` | test/test-src/game/physics/physics.hpp:198-201 | the float-to-int cast drops the fraction, rounding toward zero |

## Left out

- The kernels of `physics.cpp` (box, circle, sweep and pixel-perfect tests) and `Quadtree::query`, `subdivide`, `clear`, `contains` and `update` are not part of this model. The kernels are function-typed parameters; query results are input sequences.
- `Quadtree` constructor: only its declaration with default arguments is modelled, since the body is in `physics.cpp`. Because `subdivide` is left out, a tree gains children only through the model's `QTree` values.
- `Quadtree::insert`'s `try`/`catch` is not modelled: nothing inside it can throw in the model.
- `getRadius` and `getGlobalBounds` depend on SFML's transforms and `sqrt`. They are parameters of `ExtractCollisionData` and `CollisionHelper`.
- Floating point is modelled as exact reals: float rounding in the tile division, in `transparency * 255` and in positions is not captured. A `Threshold` carries the already converted cut-off.
- `TileSpan` requires positive tile sizes. The code divides by a float `TILE_WIDTH` that could be 0, and the model does not cover that division.
- `TileSpan` does not model float-to-int casts out of `int` range (undefined in C++), nor the `size_t` to `int` cast of the tilemap sizes.
- `Collision.LambdaOutcome` requires `counterIndex` to be inside the cached times when the raycast path reads them. The code's out-of-range read is undefined behaviour.
- `Collision.CollisionHelper` takes no `timeElapsed`, `counterIndex` or cache: the lambda as written reads them only in the sweep branch, which no kernel reaches.
- `Bitmask.PrintBitmaskDebug` requires the mask to hold at least `width * height` bits. The code reads past a shorter buffer, which is undefined behaviour.
- `Sprites.Sprite.constructor` requires at least one frame for the player: `getRects` throws out of the player's constructor otherwise, and the model does not construct half-built objects.
- `ConfigTables.InitTileFlags` requires `TILES_NUM` to be at most the array's length. The code writes past the 60-entry `TILES_BOOLS` when the configuration asks for more.
- `Sprites.Sprite.ChangeAnimation`: the `int` overflow of `currentIndex` is not modelled (unbounded integers). `getRects` wraps with `currentIndex % size` through `size_t`, which `ToSizeT` models.
- `Bitmask.CreateBitmask`: the 32-bit wrap of `width * height` in the byte count is not modelled. The model's sizes are unbounded, which matters only above 2^32 pixels.
- Logging, `std::cout` output, exceptions as control flow and `log_*` calls are left out. Thrown and caught errors become `Result.Err` values or "nothing changes" outcomes. `printBitmaskDebug` returns the text it would log.
- Virtual dispatch through the `Sprite` hierarchy is flattened into one class with a `Kind`. Each getter answers as the most-derived override does. Obstacle and bullet direction setters from angles or mouse positions, `setHeadingAngle` for angles other than the constructor's 0, and `draw` use `cos`, `sin` and SFML rendering, and are not modelled.
- Plain field reads (`getSpritePos`, `getVisibleState`, `getScreenPosition`, `getJumpingState`, `getFallingState`, `getHeadingAngle`, `getAnimationRects`) are the class's fields themselves.
- YAML parsing, asset loading, random tile maps and positions, scenes, the window and the event loop are I/O and orchestration outside the core.
- `weak_ptr` masks are modelled as `Option` values, so an expired mask is `None`. The expiry moment itself is not modelled.

## Findings

| source | as written | input that shows it | evidently intended | confidence | as-written member | corrected member |
|---|---|---|---|---|---|---|
| test/test-src/game/globals/globals.cpp:340-345 | the bounds guard checks only the rectangle's corner and far edges, never the sign of its width and height | a 2x1 texture and the rectangle (1, 0, -1, 1): the guard passes, the width becomes 2^32 - 1 as `unsigned int`, and the loop reads columns far outside the texture | reject rectangles with a negative size | not executed | `Bitmask.GuardAdmitsNegativeWidth` | `Bitmask.CreateBitmask` |
| test/test-assets/sprites/sprites.cpp:58 | `setRects` rejects `animNum > indexMax` only | twelve frames and `indexMax` 12: `setRects(12)` passes the guard and indexes `animationRects[12]`, one past the end | reject `animNum >= indexMax`, and any index past the frame list | not executed | `Sprites.SetRectsGuardAdmitsIndexMax` | `Sprites.Sprite.SetRects` |
| test/test-src/game/physics/physics.hpp:293 | the sweep branch tests `is_invocable_v` with five argument types, while `raycastPreCollision` (`physics.hpp:117-118`) and the call at line 295 take ten | any sweep kernel, for instance one that always reports a hit: no branch matches, the lambda returns false, and the raycast cache is never read or cleared | test the ten-argument signature, so the sweep and its cache run | not executed | `Collision.SweepKernelNeverRuns` | `Collision.LambdaOutcome` |
| test/test-src/game/globals/globals.cpp:421 | the debug printer reads bit `7 - bitIndex % 8`, while both generators write bit `bitIndex % 8` | a 1x1 fully opaque texture: the mask byte is 0x01 and the printer shows "0" | read bits in the order the generators write them, so each character is its pixel's test | not executed | `Bitmask.DebugPrintMisreadsSinglePixel` | `Bitmask.CorrectedDebugTextShowsPixels` |
