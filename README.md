# Stack-on: a verified model of the game logic

Stack-on is a browser stacking game. A block slides back and forth above a
tower. The player drops it with Space or a click on the canvas. The part
that overhangs the top of the tower is cut off and falls away, and the part
that overlaps stays on the tower as the new, narrower top. A drop that
overlaps nothing ends the session. Every hit scores a point. At 15 and 30
points the level rises and the block moves faster, and at 45 points the
player wins. After every hit but the winning one the tower is shifted down,
so that it stays in a window of `MAX_VISIBLE_BLOCKS` rows resting on the
canvas floor.

This project models the game logic of `script.js` in Dafny:

- **`StackOn.Game`** (game.dfy) is a class whose fields are the script's
  globals: `blocks`, `currentBlock`, `direction`, `startFromLeft`, `score`,
  `level`, `gameSpeed`, `gameActive`, `highScore`, `fallingBlocks`,
  `canvasWidth`, `canvasHeight` and `MAX_VISIBLE_BLOCKS`. It has one method
  per function of the script. The methods update the fields in place, with
  the script's loops kept as `while` loops.
- **`Play`** (session.dfy) is the specification of those methods. The
  globals as one value are a `Session`, and each step of the script is a
  function on sessions. Each method that models a whole function of the
  script ensures that the new `Snapshot()` is that function of the old one,
  for example `Snapshot() == Frame(old(Snapshot()))`. The helpers that
  model one loop or one part of a function (`ScaleBlocks`, `LowerBlocks`,
  `ShedOverhangs`, `AddFallingBlock`, `UpdateFallingBlocks`) change only the
  field their frame names, and ensure that field's new value. The class
  predicates `Valid()` and `Steady()` are the `Play` invariants on the
  fields. The constructor establishes both. `Resize`, `StartGame`, `Tick`
  and the two input handlers keep `Valid()`, and all but `Resize` keep
  `Steady()`. The lemmas of `Play` prove what
  the steps keep:
  - the session invariant `Valid`;
  - the steady tower shape `Steady`;
  - the level schedule;
  - a high score that never falls;
  - all of these over any sequence of events.
- The arithmetic of each step sits in its own module:
  - `Blocks`: the base block;
  - `Layout`: canvas height, window size and rescale factor;
  - `Motion`: entry edge and oscillation;
  - `Drop`: overhangs, hit or miss, and trimming;
  - `Tower`: eviction, shift and re-anchoring;
  - `Falling`: debris physics;
  - `Progression`: levels and speed.

Coordinates and speeds are exact reals, with y growing downwards. The random
colour (a hue) and the random debris spin (`Math.random() * 0.1`) are
parameters of the methods.

## Model

| member | source | states |
|---|---|---|
| Blocks.BaseBlock | script.js:205-216 | The base block is 160 wide exactly when the canvas is narrower than 600 and 220 otherwise. It is centred horizontally and rests on the canvas floor at height 30. |
| Layout.CanvasHeight | script.js:110-116 | The canvas height lies between 400 and 800. Unless it is the 400 floor, it is the least of the 4:3 height, 70% of the viewport and 800. It is the floor only when the 4:3 height or 70% of the viewport is at most 400. |
| Layout.MaxVisibleBlocks | script.js:119 | `n` is characterised as a floor: `(n+1)*60 <= h < (n+2)*60`. For canvas heights from 400 to 800 it lies between 5 and 12. |
| Layout.SliceStart | script.js:354 | Gives the start index of `slice(-k)`: for positive `k`, the last `min(k, len)` elements. |
| Layout.ScaleFactor | script.js:124-125 | The factor is positive on a positive canvas height. It is below 1 exactly when the canvas is shorter than 1.5 times the tower height. |
| Motion.Spawned | script.js:226-252 | The new block is as wide as the top and 30 high, one row above the top, with the given hue. From the left it starts at x = 0 moving right; otherwise it starts flush with the right edge moving left. |
| Motion.Advanced | script.js:259 | The new x is the old x plus `speed * direction * 3`. At a non-negative speed the block moves in its direction's sense. |
| Motion.Oscillated | script.js:255-269 | A block no wider than the canvas stays on it. The direction flips only when the block snaps to an edge. Three cases: overflow on the right snaps right and turns left; x below 0 snaps to 0 and turns right; otherwise the block moves freely. |
| Motion.FirstStepFromLeft | script.js:231-269 | A block entering at the left edge with room to move advances one step of `speed * 3` and keeps moving right. |
| Drop.OverhangsTile | script.js:281-283 | At most one side overhangs. Left overhang, overlap and right overhang sum to the block's width. Each overhang is positive exactly when the block sticks out on that side. |
| Drop.Resolve | script.js:281-310 | The drop misses exactly when the overlap is at most 0. On a hit, the kept block has x = max of the two x's and width = overlap, which is positive and at most the original width. At most one piece is cut off, and none exactly when the blocks are aligned. The left piece starts at the original x and ends at the kept block. The right piece starts at the kept block's right edge and ends at the original right edge. |
| Drop.OverlapIsIntersection | script.js:281-302 | For blocks of equal width, the overlap is the length of the intersection of the two spans. A miss happens exactly when the spans are disjoint or only touch, and the kept block is that intersection. |
| Drop.FirstDropHitsOnNarrowCanvas | script.js:206-289 | On a canvas narrower than three base widths, a block on the canvas always overlaps the base block. |
| Drop.Canvas600Drop | script.js:206-302 | On a 600-wide canvas the base is 220 wide at x = 190. A block dropped at x = 20 keeps 50 pixels and sheds a 170-pixel piece. |
| Falling.NewFallingBlock | script.js:365-378 | A new piece takes the given position, size and colour, with velocity 0. Its spin has the magnitude of the random value, and it is non-positive for a left piece and non-negative for a right piece. |
| Falling.Fall | script.js:388-390 | Velocity rises by 0.5 and y by the new velocity. The spin magnitude grows by 0.02 in the sense it already has. x, width, height and colour are unchanged. |
| Falling.TickDebris | script.js:381-397 | A tick never adds pieces. |
| Falling.TickDebrisOnScreen | script.js:393-395 | Every piece left after a tick is on screen, and debris that does not rise still does not rise. |
| Falling.TickDebrisStep | script.js:384-396 | One pass of the backward loop: ticking piece i in place, and splicing it out when it is below the canvas, extends the ticked suffix by one position. |
| Falling.TickDebrisKeepsOrder | script.js:384-396 | A tick keeps exactly the pieces that are on screen after their own tick, each advanced one tick, in their original order. |
| Falling.SurvivorsAreFallen | script.js:388-395 | The k-th survivor is the piece at the k-th survivor position, advanced one tick. |
| Falling.SurvivorIndicesIncrease | script.js:384-394 | Survivor positions are strictly increasing. |
| Falling.OnScreenPiecesSurvive | script.js:393-395 | No piece that is on screen after its tick is lost. |
| Falling.FallNPosition | script.js:382-389 | After n ticks, velocity has grown by n/2 and y by `n*v + n(n+1)/4`. |
| Falling.StaysOffScreen | script.js:388-393 | A piece that does not rise stays below the canvas once it is there. |
| Falling.FallNAtLeast | script.js:388-389 | After n ticks, a piece that does not rise has dropped at least n/2 pixels. |
| Falling.LeavesScreen | script.js:388-395 | After `TicksToLeave` ticks, a piece that does not rise is below the canvas. |
| Falling.TickDebrisAppend | script.js:384-396 | Pieces fall independently: ticking a concatenation ticks each part. |
| Falling.TickNAppend | script.js:384-396 | Pieces fall independently over any number of ticks. |
| Falling.TickNSingle | script.js:388-395 | A single piece is still there after n ticks exactly when it is still on screen. |
| Falling.ClearedStaysClear | script.js:393-395 | Debris that is gone stays gone. |
| Falling.DebrisClears | script.js:381-397 | Debris that does not rise always clears: after `ClearTicks` ticks every piece has been removed. |
| Progression.Progressed | script.js:400-410 | At score 15 the result is (level 2, speed 0.69), at score 30 it is (level 3, speed 0.78), and at any other score level and speed are unchanged. The speed never exceeds the cap of 2 unless it was already above it. |
| Progression.LevelSchedule | script.js:317-410 | Since the score rises one at a time, the equality thresholds are never skipped. Level 1 (0.6) covers scores 0-14, level 2 (0.69) covers 15-29, and level 3 (0.78) covers 30 and above. |
| Tower.ShiftedTower | script.js:334-358 | One block is evicted exactly when the tower is longer than the window. Blocks keep everything but y. When the rest fits the window, the bottom block rests on the floor. |
| Tower.ScaledBlock | script.js:127-133 | A rescale changes a block's y only. |
| Tower.Rescaled | script.js:127-129 | A rescale keeps the tower's length and every block's x, width, height and colour. |
| Tower.ShiftKeepsGaps | script.js:341-356 | When the rest fits the window, the shift preserves the y-difference of every pair of blocks. |
| Tower.RescaleShrinks | script.js:124-133 | Every gap between blocks is scaled by the factor. A factor below one moves a block on the canvas towards the top edge, never past it. |
| Tower.StackedPush | script.js:244-313 | A block placed one row above the top keeps the tower stacked one block per row. |
| Tower.ShiftKeepsStacked | script.js:334-358 | A stacked tower that fits the window ends with block k exactly k+1 rows above the floor. |
| Tower.PlacedTowerStaysStacked | script.js:313-358 | After a hit on a stacked tower that fits the window, the shifted tower again fits the window, is stacked, and rests on the floor. |
| Play.Loaded | script.js:141-163 | The state after page load is steady and inactive. The canvas is laid out, the tower is the base block alone, the score is 0 at level 1, and the stored high score is kept. |
| Play.Ended | script.js:428-451 | The session is inactive and nothing but the high score changes. The high score becomes the larger of the score and the old high score. |
| Play.ResizeKeepsValid | script.js:103-134 | A resize keeps the invariant and moves blocks only vertically. It changes the tower only during a session, by a factor strictly between 0 and 1. |
| Play.StartedSteady | script.js:184-223 | Starting from any valid state gives a steady active session: score 0, level 1, speed 0.6, the high score kept, and a tower of just the base block. The first block is one row above the base, one tick after entering at the left edge. Only the old debris carries over, ticked once. |
| Play.FrameKeepsSteady | script.js:414-425 | A frame keeps the invariant and the steady shape, and does nothing outside a session. Afterwards a moving block no wider than the canvas is on the canvas. |
| Play.ShiftedDownKeepsWidths | script.js:334-362 | After the shift and spawn, no block has zero width. The next block is as wide as the new top and one row above it. |
| Play.PlacedKeepsValid | script.js:313-330 | Placing a block of positive width keeps the invariant. This includes the score staying below 45 while active, with level and speed following the score. |
| Play.PlacedKeepsSteady | script.js:313-330 | Placing a block one row above the top of a steady session keeps the steady shape. |
| Play.DropKeepsSteady | script.js:272-331 | A drop keeps the invariant, and keeps the steady shape. |
| Play.DropScores | script.js:273-327 | Outside a session a drop changes nothing. During one, it scores exactly when the overlap is positive. A miss is `Ended` with the score unchanged. The session ends exactly on a miss or when the score reaches 45. The high score never falls. |
| Play.DropPlaces | script.js:301-330 | On a hit, the offcut joins the debris and the trimmed block becomes the top. On victory the block is pushed as it is and no block is moving; otherwise the tower is shifted. |
| Play.LevelMatchesScore | script.js:317-410 | In every valid state the level and speed follow the score alone: 1 and 0.6 up to 14, 2 and 0.69 from 15, 3 and 0.78 from 30, never above the speed cap. |
| Play.KeyKeepsSteady | script.js:462-469 | A key press keeps the invariant and the steady shape and never lowers the high score. Keys other than Space are ignored. |
| Play.ClickKeepsSteady | script.js:471-475 | A canvas click keeps the invariant and the steady shape, never lowers the high score, and does nothing outside a session. |
| Play.Step | script.js:169-174 | Every event the page listens for keeps the invariant and never lowers the high score. Every event but a resize keeps the steady shape. |
| Play.Run | script.js:169-174 | Any sequence of events keeps the invariant and never lowers the high score. |
| Play.RunWithoutResizeStaysSteady | script.js:169-174 | Without a resize, the tower keeps its steady shape through any sequence of events. |
| StackOn.Game.constructor | script.js:141-163 | The fields equal `Loaded` of the container width, viewport height, stored high score and hue. The invariant and the steady shape hold. |
| StackOn.Game.Resize | script.js:103-134 | The new state is `Resized` of the old one. The invariant is kept. |
| StackOn.Game.ScaleBlocks | script.js:127-129 | The in-place loop leaves the tower equal to `Rescaled`. |
| StackOn.Game.StartGame | script.js:184-223 | The new state is `Started` of the old one. From a valid state it is valid and steady. |
| StackOn.Game.SpawnNewBlock | script.js:226-252 | The new state is `WithNextBlock` of the old one. |
| StackOn.Game.UpdateBlockPosition | script.js:255-269 | The new state is `Advance` of the old one. |
| StackOn.Game.DropBlock | script.js:272-331 | The new state is `Dropped` of the old one. |
| StackOn.Game.ShedOverhangs | script.js:305-310 | The debris gains exactly the offcuts of `Resolve`. |
| StackOn.Game.PlaceBlock | script.js:313-330 | The new state is `Placed` of the old one. |
| StackOn.Game.ShiftTowerDown | script.js:334-362 | The new state is `ShiftedDown` of the old one. |
| StackOn.Game.LowerBlocks | script.js:342-356 | The in-place loop lowers exactly the blocks from `start` on by `amount`. |
| StackOn.Game.AddFallingBlock | script.js:365-378 | The debris gains exactly `NewFallingBlock` at its end. |
| StackOn.Game.UpdateFallingBlocks | script.js:381-397 | The backward loop with `splice` leaves the debris equal to `TickDebris`. |
| StackOn.Game.CheckLevelProgression | script.js:400-410 | The new state is `Leveled` of the old one. |
| StackOn.Game.Tick | script.js:414-425 | The new state is `Frame` of the old one. The invariant and the steady shape are kept. |
| StackOn.Game.GameOver | script.js:428-434 | The new state is `Ended` of the old one. |
| StackOn.Game.Victory | script.js:445-451 | The new state is `Ended` of the old one. |
| StackOn.Game.HandleKeyDown | script.js:462-469 | The new state is `KeyPressed` of the old one. The invariant and the steady shape are kept. |
| StackOn.Game.HandleCanvasClick | script.js:471-475 | The new state is `Clicked` of the old one. The invariant and the steady shape are kept. |

## Left out

- Drawing is left out: `drawBlock`, `drawFallingBlocks` and `drawTower`, and the `drawTower` calls in `resizeCanvas`, `init` and `gameLoop`. They only render.
- DOM updates are left out: score, level and high-score text, screen visibility and instruction opacity. They are presentation only.
- `localStorage` is left out. The stored high score is a constructor parameter and is treated as a number. The string the script actually reads, and its comparison with the numeric score, are not modelled.
- Scheduling by `requestAnimationFrame` and `cancelAnimationFrame` is left out. A frame is one call of `Tick`, and a sequence of frames and input events is `Play.Run`.
- `Math.random` is left out. The hue (`getRandomColor`) and the debris spin magnitude are parameters, and the class methods require the spin to be in [0, 0.1).
- The container width and viewport height that `resizeCanvas` reads from the page are parameters.
- IEEE floating point is left out. Positions and speeds are exact reals, so `0.6 * 1.15` is exactly 0.69 and the `!==` test in `shiftTowerDown` is exact.
- `createBlock` is left out. It is folded into the `Block` constructor.
- `canvas` and `ctx` are left out. Before the first layout, `canvasWidth` and `canvasHeight` are `undefined` in the script; the model starts them at 0, and `init` overwrites them at once.
- Aliasing of block objects is not modelled. Blocks are values in sequences. The script never shares a block object between `currentBlock` and the tower, because it nulls `currentBlock` right after pushing it.
- Play.Steady is not kept by a resize during a session. A mid-session resize moves the canvas floor and can shrink the window without evicting blocks, so the tower can stop resting on the floor or exceed the window. Only `Valid` is proved across a resize, and `RunWithoutResizeStaysSteady` assumes no resizes.
- StackOn.Game.ShedOverhangs and StackOn.Game.PlaceBlock split `dropBlock` at line 310. They are not functions of the script; they keep each proof small.
- A resize with an empty tower during a session does not occur in the script. There, the scale factor would be `h / 0`, which is Infinity, so nothing is scaled. The model takes the no-scale branch explicitly.
- After `startGame` the first block is not at x = 0. `startGame` runs one frame synchronously (line 222), so the block has already moved one step (1.8 pixels when there is room). `Play.StartedSteady` states this.
