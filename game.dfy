/** The game session: the global state of the page and the functions that
    update it in place, one method per function of the script. Drawing, the
    DOM, storage and frame scheduling are outside this model. */
module StackOn {
  import opened Blocks
  import opened Layout
  import opened Tower
  import opened Motion
  import opened Falling
  import opened Drop
  import opened Progression
  import opened Play

  class Game {
    var canvasWidth: real
    var canvasHeight: real
    var maxVisibleBlocks: int
    var blocks: seq<Block>
    var currentBlock: Option<Block>
    var gameActive: bool
    var score: nat
    var highScore: int
    var gameSpeed: real
    var direction: Direction
    var level: int
    var startFromLeft: bool
    var fallingBlocks: seq<FallingBlock>

    /** The globals as one value, the state that the functions of module
        Play speak about. */
    function Snapshot(): Session
      reads this
    {
      Session(canvasWidth, canvasHeight, maxVisibleBlocks, blocks, currentBlock, gameActive,
              score, highScore, gameSpeed, direction, level, startFromLeft, fallingBlocks)
    }

    /** The session invariant, on the fields. */
    ghost predicate Valid()
      reads this
    {
      Play.Valid(Snapshot())
    }

    /** The steady tower shape, on the fields. */
    ghost predicate Steady()
      reads this
    {
      Play.Steady(Snapshot())
    }

    /** Page load: the globals take their declared values, then init reads
        the stored high score, lays out the canvas and places the base block,
        which is shown before any session starts. */
    constructor (containerWidth: real, viewportHeight: real, storedHighScore: int, hue: Hue)
      ensures Snapshot() == Loaded(containerWidth, viewportHeight, storedHighScore, hue)
      ensures Valid() && Steady()
    {
      canvasWidth := 0.0;
      canvasHeight := 0.0;
      maxVisibleBlocks := 8;
      blocks := [];
      currentBlock := None;
      gameActive := false;
      score := 0;
      highScore := 0;
      gameSpeed := INITIAL_SPEED;
      direction := 1;
      level := 1;
      startFromLeft := true;
      fallingBlocks := [];
      new;
      highScore := storedHighScore;
      Resize(containerWidth, viewportHeight);
      startFromLeft := true;
      blocks := blocks + [BaseBlock(canvasWidth, canvasHeight, hue)];
    }

    /** resizeCanvas, given the container width and the viewport height. */
    method Resize(containerWidth: real, viewportHeight: real)
      modifies this`canvasWidth, this`canvasHeight, this`maxVisibleBlocks, this`blocks, this`currentBlock
      ensures Snapshot() == Resized(old(Snapshot()), containerWidth, viewportHeight)
      ensures old(Valid()) ==> Valid()
    {
      ghost var before := Snapshot();
      canvasWidth := containerWidth;
      canvasHeight := CanvasHeight(containerWidth, viewportHeight);
      maxVisibleBlocks := MaxVisibleBlocks(canvasHeight);
      assert Snapshot() == old(Snapshot()).(canvasWidth := canvasWidth, canvasHeight := canvasHeight,
                                            maxVisibleBlocks := maxVisibleBlocks);
      // The script divides by zero on an empty tower; the infinite factor scales nothing.
      if gameActive && |blocks| >= 1 {
        var scaleY := ScaleFactor(canvasHeight, |blocks|);
        if scaleY < 1.0 {
          ScaleBlocks(scaleY);
          if currentBlock.Some? {
            currentBlock := Some(ScaledBlock(currentBlock.value, scaleY));
          }
        }
      }
      if Play.Valid(before) {
        ResizeKeepsValid(before, containerWidth, viewportHeight);
      }
    }

    /** `blocks.forEach(block => { block.y *= factor; })` */
    method ScaleBlocks(factor: real)
      modifies this`blocks
      ensures blocks == Rescaled(old(blocks), factor)
    {
      var i := 0;
      while i < |blocks|
        invariant 0 <= i <= |blocks| == |old(blocks)|
        invariant forall k :: 0 <= k < i ==> blocks[k] == ScaledBlock(old(blocks)[k], factor)
        invariant forall k :: i <= k < |blocks| ==> blocks[k] == old(blocks)[k]
      {
        blocks := blocks[i := ScaledBlock(blocks[i], factor)];
        i := i + 1;
      }
      ghost var target := Rescaled(old(blocks), factor);
      assert |target| == |blocks|;
      forall k | 0 <= k < |blocks| ensures blocks[k] == target[k] {
        assert target[k] == ScaledBlock(old(blocks)[k], factor);
      }
      assert blocks == target;
    }

    /** startGame: a fresh tower, score, level and speed; the first block
        enters from the left; then the first frame runs at once. */
    method StartGame(baseHue: Hue, hue: Hue)
      modifies this`blocks, this`score, this`level, this`gameSpeed, this`gameActive, this`startFromLeft
      modifies this`currentBlock, this`direction, this`fallingBlocks
      ensures Snapshot() == Started(old(Snapshot()), baseHue, hue)
      ensures old(Valid()) ==> Valid() && Steady()
    {
      ghost var before := Snapshot();
      blocks := [];
      score := 0;
      level := 1;
      gameSpeed := INITIAL_SPEED;
      gameActive := true;
      startFromLeft := true;
      blocks := blocks + [BaseBlock(canvasWidth, canvasHeight, baseHue)];
      assert Snapshot() == Reset(old(Snapshot()), baseHue);
      SpawnNewBlock(hue);
      Tick();
      if Play.Valid(before) {
        StartedSteady(before, baseHue, hue);
      }
    }

    /** spawnNewBlock: the next block enters one row above the top. */
    method SpawnNewBlock(hue: Hue)
      requires |blocks| >= 1
      modifies this`currentBlock, this`direction, this`startFromLeft
      ensures Snapshot() == WithNextBlock(old(Snapshot()), hue)
    {
      var lastBlock := blocks[|blocks| - 1];
      var startX: real, initialDirection: Direction;
      if startFromLeft {
        startX, initialDirection := 0.0, 1;
      } else {
        startX, initialDirection := canvasWidth - lastBlock.width, -1;
      }
      startFromLeft := !startFromLeft;
      var newBlock := Block(startX, lastBlock.y - BLOCK_HEIGHT, lastBlock.width, BLOCK_HEIGHT, hue);
      currentBlock := Some(newBlock);
      direction := initialDirection;
    }

    /** updateBlockPosition: one tick of horizontal motion with edge clamping. */
    method UpdateBlockPosition()
      modifies this`currentBlock, this`direction
      ensures Snapshot() == Advance(old(Snapshot()))
    {
      if currentBlock.None? {
        return;
      }
      var b := currentBlock.value;
      b := b.(x := Advanced(b.x, direction, gameSpeed));
      if b.x + b.width > canvasWidth {
        b := b.(x := canvasWidth - b.width);
        direction := -1;
      } else if b.x < 0.0 {
        b := b.(x := 0.0);
        direction := 1;
      }
      currentBlock := Some(b);
    }

    /** dropBlock: trims the moving block to its overlap with the top, sheds
        the cut-off piece and places the trimmed block; a drop that overlaps
        nothing ends the session. */
    method DropBlock(leftSpin: real, rightSpin: real, hue: Hue)
      requires 0.0 <= leftSpin < MAX_SPIN && 0.0 <= rightSpin < MAX_SPIN
      requires 1 <= maxVisibleBlocks && |blocks| >= 1
      modifies this`blocks, this`currentBlock, this`fallingBlocks, this`score, this`level, this`gameSpeed
      modifies this`gameActive, this`highScore, this`direction, this`startFromLeft
      ensures Snapshot() == Dropped(old(Snapshot()), leftSpin, rightSpin, hue)
    {
      if currentBlock.None? || !gameActive {
        return;
      }
      var previousBlock := blocks[|blocks| - 1];
      var b := currentBlock.value;

      var leftOverhang := Max(0.0, previousBlock.x - b.x);
      var rightOverhang := Max(0.0, b.x - previousBlock.x);
      var overlapWidth := b.width - leftOverhang - rightOverhang;

      if overlapWidth <= 0.0 {
        GameOver();
        return;
      }

      var originalBlock := b;
      b := b.(width := overlapWidth);
      b := b.(x := Max(b.x, previousBlock.x));

      ShedOverhangs(originalBlock, b, leftOverhang, rightOverhang, leftSpin, rightSpin, previousBlock);
      PlaceBlock(b, hue);
    }

    /** The two overhang checks of dropBlock: each side that overhangs the
        top block sheds a piece, the left one at the dropped block's left
        edge and the right one at the trimmed block's right edge. */
    method ShedOverhangs(originalBlock: Block, b: Block, leftOverhang: real, rightOverhang: real,
                         leftSpin: real, rightSpin: real, ghost previousBlock: Block)
      requires 0.0 <= leftSpin < MAX_SPIN && 0.0 <= rightSpin < MAX_SPIN
      requires leftOverhang == LeftOverhang(originalBlock, previousBlock)
      requires rightOverhang == RightOverhang(originalBlock, previousBlock)
      requires OverlapWidth(originalBlock, previousBlock) > 0.0
      requires b == Resolve(originalBlock, previousBlock, leftSpin, rightSpin).kept
      modifies this`fallingBlocks
      ensures fallingBlocks == old(fallingBlocks) + Resolve(originalBlock, previousBlock, leftSpin, rightSpin).offcuts
    {
      if leftOverhang > 0.0 {
        AddFallingBlock(originalBlock.x, originalBlock.y, leftOverhang, BLOCK_HEIGHT, originalBlock.color, true, leftSpin);
      }
      if rightOverhang > 0.0 {
        AddFallingBlock(b.x + b.width, originalBlock.y, rightOverhang, BLOCK_HEIGHT, originalBlock.color, false, rightSpin);
      }
    }

    /** The rest of dropBlock once the block is trimmed: it joins the tower,
        the score rises, the level is checked, and then the session is won,
        or the tower shifts and the next block spawns. */
    method PlaceBlock(b: Block, hue: Hue)
      requires 1 <= maxVisibleBlocks
      modifies this`blocks, this`currentBlock, this`score, this`level, this`gameSpeed
      modifies this`gameActive, this`highScore, this`direction, this`startFromLeft
      ensures Snapshot() == Placed(old(Snapshot()), b, hue)
    {
      blocks := blocks + [b];
      currentBlock := None;

      score := score + 1;
      ghost var placed := Snapshot();
      assert placed == old(Snapshot()).(blocks := old(blocks) + [b], currentBlock := None, score := old(score) + 1);
      CheckLevelProgression();
      assert Snapshot() == Leveled(placed);

      if score >= VICTORY_THRESHOLD {
        Victory();
        return;
      }

      ShiftTowerDown(hue);
    }

    /** shiftTowerDown: evict the bottom block if the tower exceeds the
        window, move every block down a row, pin the base to the floor, and
        spawn the next block. */
    method ShiftTowerDown(hue: Hue)
      requires 1 <= maxVisibleBlocks && |blocks| >= 1
      modifies this`blocks, this`currentBlock, this`direction, this`startFromLeft
      ensures Snapshot() == ShiftedDown(old(Snapshot()), hue)
    {
      if |blocks| > maxVisibleBlocks {
        blocks := blocks[1..];
      }

      var shiftAmount := BLOCK_HEIGHT;
      LowerBlocks(0, shiftAmount);

      if |blocks| > 0 {
        var bottomBlockY := blocks[0].y;
        var desiredBottomY := canvasHeight - BLOCK_HEIGHT;
        if bottomBlockY != desiredBottomY {
          var adjustment := desiredBottomY - bottomBlockY;
          LowerBlocks(SliceStart(|blocks|, maxVisibleBlocks), adjustment);
        }
      }
      assert blocks == ShiftedTower(old(blocks), maxVisibleBlocks, canvasHeight);
      assert Snapshot() == old(Snapshot()).(blocks := blocks);

      SpawnNewBlock(hue);
    }

    /** `forEach(block => block.y += amount)` over the blocks from index `start`. */
    method LowerBlocks(start: nat, amount: real)
      requires start <= |blocks|
      modifies this`blocks
      ensures blocks == LowerFrom(old(blocks), start, amount)
    {
      var i := start;
      while i < |blocks|
        invariant start <= i <= |blocks| == |old(blocks)|
        invariant forall k :: 0 <= k < |blocks| ==>
                    blocks[k] == if start <= k < i then old(blocks)[k].(y := old(blocks)[k].y + amount) else old(blocks)[k]
      {
        blocks := blocks[i := blocks[i].(y := blocks[i].y + amount)];
        i := i + 1;
      }
    }

    /** addFallingBlock: a new piece at rest, spinning by `spin`, negated for a left piece. */
    method AddFallingBlock(x: real, y: real, width: real, height: real, color: Hue, isLeft: bool, spin: real)
      requires 0.0 <= spin < MAX_SPIN
      modifies this`fallingBlocks
      ensures fallingBlocks == old(fallingBlocks) + [NewFallingBlock(x, y, width, height, color, isLeft, spin)]
    {
      var rotat := spin;
      if isLeft {
        rotat := -rotat;
      }
      fallingBlocks := fallingBlocks + [FallingBlock(x, y, width, height, color, 0.0, rotat)];
    }

    /** updateFallingBlocks: walks the pieces from the last to the first,
        advancing each one tick and splicing out those below the canvas. */
    method UpdateFallingBlocks()
      modifies this`fallingBlocks
      ensures fallingBlocks == TickDebris(old(fallingBlocks), canvasHeight)
    {
      ghost var pieces := fallingBlocks;
      var i := |fallingBlocks| - 1;
      while i >= 0
        invariant -1 <= i < |pieces|
        invariant fallingBlocks == pieces[..i + 1] + TickDebris(pieces[i + 1..], canvasHeight)
      {
        ghost var before := fallingBlocks;
        var block := fallingBlocks[i];
        block := block.(velocity := block.velocity + GRAVITY);
        block := block.(y := block.y + block.velocity);
        if block.rotation < 0.0 {
          block := block.(rotation := block.rotation - SPIN_STEP);
        } else {
          block := block.(rotation := block.rotation + SPIN_STEP);
        }
        fallingBlocks := fallingBlocks[i := block];
        if block.y > canvasHeight {
          fallingBlocks := fallingBlocks[..i] + fallingBlocks[i + 1..];
        }
        assert before[i] == pieces[i];
        TickDebrisStep(pieces, i, canvasHeight, before, fallingBlocks);
        i := i - 1;
      }
      assert pieces[0..] == pieces;
    }

    /** checkLevelProgression: level 2 at score 15, level 3 at score 30. */
    method CheckLevelProgression()
      modifies this`level, this`gameSpeed
      ensures Snapshot() == Leveled(old(Snapshot()))
    {
      if score == LEVEL_2_THRESHOLD {
        level := 2;
        gameSpeed := Min(INITIAL_SPEED * LEVEL_2_SPEED_MULTIPLIER, MAX_GAME_SPEED);
      } else if score == LEVEL_3_THRESHOLD {
        level := 3;
        gameSpeed := Min(INITIAL_SPEED * LEVEL_3_SPEED_MULTIPLIER, MAX_GAME_SPEED);
      }
    }

    /** gameLoop: one frame of an active session, debris first, then the
        moving block. */
    method Tick()
      modifies this`fallingBlocks, this`currentBlock, this`direction
      ensures Snapshot() == Frame(old(Snapshot()))
      ensures old(Valid()) ==> Valid()
      ensures old(Steady()) ==> Steady()
    {
      ghost var before := Snapshot();
      if gameActive {
        UpdateFallingBlocks();
        UpdateBlockPosition();
      }
      if Play.Valid(before) {
        FrameKeepsSteady(before);
      }
    }

    /** gameOver: the session ends and the high score keeps the larger value. */
    method GameOver()
      modifies this`gameActive, this`highScore
      ensures Snapshot() == Ended(old(Snapshot()))
    {
      gameActive := false;
      if score > highScore {
        highScore := score;
      }
    }

    /** victory: the session is won; the high score is updated as on game over. */
    method Victory()
      modifies this`gameActive, this`highScore
      ensures Snapshot() == Ended(old(Snapshot()))
    {
      gameActive := false;
      if score > highScore {
        highScore := score;
      }
    }

    /** handleKeyDown: Space drops the block during a session and starts a
        new session otherwise; other keys are ignored. */
    method HandleKeyDown(code: string, leftSpin: real, rightSpin: real, baseHue: Hue, hue: Hue)
      requires 0.0 <= leftSpin < MAX_SPIN && 0.0 <= rightSpin < MAX_SPIN
      requires 1 <= maxVisibleBlocks && |blocks| >= 1
      modifies this`blocks, this`currentBlock, this`fallingBlocks, this`score, this`level, this`gameSpeed
      modifies this`gameActive, this`highScore, this`direction, this`startFromLeft
      ensures Snapshot() == KeyPressed(old(Snapshot()), code, leftSpin, rightSpin, baseHue, hue)
      ensures old(Valid()) ==> Valid()
      ensures old(Steady()) ==> Steady()
    {
      ghost var before := Snapshot();
      if code == "Space" {
        if gameActive {
          DropBlock(leftSpin, rightSpin, hue);
        } else {
          StartGame(baseHue, hue);
        }
      }
      if Play.Valid(before) {
        KeyKeepsSteady(before, code, leftSpin, rightSpin, baseHue, hue);
      }
    }

    /** handleCanvasClick: a click drops the block during a session only. */
    method HandleCanvasClick(leftSpin: real, rightSpin: real, hue: Hue)
      requires 0.0 <= leftSpin < MAX_SPIN && 0.0 <= rightSpin < MAX_SPIN
      requires 1 <= maxVisibleBlocks && |blocks| >= 1
      modifies this`blocks, this`currentBlock, this`fallingBlocks, this`score, this`level, this`gameSpeed
      modifies this`gameActive, this`highScore, this`direction, this`startFromLeft
      ensures Snapshot() == Clicked(old(Snapshot()), leftSpin, rightSpin, hue)
      ensures old(Valid()) ==> Valid()
      ensures old(Steady()) ==> Steady()
    {
      ghost var before := Snapshot();
      if gameActive {
        DropBlock(leftSpin, rightSpin, hue);
      }
      if Play.Valid(before) {
        ClickKeepsSteady(before, leftSpin, rightSpin, hue);
      }
    }
  }
}
