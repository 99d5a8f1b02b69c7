/** The game session as a value: the globals of the page, and one function
    per function of the script that changes them. The class in module
    StackOn updates its fields in place and is specified by these functions;
    the lemmas here state what every step keeps. */
module Play {
  import opened Blocks
  import opened Layout
  import opened Tower
  import opened Motion
  import opened Falling
  import opened Drop
  import opened Progression

  /** The globals that the game logic reads and writes. */
  datatype Session = Session(
    canvasWidth: real,
    canvasHeight: real,
    maxVisibleBlocks: int,
    blocks: seq<Block>,
    currentBlock: Option<Block>,
    gameActive: bool,
    score: nat,
    highScore: int,
    gameSpeed: real,
    direction: Direction,
    level: int,
    startFromLeft: bool,
    fallingBlocks: seq<FallingBlock>)

  /** The tower's top block, which the moving block is dropped onto. */
  function Top(s: Session): Block
    requires |s.blocks| >= 1
  {
    s.blocks[|s.blocks| - 1]
  }

  /** What holds between any two events: the window keeps at least one
      block, the tower is never empty and has no block of zero width, the
      debris never moves up, a moving block is exactly as wide as the top,
      an active session always has a moving block, the score never passes
      the victory score and is below it while a session runs, and level and
      speed are those that the score has reached one hit at a time. */
  ghost predicate Valid(s: Session)
  {
    && 1 <= s.maxVisibleBlocks
    && |s.blocks| >= 1
    && (forall k :: 0 <= k < |s.blocks| ==> s.blocks[k].width > 0.0)
    && NonRising(s.fallingBlocks)
    && (s.currentBlock.Some? ==> s.currentBlock.value.width == Top(s).width)
    && (s.gameActive ==> s.currentBlock.Some?)
    && s.score <= VICTORY_THRESHOLD
    && (s.gameActive ==> s.score < VICTORY_THRESHOLD)
    && (s.level, s.gameSpeed) == LevelAfter(s.score)
  }

  /** The shape of an active session that no resize has disturbed: the
      tower fits the visible window, rests on the canvas floor with one
      block per row, and the moving block travels one row above its top. */
  ghost predicate Steady(s: Session)
  {
    && Valid(s)
    && (s.gameActive ==>
          && |s.blocks| <= s.maxVisibleBlocks
          && Stacked(s.blocks)
          && s.blocks[0].y == s.canvasHeight - BLOCK_HEIGHT
          && s.currentBlock.value.y == Top(s).y - BLOCK_HEIGHT)
  }

  /** resizeCanvas: the canvas takes the container width and the height
      chosen for it, the window is recomputed, and during a session a tower
      too tall for the canvas is squeezed towards the top edge together with
      the moving block. With an empty tower the factor is infinite in the
      script, so nothing is scaled. */
  function Resized(s: Session, containerWidth: real, viewportHeight: real): (r: Session)
  {
    var h := CanvasHeight(containerWidth, viewportHeight);
    var t := s.(canvasWidth := containerWidth, canvasHeight := h, maxVisibleBlocks := MaxVisibleBlocks(h));
    if t.gameActive && |t.blocks| >= 1 && ScaleFactor(h, |t.blocks|) < 1.0 then
      var factor := ScaleFactor(h, |t.blocks|);
      t.(blocks := Rescaled(t.blocks, factor),
         currentBlock := if t.currentBlock.Some? then Some(ScaledBlock(t.currentBlock.value, factor)) else None)
    else
      t
  }

  /** The globals as the script declares them, before the page has loaded. */
  const Declared: Session :=
    Session(0.0, 0.0, 8, [], None, false, 0, 0, INITIAL_SPEED, 1, 1, true, [])

  /** init: the stored high score, the first layout, and the base block,
      which is shown before any session starts. */
  function Loaded(containerWidth: real, viewportHeight: real, storedHighScore: int, hue: Hue): (r: Session)
    ensures Steady(r) && !r.gameActive
    ensures r.canvasWidth == containerWidth && r.canvasHeight == CanvasHeight(containerWidth, viewportHeight)
    ensures r.maxVisibleBlocks == MaxVisibleBlocks(r.canvasHeight)
    ensures r.blocks == [BaseBlock(r.canvasWidth, r.canvasHeight, hue)] && r.currentBlock == None
    ensures r.score == 0 && r.highScore == storedHighScore && r.fallingBlocks == []
    ensures r.level == 1 && r.gameSpeed == INITIAL_SPEED && r.startFromLeft
  {
    var laidOut := Resized(Declared.(highScore := storedHighScore), containerWidth, viewportHeight);
    laidOut.(startFromLeft := true, blocks := laidOut.blocks + [BaseBlock(laidOut.canvasWidth, laidOut.canvasHeight, hue)])
  }

  /** spawnNewBlock: the next block enters one row above the top, at the
      edge chosen by `startFromLeft`, which then flips. */
  function WithNextBlock(s: Session, hue: Hue): (r: Session)
    requires |s.blocks| >= 1
  {
    var spawned := Spawned(Top(s), s.startFromLeft, s.canvasWidth, hue);
    s.(startFromLeft := !s.startFromLeft, currentBlock := Some(spawned.0), direction := spawned.1)
  }

  /** updateBlockPosition: one tick of horizontal motion with edge clamping. */
  function Advance(s: Session): (r: Session)
  {
    if s.currentBlock.None? then s
    else
      var b := s.currentBlock.value;
      var moved := Oscillated(b.x, b.width, s.direction, s.gameSpeed, s.canvasWidth);
      s.(currentBlock := Some(b.(x := moved.0)), direction := moved.1)
  }

  /** updateFallingBlocks: every piece falls one tick and those below the canvas go. */
  function DebrisTicked(s: Session): (r: Session)
  {
    s.(fallingBlocks := TickDebris(s.fallingBlocks, s.canvasHeight))
  }

  /** gameLoop: one frame of an active session, debris first, then the moving block. */
  function Frame(s: Session): (r: Session)
  {
    if !s.gameActive then s else Advance(DebrisTicked(s))
  }

  /** startGame: a fresh tower, score, level and speed; the first block
      enters from the left; then the first frame runs at once. Debris of
      the previous session is not cleared. */
  function Started(s: Session, baseHue: Hue, hue: Hue): (r: Session)
  {
    Frame(WithNextBlock(Reset(s, baseHue), hue))
  }

  /** The first part of startGame: the state is reset and the base block placed. */
  function Reset(s: Session, baseHue: Hue): (r: Session)
  {
    var reset := s.(blocks := [], score := 0, level := 1, gameSpeed := INITIAL_SPEED,
                    gameActive := true, startFromLeft := true);
    reset.(blocks := reset.blocks + [BaseBlock(reset.canvasWidth, reset.canvasHeight, baseHue)])
  }

  /** gameOver and victory: the session ends and the high score keeps the larger value. */
  function Ended(s: Session): (r: Session)
    ensures !r.gameActive && r == s.(gameActive := false, highScore := r.highScore)
    ensures r.highScore >= s.score && r.highScore >= s.highScore
    ensures r.highScore == s.score || r.highScore == s.highScore
  {
    s.(gameActive := false, highScore := if s.score > s.highScore then s.score else s.highScore)
  }

  /** checkLevelProgression: level and speed for the current score. */
  function Leveled(s: Session): (r: Session)
  {
    var p := Progressed(s.score, s.level, s.gameSpeed);
    s.(level := p.0, gameSpeed := p.1)
  }

  /** shiftTowerDown: evict, lower and re-anchor the tower, then spawn. */
  function ShiftedDown(s: Session, hue: Hue): (r: Session)
    requires 1 <= s.maxVisibleBlocks && |s.blocks| >= 1
  {
    WithNextBlock(s.(blocks := ShiftedTower(s.blocks, s.maxVisibleBlocks, s.canvasHeight)), hue)
  }

  /** dropBlock: nothing happens without a moving block or an active
      session; a drop that overlaps nothing ends the session; otherwise the
      trimmed block joins the tower, the cut-off piece starts falling, the
      score rises and the level is checked, and then the session is won at
      the victory score, or the tower shifts and the next block spawns. */
  function Dropped(s: Session, leftSpin: real, rightSpin: real, hue: Hue): (r: Session)
    requires 1 <= s.maxVisibleBlocks && |s.blocks| >= 1
  {
    if s.currentBlock.None? || !s.gameActive then s
    else
      match Resolve(s.currentBlock.value, Top(s), leftSpin, rightSpin)
      case Miss => Ended(s)
      case Hit(kept, offcuts) => Placed(s.(fallingBlocks := s.fallingBlocks + offcuts), kept, hue)
  }

  /** The rest of dropBlock once the block is trimmed and its offcut sheds:
      it joins the tower, the score rises, the level is checked, and then
      the session is won, or the tower shifts and the next block spawns. */
  function Placed(s: Session, kept: Block, hue: Hue): (r: Session)
    requires 1 <= s.maxVisibleBlocks
  {
    var leveled := Leveled(s.(blocks := s.blocks + [kept], currentBlock := None, score := s.score + 1));
    if leveled.score >= VICTORY_THRESHOLD then Ended(leveled) else ShiftedDown(leveled, hue)
  }

  /** handleKeyDown: Space drops the block during a session and starts a
      new session otherwise; other keys are ignored. */
  function KeyPressed(s: Session, code: string, leftSpin: real, rightSpin: real, baseHue: Hue, hue: Hue): (r: Session)
    requires 1 <= s.maxVisibleBlocks && |s.blocks| >= 1
  {
    if code != "Space" then s
    else if s.gameActive then Dropped(s, leftSpin, rightSpin, hue)
    else Started(s, baseHue, hue)
  }

  /** handleCanvasClick: a click drops the block during a session only. */
  function Clicked(s: Session, leftSpin: real, rightSpin: real, hue: Hue): (r: Session)
    requires 1 <= s.maxVisibleBlocks && |s.blocks| >= 1
  {
    if s.gameActive then Dropped(s, leftSpin, rightSpin, hue) else s
  }

  /** A resize keeps the session invariant; it moves tower blocks and the
      moving block only vertically, and it changes the tower only during a
      session, by a factor below one (see RescaleShrinks for what that does
      to the gaps between blocks). */
  lemma ResizeKeepsValid(s: Session, containerWidth: real, viewportHeight: real)
    requires Valid(s)
    ensures var r := Resized(s, containerWidth, viewportHeight);
            && Valid(r)
            && |r.blocks| == |s.blocks|
            && (forall k :: 0 <= k < |r.blocks| ==> r.blocks[k] == s.blocks[k].(y := r.blocks[k].y))
            && r.currentBlock.Some? == s.currentBlock.Some?
            && (r.currentBlock.Some? ==> r.currentBlock.value == s.currentBlock.value.(y := r.currentBlock.value.y))
    ensures var r := Resized(s, containerWidth, viewportHeight);
            r.blocks != s.blocks ==>
              && s.gameActive
              && var factor := ScaleFactor(r.canvasHeight, |s.blocks|);
                 && 0.0 < factor < 1.0
                 && r.blocks == Rescaled(s.blocks, factor)
  {
    var h := CanvasHeight(containerWidth, viewportHeight);
    var r := Resized(s, containerWidth, viewportHeight);
    if s.gameActive && ScaleFactor(h, |s.blocks|) < 1.0 {
      var factor := ScaleFactor(h, |s.blocks|);
      assert r.blocks == Rescaled(s.blocks, factor);
    } else {
      assert r == s.(canvasWidth := containerWidth, canvasHeight := h, maxVisibleBlocks := MaxVisibleBlocks(h));
    }
  }

  /** startGame from any valid state yields a steady, running session: score
      0 at level 1, a tower of just the base block on the floor, and the
      first block one row above it, one tick after entering at the left
      edge. Only the debris of an earlier session is carried over. */
  lemma StartedSteady(s: Session, baseHue: Hue, hue: Hue)
    requires Valid(s)
    ensures var r := Started(s, baseHue, hue);
            && Steady(r)
            && r.gameActive && r.score == 0 && r.level == 1 && r.gameSpeed == INITIAL_SPEED
            && r.highScore == s.highScore && !r.startFromLeft
            && r.blocks == [BaseBlock(s.canvasWidth, s.canvasHeight, baseHue)]
            && r.fallingBlocks == TickDebris(s.fallingBlocks, s.canvasHeight)
            && r.currentBlock.Some?
            && r.currentBlock.value.y == s.canvasHeight - 2.0 * BLOCK_HEIGHT
            && (r.currentBlock.value.x, r.direction) == Oscillated(0.0, r.blocks[0].width, 1, INITIAL_SPEED, s.canvasWidth)
  {
    TickDebrisOnScreen(s.fallingBlocks, s.canvasHeight);
  }

  /** A frame keeps the invariant and the steady shape; it changes nothing
      outside a session, and a moving block no wider than the canvas is on
      the canvas after it. */
  lemma FrameKeepsSteady(s: Session)
    requires Valid(s)
    ensures var r := Frame(s);
            && Valid(r)
            && (Steady(s) ==> Steady(r))
            && (!s.gameActive ==> r == s)
            && (r.gameActive && r.currentBlock.value.width <= r.canvasWidth ==>
                  0.0 <= r.currentBlock.value.x && r.currentBlock.value.x + r.currentBlock.value.width <= r.canvasWidth)
  {
    TickDebrisOnScreen(s.fallingBlocks, s.canvasHeight);
  }

  /** Shifting the tower keeps every block's width, so a tower without
      zero-width blocks stays so, and the next block is as wide as the new top. */
  lemma ShiftedDownKeepsWidths(s: Session, hue: Hue)
    requires 1 <= s.maxVisibleBlocks && |s.blocks| >= 1
    requires forall k :: 0 <= k < |s.blocks| ==> s.blocks[k].width > 0.0
    ensures var r := ShiftedDown(s, hue);
            && |r.blocks| >= 1
            && (forall k :: 0 <= k < |r.blocks| ==> r.blocks[k].width > 0.0)
            && r.currentBlock.Some? && r.currentBlock.value.width == Top(r).width
            && r.currentBlock.value.y == Top(r).y - BLOCK_HEIGHT
  {
    var r := ShiftedDown(s, hue);
    var rest := Remaining(s.blocks, s.maxVisibleBlocks);
    forall k | 0 <= k < |r.blocks| ensures r.blocks[k].width > 0.0 {
      assert r.blocks[k].width == rest[k].width;
      if |s.blocks| > s.maxVisibleBlocks {
        assert rest[k] == s.blocks[k + 1];
      }
    }
  }

  /** Placing a block of positive width keeps the invariant, and placing it
      one row above the top of a steady session keeps the steady shape. */
  lemma PlacedKeepsValid(s: Session, kept: Block, hue: Hue)
    requires Valid(s) && s.gameActive
    requires kept.width > 0.0
    ensures Valid(Placed(s, kept, hue))
  {
    var leveled := Leveled(s.(blocks := s.blocks + [kept], currentBlock := None, score := s.score + 1));
    assert (leveled.level, leveled.gameSpeed) == LevelAfter(leveled.score);
    if leveled.score < VICTORY_THRESHOLD {
      ShiftedDownKeepsWidths(leveled, hue);
    }
  }

  lemma PlacedKeepsSteady(s: Session, kept: Block, hue: Hue)
    requires Steady(s) && s.gameActive
    requires kept.width > 0.0 && kept.y == Top(s).y - BLOCK_HEIGHT
    ensures Steady(Placed(s, kept, hue))
  {
    PlacedKeepsValid(s, kept, hue);
    var leveled := Leveled(s.(blocks := s.blocks + [kept], currentBlock := None, score := s.score + 1));
    if leveled.score < VICTORY_THRESHOLD {
      ShiftedDownKeepsWidths(leveled, hue);
      PlacedTowerStaysStacked(s.blocks, kept, s.maxVisibleBlocks, s.canvasHeight);
    }
  }

  /** A drop keeps the invariant and the steady shape. */
  lemma DropKeepsSteady(s: Session, leftSpin: real, rightSpin: real, hue: Hue)
    requires Valid(s)
    ensures Valid(Dropped(s, leftSpin, rightSpin, hue))
    ensures Steady(s) ==> Steady(Dropped(s, leftSpin, rightSpin, hue))
  {
    if s.currentBlock.Some? && s.gameActive {
      var cur := s.currentBlock.value;
      match Resolve(cur, Top(s), leftSpin, rightSpin)
      case Miss =>
      case Hit(kept, offcuts) =>
        var shed := s.(fallingBlocks := s.fallingBlocks + offcuts);
        assert Valid(shed);
        PlacedKeepsValid(shed, kept, hue);
        if Steady(s) {
          assert Steady(shed) && kept.y == cur.y;
          PlacedKeepsSteady(shed, kept, hue);
        }
    }
  }

  /** What a drop does to the score and to the session: outside a session
      nothing; during one, it scores exactly when the block overlaps the
      top; a miss ends the session with the score unchanged; a hit ends it
      exactly when the victory score is reached. The high score never falls. */
  lemma DropScores(s: Session, leftSpin: real, rightSpin: real, hue: Hue)
    requires Valid(s)
    ensures !s.gameActive ==> Dropped(s, leftSpin, rightSpin, hue) == s
    ensures s.gameActive ==>
            var r := Dropped(s, leftSpin, rightSpin, hue);
            var cur := s.currentBlock.value;
            && r.highScore >= s.highScore
            && (r.score == s.score + 1 <==> OverlapWidth(cur, Top(s)) > 0.0)
            && (OverlapWidth(cur, Top(s)) <= 0.0 ==> r == Ended(s))
            && (!r.gameActive <==> OverlapWidth(cur, Top(s)) <= 0.0 || s.score + 1 == VICTORY_THRESHOLD)
  {
    if s.gameActive {
      match Resolve(s.currentBlock.value, Top(s), leftSpin, rightSpin)
      case Miss =>
      case Hit(kept, offcuts) =>
        assert Dropped(s, leftSpin, rightSpin, hue) == Placed(s.(fallingBlocks := s.fallingBlocks + offcuts), kept, hue);
    }
  }

  /** What a hit does to the tower: the offcut joins the debris and the
      trimmed block becomes the top, pushed as it is on victory, and shifted
      with the rest of the tower otherwise. */
  lemma DropPlaces(s: Session, leftSpin: real, rightSpin: real, hue: Hue)
    requires Valid(s) && s.gameActive
    ensures var r := Dropped(s, leftSpin, rightSpin, hue);
            var outcome := Resolve(s.currentBlock.value, Top(s), leftSpin, rightSpin);
            outcome.Hit? ==>
              && r.fallingBlocks == s.fallingBlocks + outcome.offcuts
              && |r.blocks| >= 1
              && Top(r) == outcome.kept.(y := Top(r).y)
              && (!r.gameActive ==> r.blocks == s.blocks + [outcome.kept] && r.currentBlock == None)
              && (r.gameActive ==> r.blocks == ShiftedTower(s.blocks + [outcome.kept], s.maxVisibleBlocks, s.canvasHeight))
  {
    match Resolve(s.currentBlock.value, Top(s), leftSpin, rightSpin)
    case Miss =>
    case Hit(kept, offcuts) =>
      var r := Dropped(s, leftSpin, rightSpin, hue);
      assert r == Placed(s.(fallingBlocks := s.fallingBlocks + offcuts), kept, hue);
      var rest := Remaining(s.blocks + [kept], s.maxVisibleBlocks);
      if r.gameActive {
        assert rest[|rest| - 1] == kept;
      }
  }

  /** The level shown during any valid session follows the score alone:
      level 1 up to 14 points, level 2 from 15 and level 3 from 30, each
      with its own speed, which never exceeds the speed cap. */
  lemma LevelMatchesScore(s: Session)
    requires Valid(s)
    ensures s.level == (if s.score < LEVEL_2_THRESHOLD then 1 else if s.score < LEVEL_3_THRESHOLD then 2 else 3)
    ensures s.gameSpeed == (if s.score < LEVEL_2_THRESHOLD then 0.6 else if s.score < LEVEL_3_THRESHOLD then 0.69 else 0.78)
    ensures s.gameSpeed <= MAX_GAME_SPEED
  {
    LevelSchedule(s.score);
  }

  /** A key press keeps the invariant and the steady shape and never lowers
      the high score; any key but Space is ignored. */
  lemma KeyKeepsSteady(s: Session, code: string, leftSpin: real, rightSpin: real, baseHue: Hue, hue: Hue)
    requires Valid(s)
    ensures var r := KeyPressed(s, code, leftSpin, rightSpin, baseHue, hue);
            && Valid(r) && (Steady(s) ==> Steady(r))
            && r.highScore >= s.highScore
            && (code != "Space" ==> r == s)
  {
    if code == "Space" {
      if s.gameActive {
        DropKeepsSteady(s, leftSpin, rightSpin, hue);
        DropScores(s, leftSpin, rightSpin, hue);
      } else {
        StartedSteady(s, baseHue, hue);
      }
    }
  }

  /** A click on the canvas keeps the invariant and the steady shape, never
      lowers the high score, and does nothing outside a session. */
  lemma ClickKeepsSteady(s: Session, leftSpin: real, rightSpin: real, hue: Hue)
    requires Valid(s)
    ensures var r := Clicked(s, leftSpin, rightSpin, hue);
            && Valid(r) && (Steady(s) ==> Steady(r))
            && r.highScore >= s.highScore
            && (!s.gameActive ==> r == s)
  {
    if s.gameActive {
      DropKeepsSteady(s, leftSpin, rightSpin, hue);
      DropScores(s, leftSpin, rightSpin, hue);
    }
  }

  /** An event the page reacts to: a window resize, a key press, a click on
      the canvas, a click on the start, restart or play-again button, or an
      animation frame of the running session. */
  datatype Event =
    | Resize(containerWidth: real, viewportHeight: real)
    | KeyDown(code: string, leftSpin: real, rightSpin: real, baseHue: Hue, hue: Hue)
    | CanvasClick(leftSpin: real, rightSpin: real, hue: Hue)
    | ButtonClick(baseHue: Hue, hue: Hue)
    | AnimationFrame

  /** The session after one event. Every event keeps the invariant and never
      lowers the high score, and every event but a resize keeps the steady
      shape. */
  function Step(s: Session, e: Event): (r: Session)
    requires Valid(s)
    ensures Valid(r)
    ensures r.highScore >= s.highScore
    ensures !e.Resize? && Steady(s) ==> Steady(r)
  {
    match e
    case Resize(w, h) =>
      ResizeKeepsValid(s, w, h);
      Resized(s, w, h)
    case KeyDown(code, ls, rs, baseHue, hue) =>
      KeyKeepsSteady(s, code, ls, rs, baseHue, hue);
      KeyPressed(s, code, ls, rs, baseHue, hue)
    case CanvasClick(ls, rs, hue) =>
      ClickKeepsSteady(s, ls, rs, hue);
      Clicked(s, ls, rs, hue)
    case ButtonClick(baseHue, hue) =>
      StartedSteady(s, baseHue, hue);
      Started(s, baseHue, hue)
    case AnimationFrame =>
      FrameKeepsSteady(s);
      Frame(s)
  }

  /** The session after a sequence of events, in order. */
  function Run(s: Session, events: seq<Event>): (r: Session)
    requires Valid(s)
    ensures Valid(r)
    ensures r.highScore >= s.highScore
    decreases |events|
  {
    if events == [] then s else Run(Step(s, events[0]), events[1..])
  }

  /** From page load, whatever the player does, the invariant holds and the
      stored high score is never lowered; as long as the window is not
      resized, the tower keeps its steady shape. */
  lemma {:induction false} RunWithoutResizeStaysSteady(s: Session, events: seq<Event>)
    requires Steady(s)
    requires forall k :: 0 <= k < |events| ==> !events[k].Resize?
    ensures Steady(Run(s, events))
    decreases |events|
  {
    if events != [] {
      RunWithoutResizeStaysSteady(Step(s, events[0]), events[1..]);
    }
  }
}
