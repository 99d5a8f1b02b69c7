/** The moving block: where it enters, and how one tick advances it across
    the canvas with a hard clamp at either edge. */
module Motion {
  import opened Blocks

  /** Visual speed scalar: one tick moves the block `speed * 3` pixels. */
  const SPEED_SCALE: real := 3.0

  /** The sign of horizontal motion: 1 to the right, -1 to the left. */
  type Direction = d: int | d == 1 || d == -1 witness 1

  /** The block that enters above the tower top, with its initial direction:
      from the left edge moving right, or flush with the right edge moving left. */
  function Spawned(top: Block, fromLeft: bool, canvasWidth: real, hue: Hue): (r: (Block, Direction))
    ensures r.0.width == top.width && r.0.height == BLOCK_HEIGHT && r.0.color == hue
    ensures r.0.y + BLOCK_HEIGHT == top.y
    ensures fromLeft ==> r.0.x == 0.0 && r.1 == 1
    ensures !fromLeft ==> r.0.x + r.0.width == canvasWidth && r.1 == -1
  {
    if fromLeft then (Block(0.0, top.y - BLOCK_HEIGHT, top.width, BLOCK_HEIGHT, hue), 1)
    else (Block(canvasWidth - top.width, top.y - BLOCK_HEIGHT, top.width, BLOCK_HEIGHT, hue), -1)
  }

  /** Where one tick carries a block before the edges are checked: the
      script's product `speed * direction * 3`, computed by cases on the two
      values a direction can take. At a non-negative speed the block moves
      in its direction's sense. */
  function Advanced(x: real, direction: Direction, speed: real): (r: real)
    ensures r == x + speed * (direction as real) * SPEED_SCALE
    ensures 0.0 <= speed ==> (direction == 1 ==> x <= r) && (direction == -1 ==> r <= x)
  {
    if direction == 1 then x + speed * SPEED_SCALE else x - speed * SPEED_SCALE
  }

  /** One tick of horizontal motion: the new x and the new direction. A block
      that would cross the right edge snaps to it and turns left; one that
      would cross the left edge snaps to it and turns right. */
  function Oscillated(x: real, width: real, direction: Direction, speed: real, canvasWidth: real): (r: (real, Direction))
    ensures width <= canvasWidth ==> 0.0 <= r.0 && r.0 + width <= canvasWidth
    ensures r.1 != direction ==> r.0 == 0.0 || r.0 + width == canvasWidth
    ensures var moved := Advanced(x, direction, speed);
            && (moved + width > canvasWidth ==> r == (canvasWidth - width, -1))
            && (moved + width <= canvasWidth && moved < 0.0 ==> r == (0.0, 1))
            && (0.0 <= moved && moved + width <= canvasWidth ==> r == (moved, direction))
  {
    var moved := Advanced(x, direction, speed);
    if moved + width > canvasWidth then (canvasWidth - width, -1)
    else if moved < 0.0 then (0.0, 1)
    else (moved, direction)
  }

  /** A block that enters at the left edge, on a canvas with room for it to
      move, advances exactly one step to the right on its first tick and
      keeps its direction. */
  lemma FirstStepFromLeft(width: real, speed: real, canvasWidth: real)
    requires 0.0 <= speed
    requires width + speed * SPEED_SCALE <= canvasWidth
    ensures Oscillated(0.0, width, 1, speed, canvasWidth) == (speed * SPEED_SCALE, 1)
  {
  }
}
