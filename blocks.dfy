/** The rectangles of the game: tower blocks, the moving block, and the
    pieces that fall away when a block is trimmed. Coordinates are canvas
    pixels with y growing downwards, modelled as exact reals. */
module Blocks {

  const BLOCK_HEIGHT: real := 30.0
  const INITIAL_BLOCK_WIDTH_LARGE: real := 220.0
  const INITIAL_BLOCK_WIDTH_SMALL: real := 160.0
  const SCREEN_SIZE_THRESHOLD: real := 600.0

  /** The hue of an `hsl(hue, 80%, 60%)` colour; drawn at random by the game. */
  type Hue = h: int | 0 <= h < 360

  datatype Option<T> = None | Some(value: T)

  /** An axis-aligned rectangle with a colour: a tower block or the moving block. */
  datatype Block = Block(x: real, y: real, width: real, height: real, color: Hue)

  function Max(a: real, b: real): real { if a >= b then a else b }

  function Min(a: real, b: real): real { if a <= b then a else b }

  /** The width of the first tower block: narrow below the screen-size breakpoint. */
  function BaseWidth(canvasWidth: real): real
  {
    if canvasWidth < SCREEN_SIZE_THRESHOLD then INITIAL_BLOCK_WIDTH_SMALL else INITIAL_BLOCK_WIDTH_LARGE
  }

  /** The block a session starts from: centred on the canvas floor. */
  function BaseBlock(canvasWidth: real, canvasHeight: real, hue: Hue): (b: Block)
    ensures b.width == 160.0 <==> canvasWidth < 600.0
    ensures b.width == 220.0 <==> canvasWidth >= 600.0
    ensures b.x + b.width / 2.0 == canvasWidth / 2.0
    ensures b.y + b.height == canvasHeight && b.height == BLOCK_HEIGHT
    ensures b.color == hue
  {
    var w := BaseWidth(canvasWidth);
    Block((canvasWidth - w) / 2.0, canvasHeight - BLOCK_HEIGHT, w, BLOCK_HEIGHT, hue)
  }
}
