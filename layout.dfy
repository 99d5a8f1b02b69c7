/** The arithmetic of resizing the canvas: its height, how many tower blocks
    stay visible, and the factor that squeezes a tall tower onto a short canvas.
    The container width and the viewport height are inputs here. */
module Layout {
  import opened Blocks

  const MAX_CANVAS_HEIGHT: real := 800.0
  const MIN_CANVAS_HEIGHT: real := 400.0

  /** The canvas height chosen for a container width and a viewport height:
      the least of a 4:3 aspect height, 70% of the viewport and 800 pixels,
      but never below 400 pixels. */
  function CanvasHeight(containerWidth: real, viewportHeight: real): (h: real)
    ensures MIN_CANVAS_HEIGHT <= h <= MAX_CANVAS_HEIGHT
    ensures h == MIN_CANVAS_HEIGHT
            || (&& h <= containerWidth * (4.0 / 3.0) && h <= viewportHeight * 0.7
                && (h == containerWidth * (4.0 / 3.0) || h == viewportHeight * 0.7 || h == MAX_CANVAS_HEIGHT))
    ensures h == MIN_CANVAS_HEIGHT
            ==> containerWidth * (4.0 / 3.0) <= MIN_CANVAS_HEIGHT || viewportHeight * 0.7 <= MIN_CANVAS_HEIGHT
  {
    var desired := Min(Min(containerWidth * (4.0 / 3.0), viewportHeight * 0.7), MAX_CANVAS_HEIGHT);
    Max(desired, MIN_CANVAS_HEIGHT)
  }

  /** MAX_VISIBLE_BLOCKS: one less than the number of whole blocks that fit in
      half of the canvas height. */
  function MaxVisibleBlocks(canvasHeight: real): (n: int)
    ensures (n + 1) as real * (2.0 * BLOCK_HEIGHT) <= canvasHeight < (n + 2) as real * (2.0 * BLOCK_HEIGHT)
    ensures MIN_CANVAS_HEIGHT <= canvasHeight ==> 5 <= n
    ensures canvasHeight <= MAX_CANVAS_HEIGHT ==> n <= 12
  {
    ((canvasHeight / 2.0) / BLOCK_HEIGHT).Floor - 1
  }

  /** The index at which `s.slice(-k)` starts in a JavaScript array of length
      `len`: the last `k` elements when `k` is positive; `slice(-0)` and a
      non-positive `k` count from the front. */
  function SliceStart(len: nat, k: int): (start: nat)
    ensures start <= len
    ensures 0 < k ==> len - start == (if k < len then k else len)
  {
    if k > 0 then (if len - k > 0 then len - k else 0)
    else (if -k < len then -k else len)
  }

  /** The factor by which a resize rescales the y of every tower block: it
      compares the canvas height with one and a half times the tower height. */
  function ScaleFactor(canvasHeight: real, towerLength: nat): (f: real)
    requires towerLength >= 1
    ensures canvasHeight > 0.0 ==> f > 0.0
    ensures f < 1.0 <==> canvasHeight < towerLength as real * BLOCK_HEIGHT * 1.5
  {
    canvasHeight / (towerLength as real * BLOCK_HEIGHT * 1.5)
  }
}
