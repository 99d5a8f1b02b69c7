/** Dropping the moving block onto the tower top: the overhang arithmetic,
    the hit-or-miss decision, the trimmed block that is kept and the piece
    that falls away. */
module Drop {
  import opened Blocks
  import opened Falling

  /** How far the moving block starts left of the tower top. */
  function LeftOverhang(cur: Block, prev: Block): real { Max(0.0, prev.x - cur.x) }

  /** How far the moving block starts right of the tower top's left edge. */
  function RightOverhang(cur: Block, prev: Block): real { Max(0.0, cur.x - prev.x) }

  function OverlapWidth(cur: Block, prev: Block): real
  {
    cur.width - LeftOverhang(cur, prev) - RightOverhang(cur, prev)
  }

  /** At most one side overhangs, and the two overhangs and the overlap
      together make up the dropped block's width. */
  lemma OverhangsTile(cur: Block, prev: Block)
    ensures LeftOverhang(cur, prev) == 0.0 || RightOverhang(cur, prev) == 0.0
    ensures LeftOverhang(cur, prev) + OverlapWidth(cur, prev) + RightOverhang(cur, prev) == cur.width
    ensures LeftOverhang(cur, prev) > 0.0 <==> cur.x < prev.x
    ensures RightOverhang(cur, prev) > 0.0 <==> prev.x < cur.x
  {
  }

  datatype Outcome = Miss | Hit(kept: Block, offcuts: seq<FallingBlock>)

  /** The outcome of dropping `cur` onto `prev`: a miss when nothing overlaps,
      otherwise the trimmed block and the cut-off piece. The kept block and
      the piece tile the dropped block's span; an aligned drop cuts nothing. */
  function Resolve(cur: Block, prev: Block, leftSpin: real, rightSpin: real): (r: Outcome)
    ensures r.Miss? <==> OverlapWidth(cur, prev) <= 0.0
    ensures r.Hit? ==>
              && r.kept == cur.(x := Max(cur.x, prev.x), width := OverlapWidth(cur, prev))
              && 0.0 < r.kept.width <= cur.width
              && |r.offcuts| <= 1
              && (r.offcuts == [] <==> cur.x == prev.x)
    ensures r.Hit? && cur.x < prev.x ==>
              && r.offcuts == [NewFallingBlock(cur.x, cur.y, prev.x - cur.x, BLOCK_HEIGHT, cur.color, true, leftSpin)]
              && r.offcuts[0].x + r.offcuts[0].width == r.kept.x
              && r.kept.x + r.kept.width == cur.x + cur.width
    ensures r.Hit? && prev.x < cur.x ==>
              && r.offcuts == [NewFallingBlock(r.kept.x + r.kept.width, cur.y, cur.x - prev.x, BLOCK_HEIGHT, cur.color, false, rightSpin)]
              && r.kept.x == cur.x
              && r.offcuts[0].x + r.offcuts[0].width == cur.x + cur.width
  {
    var leftOverhang := LeftOverhang(cur, prev);
    var rightOverhang := RightOverhang(cur, prev);
    var overlapWidth := cur.width - leftOverhang - rightOverhang;
    if overlapWidth <= 0.0 then Miss
    else
      var kept := cur.(width := overlapWidth, x := Max(cur.x, prev.x));
      var left := if leftOverhang > 0.0 then [NewFallingBlock(cur.x, cur.y, leftOverhang, BLOCK_HEIGHT, cur.color, true, leftSpin)] else [];
      var right := if rightOverhang > 0.0 then [NewFallingBlock(kept.x + kept.width, cur.y, rightOverhang, BLOCK_HEIGHT, cur.color, false, rightSpin)] else [];
      Hit(kept, left + right)
  }

  /** Against a top block of the same width (the game always drops such a
      block), the overlap is the length of the intersection of the two spans,
      a drop misses exactly when the spans are disjoint or only touch, and the
      kept block is that intersection. */
  lemma OverlapIsIntersection(cur: Block, prev: Block, leftSpin: real, rightSpin: real)
    requires cur.width == prev.width
    ensures OverlapWidth(cur, prev) == Min(cur.x + cur.width, prev.x + prev.width) - Max(cur.x, prev.x)
    ensures OverlapWidth(cur, prev) <= 0.0 <==> cur.x + cur.width <= prev.x || prev.x + prev.width <= cur.x
    ensures var r := Resolve(cur, prev, leftSpin, rightSpin);
            r.Hit? ==> r.kept.x == Max(cur.x, prev.x) && r.kept.x + r.kept.width == Min(cur.x + cur.width, prev.x + prev.width)
  {
  }

  /** On a canvas narrower than three base widths, a block that is on the
      canvas always overlaps the centred base block: the first drop of a
      session cannot miss there. */
  lemma FirstDropHitsOnNarrowCanvas(cur: Block, canvasWidth: real, canvasHeight: real, hue: Hue)
    requires cur.width == BaseWidth(canvasWidth)
    requires 0.0 <= cur.x && cur.x + cur.width <= canvasWidth
    requires canvasWidth < 3.0 * BaseWidth(canvasWidth)
    ensures OverlapWidth(cur, BaseBlock(canvasWidth, canvasHeight, hue)) > 0.0
  {
  }

  /** On a 600-pixel canvas the base block is 220 wide at x = 190, and a
      block dropped at x = 20 keeps 50 pixels and sheds a 170-pixel left piece. */
  lemma Canvas600Drop(canvasHeight: real, hue: Hue, spin: real)
    ensures var base := BaseBlock(600.0, canvasHeight, hue);
            var cur := base.(x := 20.0, y := base.y - BLOCK_HEIGHT);
            && base.width == 220.0 && base.x == 190.0
            && Resolve(cur, base, spin, 0.0).Hit?
            && Resolve(cur, base, spin, 0.0).kept.width == 50.0
            && Resolve(cur, base, spin, 0.0).offcuts[0].width == 170.0
  {
  }
}
