/** The tower: an ordered sequence of placed blocks, index 0 at the bottom.
    Shifting it down after each placed block keeps it in view: the bottom
    block is evicted once the tower is longer than the visible window, every
    block moves down one row, and the base is re-anchored to the canvas floor. */
module Tower {
  import opened Blocks
  import opened Layout

  /** Each block lies exactly one row above the one below it. */
  ghost predicate Stacked(s: seq<Block>)
  {
    forall k :: 0 <= k < |s| ==> s[k].y == s[0].y - k as real * BLOCK_HEIGHT
  }

  /** `s` with every block from index `start` on moved down by `amount`. */
  function LowerFrom(s: seq<Block>, start: int, amount: real): seq<Block>
  {
    seq(|s|, k requires 0 <= k < |s| => if start <= k then s[k].(y := s[k].y + amount) else s[k])
  }

  /** The tower once its bottom block is evicted, if it exceeds the window
      (shifting an empty array leaves it empty). */
  function Remaining(s: seq<Block>, maxVisible: int): seq<Block>
  {
    if |s| > maxVisible && s != [] then s[1..] else s
  }

  /** The tower after one shift: eviction, one row down, re-anchoring of the
      last `maxVisible` blocks so that the bottom block rests on the floor. */
  function ShiftedTower(s: seq<Block>, maxVisible: int, canvasHeight: real): (r: seq<Block>)
    ensures |r| == if |s| > maxVisible && s != [] then |s| - 1 else |s|
    ensures forall k :: 0 <= k < |r| ==> r[k] == Remaining(s, maxVisible)[k].(y := r[k].y)
    ensures 0 < |r| <= maxVisible ==> r[0].y == canvasHeight - BLOCK_HEIGHT
  {
    var lowered := LowerFrom(Remaining(s, maxVisible), 0, BLOCK_HEIGHT);
    if |lowered| > 0 && lowered[0].y != canvasHeight - BLOCK_HEIGHT then
      LowerFrom(lowered, SliceStart(|lowered|, maxVisible), canvasHeight - BLOCK_HEIGHT - lowered[0].y)
    else
      lowered
  }

  /** A resize squeezes a block towards the top edge by multiplying its y by `factor`. */
  function ScaledBlock(b: Block, factor: real): (r: Block)
    ensures r == b.(y := r.y)
  {
    b.(y := b.y * factor)
  }

  /** A resize squeezes the whole tower the same way. */
  function Rescaled(s: seq<Block>, factor: real): (r: seq<Block>)
    ensures |r| == |s|
    ensures forall k :: 0 <= k < |r| ==> r[k] == s[k].(y := r[k].y)
  {
    seq(|s|, k requires 0 <= k < |s| => ScaledBlock(s[k], factor))
  }

  /** When the whole tower fits the window, the shift moves every block by
      the same amount, so the gaps between blocks are kept. */
  lemma ShiftKeepsGaps(s: seq<Block>, maxVisible: int, canvasHeight: real)
    requires |Remaining(s, maxVisible)| <= maxVisible
    ensures var r := ShiftedTower(s, maxVisible, canvasHeight);
            forall i, j :: 0 <= i < |r| && 0 <= j < |r| ==>
              r[i].y - r[j].y == Remaining(s, maxVisible)[i].y - Remaining(s, maxVisible)[j].y
  {
  }

  /** Rescaling scales every gap between blocks by the factor, and a factor
      below one only ever moves a block towards the top edge, never past it. */
  lemma RescaleShrinks(s: seq<Block>, factor: real)
    ensures var r := Rescaled(s, factor);
            forall i, j :: 0 <= i < |r| && 0 <= j < |r| ==> r[i].y - r[j].y == (s[i].y - s[j].y) * factor
    ensures var r := Rescaled(s, factor);
            0.0 < factor < 1.0 ==> forall k :: 0 <= k < |r| && 0.0 <= s[k].y ==> 0.0 <= r[k].y <= s[k].y
  {
    var r := Rescaled(s, factor);
    forall i, j | 0 <= i < |r| && 0 <= j < |r| ensures r[i].y - r[j].y == (s[i].y - s[j].y) * factor {
      assert r[i].y == s[i].y * factor && r[j].y == s[j].y * factor;
    }
  }

  /** Placing a block one row above the top keeps the tower stacked. */
  lemma StackedPush(s: seq<Block>, b: Block)
    requires Stacked(s) && |s| >= 1
    requires b.y == s[|s| - 1].y - BLOCK_HEIGHT
    ensures Stacked(s + [b])
  {
  }

  /** A stacked tower that fits the window after the shift ends stacked and
      resting on the floor: block k lies k rows above the bottom row. */
  lemma ShiftKeepsStacked(s: seq<Block>, maxVisible: int, canvasHeight: real)
    requires Stacked(s) && |s| >= 1
    requires |Remaining(s, maxVisible)| <= maxVisible
    ensures var r := ShiftedTower(s, maxVisible, canvasHeight);
            forall k :: 0 <= k < |r| ==> r[k].y == canvasHeight - (k + 1) as real * BLOCK_HEIGHT
    ensures Stacked(ShiftedTower(s, maxVisible, canvasHeight))
  {
    var rest := Remaining(s, maxVisible);
    var r := ShiftedTower(s, maxVisible, canvasHeight);
    assert Stacked(rest) by {
      forall k | 0 <= k < |rest| ensures rest[k].y == rest[0].y - k as real * BLOCK_HEIGHT {
        if |s| > maxVisible {
          assert rest[k] == s[k + 1] && rest[0] == s[1];
        }
      }
    }
    ShiftKeepsGaps(s, maxVisible, canvasHeight);
    forall k | 0 <= k < |r| ensures r[k].y == canvasHeight - (k + 1) as real * BLOCK_HEIGHT {
      assert r[k].y - r[0].y == rest[k].y - rest[0].y;
    }
  }

  /** A block placed one row above the top of a stacked tower that fits the
      window and rests on the floor: after the shift the tower again fits
      the window, is stacked, and rests on the floor. */
  lemma PlacedTowerStaysStacked(s: seq<Block>, b: Block, maxVisible: int, canvasHeight: real)
    requires Stacked(s) && 1 <= |s| <= maxVisible
    requires b.y == s[|s| - 1].y - BLOCK_HEIGHT
    ensures var r := ShiftedTower(s + [b], maxVisible, canvasHeight);
            && 1 <= |r| <= maxVisible
            && Stacked(r)
            && r[0].y == canvasHeight - BLOCK_HEIGHT
  {
    StackedPush(s, b);
    ShiftKeepsStacked(s + [b], maxVisible, canvasHeight);
  }
}
