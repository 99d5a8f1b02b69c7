/** Debris: the pieces cut off a dropped block. Each falls under constant
    gravity, spins a little faster every tick in the sense it started with,
    and is discarded once it has fallen below the canvas. */
module Falling {
  import opened Blocks

  const GRAVITY: real := 0.5
  const SPIN_STEP: real := 0.02
  /** Exclusive upper bound of the random spin given to a new piece. */
  const MAX_SPIN: real := 0.1

  datatype FallingBlock = FallingBlock(
    x: real, y: real, width: real, height: real, color: Hue, velocity: real, rotation: real)

  function Abs(r: real): real { if r < 0.0 then -r else r }

  /** A piece at rest with rotation `spin`, turned negative for a left piece. */
  function NewFallingBlock(x: real, y: real, width: real, height: real, color: Hue, isLeft: bool, spin: real): (d: FallingBlock)
    ensures d.x == x && d.y == y && d.width == width && d.height == height && d.color == color
    ensures d.velocity == 0.0
    ensures Abs(d.rotation) == Abs(spin)
    ensures 0.0 <= spin ==> (isLeft ==> d.rotation <= 0.0) && (!isLeft ==> 0.0 <= d.rotation)
  {
    FallingBlock(x, y, width, height, color, 0.0, if isLeft then -spin else spin)
  }

  /** One tick of one piece. */
  function Fall(d: FallingBlock): (e: FallingBlock)
    ensures e.velocity == d.velocity + GRAVITY
    ensures e.y == d.y + e.velocity
    ensures Abs(e.rotation) == Abs(d.rotation) + SPIN_STEP
    ensures (e.rotation < 0.0) == (d.rotation < 0.0)
    ensures e.x == d.x && e.width == d.width && e.height == d.height && e.color == d.color
  {
    var v := d.velocity + GRAVITY;
    d.(velocity := v, y := d.y + v,
       rotation := if d.rotation < 0.0 then d.rotation - SPIN_STEP else d.rotation + SPIN_STEP)
  }

  /** No piece is moving upwards. */
  ghost predicate NonRising(s: seq<FallingBlock>)
  {
    forall k :: 0 <= k < |s| ==> 0.0 <= s[k].velocity
  }

  /** One tick of all the debris: every piece falls, and those now below the
      canvas are dropped. */
  function TickDebris(s: seq<FallingBlock>, canvasHeight: real): (r: seq<FallingBlock>)
    ensures |r| <= |s|
    decreases |s|
  {
    if s == [] then []
    else
      var e := Fall(s[0]);
      (if e.y > canvasHeight then [] else [e]) + TickDebris(s[1..], canvasHeight)
  }

  /** After a tick every remaining piece is on screen, and debris that was
      not moving up still is not. */
  lemma {:induction false} TickDebrisOnScreen(s: seq<FallingBlock>, canvasHeight: real)
    ensures forall k :: 0 <= k < |TickDebris(s, canvasHeight)| ==> TickDebris(s, canvasHeight)[k].y <= canvasHeight
    ensures NonRising(s) ==> NonRising(TickDebris(s, canvasHeight))
    decreases |s|
  {
    if s != [] {
      TickDebrisOnScreen(s[1..], canvasHeight);
    }
  }

  /** The debris from position i on, after one tick: piece i, if it stays
      on screen, then the rest. */
  lemma TickDebrisFrom(s: seq<FallingBlock>, i: int, canvasHeight: real)
    requires 0 <= i < |s|
    ensures TickDebris(s[i..], canvasHeight)
            == (if Fall(s[i]).y > canvasHeight then [] else [Fall(s[i])]) + TickDebris(s[i + 1..], canvasHeight)
  {
    assert s[i..][1..] == s[i + 1..];
  }

  /** Replacing, then splicing out, position i of a list whose first i + 1
      elements come from `p`. */
  lemma ReplaceThenSplice(p: seq<FallingBlock>, i: int, rest: seq<FallingBlock>, e: FallingBlock)
    requires 0 <= i < |p|
    ensures (p[..i + 1] + rest)[i := e] == p[..i] + ([e] + rest)
    ensures var t := (p[..i + 1] + rest)[i := e]; t[..i] + t[i + 1..] == p[..i] + rest
  {
    var t := (p[..i + 1] + rest)[i := e];
    assert t[..i] == p[..i];
    assert t[i + 1..] == rest;
  }

  /** One step of the backward walk over the debris: once the pieces after
      position i are ticked, ticking piece i in place, and splicing it out
      when it has left the canvas, leaves the pieces from i on ticked. */
  lemma TickDebrisStep(pieces: seq<FallingBlock>, i: int, canvasHeight: real,
                       before: seq<FallingBlock>, after: seq<FallingBlock>)
    requires 0 <= i < |pieces|
    requires before == pieces[..i + 1] + TickDebris(pieces[i + 1..], canvasHeight)
    requires var e := Fall(pieces[i]);
             after == if e.y > canvasHeight then before[i := e][..i] + before[i := e][i + 1..] else before[i := e]
    ensures after == pieces[..i] + TickDebris(pieces[i..], canvasHeight)
  {
    TickDebrisFrom(pieces, i, canvasHeight);
    ReplaceThenSplice(pieces, i, TickDebris(pieces[i + 1..], canvasHeight), Fall(pieces[i]));
  }

  /** The positions in `s` of the pieces that stay on screen after one tick. */
  function SurvivorIndices(s: seq<FallingBlock>, canvasHeight: real): seq<nat>
    decreases |s|
  {
    if s == [] then []
    else
      var rest := SurvivorIndices(s[1..], canvasHeight);
      (if Fall(s[0]).y > canvasHeight then [] else [0]) + seq(|rest|, k requires 0 <= k < |rest| => rest[k] + 1)
  }

  /** The k-th survivor of a tick is the piece at position `SurvivorIndices[k]`,
      advanced by one tick. */
  lemma {:induction false} SurvivorsAreFallen(s: seq<FallingBlock>, canvasHeight: real)
    ensures |SurvivorIndices(s, canvasHeight)| == |TickDebris(s, canvasHeight)|
    ensures forall k :: 0 <= k < |SurvivorIndices(s, canvasHeight)| ==>
              SurvivorIndices(s, canvasHeight)[k] < |s|
              && TickDebris(s, canvasHeight)[k] == Fall(s[SurvivorIndices(s, canvasHeight)[k]])
    decreases |s|
  {
    if s != [] {
      SurvivorsAreFallen(s[1..], canvasHeight);
      var r, idx := TickDebris(s, canvasHeight), SurvivorIndices(s, canvasHeight);
      var head := if Fall(s[0]).y > canvasHeight then 0 else 1;
      forall k | head <= k < |idx| ensures idx[k] < |s| && r[k] == Fall(s[idx[k]]) {
        assert s[1..][idx[k] - 1] == s[idx[k]];
      }
    }
  }

  /** Survivors keep their relative order. */
  lemma {:induction false} SurvivorIndicesIncrease(s: seq<FallingBlock>, canvasHeight: real)
    ensures forall k, l :: 0 <= k < l < |SurvivorIndices(s, canvasHeight)| ==>
              SurvivorIndices(s, canvasHeight)[k] < SurvivorIndices(s, canvasHeight)[l]
    decreases |s|
  {
    if s != [] {
      SurvivorIndicesIncrease(s[1..], canvasHeight);
      var rest := SurvivorIndices(s[1..], canvasHeight);
      var idx := SurvivorIndices(s, canvasHeight);
      var head := if Fall(s[0]).y > canvasHeight then 0 else 1;
      forall k, l | 0 <= k < l < |idx| ensures idx[k] < idx[l] {
        assert idx[l] == rest[l - head] + 1;
        if k >= head {
          assert idx[k] == rest[k - head] + 1;
          assert rest[k - head] < rest[l - head];
        } else {
          assert idx[k] == 0;
        }
      }
    }
  }

  /** No piece that is still on screen after the tick is lost. */
  lemma {:induction false} OnScreenPiecesSurvive(s: seq<FallingBlock>, canvasHeight: real)
    ensures forall j :: 0 <= j < |s| && Fall(s[j]).y <= canvasHeight ==> j in SurvivorIndices(s, canvasHeight)
    decreases |s|
  {
    if s != [] {
      OnScreenPiecesSurvive(s[1..], canvasHeight);
      var rest := SurvivorIndices(s[1..], canvasHeight);
      var idx := SurvivorIndices(s, canvasHeight);
      var head := if Fall(s[0]).y > canvasHeight then 0 else 1;
      forall j | 0 < j < |s| && Fall(s[j]).y <= canvasHeight ensures j in idx {
        assert s[1..][j - 1] == s[j];
        var m :| 0 <= m < |rest| && rest[m] == j - 1;
        assert idx[head + m] == j;
      }
    }
  }

  /** A tick keeps exactly the pieces that stay on screen, each one advanced
      by one tick, in their original order. */
  lemma TickDebrisKeepsOrder(s: seq<FallingBlock>, canvasHeight: real)
    ensures |SurvivorIndices(s, canvasHeight)| == |TickDebris(s, canvasHeight)|
    ensures forall k :: 0 <= k < |SurvivorIndices(s, canvasHeight)| ==>
              SurvivorIndices(s, canvasHeight)[k] < |s|
              && TickDebris(s, canvasHeight)[k] == Fall(s[SurvivorIndices(s, canvasHeight)[k]])
    ensures forall k, l :: 0 <= k < l < |SurvivorIndices(s, canvasHeight)| ==>
              SurvivorIndices(s, canvasHeight)[k] < SurvivorIndices(s, canvasHeight)[l]
    ensures forall j :: 0 <= j < |s| && Fall(s[j]).y <= canvasHeight ==> j in SurvivorIndices(s, canvasHeight)
  {
    SurvivorsAreFallen(s, canvasHeight);
    SurvivorIndicesIncrease(s, canvasHeight);
    OnScreenPiecesSurvive(s, canvasHeight);
  }

  /** A piece after `n` ticks. */
  function FallN(d: FallingBlock, n: nat): FallingBlock
  {
    if n == 0 then d else Fall(FallN(d, n - 1))
  }

  /** Constant gravity: after n ticks the speed has grown by n/2 and the
      piece has dropped n * velocity + n(n+1)/4 pixels. */
  lemma {:induction false} FallNPosition(d: FallingBlock, n: nat)
    ensures FallN(d, n).velocity == d.velocity + n as real * GRAVITY
    ensures FallN(d, n).y == d.y + n as real * d.velocity + n as real * (n as real + 1.0) / 4.0
  {
    if n > 0 {
      FallNPosition(d, n - 1);
      var m := (n - 1) as real;
      assert m * (m + 1.0) / 4.0 + (m + 1.0) / 2.0 == (m + 1.0) * (m + 2.0) / 4.0;
    }
  }

  /** Once off screen, a piece that does not rise stays off screen. */
  lemma {:induction false} StaysOffScreen(d: FallingBlock, n: nat, m: nat, canvasHeight: real)
    requires 0.0 <= d.velocity && n <= m
    requires FallN(d, n).y > canvasHeight
    ensures FallN(d, m).y > canvasHeight
    decreases m - n
  {
    if n < m {
      FallNAtLeast(d, n);
      StaysOffScreen(d, n + 1, m, canvasHeight);
    }
  }

  /** How many ticks (at least one) a piece needs to fall below the canvas. */
  function TicksToLeave(d: FallingBlock, canvasHeight: real): nat
  {
    if canvasHeight < d.y then 1 else (2.0 * (canvasHeight - d.y)).Floor + 1
  }

  /** A piece that does not rise drops at least half a pixel every tick. */
  lemma {:induction false} FallNAtLeast(d: FallingBlock, n: nat)
    requires 0.0 <= d.velocity
    ensures FallN(d, n).velocity == d.velocity + n as real * GRAVITY
    ensures FallN(d, n).y >= d.y + n as real * GRAVITY
  {
    if n > 0 {
      FallNAtLeast(d, n - 1);
    }
  }

  /** Every piece that does not rise leaves the canvas after finitely many ticks. */
  lemma LeavesScreen(d: FallingBlock, canvasHeight: real)
    requires 0.0 <= d.velocity
    ensures FallN(d, TicksToLeave(d, canvasHeight)).y > canvasHeight
  {
    var n := TicksToLeave(d, canvasHeight);
    if canvasHeight >= d.y {
      var f := (2.0 * (canvasHeight - d.y)).Floor;
      assert 2.0 * (canvasHeight - d.y) < f as real + 1.0;
    }
    FallNAtLeast(d, n);
  }

  /** The debris after `n` ticks at a fixed canvas height. */
  function TickN(s: seq<FallingBlock>, canvasHeight: real, n: nat): seq<FallingBlock>
  {
    if n == 0 then s else TickDebris(TickN(s, canvasHeight, n - 1), canvasHeight)
  }

  /** Pieces fall independently of one another. */
  lemma {:induction false} TickDebrisAppend(a: seq<FallingBlock>, b: seq<FallingBlock>, canvasHeight: real)
    ensures TickDebris(a + b, canvasHeight) == TickDebris(a, canvasHeight) + TickDebris(b, canvasHeight)
    decreases |a|
  {
    if a == [] {
      assert a + b == b;
    } else {
      var e := Fall(a[0]);
      var head := if e.y > canvasHeight then [] else [e];
      calc {
        TickDebris(a + b, canvasHeight);
      == { assert (a + b)[0] == a[0] && (a + b)[1..] == a[1..] + b; }
        head + TickDebris(a[1..] + b, canvasHeight);
      == { TickDebrisAppend(a[1..], b, canvasHeight); }
        head + (TickDebris(a[1..], canvasHeight) + TickDebris(b, canvasHeight));
      ==
        (head + TickDebris(a[1..], canvasHeight)) + TickDebris(b, canvasHeight);
      }
    }
  }

  lemma {:induction false} TickNAppend(a: seq<FallingBlock>, b: seq<FallingBlock>, canvasHeight: real, n: nat)
    ensures TickN(a + b, canvasHeight, n) == TickN(a, canvasHeight, n) + TickN(b, canvasHeight, n)
  {
    if n > 0 {
      var ta, tb := TickN(a, canvasHeight, n - 1), TickN(b, canvasHeight, n - 1);
      calc {
        TickN(a + b, canvasHeight, n);
        TickDebris(TickN(a + b, canvasHeight, n - 1), canvasHeight);
      == { TickNAppend(a, b, canvasHeight, n - 1); }
        TickDebris(ta + tb, canvasHeight);
      == { TickDebrisAppend(ta, tb, canvasHeight); }
        TickDebris(ta, canvasHeight) + TickDebris(tb, canvasHeight);
      }
    }
  }

  /** A single piece is still there after n ticks exactly when it is still on screen. */
  lemma {:induction false} TickNSingle(d: FallingBlock, canvasHeight: real, n: nat)
    requires 0.0 <= d.velocity && 1 <= n
    ensures TickN([d], canvasHeight, n) == if FallN(d, n).y <= canvasHeight then [FallN(d, n)] else []
  {
    assert [d][1..] == [];
    if n > 1 {
      TickNSingle(d, canvasHeight, n - 1);
      if FallN(d, n - 1).y <= canvasHeight {
        assert TickN([d], canvasHeight, n) == TickDebris([FallN(d, n - 1)], canvasHeight);
        assert [FallN(d, n - 1)][1..] == [];
      } else {
        StaysOffScreen(d, n - 1, n, canvasHeight);
      }
    }
  }

  /** Debris that is gone stays gone. */
  lemma {:induction false} ClearedStaysClear(s: seq<FallingBlock>, canvasHeight: real, n: nat, m: nat)
    requires n <= m && TickN(s, canvasHeight, n) == []
    ensures TickN(s, canvasHeight, m) == []
    decreases m - n
  {
    if n < m {
      ClearedStaysClear(s, canvasHeight, n + 1, m);
    }
  }

  /** Enough ticks for every piece of `s` to leave the canvas. */
  function ClearTicks(s: seq<FallingBlock>, canvasHeight: real): nat
  {
    if s == [] then 0
    else
      var first, rest := TicksToLeave(s[0], canvasHeight), ClearTicks(s[1..], canvasHeight);
      if first < rest then rest else first
  }

  /** Debris never re-grows and always clears: after `ClearTicks` ticks every
      piece has fallen off the canvas and been removed. */
  lemma {:induction false} DebrisClears(s: seq<FallingBlock>, canvasHeight: real)
    requires NonRising(s)
    ensures TickN(s, canvasHeight, ClearTicks(s, canvasHeight)) == []
  {
    if s != [] {
      var n := ClearTicks(s, canvasHeight);
      var d, rest := s[0], s[1..];
      assert s == [d] + rest;
      TickNAppend([d], rest, canvasHeight, n);
      LeavesScreen(d, canvasHeight);
      StaysOffScreen(d, TicksToLeave(d, canvasHeight), n, canvasHeight);
      TickNSingle(d, canvasHeight, n);
      DebrisClears(rest, canvasHeight);
      ClearedStaysClear(rest, canvasHeight, ClearTicks(rest, canvasHeight), n);
    }
  }
}
