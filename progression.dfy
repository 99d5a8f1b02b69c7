/** Score, level and speed: two speed-ups at exact scores, and a victory score. */
module Progression {
  import opened Blocks

  const INITIAL_SPEED: real := 0.6
  const LEVEL_2_SPEED_MULTIPLIER: real := 1.15
  const LEVEL_3_SPEED_MULTIPLIER: real := 1.3
  const MAX_GAME_SPEED: real := 2.0
  const LEVEL_2_THRESHOLD: int := 15
  const LEVEL_3_THRESHOLD: int := 30
  const VICTORY_THRESHOLD: int := 45

  /** Level and speed after the score has reached `score`: a change happens
      only at the two thresholds, and neither speed reaches the cap. */
  function Progressed(score: int, level: int, speed: real): (r: (int, real))
    ensures score == LEVEL_2_THRESHOLD ==> r == (2, 0.69)
    ensures score == LEVEL_3_THRESHOLD ==> r == (3, 0.78)
    ensures r != (level, speed) ==> score == LEVEL_2_THRESHOLD || score == LEVEL_3_THRESHOLD
    ensures r.1 <= MAX_GAME_SPEED || r.1 == speed
  {
    if score == LEVEL_2_THRESHOLD then (2, Min(INITIAL_SPEED * LEVEL_2_SPEED_MULTIPLIER, MAX_GAME_SPEED))
    else if score == LEVEL_3_THRESHOLD then (3, Min(INITIAL_SPEED * LEVEL_3_SPEED_MULTIPLIER, MAX_GAME_SPEED))
    else (level, speed)
  }

  /** Level and speed of a session after `hits` successful drops, each of
      which raises the score by one and then checks for progression. */
  function LevelAfter(hits: nat): (int, real)
  {
    if hits == 0 then (1, INITIAL_SPEED)
    else Progressed(hits, LevelAfter(hits - 1).0, LevelAfter(hits - 1).1)
  }

  /** Since the score rises one at a time, the exact-equality thresholds are
      never skipped: levels 1, 2 and 3 cover scores 0-14, 15-29 and 30 on. */
  lemma {:induction false} LevelSchedule(hits: nat)
    ensures LevelAfter(hits) == if hits < 15 then (1, 0.6) else if hits < 30 then (2, 0.69) else (3, 0.78)
  {
    if hits > 0 {
      LevelSchedule(hits - 1);
    }
  }
}
