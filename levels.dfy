/** The constant level table and the scoring constants of script.js. */
module Levels {
  import opened Wrappers

  const BOARD_SIZE: int := 8

  /** One row of the level table: its number, how many queens are placed and
      the countdown in seconds. */
  datatype LevelInfo = LevelInfo(level: int, queens: int, time: int)

  const LEVELS: seq<LevelInfo> := [
    LevelInfo(1, 25, 120),
    LevelInfo(2, 27, 100),
    LevelInfo(3, 29, 90),
    LevelInfo(4, 31, 80),
    LevelInfo(5, 33, 75),
    LevelInfo(6, 35, 70),
    LevelInfo(7, 36, 65),
    LevelInfo(8, 37, 60),
    LevelInfo(9, 38, 55),
    LevelInfo(10, 39, 50)
  ]

  const SCORE_PER_QUEEN: int := 100
  const TIME_BONUS_FACTOR: int := 5
  const LEVEL_COMPLETION_BONUS: int := 500

  /** `LEVELS[level - 1]`: `undefined` (None) outside the table. Every entry
      found describes the level asked for, and its queens fit on the board
      beside the knight. */
  function LevelFor(level: int): (r: Option<LevelInfo>)
    ensures r.Some? <==> 1 <= level <= |LEVELS|
    ensures r.Some? ==> r.value.level == level
    ensures r.Some? ==> 0 < r.value.queens < BOARD_SIZE * BOARD_SIZE
    ensures r.Some? ==> 0 < r.value.time
  {
    if 1 <= level <= |LEVELS| then Some(LEVELS[level - 1]) else None
  }

  /** Entry i describes level i + 1. */
  lemma LevelNumbersAreSequential()
    ensures |LEVELS| == 10
    ensures forall i :: 0 <= i < |LEVELS| ==> LEVELS[i].level == i + 1
  {
  }

  /** Each level places more queens than the one before it (25 up to 39),
      always leaving a free square for the knight. */
  lemma QueenCountsIncrease()
    ensures LEVELS[0].queens == 25 && LEVELS[|LEVELS| - 1].queens == 39
    ensures forall i, j :: 0 <= i < j < |LEVELS| ==> LEVELS[i].queens < LEVELS[j].queens
    ensures forall i :: 0 <= i < |LEVELS| ==> LEVELS[i].queens <= BOARD_SIZE * BOARD_SIZE - 1
  {
  }

  /** Each level gives less time than the one before it (120 down to 50). */
  lemma TimeLimitsDecrease()
    ensures LEVELS[0].time == 120 && LEVELS[|LEVELS| - 1].time == 50
    ensures forall i, j :: 0 <= i < j < |LEVELS| ==> LEVELS[i].time > LEVELS[j].time
  {
  }
}
