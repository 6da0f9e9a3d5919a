# Knight versus queens: the rules engine

A browser puzzle: a chess knight on an 8x8 board must capture randomly placed
queens before a countdown runs out, over ten levels with more queens and less
time each. This project models the game's rules engine in `script.js`: the
level table and scoring constants, the knight's legal-move computation,
rejection-sampling queen placement, click handling, and the
start / level / tick / pause / complete / next / game-over / restart
state machine. It then proves what these operations guarantee.

- `wrappers.dfy` — `Option`, for the knight position that starts as `null` and
  for a level lookup that falls off the table.
- `levels.dfy` (module `Levels`) — `LEVELS`, `BOARD_SIZE` and the three scoring
  constants, plus lemmas on the table's shape.
- `board.dfy` (module `Board`) — squares, the eight knight offsets, and
  `KnightMoves`, the specification of the move list. `KnightMoves` keeps the
  source's push order.
- `queens.dfy` (module `Queens`) — `Placement`, the specification of the
  rejection-sampling loop over a given sample stream. Also `IndexOf` for
  `findIndex` and the `splice` removal lemma.
- `game.dfy` (module `KnightGame`) — class `Game`. Its fields are the
  module-level variables of `script.js`, with `timerActive` standing in for
  `timerInterval`. It has one method per game function. `Valid()` is the
  invariant every operation keeps:
  - the scores, the level and the remaining time are never negative;
  - a running timer has time left;
  - the queens are distinct squares on the board, and none is under the knight;
  - `possibleMoves` is exactly `KnightMoves` of the knight's square.

Randomness is passed in. `Math.random()` appears twice in the source:
- in `placeQueens`, as a finite sequence of sampled squares, each on the board
  (each coordinate is `Math.floor(Math.random() * 8)`);
- in `startLevel`, as a `StartIndex` in 0..3.

The one-second interval becomes an explicit `Tick()` method: one firing of the
interval callback. A cleared interval never fires, so `Tick()` does nothing
while `timerActive` is false.

The model follows the code, including where it departs from an idealised reading of the game:
- `completeLevel` adds the time and completion bonuses to `score` only.
  `levelScore` is not changed; the bonus-inclusive level total is only
  displayed, and `CompleteLevel` returns it.
- Clearing the last level does not call `gameOver`. `gameStarted` stays true and
  the congratulations dialog is shown (`AllLevelsCleared`).
- The game ends when `timeRemaining <= 0` after the decrement.
- `restartGame`, `startGame` and `resumeGame` have no state guard.
  `handleCellClick` is guarded only by `gameStarted`/`gamePaused`, so moves are
  still accepted after a level is complete.
- `startGame` does not reset `levelScore`.
- There is no capacity guard on placement. Every level asks for at most 39
  queens, which always fit beside the knight (`QueenCountsIncrease`).

## Model

| member | source | states |
|---|---|---|
| Levels.LevelFor | script.js:4-15 | `LEVELS[level-1]` exists exactly for levels 1..10. Each entry found has the level number asked for, a queen count between 1 and 63, and a positive time |
| Levels.LevelNumbersAreSequential | script.js:4-15 | the table has 10 entries and entry i is level i+1 |
| Levels.QueenCountsIncrease | script.js:4-15 | queen counts strictly increase from 25 to 39, and each is at most 63, so there is always room beside the knight |
| Levels.TimeLimitsDecrease | script.js:4-15 | time limits strictly decrease from 120 to 50 |
| Board.MovesFromMembership | script.js:168-181 | a square is pushed exactly when it is on the board and its offset from the knight is one of the offsets tried |
| Board.MovesFromLength | script.js:168-181 | at most one square is pushed per offset |
| Board.MovesFromDistinct | script.js:168-181 | pairwise distinct offsets give a move list without duplicates |
| Board.MovesFromKeepsAll | script.js:172-173 | when every offset lands on the board, every offset yields a move |
| Board.KnightOffsetsAreKnightSteps | script.js:155-160 | the offset table holds exactly the (±1,±2)/(±2,±1) steps |
| Board.KnightMovesExact | script.js:153-181 | a square is in the legal-move list if and only if it is on the board and a knight step from the knight |
| Board.KnightMovesDistinct | script.js:153-181 | the legal-move list has no duplicates |
| Board.KnightMovesCount | script.js:153-181 | from every square of the board there are between 2 and 8 legal moves |
| Board.CentreHasEightMoves | script.js:153-181 | from the central 4x4 squares all 8 moves are legal |
| Board.CornerHasTwoMoves | script.js:153-181 | from the corner (0,0) the list is exactly [(1,2), (2,1)] |
| Queens.PlaceFromValid | script.js:128-147 | each draw keeps the queen list distinct, on the board and off the knight, only appends, never exceeds `count`, and adds only sampled squares |
| Queens.PlaceFromGrows | script.js:128-147 | the loop never removes a placed queen |
| Queens.PlaceFromShortfall | script.js:128-147 | the loop stops short of `count` only if every sample other than the knight's square has been placed |
| Queens.PlacementValid | script.js:125-147 | placement from an empty list gives at most `count` distinct on-board squares, none equal to the knight, each one a sample |
| Queens.PlacementFillsCount | script.js:125-147 | once the samples cover `count` squares other than the knight's, exactly `count` queens are placed |
| Queens.IndexOf | script.js:211 | `findIndex` returns -1 exactly when the square holds no queen; otherwise it returns the first index holding it |
| Queens.RemoveAtValid | script.js:220 | `splice(i, 1)` on a valid queen list leaves a valid list one shorter, holding every other queen and not the one removed |
| KnightGame.Game.constructor | script.js:23-32 | the initial values: not started, level 0, no knight, no queens, 120 seconds, no timer, scores 0 |
| KnightGame.Game.StartGame | script.js:75-84 | running and unpaused at level 1 with `score` 0. `levelScore` is kept, as is a knight already on the board. Level 1's time, queens and moves are set up |
| KnightGame.Game.StartLevel | script.js:87-122 | for levels 1..10: the level's time; a knight drawn from the four start squares only if there was none; queens placed around it; its legal moves; a running timer; `Valid()` restored. Outside the table nothing changes |
| KnightGame.Game.PlaceQueens | script.js:125-150 | the queen list is exactly `Placement` of the knight square, the count and the samples drawn |
| KnightGame.Game.CalculatePossibleMoves | script.js:153-182 | `possibleMoves` is exactly `KnightMoves` of the knight square |
| KnightGame.Game.HandleCellClick | script.js:185-235 | a click while not started or while paused, or on a square not among the legal moves, changes nothing. An accepted click moves the knight a knight step to the target and recomputes its moves. A queen there is removed, and only that queen; both scores rise by 100. Taking the last queen stops the timer, adds `timeRemaining*5 + 500` to `score` only, and reports level complete below level 10 and victory at level 10. An empty target leaves queens, scores and timer alone |
| KnightGame.Game.StartTimer | script.js:238-251 | after it exactly one timer is running |
| KnightGame.Game.Tick | script.js:241-250 | with no timer or while paused nothing changes. Otherwise one second is taken off, and at 0 the game stops: not started, not paused, timer cleared. The board and the scores never change |
| KnightGame.Game.UpdateScore | script.js:254-258 | the points are added to both `score` and `levelScore` |
| KnightGame.Game.PauseGame | script.js:261-267 | pauses only a started game |
| KnightGame.Game.ResumeGame | script.js:270-274 | always unpauses |
| KnightGame.Game.CompleteLevel | script.js:277-302 | clears the timer and adds the time and completion bonuses to `score` only. Returns the level total `levelScore + timeRemaining*5 + 500`, as level complete below level 10 and as victory otherwise |
| KnightGame.Game.NextLevel | script.js:305-310 | increments the level, zeroes `levelScore` and sets the level up with the knight kept in place. Past level 10 the lookup fails and the rest of the state is unchanged |
| KnightGame.Game.GameOver | script.js:313-320 | the timer stops and the game is neither started nor paused |
| KnightGame.Game.RestartGame | script.js:323-334 | level 1, both scores 0, a knight newly drawn from the four start squares, and level 1 set up |
| KnightGame.SingleQueenLevel | script.js:211-229 | with the knight at (0,1), one queen at (2,2) and 120 seconds left, clicking (2,2) completes level 1 with a level total and score of 1200 |
| KnightGame.RunOutTheClock | script.js:241-250 | with the timer running unpaused, the game ends after exactly `timeRemaining` ticks, with both scores unchanged |

## Left out

- DOM work is not modelled: building the board, `getCell`, `clearBoard`, every
  text, class and style update, and the dialog text swaps. It has no effect on
  the game state.
- The capture animation (`setTimeout` on the captured cell) is purely visual.
- `setInterval`/`clearInterval` themselves: the interval is the flag
  `timerActive`, and its callback is `Tick()`, called from outside.
- `Math.random()`: passed in as a sample sequence and a start index.
- KnightGame.Game.PlaceQueens: the sample sequence is finite. When it runs out
  before `count` squares were accepted, the model stops with fewer queens,
  where the source keeps drawing. `Queens.PlacementFillsCount` gives the
  condition under which exactly `count` queens are placed.
- The button and keyboard listeners are not modelled. The `p` key calls only
  `PauseGame` because its handler returns early while paused, so it can never
  resume.
- `parseInt` of the clicked cell's data attributes: the click target is given
  as a `Square`.
- `PlaceQueens` and `CalculatePossibleMoves` dereference the knight, which is
  always set by the time `startLevel` calls them. The model requires a knight
  rather than modelling the `TypeError` on `null`.
- JavaScript numbers are doubles; scores and times stay far below 2^53, so the
  model uses unbounded integers.
