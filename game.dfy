/** The game state machine of script.js: the module-level variables become the
    fields of one `Game` object, and each top-level function a method on it. */
module KnightGame {
  import opened Wrappers
  import opened Levels
  import opened Board
  import opened Queens

  /** The four traditional knight squares the first knight is drawn from. */
  const KNIGHT_START_POSITIONS: seq<Square> := [
    Square(0, 1), Square(0, 6),
    Square(7, 1), Square(7, 6)
  ]

  /** `Math.floor(Math.random() * 4)`: the draw that picks a start square. */
  type StartIndex = i: int | 0 <= i < 4

  /** What completing a level shows: the level-complete dialog, or the
      congratulations dialog after the last level. */
  datatype Completion =
    | LevelCleared(level: int, levelTotal: int, total: int)
    | AllLevelsCleared(levelTotal: int, total: int)

  /** How a click on a square was handled. */
  datatype ClickResult =
    | Ignored            // no game running, or paused
    | NotLegal           // not one of the knight's moves
    | Moved              // the knight moved to an empty square
    | Captured           // the knight took a queen; others remain
    | Completed(completion: Completion)  // the knight took the last queen

  function Ending(level: int, levelTotal: int, total: int): Completion {
    if level < |LEVELS| then LevelCleared(level, levelTotal, total)
    else AllLevelsCleared(levelTotal, total)
  }

  /** The time bonus plus the completion bonus for finishing with `time` left. */
  function LevelBonus(time: int): int {
    time * TIME_BONUS_FACTOR + LEVEL_COMPLETION_BONUS
  }

  class Game {
    var gameStarted: bool
    var gamePaused: bool
    var currentLevel: int
    var knightPosition: Option<Square>   // null until the first level starts
    var queenPositions: seq<Square>
    var timeRemaining: int
    var timerActive: bool                // a live `timerInterval`
    var possibleMoves: seq<Square>
    var score: int
    var levelScore: int

    /** What every operation keeps: counters never negative, a running
        timer has time left, the queens are distinct on-board squares away
        from the knight, and the move list is the knight's legal moves. */
    ghost predicate Valid()
      reads this
    {
      ReadyForLevel() && 0 <= timeRemaining && (timerActive ==> 0 < timeRemaining)
      && QueensValid(queenPositions)
      && match knightPosition
         case None => possibleMoves == []
         case Some(k) => OnBoard(k) && k !in queenPositions && possibleMoves == KnightMoves(k)
    }

    /** What a level needs in order to be set up. */
    ghost predicate ReadyForLevel()
      reads this
    {
      0 <= currentLevel && 0 <= score && 0 <= levelScore
      && (knightPosition.Some? ==> OnBoard(knightPosition.value))
    }

    /** The initial values of the module-level variables. */
    constructor ()
      ensures Valid()
      ensures !gameStarted && !gamePaused && currentLevel == 0
      ensures knightPosition == None && queenPositions == [] && possibleMoves == []
      ensures timeRemaining == 120 && !timerActive && score == 0 && levelScore == 0
    {
      gameStarted, gamePaused, currentLevel := false, false, 0;
      knightPosition, queenPositions := None, [];
      timeRemaining, timerActive := 120, false;
      possibleMoves, score, levelScore := [], 0, 0;
    }

    /** `startGame`: level 1 with the score reset; the level score is not. */
    method StartGame(startIndex: StartIndex, samples: seq<Square>)
      requires Valid()
      requires forall s :: s in samples ==> OnBoard(s)
      modifies this
      ensures Valid()
      ensures gameStarted && !gamePaused && currentLevel == 1
      ensures score == 0 && levelScore == old(levelScore)
      ensures knightPosition == if old(knightPosition).None? then Some(KNIGHT_START_POSITIONS[startIndex]) else old(knightPosition)
      ensures timeRemaining == LEVELS[0].time && timerActive
      ensures queenPositions == Placement(knightPosition.value, LEVELS[0].queens, samples)
    {
      gameStarted := true;
      gamePaused := false;
      currentLevel := 1;
      score := 0;
      var ok := StartLevel(currentLevel, startIndex, samples);
    }

    /** `startLevel`: the level's time limit, the knight (drawn only when
        there is none yet), fresh queens, the knight's moves and a running
        timer. Outside the level table the lookup is `undefined` and the
        function throws before changing any state. */
    method StartLevel(level: int, startIndex: StartIndex, samples: seq<Square>) returns (ok: bool)
      requires ReadyForLevel()
      requires forall s :: s in samples ==> OnBoard(s)
      modifies this
      ensures ok <==> 1 <= level <= |LEVELS|
      ensures !ok ==> unchanged(this)
      ensures ok ==> Valid() && knightPosition.Some?
      ensures ok ==> knightPosition == if old(knightPosition).None? then Some(KNIGHT_START_POSITIONS[startIndex]) else old(knightPosition)
      ensures ok ==> timeRemaining == LEVELS[level - 1].time && timerActive
      ensures ok ==> queenPositions == Placement(knightPosition.value, LEVELS[level - 1].queens, samples)
      ensures ok ==> possibleMoves == KnightMoves(knightPosition.value)
      ensures gameStarted == old(gameStarted) && gamePaused == old(gamePaused) && currentLevel == old(currentLevel)
      ensures score == old(score) && levelScore == old(levelScore)
    {
      var levelInfo := LevelFor(level);
      if levelInfo.None? {
        return false;
      }
      timeRemaining := levelInfo.value.time;
      if knightPosition.None? {
        knightPosition := Some(KNIGHT_START_POSITIONS[startIndex]);
      }
      PlaceQueens(levelInfo.value.queens, samples);
      PlacementValid(knightPosition.value, levelInfo.value.queens, samples);
      CalculatePossibleMoves();
      StartTimer();
      ok := true;
    }

    /** `placeQueens`: draw samples until `count` queens stand, rejecting the
        knight's square and squares already taken. The sample stream is
        finite, so the loop also ends when it runs out. */
    method PlaceQueens(count: int, samples: seq<Square>)
      requires knightPosition.Some?
      modifies this`queenPositions
      ensures queenPositions == Placement(knightPosition.value, count, samples)
    {
      var knight := knightPosition.value;
      queenPositions := [];
      var i := 0;
      while |queenPositions| < count && i < |samples|
        invariant 0 <= i <= |samples|
        invariant PlaceFrom(knight, count, queenPositions, samples[i..]) == Placement(knight, count, samples)
      {
        var s := samples[i];
        assert samples[i..][1..] == samples[i + 1..];
        i := i + 1;
        if s == knight {
          continue;
        }
        if s in queenPositions {
          continue;
        }
        queenPositions := queenPositions + [s];
      }
    }

    /** `calculatePossibleMoves`: push every on-board target of the eight
        offsets, in table order. */
    method CalculatePossibleMoves()
      requires knightPosition.Some?
      modifies this`possibleMoves
      ensures possibleMoves == KnightMoves(knightPosition.value)
    {
      var knight := knightPosition.value;
      possibleMoves := [];
      for i := 0 to |KNIGHT_OFFSETS|
        invariant possibleMoves == MovesFrom(knight, KNIGHT_OFFSETS[..i])
      {
        assert KNIGHT_OFFSETS[..i + 1][..i] == KNIGHT_OFFSETS[..i];
        var target := Apply(knight, KNIGHT_OFFSETS[i]);
        if OnBoard(target) {
          possibleMoves := possibleMoves + [target];
        }
      }
      assert KNIGHT_OFFSETS[..|KNIGHT_OFFSETS|] == KNIGHT_OFFSETS;
    }

    /** `handleCellClick`: ignored unless a game is running and not paused,
        refused unless the square is a legal move; otherwise the knight moves
        there, takes the queen standing there (100 points), completes the
        level when it was the last queen, and its moves are recomputed. */
    method HandleCellClick(target: Square) returns (r: ClickResult)
      requires Valid()
      modifies this
      ensures Valid()
      ensures r == Ignored <==> !old(gameStarted) || old(gamePaused)
      ensures r == NotLegal <==> old(gameStarted) && !old(gamePaused) && target !in old(possibleMoves)
      ensures r == Ignored || r == NotLegal ==> unchanged(this)
      ensures r != Ignored && r != NotLegal ==>
        old(knightPosition).Some? && IsKnightStep(old(knightPosition).value, target)
        && knightPosition == Some(target) && possibleMoves == KnightMoves(target)
      ensures r == Moved <==> r != Ignored && r != NotLegal && target !in old(queenPositions)
      ensures r == Moved ==>
        queenPositions == old(queenPositions) && score == old(score) && levelScore == old(levelScore)
        && timerActive == old(timerActive)
      ensures r.Captured? || r.Completed? ==>
        target in old(queenPositions) && |queenPositions| == |old(queenPositions)| - 1
        && (forall q :: q in queenPositions <==> q in old(queenPositions) && q != target)
        && levelScore == old(levelScore) + SCORE_PER_QUEEN
      ensures r.Captured? ==>
        queenPositions != [] && score == old(score) + SCORE_PER_QUEEN && timerActive == old(timerActive)
      ensures r.Completed? ==>
        queenPositions == [] && !timerActive
        && score == old(score) + SCORE_PER_QUEEN + LevelBonus(timeRemaining)
        && r.completion == Ending(currentLevel, levelScore + LevelBonus(timeRemaining), score)
      ensures gameStarted == old(gameStarted) && gamePaused == old(gamePaused)
      ensures currentLevel == old(currentLevel) && timeRemaining == old(timeRemaining)
    {
      if !gameStarted || gamePaused {
        return Ignored;
      }
      if target !in possibleMoves {
        return NotLegal;
      }
      KnightMovesExact(knightPosition.value, target);
      knightPosition := Some(target);
      r := Moved;
      var queenIndex := IndexOf(queenPositions, target);
      if queenIndex != -1 {
        RemoveAtValid(queenPositions, queenIndex);
        queenPositions := queenPositions[..queenIndex] + queenPositions[queenIndex + 1..];
        UpdateScore(SCORE_PER_QUEEN);
        r := Captured;
        if |queenPositions| == 0 {
          var c := CompleteLevel();
          r := Completed(c);
        }
      }
      CalculatePossibleMoves();
    }

    /** `startTimer`: the old interval is cleared before a new one is set, so
        at most one runs. */
    method StartTimer()
      modifies this`timerActive
      ensures timerActive
    {
      timerActive := true;
    }

    /** One firing of the one-second interval. A cleared interval never
        fires; while paused the callback does nothing; otherwise one second
        is taken off and the game ends when the time is up. */
    method Tick()
      requires Valid()
      modifies this
      ensures Valid()
      ensures !old(timerActive) || old(gamePaused) ==> unchanged(this)
      ensures old(timerActive) && !old(gamePaused) ==>
        timeRemaining == old(timeRemaining) - 1
        && (timerActive <==> timeRemaining > 0)
        && (timeRemaining == 0 ==> !gameStarted && !gamePaused)
        && (timeRemaining > 0 ==> gameStarted == old(gameStarted) && !gamePaused)
      ensures score == old(score) && levelScore == old(levelScore) && currentLevel == old(currentLevel)
      ensures knightPosition == old(knightPosition) && queenPositions == old(queenPositions)
      ensures possibleMoves == old(possibleMoves)
    {
      if timerActive && !gamePaused {
        timeRemaining := timeRemaining - 1;
        if timeRemaining <= 0 {
          GameOver();
        }
      }
    }

    /** `updateScore`: the points go to both the total and the level score. */
    method UpdateScore(points: int)
      modifies this`score, this`levelScore
      ensures score == old(score) + points && levelScore == old(levelScore) + points
    {
      score := score + points;
      levelScore := levelScore + points;
    }

    /** `pauseGame`: only a started game can be paused. */
    method PauseGame()
      modifies this`gamePaused
      ensures gamePaused == (old(gamePaused) || gameStarted)
    {
      if !gameStarted {
        return;
      }
      gamePaused := true;
    }

    /** `resumeGame`: unconditionally unpaused. */
    method ResumeGame()
      modifies this`gamePaused
      ensures !gamePaused
    {
      gamePaused := false;
    }

    /** `completeLevel`: the timer stops and the time and completion bonuses
        go to the total score only; the level score keeps the capture points
        and the bonus-inclusive level total is only reported. */
    method CompleteLevel() returns (c: Completion)
      modifies this`timerActive, this`score
      ensures !timerActive
      ensures score == old(score) + LevelBonus(timeRemaining)
      ensures c == Ending(currentLevel, levelScore + LevelBonus(timeRemaining), score)
    {
      timerActive := false;
      var timeBonus := timeRemaining * TIME_BONUS_FACTOR;
      var totalLevelScore := levelScore + timeBonus + LEVEL_COMPLETION_BONUS;
      score := score + timeBonus + LEVEL_COMPLETION_BONUS;
      if currentLevel < |LEVELS| {
        c := LevelCleared(currentLevel, totalLevelScore, score);
      } else {
        c := AllLevelsCleared(totalLevelScore, score);
      }
    }

    /** `nextLevel`: one level up with the level score zeroed; the knight
        stays where it is. Past the last level the lookup throws after the
        two counters changed. */
    method NextLevel(startIndex: StartIndex, samples: seq<Square>) returns (ok: bool)
      requires Valid()
      requires forall s :: s in samples ==> OnBoard(s)
      modifies this
      ensures Valid()
      ensures currentLevel == old(currentLevel) + 1 && levelScore == 0
      ensures ok <==> currentLevel <= |LEVELS|
      ensures !ok ==>
        timeRemaining == old(timeRemaining) && timerActive == old(timerActive)
        && knightPosition == old(knightPosition) && queenPositions == old(queenPositions)
        && possibleMoves == old(possibleMoves)
      ensures ok ==>
        timeRemaining == LEVELS[currentLevel - 1].time && timerActive
        && knightPosition == (if old(knightPosition).None? then Some(KNIGHT_START_POSITIONS[startIndex]) else old(knightPosition))
        && queenPositions == Placement(knightPosition.value, LEVELS[currentLevel - 1].queens, samples)
      ensures gameStarted == old(gameStarted) && gamePaused == old(gamePaused) && score == old(score)
    {
      currentLevel := currentLevel + 1;
      levelScore := 0;
      ok := StartLevel(currentLevel, startIndex, samples);
    }

    /** `gameOver`: the timer stops and the game is no longer running. */
    method GameOver()
      modifies this`timerActive, this`gameStarted, this`gamePaused
      ensures !timerActive && !gameStarted && !gamePaused
    {
      timerActive := false;
      gameStarted := false;
      gamePaused := false;
    }

    /** `restartGame`: level 1, both scores zeroed and the knight drawn anew. */
    method RestartGame(startIndex: StartIndex, samples: seq<Square>)
      requires Valid()
      requires forall s :: s in samples ==> OnBoard(s)
      modifies this
      ensures Valid()
      ensures gameStarted && !gamePaused && currentLevel == 1 && score == 0 && levelScore == 0
      ensures knightPosition == Some(KNIGHT_START_POSITIONS[startIndex])
      ensures timeRemaining == LEVELS[0].time && timerActive
      ensures queenPositions == Placement(knightPosition.value, LEVELS[0].queens, samples)
    {
      knightPosition := None;
      gameStarted := true;
      gamePaused := false;
      currentLevel := 1;
      score := 0;
      levelScore := 0;
      var ok := StartLevel(currentLevel, startIndex, samples);
    }
  }

  /** A level with one queen a knight's move away and 120 seconds left:
      taking it completes level 1 with 100 + 120 * 5 + 500 points. */
  method SingleQueenLevel() returns (r: ClickResult, total: int)
    ensures r == Completed(LevelCleared(1, 1200, 1200)) && total == 1200
  {
    var g := new Game();
    g.gameStarted, g.currentLevel := true, 1;
    g.timeRemaining, g.timerActive := 120, true;
    g.knightPosition := Some(Square(0, 1));
    g.queenPositions := [Square(2, 2)];
    g.CalculatePossibleMoves();
    KnightMovesExact(Square(0, 1), Square(2, 2));
    r := g.HandleCellClick(Square(2, 2));
    total := g.score;
  }

  /** The interval keeps firing while a game runs unpaused: after exactly as
      many ticks as there were seconds left the game is over, with the score
      untouched. */
  method RunOutTheClock(g: Game) returns (ticks: nat)
    requires g.Valid() && g.timerActive && !g.gamePaused
    modifies g
    ensures g.Valid()
    ensures ticks == old(g.timeRemaining) && g.timeRemaining == 0
    ensures !g.gameStarted && !g.gamePaused && !g.timerActive
    ensures g.score == old(g.score) && g.levelScore == old(g.levelScore)
  {
    ticks := 0;
    while g.timerActive
      invariant g.Valid() && !g.gamePaused
      invariant ticks + g.timeRemaining == old(g.timeRemaining)
      invariant !g.timerActive ==> g.timeRemaining == 0 && !g.gameStarted
      invariant g.score == old(g.score) && g.levelScore == old(g.levelScore)
      decreases g.timeRemaining
    {
      g.Tick();
      ticks := ticks + 1;
    }
  }
}
