/** The AI opponent of com.chessgame.player.aiopponent run on ChessBoard objects:
    EvaluateBoardScore asks the board's players for their pieces, moves, check and
    castling state, and Minimax walks the tree of boards makeMove creates. Each method
    is proved to answer what the functions of Evaluation and Search describe, starting
    from the hasCastled flags the board's players hold when it is called. */
module AiOpponent {
  import opened Wrappers
  import opened Teams
  import opened Moves
  import Rules
  import Status
  import Evaluation
  import Search
  import opened Engine

  // ---------------------------------------------------------------- EvaluateBoardScore

  /** playerScore: material, mobility, the check bonus, the mate bonus (which runs the
      opponent's isCheckMate and may mark the board's mover as castled) and the castling
      bonus, added left to right. */
  method PlayerScore(board: ChessBoard, player: Player, level: int) returns (r: Result<int>)
    requires board.Valid() && board.HasPlayer(player)
    modifies board.currentMovingPlayer
    ensures Answers(r, Evaluation.PlayerScore(board.State(), player.team, level, old(board.CastledFlags())),
                    board.CastledFlags())
    ensures Status.OnlyMoverMarked(old(board.CastledFlags()), board.CastledFlags(), board.State().mover)
  {
    var points := Evaluation.PiecesPoints(board.ActivePiecesOf(player));
    var moveOptions := |player.legalMoves|;
    var opponent := board.OpponentOf(player);
    var checkStatus := if opponent.isInCheck then Evaluation.CheckScore else 0;
    Evaluation.PlayerScoreFromMate(board.State(), player.team, level, board.CastledFlags(), points + moveOptions + checkStatus,
                                   Evaluation.OpponentCheckMateStatus(board.State(), player.team, level, board.CastledFlags()));
    var mate :- IsCheckMate(board, opponent);
    var checkMateStatus := if mate then Evaluation.CheckMateScore * Evaluation.TreeLevelMultiplicator(level) else 0;
    var castledScore := if player.IsCastled() then Evaluation.CastledScore else 0;
    return Ok(points + moveOptions + checkStatus + checkMateStatus + castledScore);
  }

  /** score: White's playerScore minus Black's, White's computed first. */
  method Score(board: ChessBoard, level: int) returns (r: Result<int>)
    requires board.Valid()
    modifies board.currentMovingPlayer
    ensures Answers(r, Evaluation.Score(board.State(), level, old(board.CastledFlags())), board.CastledFlags())
    ensures Status.OnlyMoverMarked(old(board.CastledFlags()), board.CastledFlags(), board.State().mover)
  {
    var white :- PlayerScore(board, board.whitePlayer, level);
    var black :- PlayerScore(board, board.blackPlayer, level);
    return Ok(white - black);
  }

  // ---------------------------------------------------------------- Minimax

  /** isGameOver: the current mover's isCheckMate, or else its isStaleMate. */
  method IsGameOver(board: ChessBoard) returns (r: Result<bool>)
    requires board.Valid()
    modifies board.currentMovingPlayer
    ensures Answers(r, Search.GameOver(board.State(), old(board.CastledFlags())), board.CastledFlags())
    ensures Status.OnlyMoverMarked(old(board.CastledFlags()), board.CastledFlags(), board.State().mover)
  {
    var mate :- IsCheckMate(board, board.currentMovingPlayer);
    if mate {
      return Ok(true);
    }
    r := IsStaleMate(board, board.currentMovingPlayer);
  }

  /** The Minimax opponent, which scores its leaves with EvaluateBoardScore. */
  class Minimax {
    const treeLevel: int

    constructor(treeLevel: int)
      ensures this.treeLevel == treeLevel
    {
      this.treeLevel := treeLevel;
    }

    /** runAlgorithm: makeMove on each legal move of the current mover; each completed
        move is valued one level down, by minValue with White to move and by maxValue
        with Black, and the move whose value is `>=` the highest so far (White) or `<=`
        the lowest so far (Black) becomes the best move. None stands for null. */
    method RunAlgorithm(board: ChessBoard) returns (r: Result<Option<Move>>)
      requires board.Valid() && treeLevel >= 1
      modifies board.currentMovingPlayer
      ensures r == Search.RunAlgorithmSpec(board.State(), treeLevel)
      ensures Status.OnlyMoverMarked(old(board.CastledFlags()), board.CastledFlags(), board.State().mover)
    {
      var moves := board.currentMovingPlayer.legalMoves;
      var whiteMoves := board.currentMovingPlayer.team == White;
      Rules.LegalMovesOnBoard(board.State(), board.State().mover);
      r := BestMove(board, moves, whiteMoves);
    }

    /** The loop of runAlgorithm over the mover's legal moves `moves`. */
    method BestMove(board: ChessBoard, moves: seq<Move>, whiteMoves: bool) returns (r: Result<Option<Move>>)
      requires board.Valid() && treeLevel >= 1
      requires moves == Rules.LegalMoves(board.State(), board.State().mover)
      requires whiteMoves == (board.State().mover == White)
      modifies board.currentMovingPlayer
      ensures Status.ValidUpdates(Status.Attempts(board.State(), board.State().mover, moves))
      ensures r == Search.RootChoice(moves, Search.ChildValues(Status.Attempts(board.State(), board.State().mover, moves), treeLevel, !whiteMoves), whiteMoves)
      ensures Status.OnlyMoverMarked(old(board.CastledFlags()), board.CastledFlags(), board.State().mover)
    {
      ghost var b := board.State();
      Status.AttemptsValid(b, b.mover, moves);
      ghost var values := Search.ChildValues(Status.Attempts(b, b.mover, moves), treeLevel, !whiteMoves);
      assert |values| == |moves|;
      ghost var target := Search.BestFrom(values, 0, whiteMoves, None, Search.IntMin, Search.IntMax);
      ghost var flags := board.CastledFlags();
      var choice := Search.Choice(None, None, Search.IntMin, Search.IntMax);
      for i := 0 to |moves|
        invariant Search.Tracks(moves, choice)
        invariant Status.OnlyMoverMarked(flags, board.CastledFlags(), b.mover)
        invariant Search.BestFrom(values, i, whiteMoves, choice.best, choice.highest, choice.lowest) == target
      {
        var step := RootStep(board, moves, i, whiteMoves, choice, target);
        if step.Thrown? {
          return Thrown(step.reason);
        }
        choice := step.value;
      }
      Search.LoopChoice(moves, values, whiteMoves, choice);
      return Ok(choice.bestMove);
    }

    /** One pass of the loop of runAlgorithm: the i-th move is valued, and it becomes
        the best move when its value is at least as good as the best so far. */
    method RootStep(board: ChessBoard, moves: seq<Move>, i: nat, whiteMoves: bool, c: Search.Choice,
                    ghost target: Result<Option<nat>>) returns (r: Result<Search.Choice>)
      requires board.Valid() && treeLevel >= 1
      requires moves == Rules.LegalMoves(board.State(), board.State().mover) && i < |moves|
      requires Status.ValidUpdates(Status.Attempts(board.State(), board.State().mover, moves))
      requires Search.Tracks(moves, c)
      requires var values := Search.ChildValues(Status.Attempts(board.State(), board.State().mover, moves), treeLevel, !whiteMoves);
               Search.BestFrom(values, i, whiteMoves, c.best, c.highest, c.lowest) == target
      modifies board.currentMovingPlayer
      ensures r.Ok? ==> Search.Tracks(moves, r.value)
      ensures r.Thrown? ==> target == Thrown(r.reason)
      ensures var values := Search.ChildValues(Status.Attempts(board.State(), board.State().mover, moves), treeLevel, !whiteMoves);
              r.Ok? ==> Search.BestFrom(values, i + 1, whiteMoves, r.value.best, r.value.highest, r.value.lowest) == target
      ensures Status.OnlyMoverMarked(old(board.CastledFlags()), board.CastledFlags(), board.State().mover)
    {
      ghost var b := board.State();
      ghost var values := Search.ChildValues(Status.Attempts(b, b.mover, moves), treeLevel, !whiteMoves);
      var value := RootValue(board, moves, i, treeLevel, !whiteMoves);
      Search.BestStep(values, i, whiteMoves, c.best, c.highest, c.lowest, value);
      var currentValue :- value;
      if currentValue.Some? {
        if whiteMoves && currentValue.value >= c.highest {
          return Ok(Search.Choice(Some(moves[i]), Some(i), currentValue.value, c.lowest));
        } else if !whiteMoves && currentValue.value <= c.lowest {
          return Ok(Search.Choice(Some(moves[i]), Some(i), c.highest, currentValue.value));
        }
      }
      return Ok(c);
    }

    /** The value of the i-th of the mover's legal moves one level down. */
    method RootValue(board: ChessBoard, moves: seq<Move>, i: nat, level: nat, childMaximizes: bool)
      returns (r: Result<Option<int>>)
      requires board.Valid() && level >= 1
      requires moves == Rules.LegalMoves(board.State(), board.State().mover) && i < |moves|
      requires Status.ValidUpdates(Status.Attempts(board.State(), board.State().mover, moves))
      modifies board.currentMovingPlayer
      ensures r == Search.ChildValues(Status.Attempts(board.State(), board.State().mover, moves), level, childMaximizes)[i]
      ensures Status.OnlyMoverMarked(old(board.CastledFlags()), board.CastledFlags(), board.State().mover)
      decreases level, 1
    {
      ghost var b := board.State();
      Status.AttemptsAreMakeMoves(b, b.mover, moves, i);
      Status.ValidUpdatesAt(Status.Attempts(b, b.mover, moves), i);
      Search.ChildValuesAre(Status.Attempts(b, b.mover, moves), level, childMaximizes, i);
      r := NextValue(board, moves[i], level, childMaximizes);
    }

    /** makeMove on `m` for the current mover, and, when it completes, the value of the
        new board one level down: by maxValue when `childMaximizes`, else by minValue. */
    method NextValue(board: ChessBoard, m: Move, level: nat, childMaximizes: bool) returns (r: Result<Option<int>>)
      requires board.Valid() && WellFormed(m) && level >= 1
      modifies board.currentMovingPlayer
      ensures r == Search.ChildValue(Rules.MakeMoveSpec(board.State(), board.State().mover, m), level, childMaximizes)
      ensures Status.OnlyMoverMarked(old(board.CastledFlags()), board.CastledFlags(), board.State().mover)
      decreases level, 1
    {
      var made := MakeMove(board, board.currentMovingPlayer, m);
      if made.Thrown? {
        return Thrown(made.reason);
      }
      var update := made.value;
      if update.moveStatus != Completed {
        return Ok(None);
      }
      var next := update.updatedBoard;
      assert next.currentMovingPlayer != board.whitePlayer && next.currentMovingPlayer != board.blackPlayer;
      r := ValueOf(next, level, childMaximizes);
    }

    /** The value of a completed makeMove's new board one level down; its players have
        not castled yet. */
    method ValueOf(board: ChessBoard, level: nat, childMaximizes: bool) returns (r: Result<Option<int>>)
      requires level >= 1 && board.Valid() && board.CastledFlags() == Status.NoFlags
      modifies board.currentMovingPlayer
      ensures r == Search.ChildValue(Ok(Rules.BoardUpdate(board.State(), Completed)), level, childMaximizes)
      ensures Status.OnlyMoverMarked(old(board.CastledFlags()), board.CastledFlags(), board.State().mover)
      decreases level, 0
    {
      var below := Search.LevelBelow(level);
      Search.CompletedChildValue(board.State(), level, childMaximizes);
      var v := ValueBelow(board, below, childMaximizes);
      r := if v.Ok? then Ok(Some(v.value)) else Thrown(v.reason);
    }

    /** maxValue of the board when `maximizes`, else minValue. */
    method ValueBelow(board: ChessBoard, level: nat, maximizes: bool) returns (r: Result<int>)
      requires board.Valid()
      modifies board.currentMovingPlayer
      ensures r == Search.ValueAt(board.State(), level, old(board.CastledFlags()), maximizes)
      ensures Status.OnlyMoverMarked(old(board.CastledFlags()), board.CastledFlags(), board.State().mover)
      decreases level, 5
    {
      if maximizes {
        r := MaxValue(board, level);
      } else {
        r := MinValue(board, level);
      }
    }

    /** minValue: the score at level 0 or when the game is over, else the lowest value
        of the completed moves one level down. */
    method MinValue(board: ChessBoard, level: nat) returns (r: Result<int>)
      requires board.Valid()
      modifies board.currentMovingPlayer
      ensures r == Search.MinValueSpec(board.State(), level, old(board.CastledFlags()))
      ensures Status.OnlyMoverMarked(old(board.CastledFlags()), board.CastledFlags(), board.State().mover)
      decreases level, 4
    {
      if level == 0 {
        r := Score(board, level);
        return;
      }
      var over :- IsGameOver(board);
      if over {
        r := Score(board, level);
        return;
      }
      r := MinLoop(board, level);
    }

    /** maxValue: the score at level 0 or when the game is over, else the highest value
        of the completed moves one level down. */
    method MaxValue(board: ChessBoard, level: nat) returns (r: Result<int>)
      requires board.Valid()
      modifies board.currentMovingPlayer
      ensures r == Search.MaxValueSpec(board.State(), level, old(board.CastledFlags()))
      ensures Status.OnlyMoverMarked(old(board.CastledFlags()), board.CastledFlags(), board.State().mover)
      decreases level, 4
    {
      if level == 0 {
        r := Score(board, level);
        return;
      }
      var over :- IsGameOver(board);
      if over {
        r := Score(board, level);
        return;
      }
      r := MaxLoop(board, level);
    }

    /** The loop of minValue, from Integer.MAX_VALUE. */
    method MinLoop(board: ChessBoard, level: nat) returns (r: Result<int>)
      requires board.Valid() && level >= 1
      modifies board.currentMovingPlayer
      ensures r == Search.MinSearch(board.State(), level)
      ensures Status.OnlyMoverMarked(old(board.CastledFlags()), board.CastledFlags(), board.State().mover)
      decreases level, 3
    {
      ghost var b := board.State();
      var rest := board.currentMovingPlayer.legalMoves;
      board.MoverMoves();
      Rules.LegalMovesOnBoard(b, b.mover);
      Status.AttemptsValid(b, b.mover, rest);
      ghost var flags := board.CastledFlags();
      var currentLowestValue := Search.IntMax;
      while rest != []
        invariant forall j :: 0 <= j < |rest| ==> WellFormed(rest[j])
        invariant Status.OnlyMoverMarked(flags, board.CastledFlags(), b.mover)
        invariant Status.ValidUpdates(Status.Attempts(b, b.mover, rest))
        invariant Search.Lowest(Search.ChildValues(Status.Attempts(b, b.mover, rest), level, true), currentLowestValue) ==
                  Search.MinSearch(b, level)
        decreases |rest|
      {
        var step := MinStep(board, level, rest, currentLowestValue);
        if step.Thrown? {
          return Thrown(step.reason);
        }
        currentLowestValue := step.value;
        rest := rest[1..];
      }
      return Ok(currentLowestValue);
    }

    /** One turn of minValue's loop: makeMove on the first of `moves`, and, when it
        completes, maxValue of the new board one level down replaces the running lowest
        when it is `<=` it. */
    method MinStep(board: ChessBoard, level: nat, moves: seq<Move>, lowest: int) returns (r: Result<int>)
      requires board.Valid() && level >= 1 && moves != []
      requires forall j :: 0 <= j < |moves| ==> WellFormed(moves[j])
      requires Status.ValidUpdates(Status.Attempts(board.State(), board.State().mover, moves))
      modifies board.currentMovingPlayer
      ensures forall j :: 0 <= j < |moves| - 1 ==> WellFormed(moves[1..][j])
      ensures Status.ValidUpdates(Status.Attempts(board.State(), board.State().mover, moves[1..]))
      ensures var b := board.State();
              Search.Lowest(Search.ChildValues(Status.Attempts(b, b.mover, moves), level, true), lowest) ==
                if r.Thrown? then Thrown(r.reason)
                else Search.Lowest(Search.ChildValues(Status.Attempts(b, b.mover, moves[1..]), level, true), r.value)
      ensures Status.OnlyMoverMarked(old(board.CastledFlags()), board.CastledFlags(), board.State().mover)
      decreases level, 2
    {
      ghost var b := board.State();
      ghost var attempts := Status.Attempts(b, b.mover, moves);
      Status.AttemptsStep(b, b.mover, moves);
      var currentValue := NextValue(board, moves[0], level, true);
      Search.LowestStep(attempts, level, lowest, currentValue);
      if currentValue.Thrown? {
        return Thrown(currentValue.reason);
      }
      if currentValue.value.Some? && currentValue.value.value <= lowest {
        return Ok(currentValue.value.value);
      }
      return Ok(lowest);
    }

    /** The loop of maxValue, from Integer.MIN_VALUE. */
    method MaxLoop(board: ChessBoard, level: nat) returns (r: Result<int>)
      requires board.Valid() && level >= 1
      modifies board.currentMovingPlayer
      ensures r == Search.MaxSearch(board.State(), level)
      ensures Status.OnlyMoverMarked(old(board.CastledFlags()), board.CastledFlags(), board.State().mover)
      decreases level, 3
    {
      ghost var b := board.State();
      var rest := board.currentMovingPlayer.legalMoves;
      board.MoverMoves();
      Rules.LegalMovesOnBoard(b, b.mover);
      Status.AttemptsValid(b, b.mover, rest);
      ghost var flags := board.CastledFlags();
      var currentHighestValue := Search.IntMin;
      while rest != []
        invariant forall j :: 0 <= j < |rest| ==> WellFormed(rest[j])
        invariant Status.OnlyMoverMarked(flags, board.CastledFlags(), b.mover)
        invariant Status.ValidUpdates(Status.Attempts(b, b.mover, rest))
        invariant Search.Highest(Search.ChildValues(Status.Attempts(b, b.mover, rest), level, false), currentHighestValue) ==
                  Search.MaxSearch(b, level)
        decreases |rest|
      {
        var step := MaxStep(board, level, rest, currentHighestValue);
        if step.Thrown? {
          return Thrown(step.reason);
        }
        currentHighestValue := step.value;
        rest := rest[1..];
      }
      return Ok(currentHighestValue);
    }

    /** One turn of maxValue's loop: makeMove on the first of `moves`, and, when it
        completes, minValue of the new board one level down replaces the running highest
        when it is `>=` it. */
    method MaxStep(board: ChessBoard, level: nat, moves: seq<Move>, highest: int) returns (r: Result<int>)
      requires board.Valid() && level >= 1 && moves != []
      requires forall j :: 0 <= j < |moves| ==> WellFormed(moves[j])
      requires Status.ValidUpdates(Status.Attempts(board.State(), board.State().mover, moves))
      modifies board.currentMovingPlayer
      ensures forall j :: 0 <= j < |moves| - 1 ==> WellFormed(moves[1..][j])
      ensures Status.ValidUpdates(Status.Attempts(board.State(), board.State().mover, moves[1..]))
      ensures var b := board.State();
              Search.Highest(Search.ChildValues(Status.Attempts(b, b.mover, moves), level, false), highest) ==
                if r.Thrown? then Thrown(r.reason)
                else Search.Highest(Search.ChildValues(Status.Attempts(b, b.mover, moves[1..]), level, false), r.value)
      ensures Status.OnlyMoverMarked(old(board.CastledFlags()), board.CastledFlags(), board.State().mover)
      decreases level, 2
    {
      ghost var b := board.State();
      ghost var attempts := Status.Attempts(b, b.mover, moves);
      Status.AttemptsStep(b, b.mover, moves);
      var currentValue := NextValue(board, moves[0], level, false);
      Search.HighestStep(attempts, level, highest, currentValue);
      if currentValue.Thrown? {
        return Thrown(currentValue.reason);
      }
      if currentValue.value.Some? && currentValue.value.value >= highest {
        return Ok(currentValue.value.value);
      }
      return Ok(highest);
    }
  }
}
