/** The board evaluators of com.chessgame.player.aiopponent. EvaluateBoardScore, the one
    Minimax uses, adds up material, mobility and the check, checkmate and castling
    bonuses of each side; InitialBoardScore counts material only. Both answer White's
    score minus Black's, so a positive score favours White and a negative one Black. */
module Evaluation {
  import opened Wrappers
  import opened Teams
  import opened Pieces
  import opened Boards
  import opened Rules
  import opened Status

  const CheckScore := 50
  const CheckMateScore := 10000
  const CastledScore := 60

  // ---------------------------------------------------------------- material

  /** The piece points of `pieces`, added up. Every piece is worth between a pawn and
      a king. */
  function Material(pieces: seq<Piece>): (sum: int)
    ensures PiecePoints(Pawn) * |pieces| <= sum <= PiecePoints(King) * |pieces|
  {
    if pieces == [] then 0
    else Material(pieces[..|pieces| - 1]) + Points(pieces[|pieces| - 1])
  }

  /** piecesPoints: the running sum over the player's active pieces. */
  method PiecesPoints(pieces: seq<Piece>) returns (currentSum: int)
    ensures currentSum == Material(pieces)
  {
    currentSum := 0;
    for i := 0 to |pieces|
      invariant currentSum == Material(pieces[..i])
    {
      assert pieces[..i + 1][..i] == pieces[..i];
      currentSum := currentSum + Points(pieces[i]);
    }
    assert pieces[..|pieces|] == pieces;
  }

  /** Each piece counts on its own: the material of a list does not depend on how the
      list is split. */
  lemma {:induction false} MaterialSplits(front: seq<Piece>, back: seq<Piece>)
    ensures Material(front + back) == Material(front) + Material(back)
    decreases |back|
  {
    if back == [] {
      assert front + back == front;
    } else {
      var whole := front + back;
      assert whole[..|whole| - 1] == front + back[..|back| - 1];
      MaterialSplits(front, back[..|back| - 1]);
    }
  }

  /** No piece is worth more than the list it is in. */
  lemma {:induction false} MaterialAtLeast(pieces: seq<Piece>, k: int)
    requires 0 <= k < |pieces|
    ensures Material(pieces) >= Points(pieces[k])
    decreases |pieces|
  {
    var init := pieces[..|pieces| - 1];
    if k < |pieces| - 1 {
      MaterialAtLeast(init, k);
      assert init[k] == pieces[k];
    }
  }

  /** A side that still has its king is worth at least the king's points. */
  lemma KingWeighs(b: Board, team: Team)
    requires Valid(b)
    ensures Material(ActivePieces(b, team)) >= PiecePoints(King)
  {
    var pieces := PiecesOf(b.squares, team);
    FirstKingIsFirst(pieces);
    var k :| 0 <= k < |pieces| && pieces[k] == FirstKing(pieces).value;
    MaterialAtLeast(pieces, k);
  }

  // ---------------------------------------------------------------- EvaluateBoardScore

  /** treeLevelMultiplicator: 1 at level 0, else 100 times the level. */
  function TreeLevelMultiplicator(level: int): (mult: int)
  {
    if level == 0 then 1 else 100 * level
  }

  /** opponentCheckStatus: the check bonus, when the opponent's isCheck holds. */
  function OpponentCheckStatus(b: Board, team: Team): (bonus: int)
    requires Valid(b)
  {
    if IsInCheck(b, Opponent(team)) then CheckScore else 0
  }

  /** opponentCheckMateStatus: the mate bonus, scaled by the level, when the opponent's
      isCheckMate holds. Asking runs the opponent's escape search, which may mark the
      board's mover as castled; the flags after it come back too. */
  function OpponentCheckMateStatus(b: Board, team: Team, level: int, flags: Flags): Result<(int, Flags)>
    requires Valid(b)
  {
    var mate :- IsCheckMate(b, Opponent(team), flags);
    Ok((if mate.0 then CheckMateScore * TreeLevelMultiplicator(level) else 0, mate.1))
  }

  /** hasCastledScore: the castling bonus, when the player's isCastled holds. */
  function HasCastledScore(flags: Flags, team: Team): int
  {
    if Castled(flags, team) then CastledScore else 0
  }

  /** playerScore: the five components, added left to right. Only the mate bonus has an
      effect (on the flags) and may throw, and it is asked before isCastled is read. */
  function PlayerScore(b: Board, team: Team, level: int, flags: Flags): Result<(int, Flags)>
    requires Valid(b)
  {
    var mate :- OpponentCheckMateStatus(b, team, level, flags);
    Ok((Material(ActivePieces(b, team)) + |LegalMoves(b, team)| + OpponentCheckStatus(b, team) + mate.0 +
        HasCastledScore(mate.1, team), mate.1))
  }

  /** playerScore once the mate bonus is known: the other parts do not depend on the
      flags, and the castling bonus is read from the flags the mate bonus leaves. */
  lemma PlayerScoreFromMate(b: Board, team: Team, level: int, flags: Flags, unmated: int, mate: Result<(int, Flags)>)
    requires Valid(b)
    requires unmated == Material(ActivePieces(b, team)) + |LegalMoves(b, team)| + OpponentCheckStatus(b, team)
    requires mate == OpponentCheckMateStatus(b, team, level, flags)
    ensures PlayerScore(b, team, level, flags).Ok? == mate.Ok?
    ensures mate.Thrown? ==> PlayerScore(b, team, level, flags).reason == mate.reason
    ensures mate.Ok? ==>
              PlayerScore(b, team, level, flags).value.0 == unmated + mate.value.0 + HasCastledScore(mate.value.1, team) &&
              PlayerScore(b, team, level, flags).value.1 == mate.value.1
  {
  }

  /** A mate found with more levels left to search weighs more: at a deeper remaining
      level the same position scores the player strictly higher exactly when the
      opponent is mated, and the same otherwise, with the same flags left. */
  lemma SoonerMateScoresHigher(b: Board, team: Team, level: int, deeper: int, flags: Flags)
    requires Valid(b) && 0 <= level < deeper
    ensures PlayerScore(b, team, deeper, flags).Ok? == PlayerScore(b, team, level, flags).Ok?
    ensures PlayerScore(b, team, level, flags).Ok? ==>
              PlayerScore(b, team, deeper, flags).value.1 == PlayerScore(b, team, level, flags).value.1 &&
              PlayerScore(b, team, deeper, flags).value.0 >= PlayerScore(b, team, level, flags).value.0 &&
              (PlayerScore(b, team, deeper, flags).value.0 > PlayerScore(b, team, level, flags).value.0 <==>
               IsCheckMate(b, Opponent(team), flags).value.0)
  {
    var unmated := Material(ActivePieces(b, team)) + |LegalMoves(b, team)| + OpponentCheckStatus(b, team);
    var low := OpponentCheckMateStatus(b, team, level, flags);
    var high := OpponentCheckMateStatus(b, team, deeper, flags);
    PlayerScoreFromMate(b, team, level, flags, unmated, low);
    PlayerScoreFromMate(b, team, deeper, flags, unmated, high);
    var mate := IsCheckMate(b, Opponent(team), flags);
    if mate.Ok? {
      assert low.value.1 == high.value.1;
      assert PlayerScore(b, team, deeper, flags).value.0 - PlayerScore(b, team, level, flags).value.0 ==
             high.value.0 - low.value.0;
      if mate.value.0 {
        assert TreeLevelMultiplicator(level) < TreeLevelMultiplicator(deeper);
        assert low.value.0 < high.value.0;
      }
    }
  }

  /** score: White's playerScore minus Black's, White's computed first. */
  function Score(b: Board, level: int, flags: Flags): Result<(int, Flags)>
    requires Valid(b)
  {
    var white :- PlayerScore(b, White, level, flags);
    var black :- PlayerScore(b, Black, level, white.1);
    Ok((white.0 - black.0, black.1))
  }

  /** What a player's score is made of: its material, its number of legal moves
      (castles included), 50 when the opponent is in check, 10000 times the multiplier
      when the opponent is in check and no move of the opponent completes, and 60 when
      the player is marked castled once the opponent's escape search is over. */
  lemma PlayerScoreParts(b: Board, team: Team, level: int, flags: Flags)
    requires Valid(b)
    ensures PlayerScore(b, team, level, flags).Ok? ==>
              PlayerScore(b, team, level, flags).value.0 ==
                Material(ActivePieces(b, team)) + |LegalMoves(b, team)| +
                (if IsInCheck(b, Opponent(team)) then 50 else 0) +
                (if IsInCheck(b, Opponent(team)) && NoMoveCompletes(b, Opponent(team))
                 then 10000 * TreeLevelMultiplicator(level) else 0) +
                (if Castled(PlayerScore(b, team, level, flags).value.1, team) then 60 else 0)
  {
    MateMeansNoCompletedMove(b, Opponent(team), flags, flags);
  }

  /** Scoring a player may mark only the board's mover as castled (through the
      opponent's escape search), and never clears a flag. */
  lemma PlayerScoreFlags(b: Board, team: Team, level: int, flags: Flags)
    requires Valid(b)
    ensures PlayerScore(b, team, level, flags).Ok? ==>
              var after := PlayerScore(b, team, level, flags).value.1;
              (Castled(flags, White) ==> Castled(after, White)) &&
              (Castled(flags, Black) ==> Castled(after, Black)) &&
              Castled(after, Opponent(b.mover)) == Castled(flags, Opponent(b.mover))
  {
    var opponent := Opponent(team);
    if IsInCheck(b, opponent) {
      var moves := LegalMoves(b, opponent);
      var attempts := Attempts(b, opponent, moves);
      var marks := CastleMarks(b, opponent, moves);
      assert HasEscapeMove(b, opponent, flags) == EscapeScan(attempts, marks, b.mover, flags);
      EscapeScanFlags(attempts, marks, b.mover, flags, White);
      EscapeScanFlags(attempts, marks, b.mover, flags, Black);
    }
  }

  // ---------------------------------------------------------------- InitialBoardScore

  /** InitialBoardScore.score: White's material minus Black's; the level is not used. */
  function InitialScore(b: Board, level: int): int
    requires Placed(b.squares)
  {
    Material(ActivePieces(b, White)) - Material(ActivePieces(b, Black))
  }

  /** The material score is positive exactly when White has more material, negative
      exactly when Black has, zero when they are level, and the same at every level. */
  lemma InitialScoreMeaning(b: Board, level: int, otherLevel: int)
    requires Placed(b.squares)
    ensures InitialScore(b, level) > 0 <==> Material(ActivePieces(b, White)) > Material(ActivePieces(b, Black))
    ensures InitialScore(b, level) < 0 <==> Material(ActivePieces(b, White)) < Material(ActivePieces(b, Black))
    ensures InitialScore(b, level) == 0 <==> Material(ActivePieces(b, White)) == Material(ActivePieces(b, Black))
    ensures InitialScore(b, level) == InitialScore(b, otherLevel)
  {
  }

  /** InitialBoardScore.score computed with the piecesPoints loop for each player. */
  method InitialBoardScore(b: Board, treeLevel: int) returns (score: int)
    requires Placed(b.squares)
    ensures score == InitialScore(b, treeLevel)
  {
    var white := PiecesPoints(ActivePieces(b, White));
    var black := PiecesPoints(ActivePieces(b, Black));
    score := white - black;
  }
}
