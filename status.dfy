/** What a player's moves lead to: the outcomes of makeMove, the hasCastled flags, and
    the escape search behind checkmate and stalemate (com.chessgame.player.Player). */
module Status {
  import opened Wrappers
  import opened Teams
  import opened Boards
  import opened Moves
  import opened Execution
  import opened Rules

  /** The three outcomes of makeMove: an illegal move leaves the board, a legal move that
      exposes the mover's king leaves the board, and a completed move yields the executed
      board, with the other side to move and the king of the board's mover attacked by
      none of that side's moves. */
  lemma MakeMoveOutcomes(b: Board, team: Team, m: Move)
    requires Valid(b) && WellFormed(m)
    ensures MakeMoveSpec(b, team, m).Ok? && MakeMoveSpec(b, team, m).value.moveStatus == IllegalMove <==>
              !IsLegalMove(b, team, m)
    ensures MakeMoveSpec(b, team, m).Thrown? ==> IsLegalMove(b, team, m) && ExecuteSpec(b, m).Thrown?
    ensures MakeMoveSpec(b, team, m).Ok? && MakeMoveSpec(b, team, m).value.moveStatus != Completed ==>
              MakeMoveSpec(b, team, m).value.updatedBoard == b
    ensures MakeMoveSpec(b, team, m).Ok? && MakeMoveSpec(b, team, m).value.moveStatus == Completed ==>
              IsLegalMove(b, team, m) && TryMoveCompletes(b, m, MakeMoveSpec(b, team, m).value.updatedBoard)
  {
    if IsLegalMove(b, team, m) {
      TryMoveOutcomes(b, m);
    }
  }

  /** A legal move that is attempted throws exactly when its execution throws, never
      answers ILLEGAL_MOVE, and keeps the board unless it completes. */
  lemma TryMoveOutcomes(b: Board, m: Move)
    requires Valid(b) && WellFormed(m)
    ensures TryMoveSpec(b, m).Thrown? <==> ExecuteSpec(b, m).Thrown?
    ensures TryMoveSpec(b, m).Ok? ==> TryMoveSpec(b, m).value.moveStatus != IllegalMove
    ensures TryMoveSpec(b, m).Ok? && TryMoveSpec(b, m).value.moveStatus != Completed ==>
              TryMoveSpec(b, m).value.updatedBoard == b
    ensures TryMoveSpec(b, m).Ok? && TryMoveSpec(b, m).value.moveStatus == Completed ==>
              TryMoveCompletes(b, m, TryMoveSpec(b, m).value.updatedBoard)
  {
    if ExecuteSpec(b, m).Ok? && !LeavesKingAttacked(ExecuteSpec(b, m).value) {
      CompletedKingSafe(b, m);
    }
  }

  /** A completed attempt ends on the executed board, with the other side to move and
      the king of the side that moved reached by none of that side's moves. */
  predicate TryMoveCompletes(b: Board, m: Move, nb: Board)
    requires Valid(b) && WellFormed(m) && Valid(nb)
  {
    ExecuteSpec(b, m) == Ok(nb) && nb.mover == Opponent(b.mover) &&
    forall i :: 0 <= i < |LegalMoves(nb, nb.mover)| ==>
      Destination(LegalMoves(nb, nb.mover)[i]) != KingOf(nb, b.mover).position
  }

  lemma CompletedKingSafe(b: Board, m: Move)
    requires Valid(b) && WellFormed(m)
    requires ExecuteSpec(b, m).Ok? && !LeavesKingAttacked(ExecuteSpec(b, m).value)
    ensures TryMoveCompletes(b, m, ExecuteSpec(b, m).value)
  {
    var nb := ExecuteSpec(b, m).value;
    ExecuteHandsOver(b, m);
    TeamsComplementary(b.mover);
    AttackedIff(KingOf(nb, b.mover).position, LegalMoves(nb, nb.mover));
  }

  // ---------------------------------------------------------------- hasCastled

  /** The hasCastled fields of the two players of one board. */
  datatype Flags = Flags(whiteCastled: bool, blackCastled: bool)

  const NoFlags := Flags(false, false)

  function Castled(flags: Flags, team: Team): bool
  {
    if team == White then flags.whiteCastled else flags.blackCastled
  }

  /** castled(): the player's flag becomes true for good; the other player's is kept. */
  function MarkCastled(flags: Flags, team: Team): (marked: Flags)
    ensures Castled(marked, team)
    ensures Castled(marked, Opponent(team)) == Castled(flags, Opponent(team))
  {
    if team == White then flags.(whiteCastled := true) else flags.(blackCastled := true)
  }

  /** The flags a call leaves against those it found, when only castled() on the board's
      mover can run: the mover's flag may become true and is never cleared, and the
      other player's flag is kept. */
  predicate OnlyMoverMarked(before: Flags, after: Flags, mover: Team)
  {
    (Castled(before, mover) ==> Castled(after, mover)) &&
    Castled(after, Opponent(mover)) == Castled(before, Opponent(mover))
  }

  // ---------------------------------------------------------------- the escape search

  /** makeMove's attempt at each of `moves`, in order. */
  function Attempts(b: Board, team: Team, moves: seq<Move>): (attempts: seq<Result<BoardUpdate>>)
    requires Valid(b) && forall i :: 0 <= i < |moves| ==> WellFormed(moves[i])
    ensures |attempts| == |moves|
  {
    if moves == [] then [] else [MakeMoveSpec(b, team, moves[0])] + Attempts(b, team, moves[1..])
  }

  /** For each of `moves`, whether attempting it marks the board's mover as castled. */
  function CastleMarks(b: Board, team: Team, moves: seq<Move>): (marks: seq<bool>)
    requires Valid(b)
    ensures |marks| == |moves|
  {
    seq(|moves|, i requires 0 <= i < |moves| => IsLegalMove(b, team, moves[i]) && MarksCastled(moves[i]))
  }

  /** An attempt that completed. */
  predicate IsCompletedAttempt(attempt: Result<BoardUpdate>)
  {
    attempt.Ok? && attempt.value.moveStatus == Completed
  }

  /** The loop of hasEscapeMove, over the outcomes of its attempts in order: the first
      exception propagates, the first completed attempt answers true, and every castle
      tried on the way marks the board's mover. Attempts after the one that ends the
      loop are never looked at. */
  function EscapeScan(attempts: seq<Result<BoardUpdate>>, marks: seq<bool>, mover: Team, flags: Flags): (r: Result<(bool, Flags)>)
    requires |marks| == |attempts|
    decreases |attempts|
  {
    if |attempts| == 0 then Ok((false, flags))
    else
      var update :- attempts[0];
      var marked := if marks[0] then MarkCastled(flags, mover) else flags;
      if update.moveStatus == Completed then Ok((true, marked))
      else EscapeScan(attempts[1..], marks[1..], mover, marked)
  }

  /** The scan answers true exactly when some attempt completed, and it throws only the
      exception of an attempt that no completed attempt precedes. */
  lemma {:induction false} EscapeScanFinds(attempts: seq<Result<BoardUpdate>>, marks: seq<bool>, mover: Team, flags: Flags)
    requires |marks| == |attempts|
    ensures EscapeScan(attempts, marks, mover, flags).Ok? ==>
              (EscapeScan(attempts, marks, mover, flags).value.0 <==>
               exists i :: 0 <= i < |attempts| && IsCompletedAttempt(attempts[i]))
    ensures EscapeScan(attempts, marks, mover, flags).Thrown? ==>
              exists i :: 0 <= i < |attempts| && attempts[i].Thrown? &&
                EscapeScan(attempts, marks, mover, flags).reason == attempts[i].reason &&
                forall j :: 0 <= j < i ==> !IsCompletedAttempt(attempts[j])
    decreases |attempts|
  {
    if |attempts| > 0 && attempts[0].Ok? && !IsCompletedAttempt(attempts[0]) {
      var marked := if marks[0] then MarkCastled(flags, mover) else flags;
      EscapeScanFinds(attempts[1..], marks[1..], mover, marked);
      assert forall i :: 1 <= i < |attempts| ==> attempts[i] == attempts[1..][i - 1];
      assert forall i :: 0 <= i < |attempts| - 1 ==> attempts[1..][i] == attempts[i + 1];
      if EscapeScan(attempts, marks, mover, flags).Thrown? {
        var k :| 0 <= k < |attempts| - 1 && attempts[1..][k].Thrown? &&
          EscapeScan(attempts[1..], marks[1..], mover, marked).reason == attempts[1..][k].reason &&
          forall j :: 0 <= j < k ==> !IsCompletedAttempt(attempts[1..][j]);
        assert attempts[k + 1].Thrown?;
      }
    }
  }

  /** The attempts only ever set the flag of the board's mover, and never clear one. */
  lemma {:induction false} EscapeScanFlags(attempts: seq<Result<BoardUpdate>>, marks: seq<bool>, mover: Team, flags: Flags, t: Team)
    requires |marks| == |attempts|
    ensures EscapeScan(attempts, marks, mover, flags).Ok? ==>
              (Castled(flags, t) ==> Castled(EscapeScan(attempts, marks, mover, flags).value.1, t)) &&
              Castled(EscapeScan(attempts, marks, mover, flags).value.1, Opponent(mover)) == Castled(flags, Opponent(mover))
    decreases |attempts|
  {
    if |attempts| > 0 && attempts[0].Ok? {
      var marked := if marks[0] then MarkCastled(flags, mover) else flags;
      if t != mover {
        TeamsComplementary(mover);
      }
      EscapeScanFlags(attempts[1..], marks[1..], mover, marked, t);
    }
  }

  /** One turn of a loop over makeMove attempts: the attempts of a list of moves are
      that of its first move followed by those of the rest. */
  lemma AttemptsStep(b: Board, team: Team, moves: seq<Move>)
    requires Valid(b) && forall j :: 0 <= j < |moves| ==> WellFormed(moves[j])
    requires moves != []
    ensures Attempts(b, team, moves)[0] == MakeMoveSpec(b, team, moves[0])
    ensures Attempts(b, team, moves)[1..] == Attempts(b, team, moves[1..])
  {
  }

  /** The same for the castle marks. */
  lemma CastleMarksStep(b: Board, team: Team, moves: seq<Move>)
    requires Valid(b) && moves != []
    ensures CastleMarks(b, team, moves)[0] == (IsLegalMove(b, team, moves[0]) && MarksCastled(moves[0]))
    ensures CastleMarks(b, team, moves)[1..] == CastleMarks(b, team, moves[1..])
  {
    assert CastleMarks(b, team, moves)[1..] == CastleMarks(b, team, moves[1..]);
  }

  /** hasEscapeMove of the player of `team`, on a board whose players' castled flags are
      `flags`. */
  function HasEscapeMove(b: Board, team: Team, flags: Flags): Result<(bool, Flags)>
    requires Valid(b)
  {
    var moves := LegalMoves(b, team);
    EscapeScan(Attempts(b, team, moves), CastleMarks(b, team, moves), b.mover, flags)
  }

  /** isCheckMate: in check and no escape; the search runs only when in check. */
  function IsCheckMate(b: Board, team: Team, flags: Flags): Result<(bool, Flags)>
    requires Valid(b)
  {
    if IsInCheck(b, team) then
      var escape :- HasEscapeMove(b, team, flags);
      Ok((!escape.0, escape.1))
    else Ok((false, flags))
  }

  /** isStaleMate: not in check and no escape; the search runs only when not in check. */
  function IsStaleMate(b: Board, team: Team, flags: Flags): Result<(bool, Flags)>
    requires Valid(b)
  {
    if !IsInCheck(b, team) then
      var escape :- HasEscapeMove(b, team, flags);
      Ok((!escape.0, escape.1))
    else Ok((false, flags))
  }

  /** makeMove completes for none of the player's legal moves. */
  predicate NoMoveCompletes(b: Board, team: Team)
    requires Valid(b)
  {
    var attempts := Attempts(b, team, LegalMoves(b, team));
    forall i :: 0 <= i < |attempts| ==> !IsCompletedAttempt(attempts[i])
  }

  /** Each attempt is makeMove of the corresponding move. */
  lemma {:induction false} AttemptsAreMakeMoves(b: Board, team: Team, moves: seq<Move>, i: int)
    requires Valid(b) && forall j :: 0 <= j < |moves| ==> WellFormed(moves[j])
    requires 0 <= i < |moves|
    ensures Attempts(b, team, moves)[i] == MakeMoveSpec(b, team, moves[i])
    decreases i
  {
    if i > 0 {
      AttemptsAreMakeMoves(b, team, moves[1..], i - 1);
      assert moves[1..][i - 1] == moves[i];
      assert Attempts(b, team, moves)[i] == Attempts(b, team, moves[1..])[i - 1];
    }
  }

  /** The attempts whose boards the ChessBoard constructor accepts whenever they do not
      throw. */
  predicate ValidUpdates(attempts: seq<Result<BoardUpdate>>)
    decreases |attempts|
  {
    attempts == [] ||
    ((attempts[0].Ok? ==> Valid(attempts[0].value.updatedBoard)) && ValidUpdates(attempts[1..]))
  }

  /** Each attempt of valid updates that does not throw has a valid board. */
  lemma {:induction false} ValidUpdatesAt(attempts: seq<Result<BoardUpdate>>, i: int)
    requires ValidUpdates(attempts) && 0 <= i < |attempts|
    ensures attempts[i].Ok? ==> Valid(attempts[i].value.updatedBoard)
    decreases i
  {
    if i > 0 {
      ValidUpdatesAt(attempts[1..], i - 1);
    }
  }

  /** Every attempt that does not throw yields a board the ChessBoard constructor accepts. */
  lemma {:induction false} AttemptsValid(b: Board, team: Team, moves: seq<Move>)
    requires Valid(b) && forall j :: 0 <= j < |moves| ==> WellFormed(moves[j])
    ensures ValidUpdates(Attempts(b, team, moves))
    decreases |moves|
  {
    if moves != [] {
      AttemptsValid(b, team, moves[1..]);
      assert Attempts(b, team, moves)[1..] == Attempts(b, team, moves[1..]);
    }
  }

  /** The escape search answers true exactly when some legal move completes. */
  lemma HasEscapeMoveFinds(b: Board, team: Team, flags: Flags)
    requires Valid(b)
    ensures HasEscapeMove(b, team, flags).Ok? ==> (HasEscapeMove(b, team, flags).value.0 <==> !NoMoveCompletes(b, team))
  {
    var moves := LegalMoves(b, team);
    var attempts := Attempts(b, team, moves);
    var marks := CastleMarks(b, team, moves);
    assert HasEscapeMove(b, team, flags) == EscapeScan(attempts, marks, b.mover, flags);
    EscapeScanFinds(attempts, marks, b.mover, flags);
  }

  /** Checkmate is check with no legal move that completes, stalemate is no check with no
      legal move that completes; so they never hold together, whatever the flags. */
  lemma MateMeansNoCompletedMove(b: Board, team: Team, flags: Flags, otherFlags: Flags)
    requires Valid(b)
    ensures IsCheckMate(b, team, flags).Ok? ==>
              (IsCheckMate(b, team, flags).value.0 <==> IsInCheck(b, team) && NoMoveCompletes(b, team))
    ensures IsStaleMate(b, team, flags).Ok? ==>
              (IsStaleMate(b, team, flags).value.0 <==> !IsInCheck(b, team) && NoMoveCompletes(b, team))
    ensures !(IsCheckMate(b, team, flags).Ok? && IsCheckMate(b, team, flags).value.0 &&
              IsStaleMate(b, team, otherFlags).Ok? && IsStaleMate(b, team, otherFlags).value.0)
  {
    HasEscapeMoveFinds(b, team, flags);
  }
}
