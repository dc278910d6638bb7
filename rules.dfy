/** The rules a Player of com.chessgame.player applies to a board: the attack filter,
    check, castling, the legal-move list, makeMove, and the move lookup of the GUI. */
module Rules {
  import opened Wrappers
  import opened Geometry
  import opened Teams
  import opened Pieces
  import opened Boards
  import opened Moves
  import opened MoveGeneration
  import opened Execution

  // ---------------------------------------------------------------- attackOnTile

  /** attackOnTile: the moves, in their order, whose destination is `tile`. */
  function AttacksOnTile(tile: int, moves: seq<Move>): (attacks: seq<Move>)
    ensures |attacks| <= |moves|
  {
    if |moves| == 0 then []
    else
      var last := moves[|moves| - 1];
      var rest := AttacksOnTile(tile, moves[..|moves| - 1]);
      assert moves == moves[..|moves| - 1] + [last];
      if Destination(last) == tile then rest + [last] else rest
  }

  /** Player.attackOnTile */
  method AttackOnTile(piecePosition: int, moves: seq<Move>) returns (attackMoves: seq<Move>)
    ensures attackMoves == AttacksOnTile(piecePosition, moves)
  {
    attackMoves := [];
    for i := 0 to |moves|
      invariant attackMoves == AttacksOnTile(piecePosition, moves[..i])
    {
      assert moves[..i + 1][..i] == moves[..i];
      if piecePosition == Destination(moves[i]) {
        attackMoves := attackMoves + [moves[i]];
      }
    }
    assert moves[..|moves|] == moves;
  }

  /** The filter keeps the order of the moves: filtering a concatenation is
      concatenating the filtered parts. */
  lemma {:induction false} AttacksOnTileSplits(tile: int, front: seq<Move>, back: seq<Move>)
    ensures AttacksOnTile(tile, front + back) == AttacksOnTile(tile, front) + AttacksOnTile(tile, back)
    decreases |back|
  {
    if |back| == 0 {
      assert front + back == front;
    } else {
      var whole := front + back;
      var shorter := back[..|back| - 1];
      assert whole[..|whole| - 1] == front + shorter;
      assert whole[|whole| - 1] == back[|back| - 1];
      AttacksOnTileSplits(tile, front, shorter);
    }
  }

  /** Some move ends on `tile`. */
  predicate Attacked(tile: int, moves: seq<Move>)
  {
    AttacksOnTile(tile, moves) != []
  }

  lemma AttackedIff(tile: int, moves: seq<Move>)
    ensures Attacked(tile, moves) <==> exists i :: 0 <= i < |moves| && Destination(moves[i]) == tile
  {
    var attacks := AttacksOnTile(tile, moves);
    AttacksOnTileMembers(tile, moves);
    if attacks != [] {
      assert attacks[0] in moves;
    }
  }

  /** The attacks are the moves that end on the tile. */
  lemma {:induction false} AttacksOnTileMembers(tile: int, moves: seq<Move>)
    ensures forall m :: m in AttacksOnTile(tile, moves) <==> m in moves && Destination(m) == tile
    decreases |moves|
  {
    if |moves| > 0 {
      AttacksOnTileMembers(tile, moves[..|moves| - 1]);
      assert moves == moves[..|moves| - 1] + [moves[|moves| - 1]];
    }
  }

  // ---------------------------------------------------------------- check

  /** isInCheck: some move of the opponent's pieces (castles are not among them) ends on
      the tile of the king. */
  predicate IsInCheck(b: Board, team: Team)
    requires Valid(b)
  {
    Attacked(KingOf(b, team).position, TeamMoves(b, Opponent(team)))
  }

  // ---------------------------------------------------------------- castling

  /** The tiles castling on one side looks at: the tiles that must be empty, the rook's
      home tile, where king and rook go, and the tiles the opponent must not reach. */
  datatype Lane = Lane(between: seq<int>, rookTile: int, kingDestination: int, rookDestination: int, guarded: seq<int>)

  predicate LaneOnBoard(lane: Lane)
  {
    (forall i :: 0 <= i < |lane.between| ==> IsValidTileCoordinate(lane.between[i])) &&
    IsValidTileCoordinate(lane.rookTile) &&
    IsValidTileCoordinate(lane.kingDestination) && IsValidTileCoordinate(lane.rookDestination)
  }

  /** King side: tiles 61, 62 and rook 63 for White, tiles 5, 6 and rook 7 for Black. */
  function KingSideLane(team: Team): (lane: Lane)
    ensures LaneOnBoard(lane) && lane.kingDestination in lane.between && lane.rookDestination in lane.between
    ensures lane.guarded == lane.between && lane.rookTile !in lane.between
  {
    if team == White then Lane([61, 62], 63, 62, 61, [61, 62])
    else Lane([5, 6], 7, 6, 5, [5, 6])
  }

  /** Queen side: tiles 57, 58, 59 and rook 56 for White, tiles 1, 2, 3 and rook 0 for
      Black; only the two tiles the king and rook land on are guarded. */
  function QueenSideLane(team: Team): (lane: Lane)
    ensures LaneOnBoard(lane) && lane.kingDestination in lane.between && lane.rookDestination in lane.between
    ensures lane.guarded == [lane.kingDestination, lane.rookDestination] && lane.rookTile !in lane.between
  {
    if team == White then Lane([57, 58, 59], 56, 58, 59, [58, 59])
    else Lane([1, 2, 3], 0, 2, 3, [2, 3])
  }

  /** The guards of calculateCastlingMoves for one side: the tiles in between are empty,
      an unmoved rook (of either team: the team is not looked at) stands on the rook's
      tile, and no opponent move ends on a guarded tile. */
  predicate LaneOpen(b: Board, lane: Lane, opponentMoves: seq<Move>)
    requires Placed(b.squares) && LaneOnBoard(lane)
  {
    (forall i :: 0 <= i < |lane.between| ==> b.squares[lane.between[i]].None?) &&
    b.squares[lane.rookTile].Some? && b.squares[lane.rookTile].value.kind == Rook &&
    b.squares[lane.rookTile].value.isFirstMove &&
    (forall i :: 0 <= i < |lane.guarded| ==> !Attacked(lane.guarded[i], opponentMoves))
  }

  /** calculateCastlingMoves. The "not in check" guard reads isInCheck before the Player
      constructor assigns it, so it never blocks: only the king's first-move flag and the
      two lanes decide. */
  function CastlingMoves(b: Board, team: Team, king: Piece, opponentMoves: seq<Move>): (castles: seq<Move>)
    requires Placed(b.squares)
  {
    if !king.isFirstMove then []
    else
      var k := KingSideLane(team);
      var q := QueenSideLane(team);
      (if LaneOpen(b, k, opponentMoves)
       then [KingSideCastleMove(king, k.kingDestination, b.squares[k.rookTile].value, k.rookTile, k.rookDestination)]
       else []) +
      (if LaneOpen(b, q, opponentMoves)
       then [QueenSideCastleMove(king, q.kingDestination, b.squares[q.rookTile].value, q.rookTile, q.rookDestination)]
       else [])
  }

  /** There are at most two castles, the king side one first; a castle is offered exactly
      when the king's first-move flag is set and its lane is open. Neither check nor the
      king's tile is a condition. */
  lemma CastlingMovesShape(b: Board, team: Team, king: Piece, opponentMoves: seq<Move>)
    requires Placed(b.squares)
    ensures |CastlingMoves(b, team, king, opponentMoves)| <= 2
    ensures (exists i :: 0 <= i < |CastlingMoves(b, team, king, opponentMoves)| &&
                         CastlingMoves(b, team, king, opponentMoves)[i].KingSideCastleMove?) <==>
              king.isFirstMove && LaneOpen(b, KingSideLane(team), opponentMoves)
    ensures (exists i :: 0 <= i < |CastlingMoves(b, team, king, opponentMoves)| &&
                         CastlingMoves(b, team, king, opponentMoves)[i].QueenSideCastleMove?) <==>
              king.isFirstMove && LaneOpen(b, QueenSideLane(team), opponentMoves)
    ensures |CastlingMoves(b, team, king, opponentMoves)| > 0 ==>
              CastlingMoves(b, team, king, opponentMoves)[0].KingSideCastleMove? ==
              LaneOpen(b, KingSideLane(team), opponentMoves)
  {
    var castles := CastlingMoves(b, team, king, opponentMoves);
    var kingSide := king.isFirstMove && LaneOpen(b, KingSideLane(team), opponentMoves);
    var queenSide := king.isFirstMove && LaneOpen(b, QueenSideLane(team), opponentMoves);
    if kingSide {
      assert castles[0].KingSideCastleMove?;
    }
    if queenSide {
      assert castles[|castles| - 1].QueenSideCastleMove?;
    }
  }

  /** Every castle moves `king` to an empty tile of its lane and names the unmoved rook
      standing on the lane's rook tile; the four tiles involved are distinct. */
  lemma CastlesSound(b: Board, team: Team, king: Piece, opponentMoves: seq<Move>)
    requires Placed(b.squares)
    ensures forall m :: m in CastlingMoves(b, team, king, opponentMoves) ==>
              IsCastle(m) && m.piece == king && king.isFirstMove &&
              IsValidTileCoordinate(m.rookCurrent) && b.squares[m.rookCurrent] == Some(m.rook) &&
              m.rook.kind == Rook && m.rook.isFirstMove && m.rook.position == m.rookCurrent &&
              IsValidTileCoordinate(m.destination) && b.squares[m.destination].None? &&
              IsValidTileCoordinate(m.rookDestination) && b.squares[m.rookDestination].None? &&
              m.destination != m.rookDestination && m.rookCurrent != m.destination &&
              m.rookCurrent != m.rookDestination &&
              !Attacked(m.destination, opponentMoves) && !Attacked(m.rookDestination, opponentMoves)
  {
    var k := KingSideLane(team);
    var q := QueenSideLane(team);
    assert k.between[1] == k.kingDestination && k.between[0] == k.rookDestination;
    assert q.between[1] == q.kingDestination && q.between[2] == q.rookDestination;
    assert k.guarded[1] == k.kingDestination && k.guarded[0] == k.rookDestination;
    assert q.guarded[0] == q.kingDestination && q.guarded[1] == q.rookDestination;
  }

  // ---------------------------------------------------------------- a player's legal moves

  /** What LegalMoves ensures, for one part of the list: every move is well formed and
      moves a piece of the team standing on its tile. */
  predicate MovesOfTeamOnBoard(b: Board, team: Team, moves: seq<Move>)
    requires Placed(b.squares)
  {
    forall i :: 0 <= i < |moves| ==>
      WellFormed(moves[i]) && MovingPiece(moves[i]).Some? && MovingPiece(moves[i]).value.team == team &&
      IsValidTileCoordinate(MovingPiece(moves[i]).value.position) &&
      b.squares[MovingPiece(moves[i]).value.position] == MovingPiece(moves[i])
  }

  lemma PieceMovesOnBoard(b: Board, team: Team)
    requires Placed(b.squares)
    ensures MovesOfTeamOnBoard(b, team, TeamMoves(b, team))
    ensures forall m :: m in TeamMoves(b, team) ==> !IsCastle(m)
  {
    TeamMovesSound(b, team);
    var moves := TeamMoves(b, team);
    forall i | 0 <= i < |moves|
      ensures WellFormed(moves[i]) && MovingPiece(moves[i]).Some? && MovingPiece(moves[i]).value.team == team
    {
      assert moves[i] in moves;
    }
  }

  lemma CastlesOnBoard(b: Board, team: Team, king: Piece, opponentMoves: seq<Move>)
    requires Placed(b.squares) && king.team == team
    requires IsValidTileCoordinate(king.position) && b.squares[king.position] == Some(king)
    ensures MovesOfTeamOnBoard(b, team, CastlingMoves(b, team, king, opponentMoves))
    ensures forall m :: m in CastlingMoves(b, team, king, opponentMoves) ==> IsCastle(m)
  {
    CastlesSound(b, team, king, opponentMoves);
  }

  /** Both facts survive putting the castles after the pieces' own moves. */
  lemma {:induction false} OnBoardConcat(b: Board, team: Team, own: seq<Move>, castles: seq<Move>)
    requires Placed(b.squares)
    requires MovesOfTeamOnBoard(b, team, own) && MovesOfTeamOnBoard(b, team, castles)
    requires forall m :: m in castles ==> IsCastle(m)
    ensures MovesOfTeamOnBoard(b, team, own + castles)
    ensures forall i :: 0 <= i < |own + castles| && !IsCastle((own + castles)[i]) ==> (own + castles)[i] in own
  {
    forall i | 0 <= i < |own + castles|
      ensures (own + castles)[i] == if i < |own| then own[i] else castles[i - |own|]
    {
    }
  }

  /** The Player constructor's legal-move list: the moves of the team's pieces followed
      by its castles, which are computed against the opponent's piece moves. Every legal
      move is well formed; LegalMovesOnBoard says where the moves start. */
  function LegalMoves(b: Board, team: Team): (moves: seq<Move>)
    requires Valid(b)
    ensures forall i :: 0 <= i < |moves| ==> WellFormed(moves[i])
  {
    var own := TeamMoves(b, team);
    var castles := CastlingMoves(b, team, KingOf(b, team), TeamMoves(b, Opponent(team)));
    PieceMovesOnBoard(b, team);
    CastlesOnBoard(b, team, KingOf(b, team), TeamMoves(b, Opponent(team)));
    OnBoardConcat(b, team, own, castles);
    own + castles
  }

  /** Every legal move moves a piece of the team standing on its tile, and the legal
      moves that are not castles are moves of the team's pieces. */
  lemma LegalMovesOnBoard(b: Board, team: Team)
    requires Valid(b)
    ensures MovesOfTeamOnBoard(b, team, LegalMoves(b, team))
    ensures forall i :: 0 <= i < |LegalMoves(b, team)| && !IsCastle(LegalMoves(b, team)[i]) ==>
              LegalMoves(b, team)[i] in TeamMoves(b, team)
  {
    var own := TeamMoves(b, team);
    var castles := CastlingMoves(b, team, KingOf(b, team), TeamMoves(b, Opponent(team)));
    PieceMovesOnBoard(b, team);
    CastlesOnBoard(b, team, KingOf(b, team), TeamMoves(b, Opponent(team)));
    OnBoardConcat(b, team, own, castles);
  }

  /** isLegalMove: List.contains, which asks the given move's equals. */
  predicate IsLegalMove(b: Board, team: Team, m: Move)
    requires Valid(b)
  {
    Contains(LegalMoves(b, team), m)
  }

  // ---------------------------------------------------------------- makeMove

  /** BoardUpdate: the board after the attempt and the move status. */
  datatype BoardUpdate = BoardUpdate(updatedBoard: Board, moveStatus: MoveStatus)

  /** After an execution, the king of the side that moved is the destination of some
      move (castles included) of the side now to move. */
  predicate LeavesKingAttacked(updateBoard: Board)
    requires Valid(updateBoard)
  {
    Attacked(KingOf(updateBoard, Opponent(updateBoard.mover)).position, LegalMoves(updateBoard, updateBoard.mover))
  }

  /** Player.makeMove for the player of `team` on board b. An exception of the execution
      (a board without a king, the invalid move) propagates. */
  function MakeMoveSpec(b: Board, team: Team, m: Move): (r: Result<BoardUpdate>)
    requires Valid(b) && WellFormed(m)
    ensures r.Ok? ==> Valid(r.value.updatedBoard)
  {
    if !IsLegalMove(b, team, m) then Ok(BoardUpdate(b, IllegalMove))
    else TryMoveSpec(b, m)
  }

  /** makeMove once the move is known to be legal: the move is executed, and the board
      is kept with IN_CHECK when the mover's king is attacked on the new board. */
  function TryMoveSpec(b: Board, m: Move): (r: Result<BoardUpdate>)
    requires Valid(b) && WellFormed(m)
    ensures r.Ok? ==> Valid(r.value.updatedBoard)
  {
    var updateBoard :- ExecuteSpec(b, m);
    if LeavesKingAttacked(updateBoard) then Ok(BoardUpdate(b, InCheck))
    else Ok(BoardUpdate(updateBoard, Completed))
  }

  /** Every execution hands the move to the opponent of the board's mover. */
  lemma ExecuteHandsOver(b: Board, m: Move)
    requires Placed(b.squares) && WellFormed(m)
    ensures ExecuteSpec(b, m).Ok? ==> ExecuteSpec(b, m).value.mover == Opponent(b.mover)
  {
    if m.PawnPromotion? {
      ExecuteHandsOver(b, m.consumed);
    }
  }

  // ---------------------------------------------------------------- MoveCreator.createMove

  /** getAllLegalMoves: White's legal moves followed by Black's. */
  function AllLegalMoves(b: Board): seq<Move>
    requires Valid(b)
  {
    LegalMoves(b, White) + LegalMoves(b, Black)
  }

  /** The move has a moving piece standing on `current` and goes to `destination`. */
  predicate Matches(m: Move, current: int, destination: int)
  {
    MovingPiece(m).Some? && CurrentCoordinate(m) == current && Destination(m) == destination
  }

  /** The first move of the list that matches, else the invalid move. */
  function FirstMatch(moves: seq<Move>, current: int, destination: int): (found: Move)
    ensures found == InvalidMove || found in moves
    decreases |moves|
  {
    if |moves| == 0 then InvalidMove
    else if Matches(moves[0], current, destination) then moves[0]
    else FirstMatch(moves[1..], current, destination)
  }

  /** FirstMatch answers the earliest matching move, and the invalid move only when no
      move matches. */
  lemma {:induction false} FirstMatchIsFirst(moves: seq<Move>, current: int, destination: int)
    ensures FirstMatch(moves, current, destination) == InvalidMove <==>
              forall i :: 0 <= i < |moves| ==> !Matches(moves[i], current, destination)
    ensures FirstMatch(moves, current, destination) != InvalidMove ==>
              exists i :: 0 <= i < |moves| && moves[i] == FirstMatch(moves, current, destination) &&
                          Matches(moves[i], current, destination) &&
                          forall j :: 0 <= j < i ==> !Matches(moves[j], current, destination)
    decreases |moves|
  {
    if |moves| > 0 && !Matches(moves[0], current, destination) {
      FirstMatchIsFirst(moves[1..], current, destination);
      if FirstMatch(moves, current, destination) != InvalidMove {
        var i :| 0 <= i < |moves| - 1 && moves[1..][i] == FirstMatch(moves, current, destination) &&
                 Matches(moves[1..][i], current, destination) &&
                 forall j :: 0 <= j < i ==> !Matches(moves[1..][j], current, destination);
        assert forall j :: 1 <= j < i + 1 ==> moves[j] == moves[1..][j - 1];
        assert moves[i + 1] == moves[1..][i];
      } else {
        assert forall i :: 1 <= i < |moves| ==> moves[i] == moves[1..][i - 1];
      }
    }
  }
}
