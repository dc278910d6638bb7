/** The objects of com.chessgame.board and com.chessgame.player: a ChessBoard with its
    two Players, built by a Builder, and the Player and Move methods that act on them.
    Every field of these objects is final in Java except a Player's hasCastled, so
    everything else is a `const` here and each object stands for a Board value. */
module Engine {
  import opened Wrappers
  import opened Geometry
  import opened Teams
  import opened Pieces
  import opened Boards
  import opened StartPosition
  import opened Moves
  import opened MoveGeneration
  import opened Execution
  import opened Rules
  import opened Status

  // ---------------------------------------------------------------- Player

  class Player {
    const team: Team
    const king: Piece
    const legalMoves: seq<Move>
    const isInCheck: bool
    var hasCastled: bool

    /** The player of `t` on board b, as its constructor leaves it. */
    ghost predicate Describes(b: Board, t: Team)
      requires Boards.Valid(b)
    {
      team == t && king == KingOf(b, t) && legalMoves == LegalMoves(b, t) &&
      isInCheck == IsInCheck(b, t)
    }

    /** The Player constructor, given the king setKing found (setKing may throw, so
        the caller runs it first). The legal moves are the pieces' moves followed by the
        castles, computed while isInCheck still holds its default false; isInCheck is
        then whether some opponent move ends on the king's tile. */
    constructor(b: Board, t: Team, kingFound: Piece, myMoves: seq<Move>, opponentMoves: seq<Move>)
      requires Boards.Valid(b) && kingFound == KingOf(b, t)
      requires myMoves == TeamMoves(b, t) && opponentMoves == TeamMoves(b, Opponent(t))
      ensures Describes(b, t) && !hasCastled
    {
      var castlingMoves := CalculateCastlingMoves(b, t, kingFound, false, opponentMoves);
      var attacks := AttackOnTile(kingFound.position, opponentMoves);
      AttackedIff(kingFound.position, opponentMoves);
      team := t;
      king := kingFound;
      legalMoves := myMoves + castlingMoves;
      isInCheck := attacks != [];
      hasCastled := false;
    }

    /** castled() */
    method Castled()
      modifies this
      ensures hasCastled
    {
      hasCastled := true;
    }

    /** isCastled() */
    function IsCastled(): bool
      reads this
    {
      hasCastled
    }
  }

  /** setKing: the first king among the player's active pieces, or NO KING ON BOARD. */
  method SetKing(activePieces: seq<Piece>) returns (r: Result<Piece>)
    ensures r.Ok? <==> FirstKing(activePieces).Some?
    ensures r.Ok? ==> r.value == FirstKing(activePieces).value
    ensures r.Thrown? ==> r.reason == NoKingOnBoard
  {
    for i := 0 to |activePieces|
      invariant FirstKing(activePieces) == FirstKing(activePieces[i..])
    {
      assert activePieces[i..][1..] == activePieces[i + 1..];
      if IsKing(activePieces[i].kind) {
        return Ok(activePieces[i]);
      }
    }
    return Thrown(NoKingOnBoard);
  }

  /** The guards of one side of calculateCastlingMoves, evaluated left to right: the
      tiles in between are empty, an unmoved rook stands on the rook's tile, and
      attackOnTile finds nothing on each guarded tile. */
  method LaneIsOpen(b: Board, lane: Lane, opponentLegalMoves: seq<Move>) returns (open: bool)
    requires Placed(b.squares) && LaneOnBoard(lane)
    ensures open == LaneOpen(b, lane, opponentLegalMoves)
  {
    open := true;
    for i := 0 to |lane.between|
      invariant open == forall j :: 0 <= j < i ==> b.squares[lane.between[j]].None?
    {
      if b.squares[lane.between[i]].Some? {
        open := false;
      }
    }
    if open {
      var tileOfRook := b.squares[lane.rookTile];
      open := tileOfRook.Some? && IsRook(tileOfRook.value.kind) && tileOfRook.value.isFirstMove;
    }
    if open {
      for i := 0 to |lane.guarded|
        invariant open == forall j :: 0 <= j < i ==> !Attacked(lane.guarded[j], opponentLegalMoves)
      {
        var attacks := AttackOnTile(lane.guarded[i], opponentLegalMoves);
        AttackedIff(lane.guarded[i], opponentLegalMoves);
        if attacks != [] {
          open := false;
        }
      }
    }
  }

  /** calculateCastlingMoves of WhitePlayer and BlackPlayer: nothing unless the king has
      not moved and `isCheck` (the player's isInCheck field as read) is false; then
      the king-side castle and the queen-side castle, each when its lane is open. */
  method CalculateCastlingMoves(b: Board, t: Team, king: Piece, isCheck: bool, opponentLegalMoves: seq<Move>)
    returns (castlingMoves: seq<Move>)
    requires Placed(b.squares)
    ensures isCheck ==> castlingMoves == []
    ensures !isCheck ==> castlingMoves == CastlingMoves(b, t, king, opponentLegalMoves)
  {
    castlingMoves := [];
    if king.isFirstMove && !isCheck {
      var k := KingSideLane(t);
      var open := LaneIsOpen(b, k, opponentLegalMoves);
      if open {
        var rook := b.squares[k.rookTile].value;
        castlingMoves := castlingMoves + [KingSideCastleMove(king, k.kingDestination, rook, k.rookTile, k.rookDestination)];
      }
      var q := QueenSideLane(t);
      open := LaneIsOpen(b, q, opponentLegalMoves);
      if open {
        var rook := b.squares[q.rookTile].value;
        castlingMoves := castlingMoves + [QueenSideCastleMove(king, q.kingDestination, rook, q.rookTile, q.rookDestination)];
      }
    }
  }

  // ---------------------------------------------------------------- ChessBoard

  class ChessBoard {
    const board: seq<Option<Piece>>
    const whitePieces: seq<Piece>
    const blackPieces: seq<Piece>
    const whitePlayer: Player
    const blackPlayer: Player
    const currentMovingPlayer: Player
    const enPassantPawn: Option<Piece>

    /** The board this object stands for. */
    function State(): Board
    {
      Board(board, currentMovingPlayer.team, enPassantPawn)
    }

    /** The tiles hold pieces on their own positions, the piece lists are
        onBoardPieces of the tiles, the players belong to their teams, and the current
        mover is the player selectPlayer picked. */
    ghost predicate Shaped()
    {
      Placed(board) && whitePieces == PiecesOf(board, White) && blackPieces == PiecesOf(board, Black) &&
      whitePlayer.team == White && blackPlayer.team == Black &&
      currentMovingPlayer == SelectPlayer(currentMovingPlayer.team, whitePlayer, blackPlayer)
    }

    /** What the constructor establishes: the board is shaped, both sides have a king,
        and each player describes its own team on this board. */
    ghost predicate Valid()
    {
      Shaped() && Boards.Valid(State()) &&
      whitePlayer.Describes(State(), White) && blackPlayer.Describes(State(), Black)
    }

    /** The hasCastled fields of the two players. */
    function CastledFlags(): Flags
      reads whitePlayer, blackPlayer
    {
      Flags(whitePlayer.hasCastled, blackPlayer.hasCastled)
    }

    /** The current mover holds the legal moves of the side to move. */
    lemma MoverMoves()
      requires Valid()
      ensures currentMovingPlayer.legalMoves == LegalMoves(State(), State().mover)
    {
      if currentMovingPlayer.team == White {
        assert currentMovingPlayer == whitePlayer;
      } else {
        assert currentMovingPlayer == blackPlayer;
      }
    }

    /** One of this board's two players. */
    predicate HasPlayer(p: Player)
    {
      p == whitePlayer || p == blackPlayer
    }

    /** getActivePieces of a player of this board: getWhitePieces or getBlackPieces. */
    function ActivePiecesOf(p: Player): (pieces: seq<Piece>)
    {
      if p.team == White then whitePieces else blackPieces
    }

    /** getOpponent of a player of this board: the board's player of the other team. */
    function OpponentOf(p: Player): (opponent: Player)
    {
      if p.team == White then blackPlayer else whitePlayer
    }

    /** The constructor's assignments, once the builder's contents have been turned
        into tiles, piece lists and players. */
    constructor(tiles: seq<Option<Piece>>, white: seq<Piece>, black: seq<Piece>,
                wPlayer: Player, bPlayer: Player, mover: Player, enPassant: Option<Piece>)
      ensures board == tiles && whitePieces == white && blackPieces == black
      ensures whitePlayer == wPlayer && blackPlayer == bPlayer && currentMovingPlayer == mover
      ensures enPassantPawn == enPassant
    {
      board := tiles;
      whitePieces := white;
      blackPieces := black;
      whitePlayer := wPlayer;
      blackPlayer := bPlayer;
      currentMovingPlayer := mover;
      enPassantPawn := enPassant;
    }
  }

  // ---------------------------------------------------------------- Builder

  class Builder {
    var piecesPosition: map<int, Piece>
    var nextMover: Option<Team>
    var enPassantPawn: Option<Piece>

    /** Every piece is kept under its own position, and the en-passant piece (a Pawn
        in Java's types) is a pawn. */
    ghost predicate Consistent()
      reads this
    {
      KeysMatch(piecesPosition) && (enPassantPawn.Some? ==> enPassantPawn.value.kind == Pawn)
    }

    constructor()
      ensures piecesPosition == map[] && nextMover == None && enPassantPawn == None
      ensures Consistent()
    {
      piecesPosition := map[];
      nextMover := None;
      enPassantPawn := None;
    }

    /** putPiece: the piece goes under its position, replacing what was there. */
    method PutPiece(piece: Piece)
      modifies this
      ensures piecesPosition == old(piecesPosition)[piece.position := piece]
      ensures nextMover == old(nextMover) && enPassantPawn == old(enPassantPawn)
    {
      piecesPosition := piecesPosition[piece.position := piece];
    }

    /** setMover */
    method SetMover(team: Team)
      modifies this
      ensures nextMover == Some(team)
      ensures piecesPosition == old(piecesPosition) && enPassantPawn == old(enPassantPawn)
    {
      nextMover := Some(team);
    }

    /** setEnPassant */
    method SetEnPassant(pawn: Piece)
      requires pawn.kind == Pawn
      requires Consistent()
      modifies this
      ensures Consistent()
      ensures enPassantPawn == Some(pawn)
      ensures piecesPosition == old(piecesPosition) && nextMover == old(nextMover)
    {
      enPassantPawn := Some(pawn);
    }

    /** build, that is the ChessBoard constructor: the tiles from the positions, the
        piece lists, both players (each setKing throwing NO KING ON BOARD when its side
        has no king, White's first), then the current mover (a missing next mover is a
        NullPointerException). The new board stands for BuildSpec of the builder, and
        its players have not castled. */
    method Build() returns (r: Result<ChessBoard>)
      requires Consistent()
      ensures var spec := BuildSpec(piecesPosition, nextMover, enPassantPawn);
              (r.Ok? <==> spec.Ok?) && (r.Thrown? ==> r.reason == spec.reason) &&
              (r.Ok? ==> r.value.Valid() && r.value.State() == spec.value)
      ensures r.Ok? ==> fresh(r.value) && fresh(r.value.whitePlayer) && fresh(r.value.blackPlayer) &&
                        r.value.CastledFlags() == NoFlags
    {
      BuildSpecSteps(piecesPosition, nextMover, enPassantPawn);
      var tiles := CreateTiles(piecesPosition);
      var white := OnBoardPieces(tiles, White);
      var black := OnBoardPieces(tiles, Black);
      var whiteKing :- SetKing(white);
      var blackKing :- SetKing(black);
      if nextMover.None? {
        return Thrown(NoMoverSet);
      }
      var chessBoard := Assemble(Board(tiles, nextMover.value, enPassantPawn), white, black, whiteKing, blackKing);
      r := Ok(chessBoard);
    }
  }

  /** BuildSpec step by step, as the constructor runs into its exceptions. */
  lemma BuildSpecSteps(piecesPosition: map<int, Piece>, nextMover: Option<Team>, enPassantPawn: Option<Piece>)
    requires KeysMatch(piecesPosition) && (enPassantPawn.Some? ==> enPassantPawn.value.kind == Pawn)
    ensures var squares := CreateBoard(piecesPosition);
            BuildSpec(piecesPosition, nextMover, enPassantPawn) ==
              if FirstKing(PiecesOf(squares, White)).None? || FirstKing(PiecesOf(squares, Black)).None? then
                Thrown(NoKingOnBoard)
              else if nextMover.None? then Thrown(NoMoverSet)
              else Ok(Board(squares, nextMover.value, enPassantPawn))
  {
  }

  /** The rest of the ChessBoard constructor once both kings and the mover are known:
      the moves of each side's pieces, the two players, and the current mover. */
  method Assemble(b: Board, white: seq<Piece>, black: seq<Piece>, whiteKing: Piece, blackKing: Piece)
    returns (chessBoard: ChessBoard)
    requires Boards.Valid(b)
    requires white == PiecesOf(b.squares, White) && black == PiecesOf(b.squares, Black)
    requires whiteKing == KingOf(b, White) && blackKing == KingOf(b, Black)
    ensures chessBoard.Valid() && chessBoard.State() == b
    ensures fresh(chessBoard) && fresh(chessBoard.whitePlayer) && fresh(chessBoard.blackPlayer)
    ensures chessBoard.CastledFlags() == NoFlags
  {
    var whiteMoves := MoveGeneration.AllLegalMoves(b, white);
    var blackMoves := MoveGeneration.AllLegalMoves(b, black);
    var wPlayer := new Player(b, White, whiteKing, whiteMoves, blackMoves);
    var bPlayer := new Player(b, Black, blackKing, blackMoves, whiteMoves);
    var mover := SelectPlayer(b.mover, wPlayer, bPlayer);
    chessBoard := new ChessBoard(b.squares, white, black, wPlayer, bPlayer, mover, b.enPassant);
  }

  // ---------------------------------------------------------------- executeMove

  /** One put loop of executeMove: each piece of `pieces`, in order, unless it equals
      one of `removed`. */
  method PutPieces(builder: Builder, pieces: seq<Piece>, removed: set<Piece>)
    requires builder.Consistent()
    modifies builder
    ensures builder.Consistent()
    ensures builder.piecesPosition == PutAll(old(builder.piecesPosition), Except(pieces, removed))
    ensures builder.nextMover == old(builder.nextMover) && builder.enPassantPawn == old(builder.enPassantPawn)
  {
    for i := 0 to |pieces|
      invariant builder.Consistent()
      invariant builder.piecesPosition == PutAll(old(builder.piecesPosition), Except(pieces[..i], removed))
      invariant builder.nextMover == old(builder.nextMover) && builder.enPassantPawn == old(builder.enPassantPawn)
    {
      assert pieces[..i + 1][..i] == pieces[..i];
      if pieces[i] !in removed {
        builder.PutPiece(pieces[i]);
      }
    }
    assert pieces[..|pieces|] == pieces;
  }

  /** The start of every executeMove: a new Builder holding the pieces of the board's
      current mover other than `removedOwn`, then those of its opponent other than
      `removedEnemy`. */
  method Rebuilt(board: ChessBoard, removedOwn: set<Piece>, removedEnemy: set<Piece>) returns (builder: Builder)
    requires board.Shaped()
    ensures fresh(builder) && builder.Consistent()
    ensures builder.piecesPosition == Rebuild(board.State(), removedOwn, removedEnemy)
    ensures builder.nextMover.None? && builder.enPassantPawn.None?
  {
    builder := new Builder();
    var mover := board.currentMovingPlayer;
    PutPieces(builder, board.ActivePiecesOf(mover), removedOwn);
    PutPieces(builder, board.ActivePiecesOf(board.OpponentOf(mover)), removedEnemy);
  }

  /** `r` is the outcome `spec` describes: the same exception, or a board standing for
      the spec's board whose players have not castled. */
  ghost predicate Stands(r: Result<ChessBoard>, spec: Result<Board>)
    reads if r.Ok? then {r.value.whitePlayer, r.value.blackPlayer} else {}
  {
    (r.Ok? <==> spec.Ok?) && (r.Thrown? ==> r.reason == spec.reason) &&
    (r.Ok? ==> r.value.Valid() && r.value.State() == spec.value && r.value.CastledFlags() == NoFlags)
  }

  /** The default executeMove, which NormalMove, PawnMove, PawnKillerMove and
      NonPawnKillerMove inherit: the moving piece leaves its tile, every other piece is
      put back, the moved piece is put on the destination (over a captured piece), and
      the opponent moves next. */
  method ExecuteDefault(board: ChessBoard, piece: Piece, destination: int) returns (r: Result<ChessBoard>)
    requires board.Shaped()
    ensures var b := board.State();
            Stands(r, Finish(b, Put(Rebuild(b, {piece}, {}), MovePiece(piece, destination)), None))
    ensures r.Ok? ==> fresh(r.value) && fresh(r.value.whitePlayer) && fresh(r.value.blackPlayer)
  {
    var builder := Rebuilt(board, {piece}, {});
    builder.PutPiece(MovePiece(piece, destination));
    builder.SetMover(board.OpponentOf(board.currentMovingPlayer).team);
    r := builder.Build();
  }

  /** EnPassantMove.executeMove: as the default one, and the targeted pawn is not put
      back. */
  method ExecuteEnPassant(board: ChessBoard, piece: Piece, destination: int, target: Piece)
    returns (r: Result<ChessBoard>)
    requires board.Shaped()
    ensures var b := board.State();
            Stands(r, Finish(b, Put(Rebuild(b, {piece}, {target}), MovePiece(piece, destination)), None))
    ensures r.Ok? ==> fresh(r.value) && fresh(r.value.whitePlayer) && fresh(r.value.blackPlayer)
  {
    var builder := Rebuilt(board, {piece}, {target});
    builder.PutPiece(MovePiece(piece, destination));
    builder.SetMover(board.OpponentOf(board.currentMovingPlayer).team);
    r := builder.Build();
  }

  /** PawnDoubleMove.executeMove: as the default one, and the moved pawn becomes the
      en-passant pawn. */
  method ExecuteDouble(board: ChessBoard, pawn: Piece, destination: int) returns (r: Result<ChessBoard>)
    requires board.Shaped() && pawn.kind == Pawn
    ensures var b := board.State();
            Stands(r, Finish(b, Put(Rebuild(b, {pawn}, {}), MovePiece(pawn, destination)),
                             Some(MovePiece(pawn, destination))))
    ensures r.Ok? ==> fresh(r.value) && fresh(r.value.whitePlayer) && fresh(r.value.blackPlayer)
  {
    var builder := Rebuilt(board, {pawn}, {});
    var movingPawn := MovePiece(pawn, destination);
    builder.PutPiece(movingPawn);
    builder.SetEnPassant(movingPawn);
    builder.SetMover(board.OpponentOf(board.currentMovingPlayer).team);
    r := builder.Build();
  }

  /** The board CastleMove.executeMove builds: king and rook leave their tiles, the king
      is moved, and a new rook (first-move flag false) of the old rook's team is put on
      the rook's destination. */
  method CastleBoard(board: ChessBoard, king: Piece, destination: int, rook: Piece, rookDestination: int)
    returns (r: Result<ChessBoard>)
    requires board.Shaped()
    ensures var b := board.State();
            Stands(r, Finish(b, Put(Put(Rebuild(b, {king, rook}, {}), MovePiece(king, destination)),
                                    Piece(Rook, rookDestination, rook.team, false)), None))
    ensures r.Ok? ==> fresh(r.value) && fresh(r.value.whitePlayer) && fresh(r.value.blackPlayer)
  {
    var builder := Rebuilt(board, {king, rook}, {});
    builder.PutPiece(MovePiece(king, destination));
    builder.PutPiece(Piece(Rook, rookDestination, rook.team, false));
    builder.SetMover(board.OpponentOf(board.currentMovingPlayer).team);
    r := builder.Build();
  }

  /** The rebuild of pawnPromotion.executeMove, on the board its wrapped move gave: the
      pieces of that board except the pawn as it stood before moving, then the promoted
      queen moved onto the destination, the mover of that board moving next. */
  method ExecutePromote(afterMoveBoard: ChessBoard, pawn: Piece, destination: int) returns (r: Result<ChessBoard>)
    requires afterMoveBoard.Shaped()
    ensures Stands(r, PromoteSpec(afterMoveBoard.State(), pawn, destination))
    ensures r.Ok? ==> fresh(r.value) && fresh(r.value.whitePlayer) && fresh(r.value.blackPlayer)
  {
    var builder := Rebuilt(afterMoveBoard, {pawn}, {});
    builder.PutPiece(MovePiece(PromotedPiece(pawn), destination));
    builder.SetMover(afterMoveBoard.currentMovingPlayer.team);
    r := builder.Build();
  }

  /** executeMove of the moves that neither castle nor promote: the default one or its
      en-passant and double-step overrides, or the invalid move's exception. */
  method ExecuteOrdinary(board: ChessBoard, m: Move) returns (r: Result<ChessBoard>)
    requires board.Shaped() && WellFormed(m) && !IsCastle(m) && !m.PawnPromotion?
    ensures Stands(r, ExecuteSpec(board.State(), m))
    ensures r.Ok? ==> fresh(r.value) && fresh(r.value.whitePlayer) && fresh(r.value.blackPlayer)
  {
    if m.InvalidMove? {
      r := Thrown(InvalidMoveExecuted);
    } else if m.EnPassantMove? {
      r := ExecuteEnPassant(board, m.piece, m.destination, m.target);
    } else if m.PawnDoubleMove? {
      r := ExecuteDouble(board, m.piece, m.destination);
    } else {
      r := ExecuteDefault(board, m.piece, m.destination);
    }
  }

  /** CastleMove.executeMove: the board's current mover is marked castled before the
      build, so the mark stays when the build throws. */
  method ExecuteCastle(board: ChessBoard, m: Move) returns (r: Result<ChessBoard>)
    requires board.Shaped() && IsCastle(m)
    modifies board.currentMovingPlayer
    ensures Stands(r, ExecuteSpec(board.State(), m))
    ensures r.Ok? ==> fresh(r.value) && fresh(r.value.whitePlayer) && fresh(r.value.blackPlayer)
    ensures board.CastledFlags() == MarkCastled(old(board.CastledFlags()), board.State().mover)
  {
    board.currentMovingPlayer.Castled();
    r := CastleBoard(board, m.piece, m.destination, m.rook, m.rookDestination);
  }

  /** executeMove, dispatched on the class of the move, on the move's own board. Only a
      castle changes anything outside the new board. A promotion executes its wrapped
      move first. */
  method ExecuteMove(board: ChessBoard, m: Move) returns (r: Result<ChessBoard>)
    requires board.Shaped() && WellFormed(m)
    modifies board.currentMovingPlayer
    ensures Stands(r, ExecuteSpec(board.State(), m))
    ensures r.Ok? ==> fresh(r.value) && fresh(r.value.whitePlayer) && fresh(r.value.blackPlayer)
    ensures board.CastledFlags() ==
              if MarksCastled(m) then MarkCastled(old(board.CastledFlags()), board.State().mover)
              else old(board.CastledFlags())
    decreases m
  {
    if IsCastle(m) {
      r := ExecuteCastle(board, m);
    } else if m.PawnPromotion? {
      var afterMoveBoard :- ExecuteOrdinary(board, m.consumed);
      r := ExecutePromote(afterMoveBoard, m.consumed.piece, m.consumed.destination);
    } else {
      r := ExecuteOrdinary(board, m);
    }
  }

  // ---------------------------------------------------------------- Player.makeMove and the escape search

  /** BoardUpdate: the board after the attempt and the move status. */
  datatype Transition = Transition(updatedBoard: ChessBoard, moveStatus: MoveStatus)

  /** `r` is the outcome `spec` describes: the same exception, or the same status with
      an object standing for the spec's board. */
  ghost predicate Reports(r: Result<Transition>, spec: Result<BoardUpdate>)
  {
    (r.Ok? <==> spec.Ok?) && (r.Thrown? ==> r.reason == spec.reason) &&
    (r.Ok? ==> r.value.moveStatus == spec.value.moveStatus &&
               r.value.updatedBoard.Valid() && r.value.updatedBoard.State() == spec.value.updatedBoard)
  }

  /** makeMove of `player` on its board: an illegal move leaves the board as it was, a
      move after which some legal move of the side to move ends on the mover's king
      leaves it too (IN_CHECK), any other move completes on the executed board. An
      exception of the execution propagates; executing a castle marks the board's
      current mover as castled. */
  method MakeMove(board: ChessBoard, player: Player, m: Move) returns (r: Result<Transition>)
    requires board.Valid() && board.HasPlayer(player) && WellFormed(m)
    modifies board.currentMovingPlayer
    ensures Reports(r, MakeMoveSpec(board.State(), player.team, m))
    ensures r.Ok? && r.value.moveStatus != Completed ==> r.value.updatedBoard == board
    ensures r.Ok? && r.value.moveStatus == Completed ==>
              fresh(r.value.updatedBoard) && fresh(r.value.updatedBoard.whitePlayer) &&
              fresh(r.value.updatedBoard.blackPlayer) && fresh(r.value.updatedBoard.currentMovingPlayer) &&
              r.value.updatedBoard.CastledFlags() == NoFlags
    ensures board.CastledFlags() ==
              if IsLegalMove(board.State(), player.team, m) && MarksCastled(m)
              then MarkCastled(old(board.CastledFlags()), board.State().mover)
              else old(board.CastledFlags())
  {
    if !Contains(player.legalMoves, m) {
      return Ok(Transition(board, IllegalMove));
    }
    r := TryMove(board, m);
  }

  /** makeMove past the legality check: execute, then keep the board with IN_CHECK when
      the mover's king is attacked on the new board. */
  method TryMove(board: ChessBoard, m: Move) returns (r: Result<Transition>)
    requires board.Valid() && WellFormed(m)
    modifies board.currentMovingPlayer
    ensures Reports(r, TryMoveSpec(board.State(), m))
    ensures r.Ok? && r.value.moveStatus != Completed ==> r.value.updatedBoard == board
    ensures r.Ok? && r.value.moveStatus == Completed ==>
              fresh(r.value.updatedBoard) && fresh(r.value.updatedBoard.whitePlayer) &&
              fresh(r.value.updatedBoard.blackPlayer) && fresh(r.value.updatedBoard.currentMovingPlayer) &&
              r.value.updatedBoard.CastledFlags() == NoFlags
    ensures board.CastledFlags() ==
              if MarksCastled(m) then MarkCastled(old(board.CastledFlags()), board.State().mover)
              else old(board.CastledFlags())
  {
    var updateBoard :- ExecuteMove(board, m);
    assert updateBoard.Shaped();
    var attacked := KingAttacked(updateBoard);
    if attacked {
      return Ok(Transition(board, InCheck));
    }
    return Ok(Transition(updateBoard, Completed));
  }

  /** `r` is the answer `spec` describes, and `flags` are the flags it leaves: the same
      exception, or the same answer with the same flags. */
  predicate Answers<T(==)>(r: Result<T>, spec: Result<(T, Flags)>, flags: Flags)
  {
    (r.Ok? <==> spec.Ok?) && (r.Thrown? ==> r.reason == spec.reason) &&
    (r.Ok? ==> r.value == spec.value.0 && flags == spec.value.1)
  }

  /** hasEscapeMove: makeMove on each legal move in turn until one completes. An
      exception of an attempt propagates; every castle attempted on the way marks the
      board's current mover. */
  method HasEscapeMove(board: ChessBoard, player: Player) returns (r: Result<bool>)
    requires board.Valid() && board.HasPlayer(player)
    modifies board.currentMovingPlayer
    ensures Answers(r, Status.HasEscapeMove(board.State(), player.team, old(board.CastledFlags())), board.CastledFlags())
    ensures OnlyMoverMarked(old(board.CastledFlags()), board.CastledFlags(), board.State().mover)
  {
    r := EscapeLoop(board, player, player.legalMoves);
  }

  /** isCheckMate: in check, and the escape search (run only then) finds nothing. */
  method IsCheckMate(board: ChessBoard, player: Player) returns (r: Result<bool>)
    requires board.Valid() && board.HasPlayer(player)
    modifies board.currentMovingPlayer
    ensures Answers(r, Status.IsCheckMate(board.State(), player.team, old(board.CastledFlags())), board.CastledFlags())
    ensures OnlyMoverMarked(old(board.CastledFlags()), board.CastledFlags(), board.State().mover)
  {
    if !player.isInCheck {
      return Ok(false);
    }
    var escape :- HasEscapeMove(board, player);
    return Ok(!escape);
  }

  /** isStaleMate: not in check, and the escape search (run only then) finds nothing. */
  method IsStaleMate(board: ChessBoard, player: Player) returns (r: Result<bool>)
    requires board.Valid() && board.HasPlayer(player)
    modifies board.currentMovingPlayer
    ensures Answers(r, Status.IsStaleMate(board.State(), player.team, old(board.CastledFlags())), board.CastledFlags())
    ensures OnlyMoverMarked(old(board.CastledFlags()), board.CastledFlags(), board.State().mover)
  {
    if player.isInCheck {
      return Ok(false);
    }
    var escape :- HasEscapeMove(board, player);
    return Ok(!escape);
  }

  /** The loop of hasEscapeMove over the moves still to try. */
  method EscapeLoop(board: ChessBoard, player: Player, moves: seq<Move>) returns (r: Result<bool>)
    requires board.Valid() && board.HasPlayer(player)
    requires forall j :: 0 <= j < |moves| ==> WellFormed(moves[j])
    modifies board.currentMovingPlayer
    ensures var b := board.State();
            Answers(r, EscapeScan(Attempts(b, player.team, moves), CastleMarks(b, player.team, moves),
                                  b.mover, old(board.CastledFlags())), board.CastledFlags())
    ensures OnlyMoverMarked(old(board.CastledFlags()), board.CastledFlags(), board.State().mover)
  {
    ghost var b := board.State();
    ghost var scan := EscapeScan(Attempts(b, player.team, moves), CastleMarks(b, player.team, moves),
                                 b.mover, board.CastledFlags());
    ghost var flags := board.CastledFlags();
    var rest := moves;
    while rest != []
      invariant forall j :: 0 <= j < |rest| ==> WellFormed(rest[j])
      invariant OnlyMoverMarked(flags, board.CastledFlags(), b.mover)
      invariant EscapeScan(Attempts(b, player.team, rest), CastleMarks(b, player.team, rest),
                           b.mover, board.CastledFlags()) == scan
      decreases |rest|
    {
      var completed :- EscapeAttempt(board, player, rest);
      if completed {
        return Ok(true);
      }
      rest := rest[1..];
    }
    return Ok(false);
  }

  /** One turn of the hasEscapeMove loop, on the first of the moves still to try: an
      exception or a completed attempt ends the scan, any other outcome leaves the scan
      of the remaining moves to do, with the flags the attempt left. */
  method EscapeAttempt(board: ChessBoard, player: Player, moves: seq<Move>) returns (r: Result<bool>)
    requires board.Valid() && board.HasPlayer(player)
    requires moves != [] && forall j :: 0 <= j < |moves| ==> WellFormed(moves[j])
    modifies board.currentMovingPlayer
    ensures var b := board.State();
            var scan := EscapeScan(Attempts(b, player.team, moves), CastleMarks(b, player.team, moves),
                                   b.mover, old(board.CastledFlags()));
            (r.Thrown? ==> scan.Thrown? && r.reason == scan.reason) &&
            (r.Ok? && r.value ==> scan == Ok((true, board.CastledFlags()))) &&
            (r.Ok? && !r.value ==>
               scan == EscapeScan(Attempts(b, player.team, moves[1..]), CastleMarks(b, player.team, moves[1..]),
                                  b.mover, board.CastledFlags()))
    ensures OnlyMoverMarked(old(board.CastledFlags()), board.CastledFlags(), board.State().mover)
  {
    AttemptsStep(board.State(), player.team, moves);
    CastleMarksStep(board.State(), player.team, moves);
    var verificationTransition :- MakeMove(board, player, moves[0]);
    r := Ok(verificationTransition.moveStatus == Completed);
  }

  /** The check of makeMove on the executed board: whether some legal move of that
      board's current mover ends on the tile of its opponent's king. */
  method KingAttacked(updateBoard: ChessBoard) returns (attacked: bool)
    requires updateBoard.Valid()
    ensures attacked == LeavesKingAttacked(updateBoard.State())
  {
    var mover := updateBoard.currentMovingPlayer;
    var attacksOnKing := AttackOnTile(updateBoard.OpponentOf(mover).king.position, mover.legalMoves);
    attacked := attacksOnKing != [];
  }

  /** MoveCreator.createMove: the first of White's then Black's legal moves that leaves
      from `current` for `destination`, else the invalid move. */
  method CreateMove(board: ChessBoard, current: int, destination: int) returns (found: Move)
    requires board.Valid()
    ensures found == FirstMatch(Rules.AllLegalMoves(board.State()), current, destination)
  {
    var rest := board.whitePlayer.legalMoves + board.blackPlayer.legalMoves;
    while rest != []
      invariant FirstMatch(rest, current, destination) == FirstMatch(Rules.AllLegalMoves(board.State()), current, destination)
      decreases |rest|
    {
      if Matches(rest[0], current, destination) {
        return rest[0];
      }
      rest := rest[1..];
    }
    return InvalidMove;
  }

  // ---------------------------------------------------------------- gameInitialize

  /** gameInitialize: the 32 pieces of the start position put one by one, White to
      move; the build cannot throw, and the board is the standard start position. */
  method GameInitialize() returns (chessBoard: ChessBoard)
    ensures chessBoard.Valid() && chessBoard.State() == StartBoard()
    ensures fresh(chessBoard) && chessBoard.CastledFlags() == NoFlags
  {
    var builder := new Builder();
    // the black pieces
    builder.PutPiece(Piece(Rook, 0, Black, true));
    builder.PutPiece(Piece(Knight, 1, Black, true));
    builder.PutPiece(Piece(Bishop, 2, Black, true));
    builder.PutPiece(Piece(Queen, 3, Black, true));
    builder.PutPiece(Piece(King, 4, Black, true));
    builder.PutPiece(Piece(Bishop, 5, Black, true));
    builder.PutPiece(Piece(Knight, 6, Black, true));
    builder.PutPiece(Piece(Rook, 7, Black, true));
    builder.PutPiece(Piece(Pawn, 8, Black, true));
    builder.PutPiece(Piece(Pawn, 9, Black, true));
    builder.PutPiece(Piece(Pawn, 10, Black, true));
    builder.PutPiece(Piece(Pawn, 11, Black, true));
    builder.PutPiece(Piece(Pawn, 12, Black, true));
    builder.PutPiece(Piece(Pawn, 13, Black, true));
    builder.PutPiece(Piece(Pawn, 14, Black, true));
    builder.PutPiece(Piece(Pawn, 15, Black, true));
    assert builder.piecesPosition == BlackPuts();
    // the white pieces
    builder.PutPiece(Piece(Rook, 56, White, true));
    builder.PutPiece(Piece(Knight, 57, White, true));
    builder.PutPiece(Piece(Bishop, 58, White, true));
    builder.PutPiece(Piece(Queen, 59, White, true));
    builder.PutPiece(Piece(King, 60, White, true));
    builder.PutPiece(Piece(Bishop, 61, White, true));
    builder.PutPiece(Piece(Knight, 62, White, true));
    builder.PutPiece(Piece(Rook, 63, White, true));
    builder.PutPiece(Piece(Pawn, 48, White, true));
    builder.PutPiece(Piece(Pawn, 49, White, true));
    builder.PutPiece(Piece(Pawn, 50, White, true));
    builder.PutPiece(Piece(Pawn, 51, White, true));
    builder.PutPiece(Piece(Pawn, 52, White, true));
    builder.PutPiece(Piece(Pawn, 53, White, true));
    builder.PutPiece(Piece(Pawn, 54, White, true));
    builder.PutPiece(Piece(Pawn, 55, White, true));
    builder.SetMover(White);
    assert builder.piecesPosition == WhitePuts(BlackPuts());
    StartPutsAreStart();
    StartBuilds();
    var built := builder.Build();
    chessBoard := built.value;
  }

  /** The builder's positions after the 16 black puts of gameInitialize. */
  function BlackPuts(): map<int, Piece>
  {
    map[]
      [0 := Piece(Rook, 0, Black, true)][1 := Piece(Knight, 1, Black, true)]
      [2 := Piece(Bishop, 2, Black, true)][3 := Piece(Queen, 3, Black, true)]
      [4 := Piece(King, 4, Black, true)][5 := Piece(Bishop, 5, Black, true)]
      [6 := Piece(Knight, 6, Black, true)][7 := Piece(Rook, 7, Black, true)]
      [8 := Piece(Pawn, 8, Black, true)][9 := Piece(Pawn, 9, Black, true)]
      [10 := Piece(Pawn, 10, Black, true)][11 := Piece(Pawn, 11, Black, true)]
      [12 := Piece(Pawn, 12, Black, true)][13 := Piece(Pawn, 13, Black, true)]
      [14 := Piece(Pawn, 14, Black, true)][15 := Piece(Pawn, 15, Black, true)]
  }

  /** The 16 white puts of gameInitialize, made on top of `position`. */
  function WhitePuts(position: map<int, Piece>): map<int, Piece>
  {
    position
      [56 := Piece(Rook, 56, White, true)][57 := Piece(Knight, 57, White, true)]
      [58 := Piece(Bishop, 58, White, true)][59 := Piece(Queen, 59, White, true)]
      [60 := Piece(King, 60, White, true)][61 := Piece(Bishop, 61, White, true)]
      [62 := Piece(Knight, 62, White, true)][63 := Piece(Rook, 63, White, true)]
      [48 := Piece(Pawn, 48, White, true)][49 := Piece(Pawn, 49, White, true)]
      [50 := Piece(Pawn, 50, White, true)][51 := Piece(Pawn, 51, White, true)]
      [52 := Piece(Pawn, 52, White, true)][53 := Piece(Pawn, 53, White, true)]
      [54 := Piece(Pawn, 54, White, true)][55 := Piece(Pawn, 55, White, true)]
  }

  /** The black puts fill tiles 0 to 15 with the black start pieces. */
  lemma BlackPutsAreStart()
    ensures BlackPuts() == map k | 0 <= k < 16 :: StartPiece(k).value
  {
  }

  /** The white puts add the white start pieces on tiles 48 to 63. */
  lemma WhitePutsAreStart(position: map<int, Piece>)
    ensures WhitePuts(position) == position + map k | 48 <= k < 64 :: StartPiece(k).value
  {
  }

  /** The 32 puts of gameInitialize leave exactly the start pieces. */
  lemma StartPutsAreStart()
    ensures WhitePuts(BlackPuts()) == StartPieces()
  {
    BlackPutsAreStart();
    WhitePutsAreStart(BlackPuts());
  }
}
