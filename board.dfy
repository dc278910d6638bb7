/** The immutable state of a ChessBoard: its 64 tiles, the team to move and the
    en-passant pawn, together with what the constructor derives from the tiles
    (the per-team piece lists and each team's king). */
module Boards {
  import opened Wrappers
  import opened Geometry
  import opened Teams
  import opened Pieces

  /** squares[i] is the piece on tile i, None for an empty tile. */
  datatype Board = Board(squares: seq<Option<Piece>>, mover: Team, enPassant: Option<Piece>)

  /** 64 tiles, and every piece sits on the tile its own position names
      (Builder.putPiece keys each piece by its position). */
  predicate Placed(squares: seq<Option<Piece>>)
  {
    |squares| == TotalTiles &&
    forall i :: 0 <= i < TotalTiles && squares[i].Some? ==> squares[i].value.position == i
  }

  /** The pieces of `team` on tiles 0 .. n-1, in tile order (the spec of onBoardPieces). */
  function PiecesBelow(squares: seq<Option<Piece>>, team: Team, n: nat): (pieces: seq<Piece>)
    requires Placed(squares) && n <= TotalTiles
    ensures forall j :: 0 <= j < |pieces| ==>
              0 <= pieces[j].position < n && squares[pieces[j].position] == Some(pieces[j]) && pieces[j].team == team
  {
    if n == 0 then []
    else
      var earlier := PiecesBelow(squares, team, n - 1);
      match squares[n - 1]
      case Some(p) => if p.team == team then earlier + [p] else earlier
      case None => earlier
  }

  /** The list is in strictly ascending tile order, and it misses no piece of the team
      below tile n. */
  lemma PiecesBelowOrderedAndComplete(squares: seq<Option<Piece>>, team: Team, n: nat)
    requires Placed(squares) && n <= TotalTiles
    ensures var pieces := PiecesBelow(squares, team, n);
      (forall j, k :: 0 <= j < k < |pieces| ==> pieces[j].position < pieces[k].position) &&
      (forall i :: 0 <= i < n && squares[i].Some? && squares[i].value.team == team ==> squares[i].value in pieces)
  {
    PiecesBelowOrdered(squares, team, n);
    PiecesBelowComplete(squares, team, n);
  }

  /** Strictly ascending tile order. */
  predicate Ascending(pieces: seq<Piece>)
  {
    forall j, k :: 0 <= j < k < |pieces| ==> pieces[j].position < pieces[k].position
  }

  lemma {:induction false} PiecesBelowOrdered(squares: seq<Option<Piece>>, team: Team, n: nat)
    requires Placed(squares) && n <= TotalTiles
    ensures Ascending(PiecesBelow(squares, team, n))
  {
    if n > 0 {
      var m := n - 1;
      PiecesBelowOrdered(squares, team, m);
      var earlier := PiecesBelow(squares, team, m);
      if squares[n - 1].Some? && squares[n - 1].value.team == team {
        var pieces := earlier + [squares[n - 1].value];
        assert PiecesBelow(squares, team, n) == pieces;
        forall j, k | 0 <= j < k < |pieces|
          ensures pieces[j].position < pieces[k].position
        {
          assert pieces[j] == earlier[j];
          if k < |earlier| {
            assert pieces[k] == earlier[k];
            assert earlier[j].position < earlier[k].position;
          } else {
            assert pieces[k] == squares[n - 1].value;
            assert earlier[j].position < n - 1;
          }
        }
        assert Ascending(pieces);
      } else {
        assert PiecesBelow(squares, team, n) == earlier;
      }
    }
  }

  lemma {:induction false} PiecesBelowComplete(squares: seq<Option<Piece>>, team: Team, n: nat)
    requires Placed(squares) && n <= TotalTiles
    ensures var pieces := PiecesBelow(squares, team, n);
      forall i :: 0 <= i < n && squares[i].Some? && squares[i].value.team == team ==> squares[i].value in pieces
  {
    if n > 0 {
      var m := n - 1;
      PiecesBelowComplete(squares, team, m);
      var earlier := PiecesBelow(squares, team, m);
      if squares[n - 1].Some? && squares[n - 1].value.team == team {
        var pieces := earlier + [squares[n - 1].value];
        assert PiecesBelow(squares, team, n) == pieces;
        forall i | 0 <= i < n && squares[i].Some? && squares[i].value.team == team
          ensures squares[i].value in pieces
        {
          if i < n - 1 {
            var j :| 0 <= j < |earlier| && earlier[j] == squares[i].value;
            assert pieces[j] == squares[i].value;
          } else {
            assert pieces[|earlier|] == squares[i].value;
          }
        }
      } else {
        assert PiecesBelow(squares, team, n) == earlier;
      }
    }
  }

  /** ChessBoard.onBoardPieces: the team's pieces in ascending tile order. */
  function PiecesOf(squares: seq<Option<Piece>>, team: Team): seq<Piece>
    requires Placed(squares)
  {
    PiecesBelow(squares, team, TotalTiles)
  }

  /** ChessBoard.onBoardPieces as the constructor runs it: one pass over the tiles. */
  method OnBoardPieces(squares: seq<Option<Piece>>, team: Team) returns (pieces: seq<Piece>)
    requires Placed(squares)
    ensures pieces == PiecesOf(squares, team)
  {
    pieces := [];
    var i := 0;
    while i < |squares|
      invariant 0 <= i <= TotalTiles
      invariant pieces == PiecesBelow(squares, team, i)
    {
      var tile := squares[i];
      if tile.Some? {
        var curPiece := tile.value;
        if curPiece.team == team {
          pieces := pieces + [curPiece];
        }
      }
      i := i + 1;
    }
  }

  /** Player.setKing: the first piece whose type is a king, None where Java throws. */
  function FirstKing(pieces: seq<Piece>): (king: Option<Piece>)
    ensures king.Some? ==> king.value in pieces && king.value.kind == King
  {
    if |pieces| == 0 then None
    else if IsKing(pieces[0].kind) then Some(pieces[0])
    else FirstKing(pieces[1..])
  }

  /** setKing finds nothing exactly when no piece is a king, and otherwise the first king
      in the list. */
  lemma {:induction false} FirstKingIsFirst(pieces: seq<Piece>)
    ensures FirstKing(pieces).None? <==> forall j :: 0 <= j < |pieces| ==> pieces[j].kind != King
    ensures FirstKing(pieces).Some? ==>
              exists j :: 0 <= j < |pieces| && pieces[j] == FirstKing(pieces).value &&
                forall k :: 0 <= k < j ==> pieces[k].kind != King
  {
    if |pieces| > 0 && !IsKing(pieces[0].kind) {
      FirstKingIsFirst(pieces[1..]);
      assert forall j :: 1 <= j < |pieces| ==> pieces[j] == pieces[1..][j - 1];
      if FirstKing(pieces).Some? {
        var j :| 0 <= j < |pieces| - 1 && pieces[1..][j] == FirstKing(pieces).value &&
          forall k :: 0 <= k < j ==> pieces[1..][k].kind != King;
        assert pieces[j + 1] == FirstKing(pieces).value;
      }
    }
  }

  /** A board the ChessBoard constructor accepts: both players find a king, and the
      en-passant piece (declared as a Pawn in Java) is a pawn. */
  predicate Valid(b: Board)
  {
    Placed(b.squares) &&
    FirstKing(PiecesOf(b.squares, White)).Some? &&
    FirstKing(PiecesOf(b.squares, Black)).Some? &&
    (b.enPassant.Some? ==> b.enPassant.value.kind == Pawn)
  }

  /** getWhitePieces / getBlackPieces */
  function ActivePieces(b: Board, team: Team): seq<Piece>
    requires Placed(b.squares)
  {
    PiecesOf(b.squares, team)
  }

  /** Player.getKing: the king setKing found. */
  function KingOf(b: Board, team: Team): (king: Piece)
    requires Valid(b)
    ensures king.kind == King && king.team == team
    ensures IsValidTileCoordinate(king.position) && b.squares[king.position] == Some(king)
  {
    var found := FirstKing(PiecesOf(b.squares, team));
    assert found.Some? by {
      if team == White { } else { assert team == Black; }
    }
    found.value
  }

  /** A team has a king exactly when some tile holds a king of that team. */
  lemma {:induction false} HasKingIffKingOnSomeTile(squares: seq<Option<Piece>>, team: Team)
    requires Placed(squares)
    ensures FirstKing(PiecesOf(squares, team)).Some? <==>
              exists i :: 0 <= i < TotalTiles && squares[i].Some? && squares[i].value.kind == King && squares[i].value.team == team
  {
    var ps := PiecesOf(squares, team);
    PiecesBelowOrderedAndComplete(squares, team, TotalTiles);
    FirstKingIsFirst(ps);
    if FirstKing(ps).Some? {
      var k :| 0 <= k < |ps| && ps[k].kind == King;
      assert squares[ps[k].position].Some?;
    }
    if exists i :: 0 <= i < TotalTiles && squares[i].Some? && squares[i].value.kind == King && squares[i].value.team == team {
      var i :| 0 <= i < TotalTiles && squares[i].Some? && squares[i].value.kind == King && squares[i].value.team == team;
      assert squares[i].value in ps;
      var j :| 0 <= j < |ps| && ps[j] == squares[i].value;
      assert ps[j].kind == King;
    }
  }

  /** ChessBoard.createBoard: tile i holds the builder's piece at key i, if any. */
  function CreateBoard(piecesPosition: map<int, Piece>): (squares: seq<Option<Piece>>)
    requires forall k :: k in piecesPosition ==> piecesPosition[k].position == k
    ensures Placed(squares)
    ensures forall i :: 0 <= i < TotalTiles ==>
              (squares[i].Some? <==> i in piecesPosition) &&
              (i in piecesPosition ==> squares[i] == Some(piecesPosition[i]))
  {
    seq(TotalTiles, i requires 0 <= i < TotalTiles => if i in piecesPosition then Some(piecesPosition[i]) else None)
  }

  /** ChessBoard.createBoard as a loop over the 64 tile indices. */
  method CreateTiles(piecesPosition: map<int, Piece>) returns (squares: seq<Option<Piece>>)
    requires forall k :: k in piecesPosition ==> piecesPosition[k].position == k
    ensures squares == CreateBoard(piecesPosition)
  {
    var tiles := new Option<Piece>[TotalTiles](_ => None);
    for i := 0 to TotalTiles
      invariant forall j :: 0 <= j < i ==> tiles[j] == CreateBoard(piecesPosition)[j]
    {
      tiles[i] := if i in piecesPosition then Some(piecesPosition[i]) else None;
    }
    squares := tiles[..];
  }

  /** Builder.build: the new ChessBoard, or the exception its constructor throws
      (first a missing white or black king in setKing, then a null next mover). */
  function BuildSpec(piecesPosition: map<int, Piece>, nextMover: Option<Team>, enPassantPawn: Option<Piece>): (r: Result<Board>)
    requires forall k :: k in piecesPosition ==> piecesPosition[k].position == k
    requires enPassantPawn.Some? ==> enPassantPawn.value.kind == Pawn
    ensures r.Ok? ==> Valid(r.value) && r.value.squares == CreateBoard(piecesPosition) &&
                      Some(r.value.mover) == nextMover && r.value.enPassant == enPassantPawn
    ensures r.Thrown? <==>
              nextMover.None? ||
              (forall i :: 0 <= i < TotalTiles && i in piecesPosition ==> !(piecesPosition[i].kind == King && piecesPosition[i].team == White)) ||
              (forall i :: 0 <= i < TotalTiles && i in piecesPosition ==> !(piecesPosition[i].kind == King && piecesPosition[i].team == Black))
  {
    var squares := CreateBoard(piecesPosition);
    HasKingIffKingOnSomeTile(squares, White);
    HasKingIffKingOnSomeTile(squares, Black);
    if FirstKing(PiecesOf(squares, White)).None? || FirstKing(PiecesOf(squares, Black)).None? then
      Thrown(NoKingOnBoard)
    else if nextMover.None? then
      Thrown(NoMoverSet)
    else
      Ok(Board(squares, nextMover.value, enPassantPawn))
  }
}

module StartPosition {
  import opened Wrappers
  import opened Geometry
  import opened Teams
  import opened Pieces
  import opened Boards

  /** The back-rank order from file a to file h, for both teams. */
  function BackRank(column: int): PieceType
    requires 0 <= column < 8
  {
    [Rook, Knight, Bishop, Queen, King, Bishop, Knight, Rook][column]
  }

  /** The piece gameInitialize puts on a tile, if any; every piece is built by the
      one-argument-team constructor, so its first-move flag is set. */
  function StartPiece(i: int): Option<Piece>
  {
    if 0 <= i < 8 then Some(Piece(BackRank(i), i, Black, true))
    else if 8 <= i < 16 then Some(Piece(Pawn, i, Black, true))
    else if 48 <= i < 56 then Some(Piece(Pawn, i, White, true))
    else if 56 <= i < 64 then Some(Piece(BackRank(i - 56), i, White, true))
    else None
  }

  /** The Builder contents gameInitialize produces. */
  function StartPieces(): (pieces: map<int, Piece>)
    ensures forall k :: k in pieces ==> pieces[k].position == k
  {
    map i | 0 <= i < TotalTiles && StartPiece(i).Some? :: StartPiece(i).value
  }

  /** The board gameInitialize builds. */
  function StartBoard(): Board
  {
    Board(seq(TotalTiles, i => StartPiece(i)), White, None)
  }

  /** Building the start pieces with White to move does not throw (both kings are
      present) and yields StartBoard. */
  lemma {:induction false} StartBuilds()
    ensures BuildSpec(StartPieces(), Some(White), None) == Ok(StartBoard())
  {
    var squares := CreateBoard(StartPieces());
    assert squares == StartBoard().squares;
    assert squares[4] == Some(Piece(King, 4, Black, true));
    assert squares[60] == Some(Piece(King, 60, White, true));
    HasKingIffKingOnSomeTile(squares, White);
    HasKingIffKingOnSomeTile(squares, Black);
  }

  /** The standard start position: Black on tiles 0-15, White on 48-63, 16-47
      empty, White to move, no en-passant pawn, every piece unmoved, pawns on the
      second and seventh rows and the kings on 4 and 60. */
  lemma StartLayout()
    ensures var b := StartBoard();
      b.mover == White && b.enPassant.None? &&
      (forall i :: 0 <= i < 16 ==> b.squares[i].Some? && b.squares[i].value.team == Black && b.squares[i].value.isFirstMove) &&
      (forall i :: 48 <= i < 64 ==> b.squares[i].Some? && b.squares[i].value.team == White && b.squares[i].value.isFirstMove) &&
      (forall i :: 16 <= i < 48 ==> b.squares[i].None?) &&
      (forall i :: 8 <= i < 16 || 48 <= i < 56 ==> b.squares[i].Some? && b.squares[i].value.kind == Pawn) &&
      b.squares[4] == Some(Piece(King, 4, Black, true)) && b.squares[60] == Some(Piece(King, 60, White, true))
  {
  }
}
