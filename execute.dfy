/** Move.executeMove and its overrides: a new board is built by putting the pieces of
    the board's current mover (all but the moving ones), then the opponent's pieces,
    then the moved pieces into a Builder, with the opponent as next mover. */
module Execution {
  import opened Wrappers
  import opened Geometry
  import opened Teams
  import opened Pieces
  import opened Boards
  import opened Moves

  /** Builder.piecesPosition keeps every piece under its own position. */
  predicate KeysMatch(position: map<int, Piece>)
  {
    forall k :: k in position ==> position[k].position == k
  }

  /** The pieces of `pieces` that equal none of `removed`, in order (the `if
      (!x.equals(piece))` filters of the put loops). */
  function Except(pieces: seq<Piece>, removed: set<Piece>): (kept: seq<Piece>)
    ensures |kept| <= |pieces|
  {
    if pieces == [] then []
    else
      var init := pieces[..|pieces| - 1];
      var last := pieces[|pieces| - 1];
      if last in removed then Except(init, removed) else Except(init, removed) + [last]
  }

  /** The filter keeps exactly the pieces of the list that are not removed. */
  lemma {:induction false} ExceptMembers(pieces: seq<Piece>, removed: set<Piece>)
    ensures forall x :: x in Except(pieces, removed) <==> x in pieces && x !in removed
    decreases |pieces|
  {
    if pieces != [] {
      var init := pieces[..|pieces| - 1];
      assert pieces == init + [pieces[|pieces| - 1]];
      ExceptMembers(init, removed);
    }
  }

  /** Builder.putPiece for each piece in turn: a later piece on the same position
      replaces an earlier one. */
  function PutAll(position: map<int, Piece>, pieces: seq<Piece>): (r: map<int, Piece>)
    requires KeysMatch(position)
    ensures KeysMatch(r)
  {
    if pieces == [] then position
    else
      var last := pieces[|pieces| - 1];
      PutAll(position, pieces[..|pieces| - 1])[last.position := last]
  }

  /** The two put loops every executeMove starts with: the current mover's pieces other
      than `removedOwn`, then the opponent's pieces other than `removedEnemy`. */
  function Rebuild(b: Board, removedOwn: set<Piece>, removedEnemy: set<Piece>): (position: map<int, Piece>)
    requires Placed(b.squares)
    ensures KeysMatch(position)
  {
    var own := Except(PiecesOf(b.squares, b.mover), removedOwn);
    var enemy := Except(PiecesOf(b.squares, Opponent(b.mover)), removedEnemy);
    PutAll(PutAll(map[], own), enemy)
  }

  /** Builder.putPiece(piece) */
  function Put(position: map<int, Piece>, piece: Piece): (r: map<int, Piece>)
    requires KeysMatch(position)
    ensures KeysMatch(r)
  {
    position[piece.position := piece]
  }

  /** The end of every executeMove: build the board, the opponent of the board's mover
      moving next. */
  function Finish(b: Board, position: map<int, Piece>, enPassant: Option<Piece>): (r: Result<Board>)
    requires KeysMatch(position) && (enPassant.Some? ==> enPassant.value.kind == Pawn)
    ensures r.Ok? ==> Valid(r.value)
  {
    BuildSpec(position, Some(Opponent(b.mover)), enPassant)
  }

  /** executeMove of every move class. The board is the move's own board, and the
      player whose pieces are kept and whose opponent moves next is that board's current
      mover, whichever team the moving piece belongs to. A promotion executes its
      wrapped move first and rebuilds that board with the promoted queen on the
      destination. */
  function ExecuteSpec(b: Board, m: Move): (r: Result<Board>)
    requires Placed(b.squares) && WellFormed(m)
    ensures r.Ok? ==> Valid(r.value)
  {
    match m
    case InvalidMove => Thrown(InvalidMoveExecuted)
    case EnPassantMove(p, d, t) =>
      Finish(b, Put(Rebuild(b, {p}, {t}), MovePiece(p, d)), None)
    case PawnDoubleMove(p, d) =>
      Finish(b, Put(Rebuild(b, {p}, {}), MovePiece(p, d)), Some(MovePiece(p, d)))
    case KingSideCastleMove(p, d, rook, _, rookDestination) =>
      Finish(b, Put(Put(Rebuild(b, {p, rook}, {}), MovePiece(p, d)), Piece(Rook, rookDestination, rook.team, false)), None)
    case QueenSideCastleMove(p, d, rook, _, rookDestination) =>
      Finish(b, Put(Put(Rebuild(b, {p, rook}, {}), MovePiece(p, d)), Piece(Rook, rookDestination, rook.team, false)), None)
    case PawnPromotion(c) =>
      var afterMoveBoard :- ExecuteSpec(b, c);
      PromoteSpec(afterMoveBoard, c.piece, c.destination)
    case _ =>
      Finish(b, Put(Rebuild(b, {m.piece}, {}), MovePiece(m.piece, m.destination)), None)
  }

  /** The rebuild pawnPromotion.executeMove makes of the board its wrapped move left:
      that board's pieces except the pawn as it stood before moving, then the promoted
      queen moved onto the destination, the same player still to move. */
  function PromoteSpec(afterMoveBoard: Board, pawn: Piece, destination: int): (r: Result<Board>)
    requires Placed(afterMoveBoard.squares)
    ensures r.Ok? ==> Valid(r.value)
  {
    BuildSpec(Put(Rebuild(afterMoveBoard, {pawn}, {}), MovePiece(PromotedPiece(pawn), destination)),
              Some(afterMoveBoard.mover), None)
  }

  /** CastleMove.executeMove calls castled() on the board's current mover: the
      only state an execution changes outside the new board. */
  predicate MarksCastled(m: Move)
  {
    IsCastle(m)
  }

  // ---------------------------------------------------------------- what an execution does to the tiles

  /** The tiles after the piece on `from` has been lifted and `moved` set down on `to`. */
  function Moved(squares: seq<Option<Piece>>, from: int, to: int, moved: Piece): (after: seq<Option<Piece>>)
    requires |squares| == TotalTiles
    ensures |after| == TotalTiles
  {
    seq(TotalTiles, i requires 0 <= i < TotalTiles => if i == to then Some(moved) else if i == from then None else squares[i])
  }

  /** A team's piece list holds exactly the pieces of that team standing on their tiles. */
  lemma PiecesOfMembers(squares: seq<Option<Piece>>, team: Team)
    requires Placed(squares)
    ensures forall x :: x in PiecesOf(squares, team) <==>
              IsValidTileCoordinate(x.position) && squares[x.position] == Some(x) && x.team == team
  {
    var pieces := PiecesOf(squares, team);
    PiecesBelowOrderedAndComplete(squares, team, TotalTiles);
    forall x | x in pieces
      ensures IsValidTileCoordinate(x.position) && squares[x.position] == Some(x) && x.team == team
    {
      var j :| 0 <= j < |pieces| && pieces[j] == x;
    }
  }

  /** What a put sequence holds when every piece put stands on its own tile. */
  lemma {:induction false} PutAllOnSquares(position: map<int, Piece>, pieces: seq<Piece>, squares: seq<Option<Piece>>)
    requires KeysMatch(position) && Placed(squares)
    requires forall x :: x in pieces ==> IsValidTileCoordinate(x.position) && squares[x.position] == Some(x)
    ensures forall k :: k in PutAll(position, pieces) <==>
              k in position || (IsValidTileCoordinate(k) && squares[k].Some? && squares[k].value in pieces)
    ensures forall k :: k in PutAll(position, pieces) ==>
              PutAll(position, pieces)[k] ==
                if IsValidTileCoordinate(k) && squares[k].Some? && squares[k].value in pieces then squares[k].value
                else position[k]
  {
    if pieces != [] {
      var init := pieces[..|pieces| - 1];
      var last := pieces[|pieces| - 1];
      assert pieces == init + [last];
      PutAllOnSquares(position, init, squares);
    }
  }

  /** The put loops keep, on its own tile, every piece of the board except the removed
      ones, and nothing else. */
  lemma RebuildSquares(b: Board, removedOwn: set<Piece>, removedEnemy: set<Piece>)
    requires Placed(b.squares)
    ensures forall k :: k in Rebuild(b, removedOwn, removedEnemy) <==>
              IsValidTileCoordinate(k) && b.squares[k].Some? &&
              b.squares[k].value !in (if b.squares[k].value.team == b.mover then removedOwn else removedEnemy)
    ensures forall k :: k in Rebuild(b, removedOwn, removedEnemy) ==>
              IsValidTileCoordinate(k) && Some(Rebuild(b, removedOwn, removedEnemy)[k]) == b.squares[k]
  {
    PiecesOfMembers(b.squares, b.mover);
    PiecesOfMembers(b.squares, Opponent(b.mover));
    var own := Except(PiecesOf(b.squares, b.mover), removedOwn);
    var enemy := Except(PiecesOf(b.squares, Opponent(b.mover)), removedEnemy);
    ExceptMembers(PiecesOf(b.squares, b.mover), removedOwn);
    ExceptMembers(PiecesOf(b.squares, Opponent(b.mover)), removedEnemy);
    PutAllOnSquares(map[], own, b.squares);
    PutAllOnSquares(PutAll(map[], own), enemy, b.squares);
  }

  /** Some tile holds a king of `team`. */
  predicate HasKing(squares: seq<Option<Piece>>, team: Team)
    requires |squares| == TotalTiles
  {
    exists i :: 0 <= i < TotalTiles && squares[i].Some? && squares[i].value.kind == King && squares[i].value.team == team
  }

  /** Building a board with a next mover fails only when a team has no king left. */
  lemma BuildThrowsOnlyWithoutKing(position: map<int, Piece>, nextMover: Team, enPassant: Option<Piece>)
    requires KeysMatch(position) && (enPassant.Some? ==> enPassant.value.kind == Pawn)
    ensures BuildSpec(position, Some(nextMover), enPassant).Thrown? ==>
              !HasKing(CreateBoard(position), White) || !HasKing(CreateBoard(position), Black)
  {
  }

  /** Moving one piece keeps a king of each team on the board unless it lands on one. */
  lemma MovedKeepsKings(squares: seq<Option<Piece>>, from: int, to: int, moved: Piece)
    requires Placed(squares) && IsValidTileCoordinate(from) && IsValidTileCoordinate(to)
    requires squares[from].Some? && moved.kind == squares[from].value.kind && moved.team == squares[from].value.team
    requires HasKing(squares, White) && HasKing(squares, Black)
    requires !(squares[to].Some? && squares[to].value.kind == King)
    ensures HasKing(Moved(squares, from, to, moved), White) && HasKing(Moved(squares, from, to, moved), Black)
  {
    var after := Moved(squares, from, to, moved);
    forall team | team == White || team == Black
      ensures HasKing(after, team)
    {
      var i :| 0 <= i < TotalTiles && squares[i].Some? && squares[i].value.kind == King && squares[i].value.team == team;
      if i == from {
        assert after[to] == Some(moved);
      } else {
        assert after[i] == squares[i];
      }
    }
  }

  /** The tiles of the board built from the put loops without `p`, followed by `p`
      moved to `destination`. */
  lemma LiftAndPlace(b: Board, p: Piece, destination: int)
    requires Placed(b.squares) && p.team == b.mover
    requires IsValidTileCoordinate(p.position) && b.squares[p.position] == Some(p)
    requires IsValidTileCoordinate(destination) && destination != p.position
    ensures CreateBoard(Put(Rebuild(b, {p}, {}), MovePiece(p, destination))) ==
              Moved(b.squares, p.position, destination, MovePiece(p, destination))
  {
    RebuildSquares(b, {p}, {});
    var position := Put(Rebuild(b, {p}, {}), MovePiece(p, destination));
    var expected := Moved(b.squares, p.position, destination, MovePiece(p, destination));
    assert forall i :: 0 <= i < TotalTiles ==> CreateBoard(position)[i] == expected[i];
  }

  /** A normal move, a pawn push, a capture or a pawn double step of a piece of the
      board's mover lifts that piece from its tile and sets it down, moved, on the
      destination (replacing whatever stood there); every other tile keeps its
      content, the opponent moves next, and only a double step leaves an en-passant
      pawn: the moved pawn. */
  lemma ExecuteOrdinary(b: Board, m: Move)
    requires Placed(b.squares) && WellFormed(m)
    requires m.NormalMove? || m.PawnMove? || m.PawnKillerMove? || m.NonPawnKillerMove? || m.PawnDoubleMove?
    requires m.piece.team == b.mover && IsValidTileCoordinate(m.piece.position) && b.squares[m.piece.position] == Some(m.piece)
    requires IsValidTileCoordinate(m.destination) && m.destination != m.piece.position
    ensures ExecuteSpec(b, m).Ok? ==>
              ExecuteSpec(b, m).value.squares == Moved(b.squares, m.piece.position, m.destination, MovePiece(m.piece, m.destination)) &&
              ExecuteSpec(b, m).value.mover == Opponent(b.mover) &&
              ExecuteSpec(b, m).value.enPassant == (if m.PawnDoubleMove? then Some(MovePiece(m.piece, m.destination)) else None)
  {
    var p, d := m.piece, m.destination;
    var moved := MovePiece(p, d);
    var position := Put(Rebuild(b, {p}, {}), moved);
    var enPassant := if m.PawnDoubleMove? then Some(moved) else None;
    assert ExecuteSpec(b, m) == BuildSpec(position, Some(Opponent(b.mover)), enPassant);
    LiftAndPlace(b, p, d);
  }

  /** A valid board has a king of each team on some tile. */
  lemma ValidHasKings(b: Board)
    requires Valid(b)
    ensures HasKing(b.squares, White) && HasKing(b.squares, Black)
  {
    HasKingIffKingOnSomeTile(b.squares, White);
    HasKingIffKingOnSomeTile(b.squares, Black);
  }

  /** On a valid board, the moves ExecuteOrdinary describes build a board unless they
      capture a king. */
  lemma ExecuteOrdinaryBuilds(b: Board, m: Move)
    requires Valid(b) && WellFormed(m)
    requires m.NormalMove? || m.PawnMove? || m.PawnKillerMove? || m.NonPawnKillerMove? || m.PawnDoubleMove?
    requires m.piece.team == b.mover && IsValidTileCoordinate(m.piece.position) && b.squares[m.piece.position] == Some(m.piece)
    requires IsValidTileCoordinate(m.destination) && m.destination != m.piece.position
    requires !(b.squares[m.destination].Some? && b.squares[m.destination].value.kind == King)
    ensures ExecuteSpec(b, m).Ok?
  {
    var p, d := m.piece, m.destination;
    var moved := MovePiece(p, d);
    var position := Put(Rebuild(b, {p}, {}), moved);
    var enPassant := if m.PawnDoubleMove? then Some(moved) else None;
    assert ExecuteSpec(b, m) == BuildSpec(position, Some(Opponent(b.mover)), enPassant);
    LiftAndPlace(b, p, d);
    ValidHasKings(b);
    MovedKeepsKings(b.squares, p.position, d, moved);
    BuildThrowsOnlyWithoutKing(position, Opponent(b.mover), enPassant);
  }

  /** Setting a piece down on its own tile changes that one tile. */
  lemma CreateBoardPut(position: map<int, Piece>, piece: Piece)
    requires KeysMatch(position) && IsValidTileCoordinate(piece.position)
    ensures CreateBoard(Put(position, piece)) == CreateBoard(position)[piece.position := Some(piece)]
  {
    assert forall i :: 0 <= i < TotalTiles ==>
      CreateBoard(Put(position, piece))[i] == CreateBoard(position)[piece.position := Some(piece)][i];
  }

  /** Lifting one piece of each team empties exactly their two tiles. */
  lemma LiftTwo(b: Board, own: Piece, enemy: Piece)
    requires Placed(b.squares) && own.team == b.mover && enemy.team != b.mover
    requires IsValidTileCoordinate(own.position) && b.squares[own.position] == Some(own)
    requires IsValidTileCoordinate(enemy.position) && b.squares[enemy.position] == Some(enemy)
    ensures CreateBoard(Rebuild(b, {own}, {enemy})) == b.squares[own.position := None][enemy.position := None]
  {
    RebuildSquares(b, {own}, {enemy});
    var expected := b.squares[own.position := None][enemy.position := None];
    assert forall i :: 0 <= i < TotalTiles ==> CreateBoard(Rebuild(b, {own}, {enemy}))[i] == expected[i];
  }

  /** Lifting two pieces of the mover empties exactly their two tiles. */
  lemma LiftPair(b: Board, first: Piece, second: Piece)
    requires Placed(b.squares) && first.team == b.mover && second.team == b.mover
    requires IsValidTileCoordinate(first.position) && b.squares[first.position] == Some(first)
    requires IsValidTileCoordinate(second.position) && b.squares[second.position] == Some(second)
    ensures CreateBoard(Rebuild(b, {first, second}, {})) == b.squares[first.position := None][second.position := None]
  {
    RebuildSquares(b, {first, second}, {});
    var expected := b.squares[first.position := None][second.position := None];
    assert forall i :: 0 <= i < TotalTiles ==> CreateBoard(Rebuild(b, {first, second}, {}))[i] == expected[i];
  }

  /** The tiles after an en-passant capture: both pawns lifted, the capturing pawn set
      down on the destination. */
  lemma LiftAndPlaceCapture(b: Board, p: Piece, destination: int, target: Piece)
    requires Placed(b.squares) && p.team == b.mover && target.team != b.mover
    requires IsValidTileCoordinate(p.position) && b.squares[p.position] == Some(p)
    requires IsValidTileCoordinate(target.position) && b.squares[target.position] == Some(target)
    requires IsValidTileCoordinate(destination) && destination != p.position && destination != target.position
    ensures CreateBoard(Put(Rebuild(b, {p}, {target}), MovePiece(p, destination))) ==
              Moved(b.squares, p.position, destination, MovePiece(p, destination))[target.position := None]
  {
    var moved := MovePiece(p, destination);
    LiftTwo(b, p, target);
    CreateBoardPut(Rebuild(b, {p}, {target}), moved);
    var expected := Moved(b.squares, p.position, destination, moved)[target.position := None];
    assert forall i :: 0 <= i < TotalTiles ==> CreateBoard(Put(Rebuild(b, {p}, {target}), moved))[i] == expected[i];
  }

  /** EnPassantMove.executeMove lifts the capturing pawn and the captured pawn and sets
      the capturing pawn down on the destination; every other tile keeps its content. */
  lemma ExecuteEnPassant(b: Board, m: Move)
    requires Placed(b.squares) && m.EnPassantMove?
    requires m.piece.team == b.mover && IsValidTileCoordinate(m.piece.position) && b.squares[m.piece.position] == Some(m.piece)
    requires m.target.team != b.mover && IsValidTileCoordinate(m.target.position) && b.squares[m.target.position] == Some(m.target)
    requires IsValidTileCoordinate(m.destination) && m.destination != m.piece.position && m.destination != m.target.position
    ensures ExecuteSpec(b, m).Ok? ==>
              ExecuteSpec(b, m).value.squares ==
                Moved(b.squares, m.piece.position, m.destination, MovePiece(m.piece, m.destination))[m.target.position := None] &&
              ExecuteSpec(b, m).value.mover == Opponent(b.mover) &&
              ExecuteSpec(b, m).value.enPassant == None
  {
    var p, d, t := m.piece, m.destination, m.target;
    var position := Put(Rebuild(b, {p}, {t}), MovePiece(p, d));
    assert ExecuteSpec(b, m) == BuildSpec(position, Some(Opponent(b.mover)), None);
    LiftAndPlaceCapture(b, p, d, t);
  }

  /** The tiles after a castle: the king and the rook lifted, the moved king and a new
      rook (first-move flag cleared) set down on their destinations. */
  lemma LiftAndPlaceCastle(b: Board, king: Piece, destination: int, rook: Piece, rookDestination: int)
    requires Placed(b.squares) && king.team == b.mover && rook.team == b.mover
    requires IsValidTileCoordinate(king.position) && b.squares[king.position] == Some(king)
    requires IsValidTileCoordinate(rook.position) && b.squares[rook.position] == Some(rook)
    requires IsValidTileCoordinate(destination) && IsValidTileCoordinate(rookDestination)
    requires king.position != rook.position && destination != rookDestination
    requires destination != king.position && destination != rook.position
    requires rookDestination != king.position && rookDestination != rook.position
    ensures CreateBoard(Put(Put(Rebuild(b, {king, rook}, {}), MovePiece(king, destination)),
                            Piece(Rook, rookDestination, rook.team, false))) ==
              Moved(Moved(b.squares, king.position, destination, MovePiece(king, destination)),
                    rook.position, rookDestination, Piece(Rook, rookDestination, rook.team, false))
  {
    var movedKing := MovePiece(king, destination);
    var newRook := Piece(Rook, rookDestination, rook.team, false);
    var lifted := Rebuild(b, {king, rook}, {});
    LiftPair(b, king, rook);
    CreateBoardPut(lifted, movedKing);
    CreateBoardPut(Put(lifted, movedKing), newRook);
    var position := Put(Put(lifted, movedKing), newRook);
    var expected := Moved(Moved(b.squares, king.position, destination, movedKing), rook.position, rookDestination, newRook);
    assert forall i :: 0 <= i < TotalTiles ==> CreateBoard(position)[i] == expected[i];
  }
  /** A castle of the board's mover moves its king and its rook, and nothing else. */
  lemma ExecuteCastle(b: Board, m: Move)
    requires Placed(b.squares) && IsCastle(m)
    requires m.piece.team == b.mover && m.rook.team == b.mover
    requires IsValidTileCoordinate(m.piece.position) && b.squares[m.piece.position] == Some(m.piece)
    requires IsValidTileCoordinate(m.rook.position) && b.squares[m.rook.position] == Some(m.rook)
    requires IsValidTileCoordinate(m.destination) && IsValidTileCoordinate(m.rookDestination)
    requires m.piece.position != m.rook.position && m.destination != m.rookDestination
    requires m.destination != m.piece.position && m.destination != m.rook.position
    requires m.rookDestination != m.piece.position && m.rookDestination != m.rook.position
    ensures ExecuteSpec(b, m).Ok? ==>
              ExecuteSpec(b, m).value.squares ==
                Moved(Moved(b.squares, m.piece.position, m.destination, MovePiece(m.piece, m.destination)),
                      m.rook.position, m.rookDestination, Piece(Rook, m.rookDestination, m.rook.team, false)) &&
              ExecuteSpec(b, m).value.mover == Opponent(b.mover) &&
              ExecuteSpec(b, m).value.enPassant == None
    ensures MarksCastled(m)
  {
    LiftAndPlaceCastle(b, m.piece, m.destination, m.rook, m.rookDestination);
  }

  /** Lifting a piece that stands on no tile changes nothing. */
  lemma LiftAbsent(b: Board, p: Piece)
    requires Placed(b.squares) && IsValidTileCoordinate(p.position) && b.squares[p.position].None?
    ensures CreateBoard(Rebuild(b, {p}, {})) == b.squares
  {
    RebuildSquares(b, {p}, {});
    assert forall i :: 0 <= i < TotalTiles ==> CreateBoard(Rebuild(b, {p}, {}))[i] == b.squares[i];
  }

  /** The tiles after pawnPromotion.executeMove rebuilds the board its wrapped move
      left: the pawn, already lifted, is no longer on any tile, so only the destination
      changes, to the queen. */
  lemma PromoteOnto(squares: seq<Option<Piece>>, after: Board, p: Piece, destination: int)
    requires Placed(squares) && Placed(after.squares)
    requires IsValidTileCoordinate(p.position) && IsValidTileCoordinate(destination) && destination != p.position
    requires after.squares == Moved(squares, p.position, destination, MovePiece(p, destination))
    ensures PromoteSpec(after, p, destination).Ok? ==>
              PromoteSpec(after, p, destination).value.squares ==
                Moved(squares, p.position, destination, MovePiece(PromotedPiece(p), destination)) &&
              PromoteSpec(after, p, destination).value.mover == after.mover &&
              PromoteSpec(after, p, destination).value.enPassant == None
  {
    var queen := MovePiece(PromotedPiece(p), destination);
    var lifted := Rebuild(after, {p}, {});
    LiftAbsent(after, p);
    CreateBoardPut(lifted, queen);
    var expected := Moved(squares, p.position, destination, queen);
    assert forall i :: 0 <= i < TotalTiles ==> CreateBoard(Put(lifted, queen))[i] == expected[i];
  }

  /** A promotion of a pawn of the board's mover lifts the pawn and sets a queen of its
      team down on the destination (replacing whatever stood there); every other tile
      keeps its content and the opponent moves next. */
  lemma ExecutePromotion(b: Board, m: Move)
    requires Placed(b.squares) && WellFormed(m) && m.PawnPromotion?
    requires m.consumed.piece.team == b.mover && IsValidTileCoordinate(m.consumed.piece.position)
    requires b.squares[m.consumed.piece.position] == Some(m.consumed.piece)
    requires IsValidTileCoordinate(m.consumed.destination) && m.consumed.destination != m.consumed.piece.position
    ensures ExecuteSpec(b, m).Ok? ==>
              ExecuteSpec(b, m).value.squares ==
                Moved(b.squares, m.consumed.piece.position, m.consumed.destination,
                      Piece(Queen, m.consumed.destination, b.mover, true)) &&
              ExecuteSpec(b, m).value.mover == Opponent(b.mover) &&
              ExecuteSpec(b, m).value.enPassant == None
  {
    var c := m.consumed;
    var p, d := c.piece, c.destination;
    ExecuteOrdinary(b, c);
    if ExecuteSpec(b, c).Ok? {
      var after := ExecuteSpec(b, c).value;
      assert ExecuteSpec(b, m) == PromoteSpec(after, p, d);
      PromoteOnto(b.squares, after, p, d);
    }
  }
}
