/** ChessPiece and its pieceType enum, plus the movePiece / getPromotedPiece
    factories of the concrete piece classes. */
module Pieces {
  import opened Teams

  /** ChessPiece.pieceType */
  datatype PieceType = Pawn | Knight | Bishop | Rook | Queen | King

  /** A piece: its type, square, team and first-move flag. Java's ChessPiece.equals
      compares exactly these four fields, so it is Dafny's `==` on this datatype. */
  datatype Piece = Piece(kind: PieceType, position: int, team: Team, isFirstMove: bool)

  /** pieceType.getPiecePoints */
  function PiecePoints(kind: PieceType): (points: int)
    ensures points > 0
    ensures points == 10000 <==> kind == King
  {
    match kind
    case Pawn => 100
    case Knight => 300
    case Bishop => 300
    case Rook => 500
    case Queen => 900
    case King => 10000
  }

  /** pieceType.toString */
  function PieceName(kind: PieceType): string
  {
    match kind
    case Pawn => "PAWN"
    case Knight => "KNIGHT"
    case Bishop => "BISHOP"
    case Rook => "ROOK"
    case Queen => "QUEEN"
    case King => "KING"
  }

  /** pieceType.isKing */
  predicate IsKing(kind: PieceType) { kind == King }

  /** pieceType.isRook */
  predicate IsRook(kind: PieceType) { kind == Rook }

  /** ChessPiece.getPiecePoints */
  function Points(piece: Piece): int
  {
    PiecePoints(piece.kind)
  }

  /** The piece values order the types: a king outweighs everything else put
      together on a full side (8 pawns, 2 knights, 2 bishops, 2 rooks, a queen),
      and only the king and the rook answer isKing / isRook. */
  lemma PointsTable(kind: PieceType)
    ensures PiecePoints(Pawn) < PiecePoints(Knight) == PiecePoints(Bishop) < PiecePoints(Rook) < PiecePoints(Queen) < PiecePoints(King)
    ensures 8 * PiecePoints(Pawn) + 2 * (PiecePoints(Knight) + PiecePoints(Bishop) + PiecePoints(Rook)) + PiecePoints(Queen) < PiecePoints(King)
    ensures IsKing(kind) <==> kind == King
    ensures IsRook(kind) <==> kind == Rook
    ensures !(IsKing(kind) && IsRook(kind))
  {
  }

  /** The piece's movePiece(move): a fresh piece of the same type and team on the
      destination square. Every class uses the two-argument constructor, whose
      first-move flag is true, except Rook, which passes false. */
  function MovePiece(piece: Piece, destination: int): (moved: Piece)
    ensures moved.kind == piece.kind && moved.team == piece.team && moved.position == destination
    ensures moved.isFirstMove <==> piece.kind != Rook
  {
    match piece.kind
    case Rook => Piece(Rook, destination, piece.team, false)
    case _ => Piece(piece.kind, destination, piece.team, true)
  }

  /** Pawn.getPromotedPiece: a Queen of the pawn's team on the pawn's square, built
      with first-move = false. */
  function PromotedPiece(pawn: Piece): (queen: Piece)
    ensures queen.kind == Queen && queen.team == pawn.team && queen.position == pawn.position
    ensures !queen.isFirstMove
  {
    Piece(Queen, pawn.position, pawn.team, false)
  }
}
