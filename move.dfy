/** The Move class hierarchy of com.chessgame.movement. A move does not keep the
    board it was generated on: the board is passed to the functions that need it. */
module Moves {
  import opened Wrappers
  import opened Geometry
  import opened Teams
  import opened Pieces

  datatype Move =
    | NormalMove(piece: Piece, destination: int)
    | PawnMove(piece: Piece, destination: int)
    | PawnKillerMove(piece: Piece, destination: int, target: Piece)
    | EnPassantMove(piece: Piece, destination: int, target: Piece)
    | PawnDoubleMove(piece: Piece, destination: int)
    | NonPawnKillerMove(piece: Piece, destination: int, target: Piece)
    | KingSideCastleMove(piece: Piece, destination: int, rook: Piece, rookCurrent: int, rookDestination: int)
    | QueenSideCastleMove(piece: Piece, destination: int, rook: Piece, rookCurrent: int, rookDestination: int)
    | PawnPromotion(consumed: Move)
    | InvalidMove

  /** The shapes Pawn builds: a promotion wraps a pawn push or a pawn capture, and a
      double step moves a pawn (PawnDoubleMove.executeMove casts the moved piece to Pawn). */
  predicate WellFormed(m: Move)
  {
    match m
    case PawnPromotion(c) => (c.PawnMove? || c.PawnKillerMove?) && c.piece.kind == Pawn
    case PawnDoubleMove(p, _) => p.kind == Pawn
    case _ => true
  }

  /** getMovingPiece: null (None) for the invalid move. */
  function MovingPiece(m: Move): Option<Piece>
  {
    match m
    case PawnPromotion(c) => MovingPiece(c)
    case InvalidMove => None
    case _ => Some(m.piece)
  }

  /** getDestinationCrd: -1 for the invalid move. */
  function Destination(m: Move): int
  {
    match m
    case PawnPromotion(c) => Destination(c)
    case InvalidMove => -1
    case _ => m.destination
  }

  /** getCurrentCrd: the square the moving piece stands on. */
  function CurrentCoordinate(m: Move): int
    requires MovingPiece(m).Some?
  {
    MovingPiece(m).value.position
  }

  /** isKillerMove: the capture classes, and a promotion whose wrapped move is one. */
  predicate IsKillerMove(m: Move)
  {
    match m
    case PawnKillerMove(_, _, _) => true
    case EnPassantMove(_, _, _) => true
    case NonPawnKillerMove(_, _, _) => true
    case PawnPromotion(c) => IsKillerMove(c)
    case _ => false
  }

  /** getTargetedPiece: null (None) for moves that capture nothing. */
  function TargetedPiece(m: Move): (target: Option<Piece>)
    ensures target.Some? <==> IsKillerMove(m)
  {
    match m
    case PawnKillerMove(_, _, t) => Some(t)
    case EnPassantMove(_, _, t) => Some(t)
    case NonPawnKillerMove(_, _, t) => Some(t)
    case PawnPromotion(c) => TargetedPiece(c)
    case _ => None
  }

  /** True for the two castle classes. */
  predicate IsCastle(m: Move)
  {
    m.KingSideCastleMove? || m.QueenSideCastleMove?
  }

  /** CastleMove.toString */
  function CastleNotation(m: Move): string
    requires IsCastle(m)
  {
    if m.KingSideCastleMove? then "O-O" else "O-O-O"
  }

  /** Move.equals: same destination, equal moving piece, same current square. */
  predicate SameMovement(a: Move, b: Move)
  {
    MovingPiece(a).Some? && MovingPiece(b).Some? &&
    Destination(a) == Destination(b) && MovingPiece(a) == MovingPiece(b)
  }

  /** a.equals(b), dispatched on the class of the receiver a. Identity comes first;
      then each class demands `b instanceof` its own class (EnPassantMove is a
      PawnKillerMove, so a PawnKillerMove receiver accepts it), captures compare the
      targets and castles the rooks. PawnDoubleMove does not override equals, so it
      accepts a move of any class with the same movement. */
  predicate MoveEquals(a: Move, b: Move)
  {
    a == b ||
    match a
    case NormalMove(_, _) => b.NormalMove? && SameMovement(a, b)
    case PawnMove(_, _) => b.PawnMove? && SameMovement(a, b)
    case PawnKillerMove(_, _, t) =>
      (b.PawnKillerMove? || b.EnPassantMove?) && SameMovement(a, b) && TargetedPiece(b) == Some(t)
    case EnPassantMove(_, _, t) => b.EnPassantMove? && SameMovement(a, b) && TargetedPiece(b) == Some(t)
    case PawnDoubleMove(_, _) => SameMovement(a, b)
    case NonPawnKillerMove(_, _, t) => b.NonPawnKillerMove? && SameMovement(a, b) && TargetedPiece(b) == Some(t)
    case KingSideCastleMove(_, _, r, _, _) => b.KingSideCastleMove? && SameMovement(a, b) && b.rook == r
    case QueenSideCastleMove(_, _, r, _, _) => b.QueenSideCastleMove? && SameMovement(a, b) && b.rook == r
    case PawnPromotion(_) => b.PawnPromotion? && SameMovement(a, b)
    case InvalidMove => false
  }

  /** ImmutableList.contains(m): some element e with m.equals(e). */
  predicate Contains(moves: seq<Move>, m: Move)
  {
    exists i | 0 <= i < |moves| :: MoveEquals(m, moves[i])
  }

  /** Move.MoveStatus */
  datatype MoveStatus = Completed | IllegalMove | InCheck

  /** MoveStatus.isCompleted */
  predicate IsCompleted(status: MoveStatus) { status == Completed }

  /** Every move equals itself, so a move taken from a list is contained in it. */
  lemma EqualsReflexive(moves: seq<Move>, i: int)
    requires 0 <= i < |moves|
    ensures MoveEquals(moves[i], moves[i])
    ensures Contains(moves, moves[i])
  {
  }

  /** Equal moves (other than moves without a moving piece compared with themselves) move the same
      piece from the same square to the same destination; capture classes also agree on
      the target and castle classes on the rook; a receiver that is not a PawnDoubleMove
      only accepts its own class (or, for PawnKillerMove, its EnPassantMove subclass). */
  lemma EqualsMeansSameMove(a: Move, b: Move)
    requires MoveEquals(a, b) && MovingPiece(a).Some?
    ensures Destination(a) == Destination(b) && MovingPiece(a) == MovingPiece(b)
    ensures CurrentCoordinate(a) == CurrentCoordinate(b)
    ensures (a.PawnKillerMove? || a.EnPassantMove? || a.NonPawnKillerMove?) ==> TargetedPiece(a) == TargetedPiece(b)
    ensures IsCastle(a) ==> IsCastle(b) && a.rook == b.rook && a.KingSideCastleMove? == b.KingSideCastleMove?
    ensures !a.PawnDoubleMove? && !a.PawnKillerMove? ==> a.PawnPromotion? == b.PawnPromotion? && a.NormalMove? == b.NormalMove?
  {
  }

  /** Java's equals is not symmetric here: a PawnDoubleMove equals a NormalMove of the
      same piece to the same square, but not the other way round; and a PawnKillerMove
      equals an EnPassantMove with the same target, but not the other way round. */
  lemma EqualsIsNotSymmetric(p: Piece, destination: int, t: Piece)
    ensures MoveEquals(PawnDoubleMove(p, destination), NormalMove(p, destination))
    ensures !MoveEquals(NormalMove(p, destination), PawnDoubleMove(p, destination))
    ensures MoveEquals(PawnKillerMove(p, destination, t), EnPassantMove(p, destination, t))
    ensures !MoveEquals(EnPassantMove(p, destination, t), PawnKillerMove(p, destination, t))
  {
  }
}
