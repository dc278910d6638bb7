/** ChessPiece.allowedMoves for every piece class, and ChessBoard.allLegalMoves.
    Each generator is a loop over the class's table of relative coordinates; the
    functions state what one table entry contributes, and the methods are proved to
    build exactly the concatenation of those contributions. */
module MoveGeneration {
  import opened Wrappers
  import opened Geometry
  import opened Teams
  import opened Pieces
  import opened Boards
  import opened Moves

  /** POSSIBLE_MOVE_REL_CRD of each piece class (the queen moves along the union of
      the rook's and the bishop's lines). */
  function Offsets(kind: PieceType): (offsets: seq<int>)
    ensures 0 !in offsets
  {
    match kind
    case Pawn => [7, 8, 9, 16]
    case Knight => [-17, -15, -10, -6, 6, 10, 15, 17]
    case Bishop => [-9, -7, 7, 9]
    case Rook => [-8, -1, 1, 8]
    case Queen => [-9, -8, -7, -1, 1, 7, 8, 9]
    case King => [-9, -8, -7, -1, 1, 7, 8, 9]
  }

  /** A piece that the generators can be run for: it stands on one of the 64 tiles. */
  predicate OnBoard(b: Board, p: Piece)
  {
    Placed(b.squares) && IsValidTileCoordinate(p.position)
  }

  // ---------------------------------------------------------------- knight and king

  /** Knight.isOnFirstColumnInvalid || isOnSecondColumnInvalid || isOnSeventhColumnInvalid
      || isOnLastColumnInvalid. The last-column test compares the current square, not
      the offset, with 17. */
  predicate KnightExcluded(position: int, offset: int)
    requires IsValidTileCoordinate(position)
  {
    (FirstColumn(position) && (offset == -17 || offset == -10 || offset == 6 || offset == 15)) ||
    (SecondColumn(position) && (offset == -10 || offset == 6)) ||
    (SeventhColumn(position) && (offset == -6 || offset == 10)) ||
    (LastColumn(position) && (offset == -15 || offset == -6 || offset == 10 || position == 17))
  }

  /** King.isOnFirstColumnInvalid || King.isOnLastColumnInvalid */
  predicate KingExcluded(position: int, offset: int)
    requires IsValidTileCoordinate(position)
  {
    (FirstColumn(position) && (offset == -9 || offset == -1 || offset == 7)) ||
    (LastColumn(position) && (offset == -7 || offset == 1 || offset == 9))
  }

  /** The single-step body shared by Knight and King: a move to an empty tile, a
      capture of an enemy piece, nothing for an own piece or a square off the board. */
  function Jump(b: Board, p: Piece, destination: int): seq<Move>
    requires Placed(b.squares)
  {
    if !IsValidTileCoordinate(destination) then []
    else match b.squares[destination]
      case None => [NormalMove(p, destination)]
      case Some(q) => if p.team != q.team then [NonPawnKillerMove(p, destination, q)] else []
  }

  // ---------------------------------------------------------------- sliding pieces

  /** Bishop.isOnFirstColumnInvalid || isOnLastColumnInvalid, the same pair of Rook, and
      their union for the queen: the step `offset` from `square` would leave the board
      sideways. */
  predicate SlideBlocked(kind: PieceType, square: int, offset: int)
    requires IsValidTileCoordinate(square)
  {
    var bishopBlocked := (FirstColumn(square) && (offset == -9 || offset == 7)) ||
                         (LastColumn(square) && (offset == -7 || offset == 9));
    var rookBlocked := (FirstColumn(square) && offset == -1) || (LastColumn(square) && offset == 1);
    match kind
    case Bishop => bishopBlocked
    case Rook => rookBlocked
    case _ => bishopBlocked || rookBlocked
  }

  /** The tile `offset` away from `square`: one step of a piece along an offset. */
  function Slide(square: int, offset: int): int
  {
    square + offset
  }

  /** The inner while loop of the sliding pieces, from `square` on: step while the
      column test allows it; an empty tile gives a move and the ray goes on, an enemy
      piece gives a capture and ends it, an own piece ends it. */
  function Ray(b: Board, p: Piece, offset: int, square: int): seq<Move>
    requires Placed(b.squares) && offset != 0
    decreases if offset > 0 then TotalTiles - square else square + 1
  {
    if !IsValidTileCoordinate(square) || SlideBlocked(p.kind, square, offset) then []
    else
      var next := Slide(square, offset);
      if !IsValidTileCoordinate(next) then []
      else match b.squares[next]
        case None => [NormalMove(p, next)] + Ray(b, p, offset, next)
        case Some(q) => if p.team != q.team then [NonPawnKillerMove(p, next, q)] else []
  }

  // ---------------------------------------------------------------- pawn

  /** The diagonal branch of Pawn.allowedMoves towards `destination`: a capture of an
      enemy piece there (wrapped in a promotion on the promotion row), or else an
      en-passant capture of the board's en-passant pawn when it stands on
      `besideSquare` and is an enemy. */
  function PawnAttack(b: Board, p: Piece, destination: int, besideSquare: int): seq<Move>
    requires Placed(b.squares) && IsValidTileCoordinate(destination)
  {
    match b.squares[destination]
    case Some(q) =>
      if p.team == q.team then []
      else if IsPromotionTile(p.team, destination) then [PawnPromotion(PawnKillerMove(p, destination, q))]
      else [PawnKillerMove(p, destination, q)]
    case None =>
      match b.enPassant
      case None => []
      case Some(e) =>
        if e.position == besideSquare && p.team != e.team then [EnPassantMove(p, destination, e)] else []
  }

  /** The pawn stands on its team's start row: the second row for Black, the seventh
      for White. */
  predicate OnStartRow(p: Piece)
    requires IsValidTileCoordinate(p.position)
  {
    (SecondRow(p.position) && IsBlack(p.team)) || (SeventhRow(p.position) && IsWhite(p.team))
  }

  /** One entry of Pawn.allowedMoves' loop: the if / else-if chain on 8, 16, 7 and 9. */
  function PawnCandidate(b: Board, p: Piece, offset: int): seq<Move>
    requires OnBoard(b, p)
  {
    var destination := p.position + offset * Direction(p.team);
    if !IsValidTileCoordinate(destination) then []
    else if offset == 8 && b.squares[destination].None? then
      if IsPromotionTile(p.team, destination) then [PawnPromotion(PawnMove(p, destination))]
      else [PawnMove(p, destination)]
    else if offset == 16 && p.isFirstMove && OnStartRow(p) then
      var oneFrontTile := p.position + Direction(p.team) * 8;
      if b.squares[oneFrontTile].None? && b.squares[destination].None? then [PawnDoubleMove(p, destination)]
      else []
    else if offset == 7 &&
            !((LastColumn(p.position) && IsWhite(p.team)) || (FirstColumn(p.position) && IsBlack(p.team))) then
      PawnAttack(b, p, destination, p.position + EnemyDirection(p.team))
    else if offset == 9 &&
            !((LastColumn(p.position) && IsBlack(p.team)) || (FirstColumn(p.position) && IsWhite(p.team))) then
      PawnAttack(b, p, destination, p.position + Direction(p.team))
    else []
  }

  // ---------------------------------------------------------------- all pieces

  /** What one entry of the piece's offset table contributes to allowedMoves. */
  function Candidate(b: Board, p: Piece, offset: int): seq<Move>
    requires OnBoard(b, p) && offset != 0
  {
    match p.kind
    case Pawn => PawnCandidate(b, p, offset)
    case Knight => if KnightExcluded(p.position, offset) then [] else Jump(b, p, Slide(p.position, offset))
    case King => if KingExcluded(p.position, offset) then [] else Jump(b, p, Slide(p.position, offset))
    case _ => Ray(b, p, offset, p.position)
  }

  /** The moves contributed by the entries of `offsets`, in table order. */
  function CandidatesFrom(b: Board, p: Piece, offsets: seq<int>): seq<Move>
    requires OnBoard(b, p) && 0 !in offsets
  {
    if offsets == [] then []
    else CandidatesFrom(b, p, offsets[..|offsets| - 1]) + Candidate(b, p, offsets[|offsets| - 1])
  }

  /** ChessPiece.allowedMoves(board) for the piece p. */
  function PieceMoves(b: Board, p: Piece): seq<Move>
    requires OnBoard(b, p)
  {
    CandidatesFrom(b, p, Offsets(p.kind))
  }

  /** The moves of `pieces`, piece after piece (the spec of ChessBoard.allLegalMoves). */
  function MovesOfPieces(b: Board, pieces: seq<Piece>): seq<Move>
    requires Placed(b.squares)
    requires forall j :: 0 <= j < |pieces| ==> IsValidTileCoordinate(pieces[j].position)
  {
    if pieces == [] then []
    else MovesOfPieces(b, pieces[..|pieces| - 1]) + PieceMoves(b, pieces[|pieces| - 1])
  }

  /** All moves of a team's pieces on the board: the legal-move list a Player receives. */
  function TeamMoves(b: Board, team: Team): seq<Move>
    requires Placed(b.squares)
  {
    MovesOfPieces(b, PiecesOf(b.squares, team))
  }

  // ---------------------------------------------------------------- the generators

  /** Knight.allowedMoves */
  method KnightAllowedMoves(b: Board, p: Piece) returns (legalMoves: seq<Move>)
    requires OnBoard(b, p) && p.kind == Knight
    ensures legalMoves == PieceMoves(b, p)
  {
    var offsets := Offsets(Knight);
    legalMoves := [];
    for i := 0 to |offsets|
      invariant legalMoves == CandidatesFrom(b, p, offsets[..i])
    {
      var curCoordinate := offsets[i];
      var realCoordinate := Slide(p.position, curCoordinate);
      if IsValidTileCoordinate(realCoordinate) && !KnightExcluded(p.position, curCoordinate) {
        match b.squares[realCoordinate]
        case None =>
          legalMoves := legalMoves + [NormalMove(p, realCoordinate)];
        case Some(pieceAtTile) =>
          if p.team != pieceAtTile.team {
            legalMoves := legalMoves + [NonPawnKillerMove(p, realCoordinate, pieceAtTile)];
          }
      }
      assert offsets[..i + 1][..i] == offsets[..i];
    }
    assert offsets[..|offsets|] == offsets;
  }

  /** King.allowedMoves (castles are added by the Player, not here). */
  method KingAllowedMoves(b: Board, p: Piece) returns (legalMoves: seq<Move>)
    requires OnBoard(b, p) && p.kind == King
    ensures legalMoves == PieceMoves(b, p)
  {
    var offsets := Offsets(King);
    legalMoves := [];
    for i := 0 to |offsets|
      invariant legalMoves == CandidatesFrom(b, p, offsets[..i])
    {
      var curCoordinate := offsets[i];
      var realCoordinate := Slide(p.position, curCoordinate);
      if !KingExcluded(p.position, curCoordinate) && IsValidTileCoordinate(realCoordinate) {
        match b.squares[realCoordinate]
        case None =>
          legalMoves := legalMoves + [NormalMove(p, realCoordinate)];
        case Some(pieceAtTile) =>
          if p.team != pieceAtTile.team {
            legalMoves := legalMoves + [NonPawnKillerMove(p, realCoordinate, pieceAtTile)];
          }
      }
      assert offsets[..i + 1][..i] == offsets[..i];
    }
    assert offsets[..|offsets|] == offsets;
  }

  /** Bishop.allowedMoves, Rook.allowedMoves and the queen's: for each direction, walk
      from the piece's square until the column test, the board edge or a piece stops. */
  method SlidingAllowedMoves(b: Board, p: Piece) returns (legalMoves: seq<Move>)
    requires OnBoard(b, p) && (p.kind == Bishop || p.kind == Rook || p.kind == Queen)
    ensures legalMoves == PieceMoves(b, p)
  {
    var offsets := Offsets(p.kind);
    legalMoves := [];
    for i := 0 to |offsets|
      invariant legalMoves == CandidatesFrom(b, p, offsets[..i])
    {
      var curCoordinate := offsets[i];
      var realCoordinate := p.position;
      ghost var before := legalMoves;
      while IsValidTileCoordinate(realCoordinate)
        invariant legalMoves + Ray(b, p, curCoordinate, realCoordinate) == before + Ray(b, p, curCoordinate, p.position)
        decreases if curCoordinate > 0 then TotalTiles - realCoordinate else realCoordinate + 1
      {
        if SlideBlocked(p.kind, realCoordinate, curCoordinate) {
          break;
        }
        realCoordinate := Slide(realCoordinate, curCoordinate);
        if IsValidTileCoordinate(realCoordinate) {
          match b.squares[realCoordinate]
          case None =>
            legalMoves := legalMoves + [NormalMove(p, realCoordinate)];
          case Some(pieceAtTile) =>
            if p.team != pieceAtTile.team {
              legalMoves := legalMoves + [NonPawnKillerMove(p, realCoordinate, pieceAtTile)];
            }
            break;
        }
      }
      assert offsets[..i + 1][..i] == offsets[..i];
    }
    assert offsets[..|offsets|] == offsets;
  }

  /** Pawn.allowedMoves */
  method PawnAllowedMoves(b: Board, p: Piece) returns (legalMoves: seq<Move>)
    requires OnBoard(b, p) && p.kind == Pawn
    ensures legalMoves == PieceMoves(b, p)
  {
    var offsets := Offsets(Pawn);
    legalMoves := [];
    for i := 0 to |offsets|
      invariant legalMoves == CandidatesFrom(b, p, offsets[..i])
    {
      var curCoordinate := offsets[i];
      var realCoordinate := p.position + curCoordinate * Direction(p.team);
      if !IsValidTileCoordinate(realCoordinate) {
      } else if curCoordinate == 8 && b.squares[realCoordinate].None? {
        if IsPromotionTile(p.team, realCoordinate) {
          legalMoves := legalMoves + [PawnPromotion(PawnMove(p, realCoordinate))];
        } else {
          legalMoves := legalMoves + [PawnMove(p, realCoordinate)];
        }
      } else if curCoordinate == 16 && p.isFirstMove &&
                ((SecondRow(p.position) && IsBlack(p.team)) || (SeventhRow(p.position) && IsWhite(p.team))) {
        var oneFrontTile := p.position + Direction(p.team) * 8;
        if b.squares[oneFrontTile].None? && b.squares[realCoordinate].None? {
          legalMoves := legalMoves + [PawnDoubleMove(p, realCoordinate)];
        }
      } else if curCoordinate == 7 &&
                !((LastColumn(p.position) && IsWhite(p.team)) || (FirstColumn(p.position) && IsBlack(p.team))) {
        var attack := PawnAttackMoves(b, p, realCoordinate, p.position + EnemyDirection(p.team));
        legalMoves := legalMoves + attack;
      } else if curCoordinate == 9 &&
                !((LastColumn(p.position) && IsBlack(p.team)) || (FirstColumn(p.position) && IsWhite(p.team))) {
        var attack := PawnAttackMoves(b, p, realCoordinate, p.position + Direction(p.team));
        legalMoves := legalMoves + attack;
      }
      assert offsets[..i + 1][..i] == offsets[..i];
    }
    assert offsets[..|offsets|] == offsets;
  }

  /** The two diagonal branches of Pawn.allowedMoves, which differ only in the square
      the en-passant pawn has to stand on. */
  method PawnAttackMoves(b: Board, p: Piece, realCoordinate: int, besideSquare: int) returns (attack: seq<Move>)
    requires Placed(b.squares) && IsValidTileCoordinate(realCoordinate)
    ensures attack == PawnAttack(b, p, realCoordinate, besideSquare)
  {
    attack := [];
    if b.squares[realCoordinate].Some? {
      var pieceOnTarget := b.squares[realCoordinate].value;
      if p.team != pieceOnTarget.team {
        if IsPromotionTile(p.team, realCoordinate) {
          attack := [PawnPromotion(PawnKillerMove(p, realCoordinate, pieceOnTarget))];
        } else {
          attack := [PawnKillerMove(p, realCoordinate, pieceOnTarget)];
        }
      }
    } else if b.enPassant.Some? {
      if b.enPassant.value.position == besideSquare {
        var pieceOnTarget := b.enPassant.value;
        if p.team != pieceOnTarget.team {
          attack := [EnPassantMove(p, realCoordinate, pieceOnTarget)];
        }
      }
    }
  }

  /** piece.allowedMoves(board): the dynamic dispatch on the piece class. */
  method AllowedMoves(b: Board, p: Piece) returns (legalMoves: seq<Move>)
    requires OnBoard(b, p)
    ensures legalMoves == PieceMoves(b, p)
  {
    match p.kind
    case Pawn => legalMoves := PawnAllowedMoves(b, p);
    case Knight => legalMoves := KnightAllowedMoves(b, p);
    case King => legalMoves := KingAllowedMoves(b, p);
    case _ => legalMoves := SlidingAllowedMoves(b, p);
  }

  /** ChessBoard.allLegalMoves: the moves of every piece in `teamPieces`, in order. */
  method AllLegalMoves(b: Board, teamPieces: seq<Piece>) returns (legalMoves: seq<Move>)
    requires Placed(b.squares)
    requires forall j :: 0 <= j < |teamPieces| ==> IsValidTileCoordinate(teamPieces[j].position)
    ensures legalMoves == MovesOfPieces(b, teamPieces)
  {
    legalMoves := [];
    for i := 0 to |teamPieces|
      invariant legalMoves == MovesOfPieces(b, teamPieces[..i])
    {
      var pieceMoves := AllowedMoves(b, teamPieces[i]);
      legalMoves := legalMoves + pieceMoves;
      assert teamPieces[..i + 1][..i] == teamPieces[..i];
    }
    assert teamPieces[..|teamPieces|] == teamPieces;
  }

  // ---------------------------------------------------------------- properties

  /** What every generated move of p satisfies: it moves p to a tile of the board, it
      is not a castle, a promotion wraps a pawn move, a capture names the enemy piece
      on the destination tile (or, en passant, the board's enemy en-passant pawn), and a
      move that captures nothing goes to an empty tile. In particular no move lands on
      a piece of p's own team. */
  predicate Sound(b: Board, p: Piece, m: Move)
    requires Placed(b.squares)
  {
    MovingPiece(m) == Some(p) && WellFormed(m) && !IsCastle(m) &&
    IsValidTileCoordinate(Destination(m)) &&
    (IsKillerMove(m) && !m.EnPassantMove? ==>
       b.squares[Destination(m)] == TargetedPiece(m) && TargetedPiece(m).value.team != p.team) &&
    (m.EnPassantMove? ==> b.enPassant == Some(m.target) && m.target.team != p.team) &&
    (!IsKillerMove(m) || m.EnPassantMove? ==> b.squares[Destination(m)].None?)
  }

  /** A move is in CandidatesFrom exactly when one table entry contributes it. */
  lemma {:induction false} CandidatesFromMembers(b: Board, p: Piece, offsets: seq<int>)
    requires OnBoard(b, p) && 0 !in offsets
    ensures forall m :: m in CandidatesFrom(b, p, offsets) <==>
              exists i :: 0 <= i < |offsets| && m in Candidate(b, p, offsets[i])
  {
    if offsets != [] {
      var init := offsets[..|offsets| - 1];
      CandidatesFromMembers(b, p, init);
      assert forall i :: 0 <= i < |init| ==> init[i] == offsets[i];
    }
  }

  /** Every move of a ray is sound. */
  lemma {:induction false} RaySound(b: Board, p: Piece, offset: int, square: int)
    requires Placed(b.squares) && offset != 0
    ensures forall m :: m in Ray(b, p, offset, square) ==> Sound(b, p, m)
    decreases if offset > 0 then TotalTiles - square else square + 1
  {
    if IsValidTileCoordinate(square) && !SlideBlocked(p.kind, square, offset) {
      var next := Slide(square, offset);
      if IsValidTileCoordinate(next) && b.squares[next].None? {
        RaySound(b, p, offset, next);
      }
    }
  }

  /** Every move one table entry contributes is sound. */
  lemma CandidateSound(b: Board, p: Piece, offset: int)
    requires OnBoard(b, p) && offset != 0
    ensures forall m :: m in Candidate(b, p, offset) ==> Sound(b, p, m)
  {
    match p.kind
    case Pawn => PawnCandidateSound(b, p, offset);
    case Knight =>
    case King =>
    case _ => RaySound(b, p, offset, p.position);
  }

  /** Every move one entry of the pawn's table contributes is sound. */
  lemma PawnCandidateSound(b: Board, p: Piece, offset: int)
    requires OnBoard(b, p) && p.kind == Pawn
    ensures forall m :: m in PawnCandidate(b, p, offset) ==> Sound(b, p, m)
  {
    var destination := p.position + offset * Direction(p.team);
    if IsValidTileCoordinate(destination) {
      PawnPushSound(b, p, destination);
      PawnAttackSound(b, p, destination, p.position + EnemyDirection(p.team));
      PawnAttackSound(b, p, destination, p.position + Direction(p.team));
    }
  }

  /** A straight pawn move to an empty tile, wrapped in a promotion or not, is sound. */
  lemma PawnPushSound(b: Board, p: Piece, destination: int)
    requires Placed(b.squares) && IsValidTileCoordinate(destination) && p.kind == Pawn
    ensures b.squares[destination].None? ==> Sound(b, p, PawnPromotion(PawnMove(p, destination)))
  {
    if b.squares[destination].None? {
      PromotionSound(b, p, PawnMove(p, destination));
    }
  }

  /** Wrapping a sound pawn push or pawn capture in a promotion keeps it sound. */
  lemma PromotionSound(b: Board, p: Piece, c: Move)
    requires Placed(b.squares) && p.kind == Pawn
    requires (c.PawnMove? || c.PawnKillerMove?) && Sound(b, p, c)
    ensures Sound(b, p, PawnPromotion(c))
  {
    var m := PawnPromotion(c);
    assert MovingPiece(m) == MovingPiece(c) && Destination(m) == Destination(c);
    assert IsKillerMove(m) == IsKillerMove(c) && TargetedPiece(m) == TargetedPiece(c);
  }

  /** Every diagonal pawn move is sound. */
  lemma PawnAttackSound(b: Board, p: Piece, destination: int, besideSquare: int)
    requires Placed(b.squares) && IsValidTileCoordinate(destination) && p.kind == Pawn
    ensures forall m :: m in PawnAttack(b, p, destination, besideSquare) ==> Sound(b, p, m)
  {
    match b.squares[destination]
    case Some(q) =>
      if p.team != q.team {
        PromotionSound(b, p, PawnKillerMove(p, destination, q));
      }
    case None =>
      if b.enPassant.Some? {
        var e := b.enPassant.value;
        var m := EnPassantMove(p, destination, e);
        assert Destination(m) == destination;
      }
  }

  /** Every move allowedMoves returns for a piece is sound. */
  lemma PieceMovesSound(b: Board, p: Piece)
    requires OnBoard(b, p)
    ensures forall m :: m in PieceMoves(b, p) ==> Sound(b, p, m)
  {
    var offsets := Offsets(p.kind);
    CandidatesFromMembers(b, p, offsets);
    forall m | m in PieceMoves(b, p)
      ensures Sound(b, p, m)
    {
      var i :| 0 <= i < |offsets| && m in Candidate(b, p, offsets[i]);
      CandidateSound(b, p, offsets[i]);
    }
  }

  /** Every move of a list of pieces is a sound move of one of them. */
  lemma {:induction false} MovesOfPiecesSound(b: Board, pieces: seq<Piece>)
    requires Placed(b.squares)
    requires forall j :: 0 <= j < |pieces| ==> IsValidTileCoordinate(pieces[j].position)
    ensures forall m :: m in MovesOfPieces(b, pieces) ==>
              exists j :: 0 <= j < |pieces| && Sound(b, pieces[j], m)
  {
    if pieces != [] {
      var init := pieces[..|pieces| - 1];
      MovesOfPiecesSound(b, init);
      PieceMovesSound(b, pieces[|pieces| - 1]);
      assert forall j :: 0 <= j < |init| ==> init[j] == pieces[j];
    }
  }

  /** Every move in a team's legal-move list is a sound move of a piece of that team
      standing on its own tile. */
  lemma TeamMovesSound(b: Board, team: Team)
    requires Placed(b.squares)
    ensures forall m :: m in TeamMoves(b, team) ==>
              MovingPiece(m).Some? && MovingPiece(m).value.team == team &&
              IsValidTileCoordinate(MovingPiece(m).value.position) &&
              b.squares[MovingPiece(m).value.position] == MovingPiece(m) &&
              Sound(b, MovingPiece(m).value, m)
  {
    var pieces := PiecesOf(b.squares, team);
    MovesOfPiecesSound(b, pieces);
  }

  // ---------------------------------------------------------------- geometry of the moves

  /** The change of row a one-square step by a king offset makes. */
  function RowShift(offset: int): int
  {
    if offset <= -7 then -1 else if offset >= 7 then 1 else 0
  }

  /** The change of column a one-square step by a king offset makes. */
  function ColumnShift(offset: int): int
  {
    if offset == -9 || offset == -1 || offset == 7 then -1
    else if offset == -7 || offset == 1 || offset == 9 then 1
    else 0
  }

  /** Stepping by `offset` from `from` reaches the neighbouring tile in that direction,
      without wrapping around a side of the board. */
  predicate Step(from: int, offset: int)
  {
    IsValidTileCoordinate(from) && IsValidTileCoordinate(from + offset) &&
    Row(from + offset) == Row(from) + RowShift(offset) &&
    Column(from + offset) == Column(from) + ColumnShift(offset)
  }

  /** The column tests of King (and of the sliding pieces) exclude exactly the steps
      that would wrap around a side of the board. */
  lemma StepIffNotExcluded(square: int, offset: int)
    requires offset in Offsets(King)
    requires IsValidTileCoordinate(square) && IsValidTileCoordinate(square + offset)
    ensures Step(square, offset) <==> !KingExcluded(square, offset)
  {
  }

  /** `destination` is reached from `from` by steps of `offset` that do not wrap, every
      tile strictly between the two being empty. */
  ghost predicate OpenLine(b: Board, from: int, offset: int, destination: int)
    requires Placed(b.squares) && offset != 0
    decreases if offset > 0 then TotalTiles - from else from + 1
  {
    var next := Slide(from, offset);
    Step(from, offset) &&
    (next == destination || (b.squares[next].None? && OpenLine(b, next, offset, destination)))
  }

  /** Every move of a ray lies on an open line from the ray's start. */
  lemma {:induction false} RayFollowsLine(b: Board, p: Piece, offset: int, square: int)
    requires Placed(b.squares) && (p.kind == Bishop || p.kind == Rook || p.kind == Queen)
    requires offset in Offsets(p.kind)
    ensures forall m :: m in Ray(b, p, offset, square) ==> OpenLine(b, square, offset, Destination(m))
    decreases if offset > 0 then TotalTiles - square else square + 1
  {
    if IsValidTileCoordinate(square) && !SlideBlocked(p.kind, square, offset) {
      var next := Slide(square, offset);
      if IsValidTileCoordinate(next) {
        StepIffNotExcluded(square, offset);
        if b.squares[next].None? {
          RayFollowsLine(b, p, offset, next);
        }
      }
    }
  }

  /** Every tile on an open line from the ray's start that is empty or holds an enemy
      is reached by a move of the ray. */
  lemma {:induction false} RayReachesLine(b: Board, p: Piece, offset: int, square: int, destination: int)
    requires Placed(b.squares) && (p.kind == Bishop || p.kind == Rook || p.kind == Queen)
    requires offset in Offsets(p.kind) && IsValidTileCoordinate(destination)
    requires OpenLine(b, square, offset, destination) && Enterable(b, p.team, destination)
    ensures exists m :: m in Ray(b, p, offset, square) && Destination(m) == destination
    decreases if offset > 0 then TotalTiles - square else square + 1
  {
    var next := Slide(square, offset);
    StepIffNotExcluded(square, offset);
    assert !SlideBlocked(p.kind, square, offset);
    if next == destination {
      var m := Ray(b, p, offset, square)[0];
      assert Destination(m) == destination;
    } else {
      RayReachesLine(b, p, offset, next, destination);
      var m :| m in Ray(b, p, offset, next) && Destination(m) == destination;
      assert m in Ray(b, p, offset, square);
    }
  }

  /** A bishop, rook or queen moves along one of its lines, never jumping over a piece
      and never wrapping around a side of the board. */
  lemma SlidingMovesFollowLines(b: Board, p: Piece)
    requires OnBoard(b, p) && (p.kind == Bishop || p.kind == Rook || p.kind == Queen)
    ensures forall m :: m in PieceMoves(b, p) ==>
              exists i :: 0 <= i < |Offsets(p.kind)| && OpenLine(b, p.position, Offsets(p.kind)[i], Destination(m))
  {
    var offsets := Offsets(p.kind);
    CandidatesFromMembers(b, p, offsets);
    forall m | m in PieceMoves(b, p)
      ensures exists i :: 0 <= i < |offsets| && OpenLine(b, p.position, offsets[i], Destination(m))
    {
      var i :| 0 <= i < |offsets| && m in Candidate(b, p, offsets[i]);
      RayFollowsLine(b, p, offsets[i], p.position);
    }
  }

  /** A bishop, rook or queen reaches every tile along one of its lines that is empty
      or holds an enemy: the empty tiles up to the first piece, and that piece when it
      is an enemy. */
  lemma SlidingMovesReachLines(b: Board, p: Piece)
    requires OnBoard(b, p) && (p.kind == Bishop || p.kind == Rook || p.kind == Queen)
    ensures forall i, d ::
              0 <= i < |Offsets(p.kind)| && IsValidTileCoordinate(d) &&
              OpenLine(b, p.position, Offsets(p.kind)[i], d) && Enterable(b, p.team, d) ==>
                exists m :: m in PieceMoves(b, p) && Destination(m) == d
  {
    var offsets := Offsets(p.kind);
    CandidatesFromMembers(b, p, offsets);
    forall i, d | 0 <= i < |offsets| && IsValidTileCoordinate(d) &&
                  OpenLine(b, p.position, offsets[i], d) && Enterable(b, p.team, d)
      ensures exists m :: m in PieceMoves(b, p) && Destination(m) == d
    {
      RayReachesLine(b, p, offsets[i], p.position, d);
      var m :| m in Ray(b, p, offsets[i], p.position) && Destination(m) == d;
      assert m in Candidate(b, p, offsets[i]);
    }
  }

  /** Two different tiles that touch, orthogonally or diagonally. */
  predicate Adjacent(from: int, to: int)
  {
    IsValidTileCoordinate(from) && IsValidTileCoordinate(to) && from != to &&
    -1 <= Row(to) - Row(from) <= 1 && -1 <= Column(to) - Column(from) <= 1
  }

  /** A tile a piece of `team` may move to: empty, or held by an enemy. */
  predicate Enterable(b: Board, team: Team, square: int)
    requires Placed(b.squares) && IsValidTileCoordinate(square)
  {
    b.squares[square].None? || b.squares[square].value.team != team
  }

  /** A king can go to exactly the adjacent tiles that are empty or hold an enemy. */
  lemma KingMovesAreAdjacent(b: Board, p: Piece)
    requires OnBoard(b, p) && p.kind == King
    ensures forall m :: m in PieceMoves(b, p) ==> Adjacent(p.position, Destination(m))
    ensures forall d :: Adjacent(p.position, d) && Enterable(b, p.team, d) ==>
              exists m :: m in PieceMoves(b, p) && Destination(m) == d
  {
    KingMovesStayAdjacent(b, p);
    KingReachesAdjacent(b, p);
  }

  /** Every king move ends on an adjacent tile. */
  lemma KingMovesStayAdjacent(b: Board, p: Piece)
    requires OnBoard(b, p) && p.kind == King
    ensures forall m :: m in PieceMoves(b, p) ==> Adjacent(p.position, Destination(m))
  {
    var offsets := Offsets(King);
    CandidatesFromMembers(b, p, offsets);
    forall m | m in PieceMoves(b, p)
      ensures Adjacent(p.position, Destination(m))
    {
      var i :| 0 <= i < |offsets| && m in Candidate(b, p, offsets[i]);
      StepIffNotExcluded(p.position, offsets[i]);
    }
  }

  /** Every adjacent tile that is empty or holds an enemy is reached by a king move. */
  lemma KingReachesAdjacent(b: Board, p: Piece)
    requires OnBoard(b, p) && p.kind == King
    ensures forall d :: Adjacent(p.position, d) && Enterable(b, p.team, d) ==>
              exists m :: m in PieceMoves(b, p) && Destination(m) == d
  {
    var offsets := Offsets(King);
    CandidatesFromMembers(b, p, offsets);
    forall d | Adjacent(p.position, d) && Enterable(b, p.team, d)
      ensures exists m :: m in PieceMoves(b, p) && Destination(m) == d
    {
      var i := KingOffsetIndex(p.position, d);
      StepIffNotExcluded(p.position, offsets[i]);
      var m := Candidate(b, p, offsets[i])[0];
      assert Destination(m) == d;
    }
  }

  /** The index in the king's table of the offset that leads to an adjacent tile. */
  lemma KingOffsetIndex(from: int, to: int) returns (i: int)
    requires Adjacent(from, to)
    ensures 0 <= i < |Offsets(King)| && from + Offsets(King)[i] == to && Step(from, Offsets(King)[i])
  {
    var dr := Row(to) - Row(from);
    var dc := Column(to) - Column(from);
    assert to - from == 8 * dr + dc;
    i := if dr == -1 then dc + 1 else if dr == 0 then (if dc == -1 then 3 else 4) else dc + 6;
  }

  /** An L-shaped knight jump: two rows and one column, or one row and two columns. */
  predicate KnightJump(from: int, to: int)
  {
    IsValidTileCoordinate(from) && IsValidTileCoordinate(to) &&
    var dr := Row(to) - Row(from);
    var dc := Column(to) - Column(from);
    ((dr == 1 || dr == -1) && (dc == 2 || dc == -2)) || ((dr == 2 || dr == -2) && (dc == 1 || dc == -1))
  }

  /** The knight's column tests exclude exactly the jumps that would wrap around a side
      of the board, except +17 from the last column, which they let through. */
  lemma KnightJumpIffNotExcluded(square: int, offset: int)
    requires offset in Offsets(Knight)
    requires IsValidTileCoordinate(square) && IsValidTileCoordinate(square + offset)
    ensures KnightJump(square, square + offset) <==>
              !KnightExcluded(square, offset) && !(LastColumn(square) && offset == 17)
  {
  }

  /** The index in the knight's table of the offset of an L-shaped jump. */
  lemma KnightOffsetIndex(from: int, to: int) returns (i: int)
    requires KnightJump(from, to)
    ensures 0 <= i < |Offsets(Knight)| && from + Offsets(Knight)[i] == to
  {
    var dr := Row(to) - Row(from);
    var dc := Column(to) - Column(from);
    assert to - from == 8 * dr + dc;
    i := if dr == -2 then (if dc == -1 then 0 else 1)
         else if dr == -1 then (if dc == -2 then 2 else 3)
         else if dr == 1 then (if dc == -2 then 4 else 5)
         else (if dc == -1 then 6 else 7);
  }

  /** A knight reaches every L-shaped jump whose tile is empty or holds an enemy, and
      nothing else except, from the last column, the tile 17 squares further on. */
  lemma KnightMovesJump(b: Board, p: Piece)
    requires OnBoard(b, p) && p.kind == Knight
    ensures forall m :: m in PieceMoves(b, p) ==>
              KnightJump(p.position, Destination(m)) ||
              (LastColumn(p.position) && Destination(m) == p.position + 17)
    ensures forall d :: KnightJump(p.position, d) && Enterable(b, p.team, d) ==>
              exists m :: m in PieceMoves(b, p) && Destination(m) == d
  {
    var offsets := Offsets(Knight);
    CandidatesFromMembers(b, p, offsets);
    forall m | m in PieceMoves(b, p)
      ensures KnightJump(p.position, Destination(m)) ||
              (LastColumn(p.position) && Destination(m) == p.position + 17)
    {
      var i :| 0 <= i < |offsets| && m in Candidate(b, p, offsets[i]);
      KnightJumpIffNotExcluded(p.position, offsets[i]);
    }
    forall d | KnightJump(p.position, d) && Enterable(b, p.team, d)
      ensures exists m :: m in PieceMoves(b, p) && Destination(m) == d
    {
      var i := KnightOffsetIndex(p.position, d);
      KnightJumpIffNotExcluded(p.position, offsets[i]);
      var m := Candidate(b, p, offsets[i])[0];
      assert Destination(m) == d;
    }
  }

  /** The wrap the last-column test lets through: a knight on h7 (square 15) may move
      to a3 (square 32), which is not a knight's jump away. */
  lemma KnightWrapsFromLastColumn(b: Board, p: Piece)
    requires OnBoard(b, p) && p.kind == Knight && p.position == 15 && b.squares[32].None?
    ensures NormalMove(p, 32) in PieceMoves(b, p)
    ensures !KnightJump(15, 32)
  {
    var offsets := Offsets(Knight);
    CandidatesFromMembers(b, p, offsets);
    assert NormalMove(p, 32) in Candidate(b, p, offsets[7]);
  }

  /** The number of moves a knight or a king can have: one per table entry at most. */
  lemma {:induction false} JumpCandidatesBound(b: Board, p: Piece, offsets: seq<int>)
    requires OnBoard(b, p) && 0 !in offsets && (p.kind == Knight || p.kind == King || p.kind == Pawn)
    ensures |CandidatesFrom(b, p, offsets)| <= |offsets|
  {
    if offsets != [] {
      JumpCandidatesBound(b, p, offsets[..|offsets| - 1]);
    }
  }

  /** A knight or a king has at most 8 moves, a pawn at most 4. */
  lemma MoveCountBounds(b: Board, p: Piece)
    requires OnBoard(b, p)
    ensures p.kind == Knight || p.kind == King ==> |PieceMoves(b, p)| <= 8
    ensures p.kind == Pawn ==> |PieceMoves(b, p)| <= 4
  {
    if p.kind == Knight || p.kind == King || p.kind == Pawn {
      JumpCandidatesBound(b, p, Offsets(p.kind));
    }
  }

  /** Where a pawn move goes: one row forward (two for the double step from the start
      row, in the same column), straight ahead exactly when it captures nothing, and
      wrapped in a promotion exactly when a push or a capture reaches the promotion row. */
  predicate PawnGeometry(p: Piece, m: Move)
    requires IsValidTileCoordinate(p.position)
  {
    var d := Destination(m);
    IsValidTileCoordinate(d) &&
    (m.PawnDoubleMove? ==>
       Row(d) == Row(p.position) + 2 * Direction(p.team) && Column(d) == Column(p.position)) &&
    (!m.PawnDoubleMove? ==>
       Row(d) == Row(p.position) + Direction(p.team) && -1 <= Column(d) - Column(p.position) <= 1) &&
    (IsKillerMove(m) <==> Column(d) != Column(p.position)) &&
    (m.PawnPromotion? ==> IsPromotionTile(p.team, d)) &&
    (IsPromotionTile(p.team, d) ==> m.PawnPromotion? || m.EnPassantMove?)
  }

  /** Every move one entry of the pawn's table contributes has the pawn's geometry. */
  lemma PawnCandidateGeometry(b: Board, p: Piece, offset: int)
    requires OnBoard(b, p) && p.kind == Pawn && offset in Offsets(Pawn)
    ensures forall m :: m in PawnCandidate(b, p, offset) ==> PawnGeometry(p, m)
  {
    var destination := p.position + offset * Direction(p.team);
    assert destination == if p.team == White then p.position - offset else p.position + offset;
    if IsValidTileCoordinate(destination) {
      forall m | m in PawnCandidate(b, p, offset)
        ensures PawnGeometry(p, m)
      {
        if m.PawnPromotion? {
          assert Destination(m) == Destination(m.consumed) == destination;
          assert IsKillerMove(m) == IsKillerMove(m.consumed);
        }
      }
    }
  }

  /** A pawn moves forward as PawnGeometry says, and it can always step onto an empty
      tile straight in front of it. */
  lemma PawnMovesGoForward(b: Board, p: Piece)
    requires OnBoard(b, p) && p.kind == Pawn
    ensures forall m :: m in PieceMoves(b, p) ==> PawnGeometry(p, m)
    ensures var front := p.position + 8 * Direction(p.team);
            IsValidTileCoordinate(front) && b.squares[front].None? ==>
              exists m :: m in PieceMoves(b, p) && Destination(m) == front
  {
    var offsets := Offsets(Pawn);
    CandidatesFromMembers(b, p, offsets);
    forall m | m in PieceMoves(b, p)
      ensures PawnGeometry(p, m)
    {
      var i :| 0 <= i < |offsets| && m in Candidate(b, p, offsets[i]);
      PawnCandidateGeometry(b, p, offsets[i]);
    }
    var front := p.position + 8 * Direction(p.team);
    if IsValidTileCoordinate(front) && b.squares[front].None? {
      var m := Candidate(b, p, offsets[1])[0];
      assert Destination(m) == front;
    }
  }

  /** What a pawn's special moves demand of the board: a double step is made only on
      the pawn's first move, from its start row, over an empty tile; an en-passant
      capture takes a pawn standing beside the capturing pawn, in the column the
      capturing pawn moves to. */
  predicate PawnConditions(b: Board, p: Piece, m: Move)
    requires Placed(b.squares) && IsValidTileCoordinate(p.position)
  {
    (m.PawnDoubleMove? ==>
       var front := p.position + 8 * Direction(p.team);
       p.isFirstMove && OnStartRow(p) && IsValidTileCoordinate(front) && b.squares[front].None?) &&
    (m.EnPassantMove? ==>
       IsValidTileCoordinate(m.target.position) && IsValidTileCoordinate(Destination(m)) &&
       Row(m.target.position) == Row(p.position) && Column(m.target.position) == Column(Destination(m)))
  }

  /** Every move one entry of the pawn's table contributes meets PawnConditions. */
  lemma PawnCandidateConditions(b: Board, p: Piece, offset: int)
    requires OnBoard(b, p) && p.kind == Pawn && offset in Offsets(Pawn)
    ensures forall m :: m in PawnCandidate(b, p, offset) ==> PawnConditions(b, p, m)
  {
    var destination := p.position + offset * Direction(p.team);
    if IsValidTileCoordinate(destination) && (offset == 7 || offset == 9) {
      var beside := if offset == 7 then p.position + EnemyDirection(p.team) else p.position + Direction(p.team);
      PawnAttackTakesBeside(b, p, destination, beside);
      if PawnCandidate(b, p, offset) != [] {
        assert destination == if p.team == White then p.position - offset else p.position + offset;
        assert beside == if (offset == 7) == (p.team == White) then p.position + 1 else p.position - 1;
        assert IsValidTileCoordinate(beside) && Row(beside) == Row(p.position) && Column(beside) == Column(destination);
      }
    }
  }

  /** A diagonal pawn move is no double step, and an en-passant capture among them goes
      to the diagonal tile and takes the pawn on `besideSquare`. */
  lemma PawnAttackTakesBeside(b: Board, p: Piece, destination: int, besideSquare: int)
    requires Placed(b.squares) && IsValidTileCoordinate(destination)
    ensures forall m :: m in PawnAttack(b, p, destination, besideSquare) ==>
              !m.PawnDoubleMove? &&
              (m.EnPassantMove? ==> m.target.position == besideSquare && Destination(m) == destination)
  {
  }

  /** A pawn double-steps only from its start row on its first move over an empty tile,
      captures en passant only a pawn beside it, and, on its first move from its start
      row, does double-step when both tiles ahead are empty. */
  lemma PawnSpecialMoves(b: Board, p: Piece)
    requires OnBoard(b, p) && p.kind == Pawn
    ensures forall m :: m in PieceMoves(b, p) ==> PawnConditions(b, p, m)
    ensures var front := p.position + 8 * Direction(p.team);
            var destination := p.position + 16 * Direction(p.team);
            p.isFirstMove && OnStartRow(p) && IsValidTileCoordinate(front) && b.squares[front].None? &&
            IsValidTileCoordinate(destination) && b.squares[destination].None? ==>
              PawnDoubleMove(p, destination) in PieceMoves(b, p)
  {
    var offsets := Offsets(Pawn);
    CandidatesFromMembers(b, p, offsets);
    forall m | m in PieceMoves(b, p)
      ensures PawnConditions(b, p, m)
    {
      var i :| 0 <= i < |offsets| && m in Candidate(b, p, offsets[i]);
      PawnCandidateConditions(b, p, offsets[i]);
    }
    var destination := p.position + 16 * Direction(p.team);
    if IsValidTileCoordinate(destination) {
      assert destination == p.position + offsets[3] * Direction(p.team);
    }
  }
}
