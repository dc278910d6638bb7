# A verified model of the com.chessgame engine

This project models the rules engine and the minimax search of the Java chess
program `com.chessgame` in Dafny, and proves properties of that model.

The parts modelled are these:

- **Board geometry.** The 64 tiles, numbered 0 (a8, Black's corner) to 63 (h1).
  It includes the `isValidTileCoordinate` range check and the column and row masks.
  `createColumn` and `createRow` fill boolean arrays in their do-while loops.
- **Tiles and pieces.** `ChessTile` covers the empty-tile cache, `createTile` and `toString`.
  `ChessPiece` and its `pieceType` enum give the point values, `isKing` and `isRook`.
  Each piece class's `movePiece` builds a new piece with first-move true, except Rook, which clears it.
  `Pawn.getPromotedPiece` builds a queen.
- **Board state.** An immutable board value `Boards.Board`: 64 optional pieces, the side to move and the en-passant pawn.
  It comes with the derived per-team piece lists (`onBoardPieces`, the loop as a method), the king `setKing` finds, and `createBoard`.
  It also gives the outcome of `Builder.build`, an exception when a king or the next mover is missing.
  `gameInitialize` yields the standard start position.
- **Move generation.** `allowedMoves` of Pawn, Knight, Bishop, Rook, King and the queen.
  Each is a loop method proved equal to a specification function over the offset tables.
  The edge-wraparound exclusion tests are modelled exactly as written, including the knight's `curPosition == 17` test.
  Theorems state what the generated moves are:
  - every move is sound: on the board, never onto an own piece, and a capture names the enemy piece it takes;
  - sliding pieces move along open lines;
  - a king reaches exactly the adjacent tiles that are empty or hold an enemy;
  - a knight reaches exactly its L-shaped jumps, plus the one wrap the last-column test lets through;
  - pawns move forward.
- **Moves.** The move classes form one datatype.
  Modelled: `equals` (which is not symmetric), `isKillerMove` and `getTargetedPiece`, `MoveCreator.createMove` and `MoveStatus`.
  `executeMove` of every class is a specification function over the board and a method over the mutable `Builder`.
  Lemmas state which tiles each execution changes.
- **Players.** Modelled: `attackOnTile`, `isInCheck`, the castling generator, the legal-move list and `makeMove`.
  `makeMove` answers ILLEGAL_MOVE, IN_CHECK or COMPLETED.
  Also modelled: `hasEscapeMove` with its early return, `isCheckMate`, `isStaleMate`, and the mutable `hasCastled` flag.
  `CastleMove.executeMove` sets that flag on the executing board's current player, including during the trial moves of the escape search.
  The specification functions carry both players' flags through every call that can set them.
- **Evaluation.** `EvaluateBoardScore` (material, mobility, the check, mate and castling bonuses, the level multiplier) and `InitialBoardScore` (material only).
- **Search.** `Minimax.runAlgorithm`, `minValue`, `maxValue` and `isGameOver`, as mutually recursive methods with their loops.
  Each is proved equal to a recursive specification.
  Theorems prove that `minValue`/`maxValue` stop at level 0 or when no move completes, and otherwise take the lowest/highest child value.
  They also prove that the root returns a best completed move, the last one among equals, or null when no move completes.

The object structure is kept where the source mutates state.
`Engine.Player`, `Engine.ChessBoard` and `Engine.Builder` are classes.
`ChessBoard.State()` maps a board object to its value, and every method that touches objects is specified against the value-level functions.
Exceptions the source throws are `Result.Thrown` values:
- `NO KING ON BOARD!` from `setKing`;
- the `NullPointerException` of a board built without a next mover;
- the exception of `InvalidMove.executeMove`.

Two classes the engine needs are not in the `com.chessgame` sources: the queen and the black player.
The queen moves along the rook's and the bishop's lines, as the older engine's `Queen` in `src/com/chess/engine` does.
Unlike that older class, it is given the first-move flag that every `com.chessgame` piece carries (`ChessPiece.java:12-18`): a start-position queen and a moved queen have it set, like a bishop, and the queen `Pawn.getPromotedPiece` builds has it cleared.
The black player mirrors `WhitePlayer.java` of `com.chessgame` on tiles 0-7: it tests that the rook's tile is occupied before it reads the piece's type.
The older engine's `BlackPlayer` reads the piece's type first, so it would fail on an empty rook tile; the model does not follow it there.

## Model

| member | source | states |
|---|---|---|
| Geometry.CreateColumn | src/com/chessgame/board/ChessBoard.java:100-107 | the array marks exactly the tiles column, column+8, … below 64; for a start column under 8 that is exactly the tiles of that column |
| Geometry.CreateRow | src/com/chessgame/board/ChessBoard.java:111-118 | the array marks exactly the tiles from rowIndex to the end of its row; for a multiple of 8 that is exactly the tiles of row rowIndex/8 |
| Teams.Direction | src/com/chessgame/player/Team.java:8-41 | the pawn direction is -1 or +1, and -1 exactly for White |
| Teams.EnemyDirection | src/com/chessgame/player/Team.java:13-46 | the enemy direction is the negation of the team's direction |
| Teams.Opponent | src/com/chessgame/player/WhitePlayer.java:33-35 | the opponent's team differs from the team |
| Teams.TeamsComplementary | src/com/chessgame/player/Team.java:18-56 | exactly one of isWhite and isBlack holds; opponent of opponent is the team; a team is white iff its opponent is black |
| Teams.PromotionRowsLieAhead | src/com/chessgame/player/Team.java:33-66 | the promotion tiles are 0-7 for White and 56-63 for Black, and a forward step from one leaves the board |
| Teams.SelectPlayerPicksOwnSide | src/com/chessgame/player/Team.java:28-61 | selectPlayer returns the white player iff the team is White, the black player iff it is Black |
| Pieces.PiecePoints | src/com/chessgame/pieces/ChessPiece.java:77-167 | every piece is worth a positive number of points, and 10000 exactly for the king |
| Pieces.PointsTable | src/com/chessgame/pieces/ChessPiece.java:77-167 | pawn < knight = bishop < rook < queen < king, a king outweighs a whole side of other pieces, and isKing/isRook hold exactly for KING/ROOK |
| Pieces.MovePiece | src/com/chessgame/pieces/Rook.java:81-84 | movePiece keeps type and team, puts the piece on the destination, and sets first-move exactly when the piece is not a rook (King.java:81-83, Knight.java:98-100, Bishop.java:81-83, Pawn.java:136-138) |
| Pieces.PromotedPiece | src/com/chessgame/pieces/Pawn.java:142-144 | the promoted piece is a queen of the pawn's team on the pawn's tile, first-move false |
| Tiles.EmptyTileCache | src/com/chessgame/board/ChessTile.java:12-26 | the cache has exactly the 64 coordinates as keys, each holding the empty tile of that coordinate |
| Tiles.CreateTile | src/com/chessgame/board/ChessTile.java:30-37 | the tile has the given coordinate, is occupied iff a piece is given, and getPiece returns exactly that piece or null |
| Tiles.ToLowerCase | src/com/chessgame/board/ChessTile.java:92-97 | lower-casing keeps the length and maps exactly the letters A-Z to a-z |
| Tiles.TileStringsDistinguishTeams | src/com/chessgame/board/ChessTile.java:68-97 | an empty tile prints "-", a white piece its name, a black piece its lower-cased name, and the white and black prints of a piece differ |
| Boards.PiecesBelow | src/com/chessgame/board/ChessBoard.java:133-146 | every listed piece is of the team and stands on its own tile below n |
| Boards.PiecesBelowOrderedAndComplete | src/com/chessgame/board/ChessBoard.java:133-146 | the piece list is in strictly ascending tile order and misses no piece of the team |
| Boards.PiecesBelowOrdered | src/com/chessgame/board/ChessBoard.java:133-146 | the piece list is in strictly ascending tile order |
| Boards.PiecesBelowComplete | src/com/chessgame/board/ChessBoard.java:133-146 | every piece of the team below tile n is in the list |
| Boards.OnBoardPieces | src/com/chessgame/board/ChessBoard.java:133-146 | the loop returns exactly the team's piece list in tile order |
| Boards.FirstKing | src/com/chessgame/player/Player.java:47-54 | a king that setKing finds is a king of the list |
| Boards.FirstKingIsFirst | src/com/chessgame/player/Player.java:47-54 | setKing fails iff no piece is a king, and otherwise returns the first king of the list |
| Boards.KingOf | src/com/chessgame/player/Player.java:47-54 | on a valid board the player's king is a king of its team standing on its own tile |
| Boards.HasKingIffKingOnSomeTile | src/com/chessgame/player/Player.java:47-54 | setKing succeeds iff some tile holds a king of that team |
| Boards.CreateBoard | src/com/chessgame/board/ChessBoard.java:149-158 | tile i is occupied iff the builder holds a piece at i, and then holds exactly that piece |
| Boards.CreateTiles | src/com/chessgame/board/ChessBoard.java:149-158 | the for loop builds exactly CreateBoard's tiles |
| Boards.BuildSpec | src/com/chessgame/board/ChessBoard.java:40-50 | build succeeds with a valid board of the builder's tiles, mover and en-passant pawn, and throws iff the mover is missing or a team has no king |
| StartPosition.StartPieces | src/com/chessgame/board/ChessBoard.java:162-201 | every start piece is keyed by its own position |
| StartPosition.StartBuilds | src/com/chessgame/board/ChessBoard.java:162-201 | building the start pieces with White to move does not throw and yields the start board |
| StartPosition.StartLayout | src/com/chessgame/board/ChessBoard.java:162-201 | Black on 0-15, White on 48-63, 16-47 empty, pawns on the second and seventh rows, kings on 4 and 60, all unmoved, White to move, no en-passant pawn |
| Moves.TargetedPiece | src/com/chessgame/movement/Move.java:69-76 | a move names a target iff it is a killer move (promotion delegating to its wrapped move) |
| Moves.EqualsReflexive | src/com/chessgame/movement/Move.java:93-105 | every move equals itself, so a list contains each of its moves |
| Moves.EqualsMeansSameMove | src/com/chessgame/movement/Move.java:93-142 | equal moves have the same destination, moving piece and current tile; captures agree on the target, castles on the rook and the side, and other receivers accept only their own class |
| Moves.EqualsIsNotSymmetric | src/com/chessgame/movement/Move.java:93-105 | a double step equals a normal move but not conversely; a pawn capture equals an en-passant capture but not conversely |
| MoveGeneration.Offsets | src/com/chessgame/pieces/Knight.java:17 | no piece's offset table contains 0 (Pawn.java:16, Bishop.java:17, Rook.java:17, King.java:17, the queen's union of both) |
| MoveGeneration.KnightAllowedMoves | src/com/chessgame/pieces/Knight.java:30-62 | the loop returns exactly the knight's specified move list |
| MoveGeneration.KingAllowedMoves | src/com/chessgame/pieces/King.java:29-57 | the loop returns exactly the king's specified move list |
| MoveGeneration.SlidingAllowedMoves | src/com/chessgame/pieces/Bishop.java:29-59 | the nested ray loops return exactly the specified move list of a bishop, a rook (Rook.java:29-59) or a queen |
| MoveGeneration.PawnAllowedMoves | src/com/chessgame/pieces/Pawn.java:28-126 | the loop returns exactly the pawn's specified move list |
| MoveGeneration.PawnAttackMoves | src/com/chessgame/pieces/Pawn.java:64-123 | a diagonal branch returns exactly the specified capture, promotion-capture or en-passant move |
| MoveGeneration.AllowedMoves | src/com/chessgame/pieces/ChessPiece.java:74 | dispatch on the piece class returns exactly the piece's specified move list |
| MoveGeneration.AllLegalMoves | src/com/chessgame/board/ChessBoard.java:122-129 | the loop returns the moves of each piece in turn, in list order |
| MoveGeneration.CandidatesFromMembers | src/com/chessgame/pieces/Knight.java:32-61 | a move is generated iff one entry of the offset table contributes it |
| MoveGeneration.RaySound | src/com/chessgame/pieces/Bishop.java:33-57 | every move of a ray is sound: on the board, not onto an own piece, a capture naming the enemy on the destination |
| MoveGeneration.CandidateSound | src/com/chessgame/pieces/King.java:31-55 | every move one table entry contributes is sound |
| MoveGeneration.PawnCandidateSound | src/com/chessgame/pieces/Pawn.java:31-124 | every move one pawn table entry contributes is sound |
| MoveGeneration.PawnPushSound | src/com/chessgame/pieces/Pawn.java:39-47 | a promotion-wrapped push onto an empty tile is sound |
| MoveGeneration.PromotionSound | src/com/chessgame/pieces/Pawn.java:41-47 | wrapping a sound pawn push or capture in a promotion keeps it sound |
| MoveGeneration.PawnAttackSound | src/com/chessgame/pieces/Pawn.java:64-123 | every diagonal pawn move is sound, en passant capturing the board's enemy en-passant pawn (that this pawn stands beside the capturing one is PawnSpecialMoves') |
| MoveGeneration.PieceMovesSound | src/com/chessgame/pieces/ChessPiece.java:74 | every move allowedMoves returns for a piece is sound |
| MoveGeneration.MovesOfPiecesSound | src/com/chessgame/board/ChessBoard.java:122-129 | every move of a piece list is a sound move of one of its pieces |
| MoveGeneration.TeamMovesSound | src/com/chessgame/board/ChessBoard.java:122-129 | every move of a team's list moves a piece of that team from its own tile, soundly |
| MoveGeneration.StepIffNotExcluded | src/com/chessgame/pieces/King.java:61-71 | the king's column tests exclude exactly the one-step offsets that would wrap around a side |
| MoveGeneration.RayFollowsLine | src/com/chessgame/pieces/Rook.java:33-57 | every move of a ray lies on an open, non-wrapping line from its start |
| MoveGeneration.RayReachesLine | src/com/chessgame/pieces/Rook.java:33-57 | conversely, every tile on an open line from the ray's start that is empty or holds an enemy is the destination of a move of the ray |
| MoveGeneration.SlidingMovesFollowLines | src/com/chessgame/pieces/Bishop.java:29-71 | a bishop, rook or queen moves along one of its lines, never jumping a piece or wrapping around a side |
| MoveGeneration.SlidingMovesReachLines | src/com/chessgame/pieces/Bishop.java:29-71 | conversely, a bishop, rook or queen has a move to every tile of its open lines that is empty or holds an enemy: with SlidingMovesFollowLines, its destinations are exactly those tiles |
| MoveGeneration.KingMovesAreAdjacent | src/com/chessgame/pieces/King.java:29-71 | a king's moves go exactly to the adjacent tiles that are empty or hold an enemy |
| MoveGeneration.KingMovesStayAdjacent | src/com/chessgame/pieces/King.java:29-71 | every king move ends on an adjacent tile |
| MoveGeneration.KingReachesAdjacent | src/com/chessgame/pieces/King.java:29-57 | every adjacent tile that is empty or holds an enemy is the destination of a king move |
| MoveGeneration.KingOffsetIndex | src/com/chessgame/pieces/King.java:17 | each adjacent tile is reached by a non-wrapping entry of the king's table |
| MoveGeneration.KnightJumpIffNotExcluded | src/com/chessgame/pieces/Knight.java:66-88 | the knight's column tests exclude exactly the wrapping jumps, except +17 from the last column |
| MoveGeneration.KnightOffsetIndex | src/com/chessgame/pieces/Knight.java:17 | every L-shaped jump is an entry of the knight's table |
| MoveGeneration.KnightMovesJump | src/com/chessgame/pieces/Knight.java:30-88 | a knight reaches every L-shaped jump that is empty or holds an enemy, and nothing else except +17 from the last column |
| MoveGeneration.KnightWrapsFromLastColumn | src/com/chessgame/pieces/Knight.java:85-88 | a knight on h7 (15) may move to a3 (32), which is not a knight's jump |
| MoveGeneration.JumpCandidatesBound | src/com/chessgame/pieces/Knight.java:32-36 | a jumping piece contributes at most one move per table entry |
| MoveGeneration.MoveCountBounds | src/com/chessgame/pieces/King.java:31-32 | a knight or king has at most 8 moves and a pawn at most 4 (Knight.java:32-36, Pawn.java:31) |
| MoveGeneration.PawnCandidateGeometry | src/com/chessgame/pieces/Pawn.java:31-124 | every pawn move one table entry contributes goes forward as PawnGeometry describes |
| MoveGeneration.PawnMovesGoForward | src/com/chessgame/pieces/Pawn.java:28-126 | pawn moves go one row forward (two for a double step in the same column), straight iff they capture nothing, promoted iff they reach the promotion row; an empty front tile is always reachable |
| MoveGeneration.PawnCandidateConditions | src/com/chessgame/pieces/Pawn.java:31-123 | each table entry yields a double step only on the first move from the start row over an empty front tile, and an en-passant capture only of a pawn beside the capturing pawn in the destination's column |
| MoveGeneration.PawnSpecialMoves | src/com/chessgame/pieces/Pawn.java:48-123 | every pawn move meets those conditions, and a pawn on its first move from its start row with both tiles ahead empty does have the double step |
| Execution.Except | src/com/chessgame/movement/Move.java:36-46 | the put-loop filter never lengthens the list |
| Execution.ExceptMembers | src/com/chessgame/movement/Move.java:36-46 | the filter keeps exactly the listed pieces that are not removed |
| Execution.PutAll | src/com/chessgame/board/ChessBoard.java:217-219 | putting pieces keeps every piece under its own position |
| Execution.Rebuild | src/com/chessgame/movement/Move.java:34-46 | the put loops keep every piece under its own position |
| Execution.Put | src/com/chessgame/board/ChessBoard.java:217-219 | putPiece keeps every piece under its own position |
| Execution.Finish | src/com/chessgame/movement/Move.java:47-50 | a board that builds is valid |
| Execution.ExecuteSpec | src/com/chessgame/movement/Move.java:33-51 | every execution that does not throw yields a valid board (also EnPassant 200-219, PawnDouble 230-246, Castle 283-303, Invalid 372-374, promotion 412-429) |
| Execution.PromoteSpec | src/com/chessgame/movement/Move.java:412-429 | the promotion's rebuild, when it builds, is a valid board |
| Execution.Moved | src/com/chessgame/movement/Move.java:33-51 | moving a piece keeps 64 tiles |
| Execution.PiecesOfMembers | src/com/chessgame/board/ChessBoard.java:133-146 | a team's piece list holds exactly the team's pieces standing on their tiles |
| Execution.PutAllOnSquares | src/com/chessgame/board/ChessBoard.java:217-219 | putting pieces that stand on their tiles adds exactly their tiles, the last put winning |
| Execution.RebuildSquares | src/com/chessgame/movement/Move.java:34-46 | the put loops keep exactly the board's pieces except the removed ones, each on its tile |
| Execution.BuildThrowsOnlyWithoutKing | src/com/chessgame/board/ChessBoard.java:40-50 | with a next mover set, building throws only when a team has no king |
| Execution.MovedKeepsKings | src/com/chessgame/movement/Move.java:33-51 | moving a piece keeps both kings on the board unless it lands on one |
| Execution.LiftAndPlace | src/com/chessgame/movement/Move.java:33-51 | lifting the mover's piece and putting its moved copy on the destination changes exactly those two tiles |
| Execution.ExecuteOrdinary | src/com/chessgame/movement/Move.java:33-51 | a normal move, push, capture or double step moves the piece, keeps every other tile, hands over to the opponent, and leaves an en-passant pawn only after a double step |
| Execution.ValidHasKings | src/com/chessgame/player/Player.java:47-54 | a valid board has a king of each team |
| Execution.ExecuteOrdinaryBuilds | src/com/chessgame/movement/Move.java:33-51 | on a valid board such a move does not throw unless it captures a king |
| Execution.CreateBoardPut | src/com/chessgame/board/ChessBoard.java:217-219 | putting a piece changes exactly its own tile |
| Execution.LiftTwo | src/com/chessgame/movement/Move.java:200-219 | leaving out one piece of each team empties exactly their two tiles |
| Execution.LiftPair | src/com/chessgame/movement/Move.java:283-303 | leaving out two of the mover's pieces empties exactly their two tiles |
| Execution.LiftAndPlaceCapture | src/com/chessgame/movement/Move.java:200-219 | the en-passant rebuild moves the pawn and empties the captured pawn's tile |
| Execution.ExecuteEnPassant | src/com/chessgame/movement/Move.java:200-219 | an en-passant capture moves the pawn, removes the captured pawn, keeps every other tile and hands over to the opponent |
| Execution.LiftAndPlaceCastle | src/com/chessgame/movement/Move.java:283-303 | the castle rebuild moves the king and puts a new unmoved-flag-cleared rook on its destination |
| Execution.ExecuteCastle | src/com/chessgame/movement/Move.java:283-303 | a castle moves exactly the king and the rook, hands over to the opponent, and marks the mover castled |
| Execution.LiftAbsent | src/com/chessgame/movement/Move.java:412-429 | leaving out a piece that is on no tile changes nothing |
| Execution.PromoteOnto | src/com/chessgame/movement/Move.java:412-429 | the promotion rebuild changes only the destination, to the queen, and keeps the side to move |
| Execution.ExecutePromotion | src/com/chessgame/movement/Move.java:412-429 | a promotion lifts the pawn, puts a queen of the mover on the destination, keeps every other tile and hands over to the opponent |
| Rules.AttacksOnTile | src/com/chessgame/player/Player.java:33-44 | the attack list is no longer than the move list |
| Rules.AttackOnTile | src/com/chessgame/player/Player.java:33-44 | the loop returns exactly the filtered list |
| Rules.AttacksOnTileSplits | src/com/chessgame/player/Player.java:33-44 | the filter keeps the order: filtering a concatenation concatenates the filtered parts |
| Rules.AttackedIff | src/com/chessgame/player/Player.java:28 | a tile is attacked iff some move ends on it |
| Rules.AttacksOnTileMembers | src/com/chessgame/player/Player.java:33-44 | the attack list holds exactly the moves ending on the tile |
| Rules.KingSideLane | src/com/chessgame/player/WhitePlayer.java:45-58 | the king-side lane is on the board, both destinations lie between king and rook, all between tiles are guarded, the rook tile is not between (BlackPlayer.java:44-58 for Black) |
| Rules.QueenSideLane | src/com/chessgame/player/WhitePlayer.java:62-76 | the queen-side lane is on the board, only the king's and rook's destinations are guarded, the rook tile is not between (BlackPlayer.java:59-73 for Black) |
| Rules.CastlingMovesShape | src/com/chessgame/player/WhitePlayer.java:38-80 | at most two castles, king side first; each side is offered iff the king's first-move flag is set and its lane is open; check never blocks |
| Rules.CastlesSound | src/com/chessgame/player/WhitePlayer.java:45-76 | every castle moves the king to an empty, unattacked tile and names the unmoved rook on its tile; the four tiles are distinct |
| Rules.PieceMovesOnBoard | src/com/chessgame/board/ChessBoard.java:42-47 | the pieces' moves are well formed, move a piece of the team from its tile, and are not castles |
| Rules.CastlesOnBoard | src/com/chessgame/player/WhitePlayer.java:55-74 | the castles are well formed castles of the team's king from its tile |
| Rules.OnBoardConcat | src/com/chessgame/player/Player.java:26 | both facts hold for the pieces' moves followed by the castles |
| Rules.LegalMoves | src/com/chessgame/player/Player.java:26 | every legal move is well formed |
| Rules.LegalMovesOnBoard | src/com/chessgame/player/Player.java:26 | every legal move moves a piece of the team from its tile, and the non-castles are the pieces' moves |
| Rules.MakeMoveSpec | src/com/chessgame/player/Player.java:112-131 | a board makeMove returns without throwing is valid |
| Rules.TryMoveSpec | src/com/chessgame/player/Player.java:118-130 | a board the legal branch of makeMove returns is valid |
| Rules.ExecuteHandsOver | src/com/chessgame/movement/Move.java:47-50 | every execution hands the move to the opponent of the board's mover |
| Rules.FirstMatch | src/com/chessgame/movement/Move.java:386-397 | createMove returns INVALID_MOVE or a move of the list |
| Rules.FirstMatchIsFirst | src/com/chessgame/movement/Move.java:386-397 | createMove returns INVALID_MOVE iff no move matches, otherwise the earliest matching move |
| Status.MakeMoveOutcomes | src/com/chessgame/player/Player.java:112-131 | ILLEGAL_MOVE iff the move is not legal; a throw only from a legal move's execution; the board kept unless COMPLETED; COMPLETED gives the executed board with the mover's king unattacked |
| Status.TryMoveOutcomes | src/com/chessgame/player/Player.java:118-130 | a legal move throws iff its execution throws, never answers ILLEGAL_MOVE, keeps the board unless it completes, and completes with the king unattacked |
| Status.CompletedKingSafe | src/com/chessgame/player/Player.java:118-130 | an execution that leaves the king unattacked is a completed move |
| Status.MarkCastled | src/com/chessgame/player/Player.java:87-89 | castled() sets the player's flag and keeps the other player's |
| Status.Attempts | src/com/chessgame/player/Player.java:100-102 | there is one makeMove attempt per move |
| Status.CastleMarks | src/com/chessgame/movement/Move.java:300 | there is one castle mark per move |
| Status.EscapeScanFinds | src/com/chessgame/player/Player.java:97-108 | the scan answers true iff some attempt completed, and throws only an attempt's exception that no completed attempt precedes |
| Status.EscapeScanFlags | src/com/chessgame/player/Player.java:97-108 | the escape search only ever sets the board mover's flag and never clears one |
| Status.AttemptsStep | src/com/chessgame/player/Player.java:100-102 | the attempts of a list are makeMove of its first move followed by the attempts of the rest |
| Status.CastleMarksStep | src/com/chessgame/movement/Move.java:300 | the castle marks of a list are that of its first move followed by those of the rest |
| Status.AttemptsAreMakeMoves | src/com/chessgame/player/Player.java:100-102 | each attempt is makeMove of the corresponding move |
| Status.ValidUpdatesAt | src/com/chessgame/player/Player.java:112-131 | each attempt that does not throw has a valid board |
| Status.AttemptsValid | src/com/chessgame/player/Player.java:112-131 | every attempt that does not throw yields a valid board |
| Status.HasEscapeMoveFinds | src/com/chessgame/player/Player.java:97-108 | hasEscapeMove answers true iff some legal move completes |
| Status.MateMeansNoCompletedMove | src/com/chessgame/player/Player.java:77-84 | checkmate iff in check and no legal move completes; stalemate iff not in check and none completes; never both |
| Evaluation.Material | src/com/chessgame/player/aiopponent/EvaluateBoardScore.java:31-37 | the material lies between a pawn's and a king's points times the number of pieces |
| Evaluation.PiecesPoints | src/com/chessgame/player/aiopponent/InitialBoardScore.java:27-33 | the loop's sum is the material of the pieces (EvaluateBoardScore.java:31-37) |
| Evaluation.MaterialSplits | src/com/chessgame/player/aiopponent/EvaluateBoardScore.java:31-37 | the material of a concatenation is the sum of the parts' material |
| Evaluation.MaterialAtLeast | src/com/chessgame/player/aiopponent/EvaluateBoardScore.java:31-37 | no piece is worth more than the list it is in |
| Evaluation.KingWeighs | src/com/chessgame/player/aiopponent/EvaluateBoardScore.java:31-37 | a side of a valid board is worth at least the king's points |
| Evaluation.SoonerMateScoresHigher | src/com/chessgame/player/aiopponent/EvaluateBoardScore.java:52-68 | with more search levels left, the same position scores the player strictly higher exactly when the opponent is mated and the same otherwise, throwing alike and leaving the same flags |
| Evaluation.PlayerScoreParts | src/com/chessgame/player/aiopponent/EvaluateBoardScore.java:25-76 | playerScore is material + legal-move count + 50 if the opponent is in check + 10000 times the multiplier if the opponent is mated + 60 if castled |
| Evaluation.PlayerScoreFlags | src/com/chessgame/player/aiopponent/EvaluateBoardScore.java:54-59 | scoring may set only the board mover's castled flag and never clears one |
| Evaluation.InitialScoreMeaning | src/com/chessgame/player/aiopponent/InitialBoardScore.java:10-24 | the score is positive, negative or zero exactly as White's material exceeds, falls short of or equals Black's, at every level alike |
| Evaluation.InitialBoardScore | src/com/chessgame/player/aiopponent/InitialBoardScore.java:10-33 | the method's score is White's material minus Black's |
| Search.GameOverIff | src/com/chessgame/player/aiopponent/Minimax.java:115-117 | the game is over iff no legal move of the side to move completes |
| Search.LevelBelow | src/com/chessgame/player/aiopponent/Minimax.java:82-105 | the level of a child is below its parent's |
| Search.CompletedChildValue | src/com/chessgame/player/aiopponent/Minimax.java:80-82 | a completed move is worth its board's value one level down, or throws that value's exception |
| Search.ChildValues | src/com/chessgame/player/aiopponent/Minimax.java:76-87 | there is one child value per attempt |
| Search.LowestStep | src/com/chessgame/player/aiopponent/Minimax.java:76-87 | one turn of minValue's loop either throws or replaces the running lowest by a value <= it |
| Search.HighestStep | src/com/chessgame/player/aiopponent/Minimax.java:99-110 | one turn of maxValue's loop either throws or replaces the running highest by a value >= it |
| Search.ChildValuesAre | src/com/chessgame/player/aiopponent/Minimax.java:76-87 | the i-th child value is the value of the i-th attempt |
| Search.ValuesStop | src/com/chessgame/player/aiopponent/Minimax.java:69-112 | minValue and maxValue return the score at level 0 or when no move completes, and otherwise search |
| Search.ChildValueMeaning | src/com/chessgame/player/aiopponent/Minimax.java:78-85 | an attempt's exception propagates, one that does not complete is skipped, and a completed one is valued one level down |
| Search.SearchesScan | src/com/chessgame/player/aiopponent/Minimax.java:74-111 | the searches scan the values of makeMove of each legal move, from Integer.MAX_VALUE and Integer.MIN_VALUE |
| Search.LowestIsMinimum | src/com/chessgame/player/aiopponent/Minimax.java:74-88 | the loop succeeds iff no value throws, and then returns a lower bound of the start and every value that is the start or one of them |
| Search.HighestIsMaximum | src/com/chessgame/player/aiopponent/Minimax.java:97-111 | the loop succeeds iff no value throws, and then returns an upper bound that is the start or one of the values |
| Search.BestFrom | src/com/chessgame/player/aiopponent/Minimax.java:27-58 | the best index found is an index of the values |
| Search.LoopChoice | src/com/chessgame/player/aiopponent/Minimax.java:27-58 | after the last entry the loop's move is the root's choice |
| Search.BestStep | src/com/chessgame/player/aiopponent/Minimax.java:45-54 | one entry throws, becomes the best (>= for White, <= for Black), or is skipped |
| Search.ChooseEntry | src/com/chessgame/player/aiopponent/Minimax.java:45-54 | an entry at least as good as the chosen one becomes the choice |
| Search.KeepChoice | src/com/chessgame/player/aiopponent/Minimax.java:45-54 | an entry that did not complete or is worse keeps the choice |
| Search.BestFromChooses | src/com/chessgame/player/aiopponent/Minimax.java:27-58 | the loop ends with a choice that is at least as good as every completed entry and not beaten by a later one |
| Search.ValuedIsCompleted | src/com/chessgame/player/aiopponent/Minimax.java:31 | a root entry has a value iff its makeMove completed |
| Search.RootChoiceIsBest | src/com/chessgame/player/aiopponent/Minimax.java:19-58 | runAlgorithm returns null iff no move completes, otherwise the last move with the best completed value for the side to move |
| Engine.Player.constructor | src/com/chessgame/player/Player.java:22-30 | the player holds the board, the first king, the pieces' moves followed by the castles, whether the king is attacked, and has not castled |
| Engine.Player.Castled | src/com/chessgame/player/Player.java:87-89 | castled() sets hasCastled |
| Engine.SetKing | src/com/chessgame/player/Player.java:47-54 | setKing returns the first king, and throws NO KING ON BOARD exactly when there is none |
| Engine.LaneIsOpen | src/com/chessgame/player/WhitePlayer.java:45-52 | the guards of one side hold exactly when the lane is open |
| Engine.CalculateCastlingMoves | src/com/chessgame/player/WhitePlayer.java:38-80 | nothing when in check, otherwise exactly the specified castles |
| Engine.ChessBoard.constructor | src/com/chessgame/board/ChessBoard.java:40-50 | the board object holds the given tiles, piece lists, players, mover and en-passant pawn |
| Engine.Builder.constructor | src/com/chessgame/board/ChessBoard.java:209-211 | a new builder is empty, with no mover and no en-passant pawn |
| Engine.Builder.PutPiece | src/com/chessgame/board/ChessBoard.java:217-219 | the piece goes under its own position, replacing what was there, nothing else changes |
| Engine.Builder.SetMover | src/com/chessgame/board/ChessBoard.java:221-223 | the next mover is set, nothing else changes |
| Engine.Builder.SetEnPassant | src/com/chessgame/board/ChessBoard.java:225-227 | the en-passant pawn is set, nothing else changes |
| Engine.Builder.Build | src/com/chessgame/board/ChessBoard.java:40-50 | build throws exactly what BuildSpec throws, otherwise returns a new valid board object standing for BuildSpec's board whose players have not castled |
| Engine.BuildSpecSteps | src/com/chessgame/board/ChessBoard.java:40-50 | build throws NO KING ON BOARD first, then the missing-mover exception, else returns the board |
| Engine.Assemble | src/com/chessgame/board/ChessBoard.java:44-49 | the new board object is valid, stands for the board value, and its players have not castled |
| Engine.PutPieces | src/com/chessgame/movement/Move.java:36-46 | a put loop puts each piece that is not removed, in order |
| Engine.Rebuilt | src/com/chessgame/movement/Move.java:34-46 | the two put loops leave the builder holding the board's pieces except the removed ones |
| Engine.ExecuteDefault | src/com/chessgame/movement/Move.java:33-51 | the default execution builds the rebuild with the moved piece on the destination |
| Engine.ExecuteEnPassant | src/com/chessgame/movement/Move.java:200-219 | en passant also leaves out the captured pawn |
| Engine.ExecuteDouble | src/com/chessgame/movement/Move.java:230-246 | a double step also records the moved pawn as the en-passant pawn |
| Engine.CastleBoard | src/com/chessgame/movement/Move.java:283-303 | a castle builds the board with king and a flag-cleared rook moved |
| Engine.ExecutePromote | src/com/chessgame/movement/Move.java:412-429 | the promotion rebuilds the wrapped move's board with the queen on the destination |
| Engine.ExecuteOrdinary | src/com/chessgame/movement/Move.java:33-51 | the non-castle, non-promotion executions stand for ExecuteSpec |
| Engine.ExecuteCastle | src/com/chessgame/movement/Move.java:283-303 | a castle stands for ExecuteSpec and marks the board's current mover castled |
| Engine.ExecuteMove | src/com/chessgame/movement/Move.java:33-51 | every execution stands for ExecuteSpec and marks the current mover castled exactly for a castle |
| Engine.MakeMove | src/com/chessgame/player/Player.java:112-131 | makeMove reports MakeMoveSpec, keeps the board unless COMPLETED, and marks castled exactly for a legal castle |
| Engine.TryMove | src/com/chessgame/player/Player.java:118-130 | the legal branch reports TryMoveSpec |
| Engine.HasEscapeMove | src/com/chessgame/player/Player.java:97-108 | hasEscapeMove answers what the specification answers, with the flags it leaves |
| Engine.IsCheckMate | src/com/chessgame/player/Player.java:77-79 | isCheckMate answers the specification, with its flags |
| Engine.IsStaleMate | src/com/chessgame/player/Player.java:82-84 | isStaleMate answers the specification, with its flags |
| Engine.EscapeLoop | src/com/chessgame/player/Player.java:100-107 | the loop answers the escape scan of the remaining moves |
| Engine.EscapeAttempt | src/com/chessgame/player/Player.java:102-105 | one attempt ends the scan on an exception or a completed move, otherwise leaves the scan of the rest |
| Engine.KingAttacked | src/com/chessgame/player/Player.java:120-125 | the check is whether the side that moved has its king attacked on the new board |
| Engine.CreateMove | src/com/chessgame/movement/Move.java:386-397 | createMove returns the first matching move of White's then Black's legal moves, else INVALID_MOVE |
| Engine.GameInitialize | src/com/chessgame/board/ChessBoard.java:162-201 | the initial board object is valid, stands for the start position, and nobody has castled |
| Engine.BlackPutsAreStart | src/com/chessgame/board/ChessBoard.java:164-180 | the black puts fill tiles 0-15 with the black start pieces |
| Engine.WhitePutsAreStart | src/com/chessgame/board/ChessBoard.java:181-197 | the white puts add the white start pieces on tiles 48-63 |
| Engine.StartPutsAreStart | src/com/chessgame/board/ChessBoard.java:162-201 | the 32 puts leave exactly the start pieces |
| AiOpponent.PlayerScore | src/com/chessgame/player/aiopponent/EvaluateBoardScore.java:25-76 | playerScore answers the specification, with the flags it leaves, and whether it throws or not it leaves the mover's castled flag set if it was and the opponent's unchanged |
| AiOpponent.Score | src/com/chessgame/player/aiopponent/EvaluateBoardScore.java:13-21 | score answers White's minus Black's player score, with the flags, and whether it throws or not it leaves the mover's castled flag set if it was and the opponent's unchanged |
| AiOpponent.IsGameOver | src/com/chessgame/player/aiopponent/Minimax.java:115-117 | isGameOver answers the specification, with its flags, and whether it throws or not it leaves the mover's castled flag set if it was and the opponent's unchanged |
| AiOpponent.Minimax.constructor | src/com/chessgame/player/aiopponent/Minimax.java:11-14 | the search keeps its tree level |
| AiOpponent.Minimax.RunAlgorithm | src/com/chessgame/player/aiopponent/Minimax.java:17-59 | runAlgorithm returns RunAlgorithmSpec of the board, and whether it throws or not it leaves the mover's castled flag set if it was and the opponent's unchanged |
| AiOpponent.Minimax.BestMove | src/com/chessgame/player/aiopponent/Minimax.java:27-58 | the root loop returns the root choice over the child values, and whether it throws or not it leaves the mover's castled flag set if it was and the opponent's unchanged |
| AiOpponent.Minimax.RootStep | src/com/chessgame/player/aiopponent/Minimax.java:29-54 | one pass keeps the loop's best move and bounds on track to the root choice, and whether it throws or not it leaves the mover's castled flag set if it was and the opponent's unchanged |
| AiOpponent.Minimax.RootValue | src/com/chessgame/player/aiopponent/Minimax.java:29-42 | the i-th root move's value is its child value, and whether it throws or not it leaves the mover's castled flag set if it was and the opponent's unchanged |
| AiOpponent.Minimax.NextValue | src/com/chessgame/player/aiopponent/Minimax.java:78-82 | makeMove of the move followed, when it completes, by the new board's value one level down gives ChildValue of the attempt, and whether it throws or not it leaves the mover's castled flag set if it was and the opponent's unchanged |
| AiOpponent.Minimax.ValueOf | src/com/chessgame/player/aiopponent/Minimax.java:82 | a completed makeMove's new board, valued one level down, gives that update's ChildValue, and whether it throws or not it leaves the mover's castled flag set if it was and the opponent's unchanged |
| AiOpponent.Minimax.ValueBelow | src/com/chessgame/player/aiopponent/Minimax.java:36-41 | the value is maxValue or minValue of the board, and whether it throws or not it leaves the mover's castled flag set if it was and the opponent's unchanged |
| AiOpponent.Minimax.MinValue | src/com/chessgame/player/aiopponent/Minimax.java:69-89 | minValue returns MinValueSpec, and whether it throws or not it leaves the mover's castled flag set if it was and the opponent's unchanged |
| AiOpponent.Minimax.MaxValue | src/com/chessgame/player/aiopponent/Minimax.java:92-112 | maxValue returns MaxValueSpec, and whether it throws or not it leaves the mover's castled flag set if it was and the opponent's unchanged |
| AiOpponent.Minimax.MinLoop | src/com/chessgame/player/aiopponent/Minimax.java:74-88 | the loop returns MinSearch, and whether it throws or not it leaves the mover's castled flag set if it was and the opponent's unchanged |
| AiOpponent.Minimax.MinStep | src/com/chessgame/player/aiopponent/Minimax.java:78-86 | one turn advances the lowest-value scan by one move, and whether it throws or not it leaves the mover's castled flag set if it was and the opponent's unchanged |
| AiOpponent.Minimax.MaxLoop | src/com/chessgame/player/aiopponent/Minimax.java:97-111 | the loop returns MaxSearch, and whether it throws or not it leaves the mover's castled flag set if it was and the opponent's unchanged |
| AiOpponent.Minimax.MaxStep | src/com/chessgame/player/aiopponent/Minimax.java:101-109 | one turn advances the highest-value scan by one move, and whether it throws or not it leaves the mover's castled flag set if it was and the opponent's unchanged |

## Left out

- The Swing user interface, the program entry point and the debug prints are not part of this model. So are the wall-clock timing of `runAlgorithm` and `toString` of `Minimax`.
- Hash codes of pieces and moves are left out, because they rely on Java int overflow. Equality is modelled by `equals`.
- Java `int` overflow of scores is not modelled: scores are unbounded integers.
- Search.RootChoiceIsBest: assumes the child values fit in an int, because the loop starts from `Integer.MIN_VALUE`/`Integer.MAX_VALUE` and a value beyond them would never be chosen.
- AiOpponent.Minimax.RunAlgorithm: requires a tree level of at least 1. At level 0 the Java search calls `minValue`/`maxValue` with -1 and never reaches its base case.
- The `Algorithms` and `BoardScore` interfaces are not modelled. `Minimax` uses `EvaluateBoardScore` directly.
- `Queen.java` and `BlackPlayer.java` of `com.chessgame` are not part of this model.
- The queen's first-move flag is an assumption: the queen moves like the older engine's `Queen`, which has no such flag, and carries the flag as every other `com.chessgame` piece does. The flag only matters to pawns, kings and rooks, so a queen's moves do not depend on it; it takes part in piece equality.
- The black player's castles are those of `WhitePlayer.java` mirrored onto tiles 0-7, testing occupancy before the piece type. The older engine's `BlackPlayer` reads the type of the piece on an empty rook tile, which fails in Java; that failure is not modelled.
- The move and piece objects are values: a move does not hold its board, and the board is passed to `executeMove`. Object identity (`==` in `equals`) is identity of values.
- The moves a board holds are well formed: a promotion wraps a pawn push or capture, and a double step moves a pawn. The generators produce only such moves; a hand-built move outside them is not modelled.
- Engine.HasEscapeMove: after an exception the castled flags are known only up to OnlyMoverMarked (the mover's flag may have been set, the opponent's is unchanged), because `Answers` fixes the flags only for a result that did not throw. The same holds for Engine.IsCheckMate, Engine.IsStaleMate, Engine.EscapeLoop, AiOpponent.PlayerScore, AiOpponent.Score and AiOpponent.IsGameOver.
- `getTile`, the plain getters and `toString` of pieces and moves are folded into the values they read.
