/** Square arithmetic of the 8x8 board: squares are numbered 0..63 row by row,
    square 0 in the top-left corner (Black's back rank), square 63 in the
    bottom-right corner (White's back rank). Column 0 is file a, column 7 file h. */
module Geometry {

  const TotalTiles: int := 64

  /** ChessBoard.isValidTileCoordinate: the coordinate names one of the 64 tiles. */
  predicate IsValidTileCoordinate(coordinate: int)
  {
    coordinate >= 0 && coordinate <= 63
  }

  /** The column (file) of a square, 0 for file a to 7 for file h. */
  function Column(square: int): int
    requires IsValidTileCoordinate(square)
  {
    square % 8
  }

  /** The row of a square, 0 for Black's back rank to 7 for White's back rank. */
  function Row(square: int): int
    requires IsValidTileCoordinate(square)
  {
    square / 8
  }

  // The constant masks ChessBoard.FIRST_COLUMN ... LAST_ROW, as predicates on a square.
  // CreateColumn and CreateRow below build the same masks as arrays, the way the class
  // initialiser does, and their postconditions tie each array to these predicates.

  predicate FirstColumn(square: int) requires IsValidTileCoordinate(square) { Column(square) == 0 }
  predicate SecondColumn(square: int) requires IsValidTileCoordinate(square) { Column(square) == 1 }
  predicate SeventhColumn(square: int) requires IsValidTileCoordinate(square) { Column(square) == 6 }
  predicate LastColumn(square: int) requires IsValidTileCoordinate(square) { Column(square) == 7 }

  predicate FirstRow(square: int) requires IsValidTileCoordinate(square) { Row(square) == 0 }
  predicate SecondRow(square: int) requires IsValidTileCoordinate(square) { Row(square) == 1 }
  predicate SeventhRow(square: int) requires IsValidTileCoordinate(square) { Row(square) == 6 }
  predicate LastRow(square: int) requires IsValidTileCoordinate(square) { Row(square) == 7 }

  /** ChessBoard.createColumn: marks `column`, `column + 8`, ... up to the last tile
      (a do-while loop, so the starting square is always marked). */
  method CreateColumn(column: int) returns (board: array<bool>)
    requires IsValidTileCoordinate(column)
    ensures board.Length == TotalTiles
    ensures forall i :: 0 <= i < TotalTiles ==> (board[i] <==> column <= i && (i - column) % 8 == 0)
    ensures column < 8 ==> forall i :: 0 <= i < TotalTiles ==> (board[i] <==> Column(i) == column)
  {
    board := new bool[TotalTiles](_ => false);
    var c := column;
    board[c] := true;
    c := c + 8;
    while c < TotalTiles
      invariant column < c < TotalTiles + 8 && (c - column) % 8 == 0
      invariant forall i :: 0 <= i < TotalTiles ==> (board[i] <==> column <= i < c && (i - column) % 8 == 0)
      decreases TotalTiles - c
    {
      board[c] := true;
      c := c + 8;
    }
  }

  /** ChessBoard.createRow: marks `rowIndex` and every following square of the same
      row (a do-while loop that stops at the next multiple of 8). */
  method CreateRow(rowIndex: int) returns (board: array<bool>)
    requires IsValidTileCoordinate(rowIndex)
    ensures board.Length == TotalTiles
    ensures forall i :: 0 <= i < TotalTiles ==> (board[i] <==> rowIndex <= i < (Row(rowIndex) + 1) * 8)
    ensures rowIndex % 8 == 0 ==> forall i :: 0 <= i < TotalTiles ==> (board[i] <==> Row(i) == rowIndex / 8)
  {
    board := new bool[TotalTiles](_ => false);
    var r := rowIndex;
    var end := (rowIndex / 8 + 1) * 8;
    board[r] := true;
    r := r + 1;
    while r % 8 != 0
      invariant rowIndex < r <= end
      invariant forall i :: 0 <= i < TotalTiles ==> (board[i] <==> rowIndex <= i < r)
      decreases end - r
    {
      board[r] := true;
      r := r + 1;
    }
  }
}
