/** ChessTile: a square of the board, empty or holding one piece. */
module Tiles {
  import opened Wrappers
  import opened Geometry
  import opened Teams
  import opened Pieces

  datatype Tile = EmptyTile(coordinate: int) | OccupiedTile(coordinate: int, piece: Piece)

  /** ChessTile.EMPTY_TILES: one shared empty tile per coordinate 0..63. */
  function EmptyTileCache(): (cache: map<int, Tile>)
    ensures forall c :: c in cache <==> IsValidTileCoordinate(c)
    ensures forall c :: c in cache ==> cache[c] == EmptyTile(c)
  {
    map c | 0 <= c < TotalTiles :: EmptyTile(c)
  }

  /** ChessTile.createTile: the cached empty tile for a null piece, otherwise a new
      occupied tile holding exactly that piece. */
  function CreateTile(coordinate: int, piece: Option<Piece>): (tile: Tile)
    requires IsValidTileCoordinate(coordinate)
    ensures TileCoordinates(tile) == coordinate
    ensures IsTileOccupied(tile) <==> piece.Some?
    ensures GetPiece(tile) == piece
  {
    match piece
    case None => EmptyTileCache()[coordinate]
    case Some(p) => OccupiedTile(coordinate, p)
  }

  /** isTileOccupied */
  predicate IsTileOccupied(tile: Tile) { tile.OccupiedTile? }

  /** getPiece: null (None) on an empty tile. */
  function GetPiece(tile: Tile): Option<Piece>
  {
    match tile
    case EmptyTile(_) => None
    case OccupiedTile(_, p) => Some(p)
  }

  /** getTileCoordinates */
  function TileCoordinates(tile: Tile): int
  {
    tile.coordinate
  }

  /** String.toLowerCase restricted to the upper-case ASCII letters of the piece names. */
  function ToLowerCase(s: string): (lower: string)
    ensures |lower| == |s|
    ensures forall i :: 0 <= i < |s| ==>
              lower[i] == (if 'A' <= s[i] <= 'Z' then (s[i] as int + 32) as char else s[i])
  {
    if |s| == 0 then "" else ToLowerCase(s[..|s| - 1]) + [LowerChar(s[|s| - 1])]
  }

  function LowerChar(c: char): char
  {
    if 'A' <= c <= 'Z' then (c as int + 32) as char else c
  }

  /** ChessTile.toString: "-" for an empty tile; the piece's name, lower-cased for a
      black piece, for an occupied tile. */
  function TileToString(tile: Tile): string
  {
    match tile
    case EmptyTile(_) => "-"
    case OccupiedTile(_, p) =>
      if IsBlack(p.team) then ToLowerCase(PieceName(p.kind)) else PieceName(p.kind)
  }

  /** The printed tile tells empty from occupied and White from Black: an empty tile
      prints "-", a white piece its upper-case name and a black piece the same name
      in lower case. */
  lemma {:induction false} TileStringsDistinguishTeams(coordinate: int, p: Piece)
    requires IsValidTileCoordinate(coordinate)
    ensures TileToString(CreateTile(coordinate, None)) == "-"
    ensures p.team == White ==> TileToString(CreateTile(coordinate, Some(p))) == PieceName(p.kind)
    ensures p.team == Black ==> TileToString(CreateTile(coordinate, Some(p))) == ToLowerCase(PieceName(p.kind))
    ensures TileToString(CreateTile(coordinate, Some(Piece(p.kind, p.position, White, p.isFirstMove))))
         != TileToString(CreateTile(coordinate, Some(Piece(p.kind, p.position, Black, p.isFirstMove))))
  {
    var name := PieceName(p.kind);
    assert 'A' <= name[0] <= 'Z';
    assert ToLowerCase(name)[0] != name[0];
  }
}
