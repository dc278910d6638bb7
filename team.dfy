/** The Team enum: the two sides, the direction their pawns move in, and
    where their pawns promote. */
module Teams {
  import opened Geometry

  datatype Team = White | Black

  /** Team.getDirection: the change of row index of a forward pawn step. */
  function Direction(team: Team): (d: int)
    ensures d == -1 || d == 1
    ensures team == White <==> d == -1
  {
    match team
    case White => -1
    case Black => 1
  }

  /** Team.getEnemyDirection */
  function EnemyDirection(team: Team): (d: int)
    ensures d == -Direction(team)
  {
    match team
    case White => 1
    case Black => -1
  }

  /** Team.isWhite */
  predicate IsWhite(team: Team) { team == White }

  /** Team.isBlack */
  predicate IsBlack(team: Team) { team == Black }

  /** The other team: the team of Player.getOpponent. */
  function Opponent(team: Team): (other: Team)
    ensures other != team
  {
    match team
    case White => Black
    case Black => White
  }

  /** Team.isPromotionTile: White promotes on the first row, Black on the last. */
  predicate IsPromotionTile(team: Team, coordinate: int)
    requires IsValidTileCoordinate(coordinate)
  {
    match team
    case White => FirstRow(coordinate)
    case Black => LastRow(coordinate)
  }

  /** Team.selectPlayer: picks the white or the black player object. */
  function SelectPlayer<P>(team: Team, whitePlayer: P, blackPlayer: P): P
  {
    match team
    case White => whitePlayer
    case Black => blackPlayer
  }

  /** Exactly one of isWhite / isBlack holds, and a team's opponent's opponent is itself. */
  lemma TeamsComplementary(team: Team)
    ensures IsWhite(team) != IsBlack(team)
    ensures Opponent(Opponent(team)) == team
    ensures IsWhite(team) <==> IsBlack(Opponent(team))
  {
  }

  /** A pawn's forward step always heads towards its promotion row: the promotion
      squares are 0..7 for White (moving -8 per step) and 56..63 for Black (+8). */
  lemma PromotionRowsLieAhead(team: Team, coordinate: int)
    requires IsValidTileCoordinate(coordinate)
    ensures IsPromotionTile(team, coordinate) <==>
              (if team == White then 0 <= coordinate <= 7 else 56 <= coordinate <= 63)
    ensures IsPromotionTile(team, coordinate) ==> !IsValidTileCoordinate(coordinate + 8 * Direction(team))
  {
  }

  /** selectPlayer returns the white player exactly for White. */
  lemma SelectPlayerPicksOwnSide<P>(team: Team, whitePlayer: P, blackPlayer: P)
    requires whitePlayer != blackPlayer
    ensures SelectPlayer(team, whitePlayer, blackPlayer) == whitePlayer <==> IsWhite(team)
    ensures SelectPlayer(team, whitePlayer, blackPlayer) == blackPlayer <==> IsBlack(team)
  {
  }
}
