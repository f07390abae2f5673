/** A player as the game vector holds it: a copyable value with a token and
    an outcome status. */
module Players {

  /** The status codes checkWin returns and Player::status stores. */
  const ONGOING: int := 0
  const DRAW: int := 1
  const WON: int := 2

  /** Player::name is not part of this model; token and status are. */
  datatype Player = Player(token: char, status: int)

  /** Player(s, c): a new player has the given token and has not finished. */
  function NewPlayer(token: char): Player {
    Player(token, ONGOING)
  }

  /** The status GameMgr::over looks for: a draw or a win. */
  predicate Finished(p: Player) {
    p.status == DRAW || p.status == WON
  }
}
