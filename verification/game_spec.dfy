/** The state of the game and its moves. */
module GameSpec {
  import opened GameBoard

  /** The board, LOSE and WIN, the corner of the formation, the column of the ship's middle, and the direction of
      the next march. */
  datatype State = State(board: Board, lose: bool, win: bool, x: int, y: int, yShip: int,
                         right: bool, left: bool, down: bool)

  function Blank(): Board {
    Make((i, j) => EMPTY)
  }

  function Started(b: Board): State {
    State(b, false, false, 3, 2, NUM_COLUMNS / 2, true, false, false)
  }

  ghost function MoveAliens(g: State): State {
    if g.down then
      var x := g.x + 1;
      State(AliensDown(g.board), g.lose || x >= 18, g.win || !AlienIn(g.board, 22), x, g.y, g.yShip,
            g.right || g.y <= 2, g.left || g.y >= 29, 2 < g.y < 29)
    else if g.right then
      State(AliensRight(g.board), g.lose, g.win || !AlienIn(g.board, 21), g.x, g.y + 1, g.yShip,
            g.y + 1 != 29, g.left, g.y + 1 == 29)
    else if g.left then
      State(AliensLeft(g.board), g.lose, g.win || !AlienIn(g.board, 21), g.x, g.y - 1, g.yShip,
            false, g.y - 1 != 2, g.y - 1 == 2)
    else g
  }

  ghost function MoveShots(g: State): State {
    var b := CancelShots(g.board);
    g.(board := ShipShots(AlienShots(b)), lose := g.lose || ShipHit(b))
  }

  /** A shot of an alien is on a cell of the ship. */
  ghost predicate ShotOnShip(b: Board, y: int) {
    exists i, j {:trigger b[i][j]} :: OnBoard(i, j) && IsShip(y, i, j) && b[i][j].alienShoot
  }

  /** The ship's cells when its middle goes from column y to the next column `to`. */
  function ShipMoved(b: Board, y: int, to: int): Board {
    Make((i, j) => At(b, i, j).(ship :=
           if (i == X_SHIP && j == to + 2 * (to - y)) || (i == X_SHIP - 1 && j == to) then true
           else if (i == X_SHIP && j == y - 2 * (to - y)) || (i == X_SHIP - 1 && j == y) then false
           else At(b, i, j).ship))
  }

  ghost function ShipTo(g: State, to: int): State {
    var b := ShipMoved(g.board, g.yShip, to);
    g.(board := b, yShip := to, lose := g.lose || ShotOnShip(b, to))
  }

  ghost function ShipRight(g: State): State {
    if g.yShip < NUM_COLUMNS - 5 then ShipTo(g, g.yShip + 1) else g
  }

  ghost function ShipLeft(g: State): State {
    if g.yShip > 4 then ShipTo(g, g.yShip - 1) else g
  }

  function ShipShoot(g: State): State
    requires OnBoard(X_SHIP - 2, g.yShip)
  {
    g.(board := With(g.board, X_SHIP - 2, g.yShip, g.board[X_SHIP - 2][g.yShip].(shipShoot := true)))
  }

  // ---------------------------------------------------------------- one round of the main loop

  /** (i, k) is the lowest alien of its column. */
  ghost predicate Lowest(b: Board, i: int, k: int) {
    && Between(2, i, 23, k) && OnBoard(i, k) && b[i][k].alien
    && forall r {:trigger b[r][k]} :: i < r <= 23 ==> !b[r][k].alien
  }

  ghost predicate ShootsFrom(b: Board, d: Board, i: int, k: int) {
    Lowest(b, i, k) && d == With(b, i, k, b[i][k].(alienShoot := true))
  }

  /** ia_shoot_alien sees an alien in column k. */
  ghost predicate Sighted(b: Board, k: int) {
    exists r {:trigger b[r][k]} :: Between(2, r, 23, k) && OnBoard(r, k) && b[r][k].alien
  }

  ghost predicate NoneSighted(b: Board, from: int) {
    forall c :: from <= c ==> !Sighted(b, c)
  }

  /** The lowest alien of the first column from `from` on that has one shoots. */
  ghost predicate FirstShoots(b: Board, d: Board, from: int) {
    exists i, k :: ShootsFrom(b, d, i, k) && from <= k && forall c :: from <= c < k ==> !Sighted(b, c)
  }

  /** last_shoot and shoot_pointer. */
  datatype Aim = Aim(last: int, pointer: int)

  /** ia_shoot_alien. At even times the lowest alien shoots in the first column from last_shoot on that has one, and
      the next shot is aimed; else nothing happens. */
  ghost predicate AliensShoot(b: Board, aim: Aim, yAliens: int, time: nat, d: Board, next: Aim)
    requires 0 <= aim.pointer
  {
    if time % 2 == 0 && !NoneSighted(b, aim.last) then
      && FirstShoots(b, d, aim.last)
      && next == Aim(yAliens + (49 - 50 / (aim.pointer + 1)), (aim.pointer + 1) % 5)
    else
      d == b && next == aim
  }

  /** What ia_shoot_alien can do: nothing, or the lowest alien of one column shoots. */
  ghost predicate Aimed(b: Board, d: Board) {
    d == b || exists i, k :: ShootsFrom(b, d, i, k)
  }

  /** ia_move. */
  ghost predicate Ticked(g: State, d: State) {
    var m := MoveAliens(MoveShots(g));
    Aimed(m.board, d.board) && d == m.(board := d.board)
  }

  datatype Key = NoKey | KeyA | KeyD | KeyW | OtherKey

  ghost function KeyPressed(g: State, key: Key): State
    requires OnBoard(X_SHIP - 2, g.yShip)
  {
    match key
    case KeyA => ShipLeft(g)
    case KeyD => ShipRight(g)
    case KeyW => ShipShoot(g)
    case _ => g
  }

  /** The body of the main loop: perhaps a key, and ia_move if it is time. */
  ghost predicate Round(g: State, key: Key, tick: bool, d: State) {
    && !g.lose && !g.win && OnBoard(X_SHIP - 2, g.yShip)
    && if tick then Ticked(KeyPressed(g, key), d) else d == KeyPressed(g, key)
  }

  lemma MarchesByOne(g: State)
    ensures g.y - 1 <= MoveAliens(MoveShots(g)).y <= g.y + 1
  {
  }
}
