/** The board of the game and what one pass over it does: every rule speaks of the board as it was before the
    pass, as if all cells changed at once. */
module GameBoard {

  const NUM_ROWS: nat := 25
  const NUM_COLUMNS: nat := 80
  const X_SHIP: nat := 23
  const DEAD_ZONE: nat := 19

  datatype Cell = Cell(alien: bool, alienShoot: bool, shield: bool, ship: bool, shipShoot: bool, wall: bool)

  const EMPTY: Cell := Cell(false, false, false, false, false, false)

  type Board = b: seq<seq<Cell>> | |b| == NUM_ROWS && forall i :: 0 <= i < NUM_ROWS ==> |b[i]| == NUM_COLUMNS
    witness seq(NUM_ROWS, i => seq(NUM_COLUMNS, j => EMPTY))

  predicate OnBoard(i: int, j: int) {
    0 <= i < NUM_ROWS && 0 <= j < NUM_COLUMNS
  }

  function At(b: Board, i: int, j: int): Cell {
    if OnBoard(i, j) then b[i][j] else EMPTY
  }

  function Make(f: (int, int) -> Cell): (b: Board)
    ensures forall i, j {:trigger b[i][j]} :: OnBoard(i, j) ==> b[i][j] == f(i, j)
  {
    seq(NUM_ROWS, i => seq(NUM_COLUMNS, j => f(i, j)))
  }

  /** The board with another cell at (i, j). */
  function With(b: Board, i: int, j: int, c: Cell): (d: Board)
    requires OnBoard(i, j)
    ensures forall r, k {:trigger d[r][k]} :: OnBoard(r, k) ==> d[r][k] == if r == i && k == j then c else b[r][k]
  {
    b[i := b[i][j := c]]
  }

  lemma SameBoard(a: Board, b: Board)
    requires forall i, j {:trigger a[i][j]} :: OnBoard(i, j) ==> a[i][j] == b[i][j]
    ensures a == b
  {
    forall i | 0 <= i < NUM_ROWS ensures a[i] == b[i] {
      assert forall j :: 0 <= j < NUM_COLUMNS ==> OnBoard(i, j);
    }
  }

  // ---------------------------------------------------------------- where the passes look

  predicate Between(lo: int, i: int, hi: int, j: int) {
    lo <= i <= hi && 2 <= j <= NUM_COLUMNS - 3
  }

  /** The cells whose aliens march down, and those whose aliens march sideways. */
  predicate Downs(i: int, j: int) {
    Between(3, i, 22, j)
  }

  predicate Sideways(i: int, j: int) {
    Between(3, i, 21, j)
  }

  /** The cells whose shots move. */
  predicate Shots(i: int, j: int) {
    Between(2, i, 23, j)
  }

  // ---------------------------------------------------------------- what happens to one cell

  /** An alien marches down unless a shot is on its cell, and tramples the shield it leaves. `leaves` and
      `enters` say whether the pass moves what is on this cell and what is on the cell above. */
  function MarchDown(here: Cell, above: Cell, leaves: bool, enters: bool): Cell {
    here.(alien := (enters && above.alien && !above.shipShoot) || (here.alien && !leaves),
          shield := here.shield && !(leaves && here.alien && !here.shipShoot))
  }

  function MarchAcross(here: Cell, from: Cell, leaves: bool, enters: bool): Cell {
    here.(alien := (enters && from.alien) || (here.alien && !leaves),
          shield := here.shield && !(leaves && here.alien))
  }

  /** An alien's shot falls: it ends on a shield, which it destroys, and where two shots would pass through
      each other. */
  function Fall(here: Cell, above: Cell, leaves: bool, enters: bool): Cell {
    here.(alienShoot := (enters && above.alienShoot && !above.shield && (!above.shipShoot || !here.shipShoot))
                        || (here.alienShoot && !leaves),
          shield := here.shield && !(leaves && here.alienShoot))
  }

  /** A shot of the ship rises: it ends with the alien that it kills, under a shield, and where two shots would
      pass through each other. */
  function Rise(here: Cell, below: Cell, leaves: bool, enters: bool): Cell {
    here.(shipShoot := (enters && below.shipShoot && !below.alien && !here.shield
                        && (!below.alienShoot || !here.alienShoot))
                       || (here.shipShoot && !leaves),
          alien := here.alien && !(leaves && here.shipShoot))
  }

  /** An alien's shot and the ship's shot just below it cancel each other. */
  function Cancel(here: Cell, above: Cell, below: Cell, withBelow: bool, withAbove: bool): Cell {
    here.(alienShoot := here.alienShoot && !(withBelow && below.shipShoot),
          shipShoot := here.shipShoot && !(withAbove && above.alienShoot))
  }

  // ---------------------------------------------------------------- the passes

  function AliensDown(b: Board): Board {
    Make((i, j) => MarchDown(At(b, i, j), At(b, i - 1, j), Downs(i, j), Downs(i - 1, j)))
  }

  function AliensRight(b: Board): Board {
    Make((i, j) => MarchAcross(At(b, i, j), At(b, i, j - 1), Sideways(i, j), Sideways(i, j - 1)))
  }

  function AliensLeft(b: Board): Board {
    Make((i, j) => MarchAcross(At(b, i, j), At(b, i, j + 1), Sideways(i, j), Sideways(i, j + 1)))
  }

  function AlienShots(b: Board): Board {
    Make((i, j) => Fall(At(b, i, j), At(b, i - 1, j), Shots(i, j), Shots(i - 1, j) && i - 1 < NUM_ROWS - 2))
  }

  function ShipShots(b: Board): Board {
    Make((i, j) => Rise(At(b, i, j), At(b, i + 1, j), Shots(i, j), Shots(i + 1, j) && i + 1 >= 3))
  }

  function CancelShots(b: Board): Board {
    Make((i, j) => Cancel(At(b, i, j), At(b, i - 1, j), At(b, i + 1, j), Shots(i, j), Shots(i - 1, j)))
  }

  // The passes, one cell at a time.

  lemma DownAt(b: Board, i: int, j: int)
    requires OnBoard(i, j)
    ensures AliensDown(b)[i][j] == MarchDown(At(b, i, j), At(b, i - 1, j), Downs(i, j), Downs(i - 1, j))
  {
  }

  lemma RightAt(b: Board, i: int, j: int)
    requires OnBoard(i, j)
    ensures AliensRight(b)[i][j] == MarchAcross(At(b, i, j), At(b, i, j - 1), Sideways(i, j), Sideways(i, j - 1))
  {
  }

  lemma LeftAt(b: Board, i: int, j: int)
    requires OnBoard(i, j)
    ensures AliensLeft(b)[i][j] == MarchAcross(At(b, i, j), At(b, i, j + 1), Sideways(i, j), Sideways(i, j + 1))
  {
  }

  lemma ShotsAt(b: Board, i: int, j: int)
    requires OnBoard(i, j)
    ensures AlienShots(b)[i][j]
         == Fall(At(b, i, j), At(b, i - 1, j), Shots(i, j), Shots(i - 1, j) && i - 1 < NUM_ROWS - 2)
    ensures ShipShots(b)[i][j] == Rise(At(b, i, j), At(b, i + 1, j), Shots(i, j), Shots(i + 1, j) && i + 1 >= 3)
    ensures CancelShots(b)[i][j]
         == Cancel(At(b, i, j), At(b, i - 1, j), At(b, i + 1, j), Shots(i, j), Shots(i - 1, j))
  {
  }

  /** A march finds an alien in the rows from 3 to `last`. */
  ghost predicate AlienIn(b: Board, last: int) {
    exists i, j {:trigger b[i][j]} :: OnBoard(i, j) && Between(3, i, last, j) && b[i][j].alien
  }

  /** An alien's shot is on the ship. */
  ghost predicate ShipHit(b: Board) {
    exists i, j {:trigger b[i][j]} :: OnBoard(i, j) && Shots(i, j) && b[i][j].alienShoot && b[i][j].ship
  }

  // ---------------------------------------------------------------- init_board

  predicate IsWall(i: int, j: int) {
    || i == 1 || i == NUM_ROWS - 1
    || ((j == 0 || j == 1) && i != 0)
    || ((j == NUM_COLUMNS - 1 || j == NUM_COLUMNS - 2) && i != 0)
  }

  /** The ship with its middle in column y. */
  predicate IsShip(y: int, i: int, j: int) {
    (i == X_SHIP && y - 2 <= j <= y + 2) || (i == X_SHIP - 1 && j == y)
  }

  /** The formation when its corner is at (x, y): two rows of 25 aliens and one of 24 between them. */
  predicate InFormation(x: int, y: int, i: int, j: int) {
    || ((i == x || i == x + 4) && 0 <= j - y <= 48 && (j - y) % 2 == 0)
    || (i == x + 2 && 1 <= j - y <= 47 && (j - y) % 2 == 1)
  }

  predicate IsShield(i: int, j: int) {
    (9 < j < 18 || 27 < j < 36 || 45 < j < 54 || 63 < j < 72) && (i == DEAD_ZONE || i == DEAD_ZONE - 1)
  }

  function Initial(): Board {
    Make((i, j) => Cell(InFormation(3, 2, i, j), false, IsShield(i, j), IsShip(NUM_COLUMNS / 2, i, j), false,
                        IsWall(i, j)))
  }
}
