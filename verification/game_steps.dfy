/** How far the in-place scans of user.c have come: the board after some of the cells have been looked at. */
module GameSteps {
  import opened GameBoard
  import opened GameSpec

  /** The cells that a scan has been to when it is about to look at (i, j): rows from the bottom up and columns
      from the left, or rows from the top down and columns from the left or from the right. */
  predicate Upward(i: int, j: int, r: int, c: int) {
    r > i || (r == i && c < j)
  }

  predicate Downward(i: int, j: int, r: int, c: int) {
    r < i || (r == i && c < j)
  }

  predicate Backward(i: int, j: int, r: int, c: int) {
    r < i || (r == i && c > j)
  }

  // ---------------------------------------------------------------- aliens_down

  /** The body of the loop of aliens_down. */
  function OneDown(g: Board, i: int, j: int): Board
    requires OnBoard(i, j) && OnBoard(i + 1, j)
  {
    if !g[i][j].alien then g
    else
      var g1 := With(g, i, j, g[i][j].(alien := false));
      if g1[i][j].shipShoot then g1
      else
        var g2 := With(g1, i + 1, j, g1[i + 1][j].(alien := true));
        if g2[i][j].shield then With(g2, i, j, g2[i][j].(shield := false)) else g2
  }

  /** g is board b when aliens_down has come to (i, j). */
  ghost predicate DownPart(b: Board, g: Board, i: int, j: int) {
    forall r, c {:trigger g[r][c]} :: OnBoard(r, c) ==>
      g[r][c] == MarchDown(At(b, r, c), At(b, r - 1, c), Downs(r, c) && Upward(i, j, r, c),
                           Downs(r - 1, c) && Upward(i, j, r - 1, c))
  }

  ghost predicate DownFound(b: Board, i: int, j: int) {
    exists r, c {:trigger b[r][c]} :: OnBoard(r, c) && Downs(r, c) && Upward(i, j, r, c) && b[r][c].alien
  }

  lemma DownStarts(b: Board)
    ensures DownPart(b, b, 22, 2) && !DownFound(b, 22, 2)
  {
  }

  lemma DownStep(b: Board, g: Board, i: int, j: int)
    requires DownPart(b, g, i, j) && Downs(i, j)
    ensures DownPart(b, OneDown(g, i, j), i, j + 1)
    ensures DownFound(b, i, j + 1) <==> DownFound(b, i, j) || g[i][j].alien
  {
    var d := OneDown(g, i, j);
    assert g[i][j] == MarchDown(b[i][j], b[i - 1][j], false, false);
    assert g[i + 1][j] == MarchDown(b[i + 1][j], b[i][j], Downs(i + 1, j), false);
    forall r, c | OnBoard(r, c)
      ensures d[r][c] == MarchDown(At(b, r, c), At(b, r - 1, c), Downs(r, c) && Upward(i, j + 1, r, c),
                                   Downs(r - 1, c) && Upward(i, j + 1, r - 1, c))
    {
      if !(c == j && (r == i || r == i + 1)) {
        assert d[r][c] == g[r][c];
      }
    }
  }

  lemma DownRow(b: Board, g: Board, i: int)
    requires DownPart(b, g, i, NUM_COLUMNS - 2)
    ensures DownPart(b, g, i - 1, 2) && (DownFound(b, i - 1, 2) <==> DownFound(b, i, NUM_COLUMNS - 2))
  {
  }

  lemma DownEnds(b: Board, g: Board)
    requires DownPart(b, g, 2, 2)
    ensures g == AliensDown(b) && (DownFound(b, 2, 2) <==> AlienIn(b, 22))
  {
    SameBoard(g, AliensDown(b));
  }

  // ---------------------------------------------------------------- aliens_right and aliens_left

  /** The body of the loop of aliens_right, and of aliens_left when `to` is the column on the left. */
  function OneAcross(g: Board, i: int, j: int, to: int): Board
    requires OnBoard(i, j) && OnBoard(i, to)
  {
    if !g[i][j].alien then g
    else
      var g1 := if g[i][j].shield then With(g, i, j, g[i][j].(shield := false)) else g;
      var g2 := With(g1, i, j, g1[i][j].(alien := false));
      With(g2, i, to, g2[i][to].(alien := true))
  }

  ghost predicate RightPart(b: Board, g: Board, i: int, j: int) {
    forall r, c {:trigger g[r][c]} :: OnBoard(r, c) ==>
      g[r][c] == MarchAcross(At(b, r, c), At(b, r, c - 1), Sideways(r, c) && Backward(i, j, r, c),
                             Sideways(r, c - 1) && Backward(i, j, r, c - 1))
  }

  ghost predicate RightFound(b: Board, i: int, j: int) {
    exists r, c {:trigger b[r][c]} :: OnBoard(r, c) && Sideways(r, c) && Backward(i, j, r, c) && b[r][c].alien
  }

  lemma RightStarts(b: Board)
    ensures RightPart(b, b, 3, NUM_COLUMNS - 3) && !RightFound(b, 3, NUM_COLUMNS - 3)
  {
  }

  lemma RightStep(b: Board, g: Board, i: int, j: int)
    requires RightPart(b, g, i, j) && Sideways(i, j)
    ensures RightPart(b, OneAcross(g, i, j, j + 1), i, j - 1)
    ensures RightFound(b, i, j - 1) <==> RightFound(b, i, j) || g[i][j].alien
  {
    var d := OneAcross(g, i, j, j + 1);
    assert g[i][j] == MarchAcross(b[i][j], b[i][j - 1], false, false);
    assert g[i][j + 1] == MarchAcross(b[i][j + 1], b[i][j], Sideways(i, j + 1), false);
    forall r, c | OnBoard(r, c)
      ensures d[r][c] == MarchAcross(At(b, r, c), At(b, r, c - 1), Sideways(r, c) && Backward(i, j - 1, r, c),
                                     Sideways(r, c - 1) && Backward(i, j - 1, r, c - 1))
    {
      if !(r == i && (c == j || c == j + 1)) {
        assert d[r][c] == g[r][c];
      }
    }
  }

  lemma RightRow(b: Board, g: Board, i: int)
    requires RightPart(b, g, i, 1)
    ensures RightPart(b, g, i + 1, NUM_COLUMNS - 3) && (RightFound(b, i + 1, NUM_COLUMNS - 3) <==> RightFound(b, i, 1))
  {
  }

  lemma RightEnds(b: Board, g: Board)
    requires RightPart(b, g, 22, NUM_COLUMNS - 3)
    ensures g == AliensRight(b) && (RightFound(b, 22, NUM_COLUMNS - 3) <==> AlienIn(b, 21))
  {
    SameBoard(g, AliensRight(b));
  }

  ghost predicate LeftPart(b: Board, g: Board, i: int, j: int) {
    forall r, c {:trigger g[r][c]} :: OnBoard(r, c) ==>
      g[r][c] == MarchAcross(At(b, r, c), At(b, r, c + 1), Sideways(r, c) && Downward(i, j, r, c),
                             Sideways(r, c + 1) && Downward(i, j, r, c + 1))
  }

  ghost predicate LeftFound(b: Board, i: int, j: int) {
    exists r, c {:trigger b[r][c]} :: OnBoard(r, c) && Sideways(r, c) && Downward(i, j, r, c) && b[r][c].alien
  }

  lemma LeftStarts(b: Board)
    ensures LeftPart(b, b, 3, 2) && !LeftFound(b, 3, 2)
  {
  }

  lemma LeftStep(b: Board, g: Board, i: int, j: int)
    requires LeftPart(b, g, i, j) && Sideways(i, j)
    ensures LeftPart(b, OneAcross(g, i, j, j - 1), i, j + 1)
    ensures LeftFound(b, i, j + 1) <==> LeftFound(b, i, j) || g[i][j].alien
  {
    var d := OneAcross(g, i, j, j - 1);
    assert g[i][j] == MarchAcross(b[i][j], b[i][j + 1], false, false);
    assert g[i][j - 1] == MarchAcross(b[i][j - 1], b[i][j], Sideways(i, j - 1), false);
    forall r, c | OnBoard(r, c)
      ensures d[r][c] == MarchAcross(At(b, r, c), At(b, r, c + 1), Sideways(r, c) && Downward(i, j + 1, r, c),
                                     Sideways(r, c + 1) && Downward(i, j + 1, r, c + 1))
    {
      if !(r == i && (c == j || c == j - 1)) {
        assert d[r][c] == g[r][c];
      }
    }
  }

  lemma LeftRow(b: Board, g: Board, i: int)
    requires LeftPart(b, g, i, NUM_COLUMNS - 2)
    ensures LeftPart(b, g, i + 1, 2) && (LeftFound(b, i + 1, 2) <==> LeftFound(b, i, NUM_COLUMNS - 2))
  {
  }

  lemma LeftEnds(b: Board, g: Board)
    requires LeftPart(b, g, 22, 2)
    ensures g == AliensLeft(b) && (LeftFound(b, 22, 2) <==> AlienIn(b, 21))
  {
    SameBoard(g, AliensLeft(b));
  }

  // ---------------------------------------------------------------- move_shoots_aliens

  function OneFall(g: Board, i: int, j: int): Board
    requires OnBoard(i, j) && OnBoard(i + 1, j)
  {
    if !g[i][j].alienShoot then g
    else
      var g1 :=
        if g[i][j].shield then With(g, i, j, g[i][j].(shield := false))
        else if i < NUM_ROWS - 2 && (!g[i][j].shipShoot || !g[i + 1][j].shipShoot) then
          With(g, i + 1, j, g[i + 1][j].(alienShoot := true))
        else g;
      With(g1, i, j, g1[i][j].(alienShoot := false))
  }

  ghost predicate FallPart(b: Board, g: Board, i: int, j: int) {
    forall r, c {:trigger g[r][c]} :: OnBoard(r, c) ==>
      g[r][c] == Fall(At(b, r, c), At(b, r - 1, c), Shots(r, c) && Upward(i, j, r, c),
                      Shots(r - 1, c) && r - 1 < NUM_ROWS - 2 && Upward(i, j, r - 1, c))
  }

  ghost predicate FallHit(b: Board, i: int, j: int) {
    exists r, c {:trigger b[r][c]} ::
      OnBoard(r, c) && Shots(r, c) && Upward(i, j, r, c) && b[r][c].alienShoot && b[r][c].ship
  }

  lemma FallStarts(b: Board)
    ensures FallPart(b, b, 23, 2) && !FallHit(b, 23, 2)
  {
  }

  lemma FallStep(b: Board, g: Board, i: int, j: int)
    requires FallPart(b, g, i, j) && Shots(i, j)
    ensures FallPart(b, OneFall(g, i, j), i, j + 1)
    ensures FallHit(b, i, j + 1) <==> FallHit(b, i, j) || (g[i][j].alienShoot && g[i][j].ship)
  {
    var d := OneFall(g, i, j);
    assert g[i][j] == Fall(b[i][j], b[i - 1][j], false, false);
    assert g[i + 1][j] == Fall(b[i + 1][j], b[i][j], Shots(i + 1, j), false);
    forall r, c | OnBoard(r, c)
      ensures d[r][c] == Fall(At(b, r, c), At(b, r - 1, c), Shots(r, c) && Upward(i, j + 1, r, c),
                              Shots(r - 1, c) && r - 1 < NUM_ROWS - 2 && Upward(i, j + 1, r - 1, c))
    {
      if !(c == j && (r == i || r == i + 1)) {
        assert d[r][c] == g[r][c];
      }
    }
  }

  lemma FallRow(b: Board, g: Board, i: int)
    requires FallPart(b, g, i, NUM_COLUMNS - 2)
    ensures FallPart(b, g, i - 1, 2) && (FallHit(b, i - 1, 2) <==> FallHit(b, i, NUM_COLUMNS - 2))
  {
  }

  lemma FallEnds(b: Board, g: Board)
    requires FallPart(b, g, 1, 2)
    ensures g == AlienShots(b) && (FallHit(b, 1, 2) <==> ShipHit(b))
  {
    SameBoard(g, AlienShots(b));
  }

  // ---------------------------------------------------------------- move_shoots_ship

  function OneRise(g: Board, i: int, j: int): Board
    requires OnBoard(i, j) && OnBoard(i - 1, j)
  {
    if !g[i][j].shipShoot then g
    else
      var g1 :=
        if g[i][j].alien then With(g, i, j, g[i][j].(alien := false))
        else if !g[i - 1][j].shield && i >= 3 && (!g[i][j].alienShoot || !g[i - 1][j].alienShoot) then
          With(g, i - 1, j, g[i - 1][j].(shipShoot := true))
        else g;
      With(g1, i, j, g1[i][j].(shipShoot := false))
  }

  ghost predicate RisePart(b: Board, g: Board, i: int, j: int) {
    forall r, c {:trigger g[r][c]} :: OnBoard(r, c) ==>
      g[r][c] == Rise(At(b, r, c), At(b, r + 1, c), Shots(r, c) && Downward(i, j, r, c),
                      Shots(r + 1, c) && r + 1 >= 3 && Downward(i, j, r + 1, c))
  }

  lemma RiseStarts(b: Board)
    ensures RisePart(b, b, 2, 2)
  {
  }

  lemma RiseStep(b: Board, g: Board, i: int, j: int)
    requires RisePart(b, g, i, j) && Shots(i, j)
    ensures RisePart(b, OneRise(g, i, j), i, j + 1)
  {
    var d := OneRise(g, i, j);
    assert g[i][j] == Rise(b[i][j], b[i + 1][j], false, false);
    assert g[i - 1][j] == Rise(b[i - 1][j], b[i][j], Shots(i - 1, j), false);
    forall r, c | OnBoard(r, c)
      ensures d[r][c] == Rise(At(b, r, c), At(b, r + 1, c), Shots(r, c) && Downward(i, j + 1, r, c),
                              Shots(r + 1, c) && r + 1 >= 3 && Downward(i, j + 1, r + 1, c))
    {
      if !(c == j && (r == i || r == i - 1)) {
        assert d[r][c] == g[r][c];
      }
    }
  }

  lemma RiseRow(b: Board, g: Board, i: int)
    requires RisePart(b, g, i, NUM_COLUMNS - 2)
    ensures RisePart(b, g, i + 1, 2)
  {
  }

  lemma RiseEnds(b: Board, g: Board)
    requires RisePart(b, g, 24, 2)
    ensures g == ShipShots(b)
  {
    SameBoard(g, ShipShots(b));
  }

  // ---------------------------------------------------------------- cancel_shoots

  function OneCancel(g: Board, i: int, j: int): Board
    requires OnBoard(i, j) && OnBoard(i + 1, j)
  {
    if g[i][j].alienShoot && g[i + 1][j].shipShoot then
      var g1 := With(g, i, j, g[i][j].(alienShoot := false));
      With(g1, i + 1, j, g1[i + 1][j].(shipShoot := false))
    else g
  }

  ghost predicate CancelPart(b: Board, g: Board, i: int, j: int) {
    forall r, c {:trigger g[r][c]} :: OnBoard(r, c) ==>
      g[r][c] == Cancel(At(b, r, c), At(b, r - 1, c), At(b, r + 1, c), Shots(r, c) && Downward(i, j, r, c),
                        Shots(r - 1, c) && Downward(i, j, r - 1, c))
  }

  lemma CancelStarts(b: Board)
    ensures CancelPart(b, b, 2, 2)
  {
  }

  lemma CancelStep(b: Board, g: Board, i: int, j: int)
    requires CancelPart(b, g, i, j) && Shots(i, j)
    ensures CancelPart(b, OneCancel(g, i, j), i, j + 1)
  {
    var d := OneCancel(g, i, j);
    assert g[i][j] == Cancel(b[i][j], b[i - 1][j], b[i + 1][j], false, Shots(i - 1, j));
    assert g[i + 1][j] == Cancel(b[i + 1][j], b[i][j], At(b, i + 2, j), false, false);
    forall r, c | OnBoard(r, c)
      ensures d[r][c] == Cancel(At(b, r, c), At(b, r - 1, c), At(b, r + 1, c), Shots(r, c) && Downward(i, j + 1, r, c),
                                Shots(r - 1, c) && Downward(i, j + 1, r - 1, c))
    {
      if !(c == j && (r == i || r == i + 1)) {
        assert d[r][c] == g[r][c];
      }
    }
  }

  lemma CancelRow(b: Board, g: Board, i: int)
    requires CancelPart(b, g, i, NUM_COLUMNS - 2)
    ensures CancelPart(b, g, i + 1, 2)
  {
  }

  lemma CancelEnds(b: Board, g: Board)
    requires CancelPart(b, g, 24, 2)
    ensures g == CancelShots(b)
  {
    SameBoard(g, CancelShots(b));
  }

  // ---------------------------------------------------------------- ship_left and ship_right

  function SetShip(b: Board, i: int, j: int, v: bool): Board
    requires OnBoard(i, j)
  {
    With(b, i, j, b[i][j].(ship := v))
  }

  lemma RightInSteps(b: Board, y: int)
    requires 4 <= y < NUM_COLUMNS - 5
    ensures var g1 := SetShip(b, X_SHIP, y + 3, true);
            var g2 := SetShip(g1, X_SHIP - 1, y + 1, true);
            var g3 := SetShip(g2, X_SHIP, y - 2, false);
            SetShip(g3, X_SHIP - 1, y, false) == ShipMoved(b, y, y + 1)
  {
    var g1 := SetShip(b, X_SHIP, y + 3, true);
    var g2 := SetShip(g1, X_SHIP - 1, y + 1, true);
    var g3 := SetShip(g2, X_SHIP, y - 2, false);
    SameBoard(SetShip(g3, X_SHIP - 1, y, false), ShipMoved(b, y, y + 1));
  }

  lemma LeftInSteps(b: Board, y: int)
    requires 4 < y <= NUM_COLUMNS - 5
    ensures var g1 := SetShip(b, X_SHIP, y - 3, true);
            var g2 := SetShip(g1, X_SHIP - 1, y - 1, true);
            var g3 := SetShip(g2, X_SHIP, y + 2, false);
            SetShip(g3, X_SHIP - 1, y, false) == ShipMoved(b, y, y - 1)
  {
    var g1 := SetShip(b, X_SHIP, y - 3, true);
    var g2 := SetShip(g1, X_SHIP - 1, y - 1, true);
    var g3 := SetShip(g2, X_SHIP, y + 2, false);
    SameBoard(SetShip(g3, X_SHIP - 1, y, false), ShipMoved(b, y, y - 1));
  }

  // ---------------------------------------------------------------- init_board

  /** The board when init_board has come to (i, j): the whole ship appears with its middle. */
  ghost predicate InitPart(g: Board, i: int, j: int) {
    forall r, c {:trigger g[r][c]} :: OnBoard(r, c) ==>
      var been := Downward(i, j, r, c);
      g[r][c] == Cell(been && InFormation(3, 2, r, c), false, been && IsShield(r, c),
                      Downward(i, j, X_SHIP, NUM_COLUMNS / 2) && IsShip(NUM_COLUMNS / 2, r, c), false,
                      been && IsWall(r, c))
  }

  lemma InitStarts()
    ensures InitPart(Blank(), 0, 0)
  {
  }

  lemma InitRow(g: Board, i: int)
    requires InitPart(g, i, NUM_COLUMNS)
    ensures InitPart(g, i + 1, 0)
  {
  }

  lemma InitEnds(g: Board)
    requires InitPart(g, NUM_ROWS, 0)
    ensures g == Initial()
  {
    SameBoard(g, Initial());
  }

  function OneWall(g: Board, i: int, j: int): Board
    requires OnBoard(i, j)
  {
    if IsWall(i, j) then With(g, i, j, g[i][j].(wall := true)) else g
  }

  function OneShip(g: Board, i: int, j: int): Board
    requires OnBoard(i, j)
  {
    if i == X_SHIP && j == NUM_COLUMNS / 2 then
      SetShip(SetShip(SetShip(SetShip(SetShip(SetShip(g, i, j, true), i - 1, j, true), i, j - 1, true), i, j + 1, true),
                      i, j - 2, true), i, j + 2, true)
    else g
  }

  function OneAlien(g: Board, i: int, j: int): Board
    requires OnBoard(i, j)
  {
    if InFormation(3, 2, i, j) then With(g, i, j, g[i][j].(alien := true)) else g
  }

  function OneShield(g: Board, i: int, j: int): Board
    requires OnBoard(i, j)
  {
    if IsShield(i, j) then With(g, i, j, g[i][j].(shield := true)) else g
  }

  lemma InitStep(g: Board, i: int, j: int)
    requires OnBoard(i, j) && InitPart(g, i, j)
    ensures InitPart(OneShield(OneAlien(OneShip(OneWall(g, i, j), i, j), i, j), i, j), i, j + 1)
  {
    var d := OneShield(OneAlien(OneShip(OneWall(g, i, j), i, j), i, j), i, j);
    forall r, c | OnBoard(r, c)
      ensures var been := Downward(i, j + 1, r, c);
              d[r][c] == Cell(been && InFormation(3, 2, r, c), false, been && IsShield(r, c),
                              Downward(i, j + 1, X_SHIP, NUM_COLUMNS / 2) && IsShip(NUM_COLUMNS / 2, r, c), false,
                              been && IsWall(r, c))
    {
      assert g[r][c].alienShoot == false;
    }
  }
}
