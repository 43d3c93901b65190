/** The rules of the game, cell by cell, as a player sees them: what each pass and each key changes, which aliens die,
    and what that makes of a whole game. */
module GameLaws {
  import opened GameBoard
  import opened GameSpec
  import opened GameRuns

  // ---------------------------------------------------------------- the passes, cell by cell

  /** A march down: an alien is where one was in the row above, unless a shot of the ship was on it; the shield goes
      from the cells that such an alien leaves; nothing else changes. */
  lemma DownCell(b: Board, i: int, j: int)
    requires OnBoard(i, j)
    ensures var d := AliensDown(b)[i][j];
            && (d.alien <==> || (4 <= i <= 23 && 2 <= j <= 77 && b[i - 1][j].alien && !b[i - 1][j].shipShoot)
                             || (b[i][j].alien && !(3 <= i <= 22 && 2 <= j <= 77)))
            && (d.shield <==> b[i][j].shield
                                && !(3 <= i <= 22 && 2 <= j <= 77 && b[i][j].alien && !b[i][j].shipShoot))
            && d.alienShoot == b[i][j].alienShoot && d.shipShoot == b[i][j].shipShoot
            && d.ship == b[i][j].ship && d.wall == b[i][j].wall
  {
    hide AliensDown;
    DownAt(b, i, j);
  }

  /** A march to the right, and one to the left: an alien is where one was in the column beside; the shield goes from
      the cells that an alien leaves; nothing else changes. */
  lemma RightCell(b: Board, i: int, j: int)
    requires OnBoard(i, j)
    ensures var d := AliensRight(b)[i][j];
            && (d.alien <==> || (3 <= i <= 21 && 3 <= j <= 78 && b[i][j - 1].alien)
                             || (b[i][j].alien && !(3 <= i <= 21 && 2 <= j <= 77)))
            && (d.shield <==> b[i][j].shield && !(3 <= i <= 21 && 2 <= j <= 77 && b[i][j].alien))
            && d.alienShoot == b[i][j].alienShoot && d.shipShoot == b[i][j].shipShoot
            && d.ship == b[i][j].ship && d.wall == b[i][j].wall
  {
    hide AliensRight;
    RightAt(b, i, j);
  }

  lemma LeftCell(b: Board, i: int, j: int)
    requires OnBoard(i, j)
    ensures var d := AliensLeft(b)[i][j];
            && (d.alien <==> || (3 <= i <= 21 && 1 <= j <= 76 && b[i][j + 1].alien)
                             || (b[i][j].alien && !(3 <= i <= 21 && 2 <= j <= 77)))
            && (d.shield <==> b[i][j].shield && !(3 <= i <= 21 && 2 <= j <= 77 && b[i][j].alien))
            && d.alienShoot == b[i][j].alienShoot && d.shipShoot == b[i][j].shipShoot
            && d.ship == b[i][j].ship && d.wall == b[i][j].wall
  {
    hide AliensLeft;
    LeftAt(b, i, j);
  }

  /** The aliens' shots: one is where one was in the row above, unless a shield was there, or the row was the last, or
      shots of the ship were on both cells; the shields that were hit are gone; nothing else changes. */
  lemma FallCell(b: Board, i: int, j: int)
    requires OnBoard(i, j)
    ensures var d := AlienShots(b)[i][j];
            && (d.alienShoot <==> || (3 <= i <= 23 && 2 <= j <= 77 && b[i - 1][j].alienShoot && !b[i - 1][j].shield
                                      && !(b[i - 1][j].shipShoot && b[i][j].shipShoot))
                                  || (b[i][j].alienShoot && !(2 <= i <= 23 && 2 <= j <= 77)))
            && (d.shield <==> b[i][j].shield && !(2 <= i <= 23 && 2 <= j <= 77 && b[i][j].alienShoot))
            && d.alien == b[i][j].alien && d.shipShoot == b[i][j].shipShoot
            && d.ship == b[i][j].ship && d.wall == b[i][j].wall
  {
    hide AlienShots, ShipShots, CancelShots;
    ShotsAt(b, i, j);
  }

  /** The ship's shots: an alien lives on if no shot was on its cell; a shot is where one was in the row below that hit
      no alien, unless a shield is there, or the row below was row 2, or shots of the aliens were on both cells. */
  lemma RiseCell(b: Board, i: int, j: int)
    requires OnBoard(i, j)
    ensures var d := ShipShots(b)[i][j];
            && (d.alien <==> b[i][j].alien && !(2 <= i <= 23 && 2 <= j <= 77 && b[i][j].shipShoot))
            && (d.shipShoot <==> || (2 <= i <= 22 && 2 <= j <= 77 && b[i + 1][j].shipShoot && !b[i + 1][j].alien
                                     && !b[i][j].shield && !(b[i + 1][j].alienShoot && b[i][j].alienShoot))
                                 || (b[i][j].shipShoot && !(2 <= i <= 23 && 2 <= j <= 77)))
            && d.alienShoot == b[i][j].alienShoot && d.shield == b[i][j].shield
            && d.ship == b[i][j].ship && d.wall == b[i][j].wall
  {
    hide AlienShots, ShipShots, CancelShots;
    ShotsAt(b, i, j);
  }

  /** Shots that face each other disappear: an alien's shot with a shot of the ship just below. */
  lemma CancelCell(b: Board, i: int, j: int)
    requires OnBoard(i, j)
    ensures var d := CancelShots(b)[i][j];
            && (d.alienShoot <==> b[i][j].alienShoot && !(2 <= i <= 23 && 2 <= j <= 77 && b[i + 1][j].shipShoot))
            && (d.shipShoot <==> b[i][j].shipShoot && !(3 <= i <= 24 && 2 <= j <= 77 && b[i - 1][j].alienShoot))
            && d.alien == b[i][j].alien && d.shield == b[i][j].shield
            && d.ship == b[i][j].ship && d.wall == b[i][j].wall
  {
    hide AlienShots, ShipShots, CancelShots;
    ShotsAt(b, i, j);
  }

  // ---------------------------------------------------------------- which aliens die

  /** The aliens on whose cell a shot of the ship is. */
  function Hit(b: Board): (s: set<(int, int)>)
    ensures forall i, j :: (i, j) in s <==> 2 <= i <= 23 && 2 <= j <= 77 && b[i][j].alien && b[i][j].shipShoot
  {
    set i, j | 2 <= i <= 23 && 2 <= j <= 77 && b[i][j].alien && b[i][j].shipShoot :: (i, j)
  }

  lemma AlienAt(b: Board, p: (int, int))
    ensures p in Aliens(b) <==> OnBoard(p.0, p.1) && b[p.0][p.1].alien
    ensures p in Hit(b) <==> 2 <= p.0 <= 23 && 2 <= p.1 <= 77 && b[p.0][p.1].alien && b[p.0][p.1].shipShoot
  {
    assert p == (p.0, p.1);
  }

  lemma Without(a: set<(int, int)>, h: set<(int, int)>)
    requires h <= a
    ensures |a - h| == |a| - |h|
  {
    assert a == (a - h) + h;
  }

  /** The ship's shots kill exactly the aliens that they hit. */
  lemma RiseKillsHit(b: Board)
    ensures Aliens(ShipShots(b)) == Aliens(b) - Hit(b)
    ensures |Aliens(ShipShots(b))| == |Aliens(b)| - |Hit(b)|
  {
    hide ShipShots, Aliens, Hit;
    forall p: (int, int) ensures p in Aliens(ShipShots(b)) <==> p in Aliens(b) - Hit(b) {
      AlienAt(b, p);
      AlienAt(ShipShots(b), p);
      if OnBoard(p.0, p.1) {
        RiseCell(b, p.0, p.1);
      }
    }
    HitAreAliens(b);
    Without(Aliens(b), Hit(b));
  }

  lemma HitAreAliens(b: Board)
    ensures Hit(b) <= Aliens(b)
  {
    hide Aliens, Hit;
    forall p | p in Hit(b) ensures p in Aliens(b) {
      AlienAt(b, p);
    }
  }

  /** No other pass over the shots changes the aliens. */
  lemma ShotPassesKeepAliens(b: Board)
    ensures Aliens(AlienShots(b)) == Aliens(b)
    ensures Aliens(CancelShots(b)) == Aliens(b)
  {
    hide AlienShots, CancelShots, Aliens;
    forall p: (int, int)
      ensures p in Aliens(AlienShots(b)) <==> p in Aliens(b)
      ensures p in Aliens(CancelShots(b)) <==> p in Aliens(b)
    {
      AlienAt(b, p);
      AlienAt(AlienShots(b), p);
      AlienAt(CancelShots(b), p);
      if OnBoard(p.0, p.1) {
        FallCell(b, p.0, p.1);
        CancelCell(b, p.0, p.1);
      }
    }
  }

  lemma MovedSize(a: set<(int, int)>, c: set<(int, int)>, di: int, dj: int)
    requires Shifted(c, di, dj) <= a && Shifted(a, -di, -dj) <= c
    ensures |c| == |a|
  {
    hide Shifted;
    ShiftedSize(c, di, dj);
    Smaller(Shifted(c, di, dj), a);
    ShiftedSize(a, -di, -dj);
    Smaller(Shifted(a, -di, -dj), c);
  }

  lemma ShiftedOut(a: set<(int, int)>, c: set<(int, int)>, di: int, dj: int)
    requires forall p :: p in a ==> (p.0 + di, p.1 + dj) in c
    ensures Shifted(a, -di, -dj) <= c
  {
    forall p | p in a ensures (p.0 - -di, p.1 - -dj) in c {
      assert p.0 - -di == p.0 + di && p.1 - -dj == p.1 + dj;
    }
    ShiftedInto(a, c, -di, -dj);
  }

  /** A march down, when it sees all aliens: those under a shot of the ship die, and all others are one row lower. */
  lemma DownMovesAll(b: Board)
    requires AliensWithin(b, 3, 22, 2, 77)
    ensures forall i, j {:trigger AliensDown(b)[i][j]} :: OnBoard(i, j) ==>
              (AliensDown(b)[i][j].alien <==> i >= 1 && b[i - 1][j].alien && !b[i - 1][j].shipShoot)
    ensures |Aliens(AliensDown(b))| == |Aliens(b)| - |Hit(b)|
  {
    hide AliensDown, Aliens, Hit, Shifted;
    var d := AliensDown(b);
    forall i, j | OnBoard(i, j) ensures d[i][j].alien <==> i >= 1 && b[i - 1][j].alien && !b[i - 1][j].shipShoot {
      DownCell(b, i, j);
      assert b[i][j].alien ==> 3 <= i <= 22 && 2 <= j <= 77;
      assert i >= 1 && b[i - 1][j].alien ==> 3 <= i - 1 <= 22 && 2 <= j <= 77;
    }
    SurvivorsCome(b, d);
    SurvivorsGo(b, d);
    MovedSize(Aliens(b) - Hit(b), Aliens(d), 1, 0);
    HitAreAliens(b);
    Without(Aliens(b), Hit(b));
  }

  lemma SurvivorsCome(b: Board, d: Board)
    requires forall i, j {:trigger d[i][j]} :: OnBoard(i, j) ==>
               (d[i][j].alien <==> i >= 1 && b[i - 1][j].alien && !b[i - 1][j].shipShoot)
    ensures Shifted(Aliens(d), 1, 0) <= Aliens(b) - Hit(b)
  {
    hide Aliens, Hit, Shifted;
    forall p | p in Aliens(d) ensures (p.0 - 1, p.1 - 0) in Aliens(b) - Hit(b) {
      CameFromAbove(b, d, p);
    }
    ShiftedInto(Aliens(d), Aliens(b) - Hit(b), 1, 0);
  }

  lemma SurvivorsGo(b: Board, d: Board)
    requires AliensWithin(b, 3, 22, 2, 77)
    requires forall i, j {:trigger d[i][j]} :: OnBoard(i, j) ==>
               (d[i][j].alien <==> i >= 1 && b[i - 1][j].alien && !b[i - 1][j].shipShoot)
    ensures Shifted(Aliens(b) - Hit(b), -1, -0) <= Aliens(d)
  {
    hide Aliens, Hit, Shifted, AliensWithin;
    forall p | p in Aliens(b) - Hit(b) ensures (p.0 + 1, p.1 + 0) in Aliens(d) {
      GoesBelow(b, d, p);
    }
    ShiftedOut(Aliens(b) - Hit(b), Aliens(d), 1, 0);
  }

  lemma CameFromAbove(b: Board, d: Board, p: (int, int))
    requires forall i, j {:trigger d[i][j]} :: OnBoard(i, j) ==>
               (d[i][j].alien <==> i >= 1 && b[i - 1][j].alien && !b[i - 1][j].shipShoot)
    requires p in Aliens(d)
    ensures (p.0 - 1, p.1 - 0) in Aliens(b) - Hit(b)
  {
    hide Aliens, Hit;
    AlienAt(d, p);
    AlienAt(b, (p.0 - 1, p.1 - 0));
  }

  lemma GoesBelow(b: Board, d: Board, p: (int, int))
    requires AliensWithin(b, 3, 22, 2, 77)
    requires forall i, j {:trigger d[i][j]} :: OnBoard(i, j) ==>
               (d[i][j].alien <==> i >= 1 && b[i - 1][j].alien && !b[i - 1][j].shipShoot)
    requires p in Aliens(b) - Hit(b)
    ensures (p.0 + 1, p.1 + 0) in Aliens(d)
  {
    hide Aliens, Hit;
    AlienAt(b, p);
    assert 3 <= p.0 <= 22 && 2 <= p.1 <= 77;
    AlienAt(d, (p.0 + 1, p.1 + 0));
  }

  /** A march across, when it sees all aliens, kills none. */
  lemma AcrossKeepsAll(b: Board)
    requires AliensWithin(b, 3, 21, 2, 77)
    ensures |Aliens(AliensRight(b))| == |Aliens(b)|
    ensures |Aliens(AliensLeft(b))| == |Aliens(b)|
  {
    RightShifts(b);
    LeftShifts(b);
    hide AliensRight, AliensLeft, Aliens;
    Moves(b, AliensRight(b), 0, 1);
    Moves(b, AliensLeft(b), 0, -1);
  }

  lemma Moves(b: Board, d: Board, di: int, dj: int)
    requires AliensWithin(b, 3, 21, 2, 77) && AliensShifted(b, d, di, dj) && di == 0 && -1 <= dj <= 1
    ensures |Aliens(d)| == |Aliens(b)|
  {
    hide Aliens, Shifted;
    assert Shifted(Aliens(d), di, dj) <= Aliens(b) by {
      forall p | p in Aliens(d) ensures (p.0 - di, p.1 - dj) in Aliens(b) {
        AlienAt(d, p);
        AlienAt(b, (p.0 - di, p.1 - dj));
        assert At(d, p.0, p.1).alien <==> At(b, p.0 - di, p.1 - dj).alien;
      }
      ShiftedInto(Aliens(d), Aliens(b), di, dj);
    }
    assert Shifted(Aliens(b), -di, -dj) <= Aliens(d) by {
      forall p | p in Aliens(b) ensures (p.0 + di, p.1 + dj) in Aliens(d) {
        AlienAt(b, p);
        assert 3 <= p.0 <= 21 && 2 <= p.1 <= 77;
        AlienAt(d, (p.0 + di, p.1 + dj));
        assert At(d, p.0 + di, p.1 + dj).alien <==> At(b, p.0 + di - di, p.1 + dj - dj).alien;
      }
      ShiftedOut(Aliens(b), Aliens(d), di, dj);
    }
    MovedSize(Aliens(b), Aliens(d), di, dj);
  }

  // ---------------------------------------------------------------- the initial board

  lemma InitialCell(i: int, j: int)
    requires OnBoard(i, j)
    ensures var c := Initial()[i][j];
            && (c.alien <==> || ((i == 3 || i == 7) && 2 <= j <= 50 && j % 2 == 0)
                             || (i == 5 && 3 <= j <= 49 && j % 2 == 1))
            && (c.shield <==> 18 <= i <= 19 && (10 <= j <= 17 || 28 <= j <= 35 || 46 <= j <= 53 || 64 <= j <= 71))
            && (c.ship <==> (i == 23 && 38 <= j <= 42) || (i == 22 && j == 40))
            && (c.wall <==> i == 1 || i == 24 || (i != 0 && (j <= 1 || j >= 78)))
            && !c.alienShoot && !c.shipShoot
  {
  }

  /** n cells of row i, every other one from column j on. */
  ghost function RowOf(i: int, j: int, n: nat): set<(int, int)> {
    if n == 0 then {} else RowOf(i, j, n - 1) + {(i, j + 2 * (n - 1))}
  }

  predicate EvenBelow(x: int, n: nat) {
    0 <= x < 2 * n && x % 2 == 0
  }

  lemma NextEven(x: int, n: nat)
    requires n > 0
    ensures EvenBelow(x, n) <==> EvenBelow(x, n - 1) || x == 2 * (n - 1)
  {
  }

  lemma {:induction false} InRow(i: int, j: int, n: nat, p: (int, int))
    ensures p in RowOf(i, j, n) <==> p.0 == i && EvenBelow(p.1 - j, n)
  {
    if n > 0 {
      hide EvenBelow;
      InRow(i, j, n - 1, p);
      NextEven(p.1 - j, n);
      assert p == (i, j + 2 * (n - 1)) <==> p.0 == i && p.1 - j == 2 * (n - 1);
    }
  }

  lemma {:induction false} RowSize(i: int, j: int, n: nat)
    ensures |RowOf(i, j, n)| == n
  {
    if n > 0 {
      RowSize(i, j, n - 1);
      InRow(i, j, n - 1, (i, j + 2 * (n - 1)));
    }
  }

  /** There are 74 aliens. */
  lemma InitialCount()
    ensures |Aliens(Initial())| == 74
  {
    hide Initial, Aliens, RowOf;
    var a, b, c := RowOf(3, 2, 25), RowOf(5, 3, 24), RowOf(7, 2, 25);
    forall p: (int, int) ensures p in Aliens(Initial()) <==> p in a + b + c {
      AlienAt(Initial(), p);
      InRow(3, 2, 25, p);
      InRow(5, 3, 24, p);
      InRow(7, 2, 25, p);
      if OnBoard(p.0, p.1) {
        InitialCell(p.0, p.1);
      }
    }
    assert Aliens(Initial()) == a + b + c;
    ThreeRows(a, b, c);
  }

  lemma ThreeRows(a: set<(int, int)>, b: set<(int, int)>, c: set<(int, int)>)
    requires a == RowOf(3, 2, 25) && b == RowOf(5, 3, 24) && c == RowOf(7, 2, 25)
    ensures |a + b + c| == 74
  {
    hide RowOf;
    forall p: (int, int) ensures !(p in a && p in b) && !(p in a + b && p in c) {
      InRow(3, 2, 25, p);
      InRow(5, 3, 24, p);
      InRow(7, 2, 25, p);
    }
    RowSize(3, 2, 25);
    RowSize(5, 3, 24);
    RowSize(7, 2, 25);
    assert a !! b && (a + b) !! c;
  }

  // ---------------------------------------------------------------- keys

  /** The six cells of a ship whose middle is in column y. */
  predicate OfShip(y: int, i: int, j: int) {
    (i == 23 && y - 2 <= j <= y + 2) || (i == 22 && j == y)
  }

  /** A shot of the aliens is on one of them. */
  ghost predicate Collides(b: Board, y: int) {
    exists i, j {:trigger b[i][j]} :: OnBoard(i, j) && b[i][j].alienShoot && OfShip(y, i, j)
  }

  /** 'a' moves the ship one column to the left and 'd' one to the right, up to the walls; moving onto a shot of the
      aliens loses; no key changes anything else but the board. */
  lemma KeyMoves(g: State, key: Key)
    requires ShipShape(g)
    ensures OnBoard(X_SHIP - 2, g.yShip)
    ensures var d := KeyPressed(g, key);
            && d.yShip == (if key == KeyA && g.yShip > 4 then g.yShip - 1
                           else if key == KeyD && g.yShip < 75 then g.yShip + 1
                           else g.yShip)
            && d == g.(board := d.board, yShip := d.yShip, lose := d.lose)
            && (d.lose <==> g.lose || (d.yShip != g.yShip && Collides(g.board, d.yShip)))
  {
    hide Blank, ShipMoved;
    var d := KeyPressed(g, key);
    if d.yShip != g.yShip {
      var b := ShipMoved(g.board, g.yShip, d.yShip);
      forall i, j | OnBoard(i, j) ensures b[i][j].alienShoot == g.board[i][j].alienShoot {
        ShipMovedCell(g.board, g.yShip, d.yShip, i, j);
      }
      SameShotOnShip(g.board, b, d.yShip);
    }
  }

  lemma ShipMovedCell(b: Board, y: int, to: int, i: int, j: int)
    requires OnBoard(i, j)
    ensures ShipMoved(b, y, to)[i][j] == b[i][j].(ship := ShipMoved(b, y, to)[i][j].ship)
  {
  }

  lemma SameShotOnShip(b: Board, d: Board, y: int)
    requires forall i, j {:trigger d[i][j]} :: OnBoard(i, j) ==> d[i][j].alienShoot == b[i][j].alienShoot
    ensures ShotOnShip(d, y) <==> Collides(b, y)
  {
    if ShotOnShip(d, y) {
      var i, j :| OnBoard(i, j) && IsShip(y, i, j) && d[i][j].alienShoot;
      assert b[i][j].alienShoot;
    }
    if Collides(b, y) {
      var i, j :| OnBoard(i, j) && b[i][j].alienShoot && OfShip(y, i, j);
      assert d[i][j].alienShoot;
    }
  }

  lemma ShipToCell(g: State, to: int, i: int, j: int)
    requires ShipShape(g) && (to == g.yShip + 1 || to == g.yShip - 1) && 4 <= to <= 75 && OnBoard(i, j)
    ensures var c := ShipTo(g, to).board[i][j]; c == g.board[i][j].(ship := c.ship) && (c.ship <==> OfShip(to, i, j))
  {
    hide ShotOnShip;
    ShipMovedCell(g.board, g.yShip, to, i, j);
  }

  /** A key moves all six cells of the ship with it; 'w' puts a shot two rows above its middle; no other cell changes. */
  lemma KeyCell(g: State, key: Key, i: int, j: int)
    requires ShipShape(g) && OnBoard(i, j)
    ensures OnBoard(X_SHIP - 2, g.yShip)
    ensures var d, c := KeyPressed(g, key), KeyPressed(g, key).board[i][j];
            && (c.ship <==> OfShip(d.yShip, i, j))
            && (c.shipShoot <==> g.board[i][j].shipShoot || (key == KeyW && i == 21 && j == g.yShip))
            && c.alien == g.board[i][j].alien && c.alienShoot == g.board[i][j].alienShoot
            && c.shield == g.board[i][j].shield && c.wall == g.board[i][j].wall
  {
    hide ShipMoved, ShotOnShip;
    if key == KeyA && g.yShip > 4 {
      ShipToCell(g, g.yShip - 1, i, j);
    } else if key == KeyD && g.yShip < 75 {
      ShipToCell(g, g.yShip + 1, i, j);
    }
    assert g.board[i][j].ship <==> OfShip(g.yShip, i, j);
  }

  // ---------------------------------------------------------------- the aliens shoot

  /** (i, k) is the lowest alien of the first column from `from` on that has one. */
  ghost predicate Shooter(b: Board, from: int, i: int, k: int) {
    && 2 <= i <= 23 && 2 <= k <= 77 && from <= k && b[i][k].alien
    && (forall r :: i < r <= 23 ==> !b[r][k].alien)
    && forall r, c {:trigger b[r][c]} :: 2 <= r <= 23 && 2 <= c <= 77 && from <= c < k ==> !b[r][c].alien
  }

  /** ia_shoot_alien adds a shot exactly to that alien's cell, at even times; no other cell changes. */
  lemma AimCell(b: Board, aim: Aim, yAliens: int, time: nat, d: Board, next: Aim, i: int, j: int)
    requires 0 <= aim.pointer && AliensShoot(b, aim, yAliens, time, d, next) && OnBoard(i, j)
    ensures d[i][j].alienShoot <==> b[i][j].alienShoot || (time % 2 == 0 && Shooter(b, aim.last, i, j))
    ensures d[i][j] == b[i][j].(alienShoot := d[i][j].alienShoot)
  {
    if time % 2 == 0 && !NoneSighted(b, aim.last) {
      var r, k :| ShootsFrom(b, d, r, k) && aim.last <= k && forall c :: aim.last <= c < k ==> !Sighted(b, c);
      IsShooter(b, aim.last, r, k);
      OneShooter(b, aim.last, r, k, i, j);
    } else if time % 2 == 0 && Shooter(b, aim.last, i, j) {
      assert Sighted(b, j);
    }
  }

  /** The five columns, counted from that of the formation, at which ia_shoot_alien looks in turn. */
  lemma NextAim(b: Board, aim: Aim, yAliens: int, time: nat, d: Board, next: Aim)
    requires 0 <= aim.pointer < 5 && AliensShoot(b, aim, yAliens, time, d, next)
    ensures d == b ==> next == aim || exists i, k :: Shooter(b, aim.last, i, k)
    ensures d != b ==> next.pointer == (if aim.pointer == 4 then 0 else aim.pointer + 1)
                       && next.last - yAliens == [-1, 24, 33, 37, 39][aim.pointer]
  {
    if time % 2 == 0 && !NoneSighted(b, aim.last) {
      var r, k :| ShootsFrom(b, d, r, k) && aim.last <= k && forall c :: aim.last <= c < k ==> !Sighted(b, c);
      IsShooter(b, aim.last, r, k);
    }
  }

  lemma IsShooter(b: Board, from: int, r: int, k: int)
    requires Lowest(b, r, k) && from <= k && forall c :: from <= c < k ==> !Sighted(b, c)
    ensures Shooter(b, from, r, k)
  {
    forall q, c | 2 <= q <= 23 && 2 <= c <= 77 && from <= c < k ensures !b[q][c].alien {
      assert !Sighted(b, c);
    }
  }

  lemma OneShooter(b: Board, from: int, r: int, k: int, i: int, j: int)
    requires Shooter(b, from, r, k)
    ensures Shooter(b, from, i, j) <==> i == r && j == k
  {
  }

  // ---------------------------------------------------------------- whole games

  /** The aliens that a tick kills first: those with a shot of the ship on their cell, unless an alien's shot is just
      above and the two cancel. */
  ghost function ShotDown(b: Board): (s: set<(int, int)>)
    ensures forall i, j :: (i, j) in s <==> 2 <= i <= 23 && 2 <= j <= 77 && b[i][j].alien && b[i][j].shipShoot
                                            && !(i >= 3 && b[i - 1][j].alienShoot)
  {
    set i, j | 2 <= i <= 23 && 2 <= j <= 77 && b[i][j].alien && b[i][j].shipShoot
               && !(i >= 3 && b[i - 1][j].alienShoot) :: (i, j)
  }

  lemma ShotDownAreHit(b: Board)
    ensures Hit(AlienShots(CancelShots(b))) == ShotDown(b)
  {
    hide AlienShots, CancelShots, Hit;
    var c := CancelShots(b);
    forall p: (int, int) ensures p in Hit(AlienShots(c)) <==> p in ShotDown(b) {
      AlienAt(AlienShots(c), p);
      assert p == (p.0, p.1);
      if OnBoard(p.0, p.1) {
        FallCell(c, p.0, p.1);
        CancelCell(b, p.0, p.1);
      }
    }
  }

  /** How many aliens die in a round: those, and on a march down those that have a shot on their cell by then. */
  ghost function RoundKills(g: State, key: Key, tick: bool): nat {
    if !tick || !OnBoard(X_SHIP - 2, g.yShip) then 0
    else
      var k := KeyPressed(g, key);
      |ShotDown(k.board)| + if k.down then |Hit(MoveShots(k).board)| else 0
  }

  lemma MoveShotsKills(g: State)
    ensures |Aliens(MoveShots(g).board)| == |Aliens(g.board)| - |ShotDown(g.board)|
  {
    hide AlienShots, CancelShots, ShipShots, Aliens, Hit, ShotDown;
    var c := CancelShots(g.board);
    ShotPassesKeepAliens(g.board);
    ShotPassesKeepAliens(c);
    RiseKillsHit(AlienShots(c));
    ShotDownAreHit(g.board);
  }

  lemma MarchKills(g: State, n: int)
    requires GameInv(g, n) && g.x < 18
    ensures |Aliens(MoveAliens(g).board)| == |Aliens(g.board)| - if g.down then |Hit(g.board)| else 0
  {
    hide AliensDown, AliensRight, AliensLeft, InFormation, AlienIn, Aliens, Hit, ShipShape;
    InSight(g.board, g.x, g.y);
    DownMovesAll(g.board);
    AcrossKeepsAll(g.board);
  }

  lemma RoundCounts(p: Play, key: Key, tick: bool, q: Play)
    requires GameInv(p.g, p.n) && PlayRound(p, key, tick, q)
    ensures |Aliens(q.g.board)| == |Aliens(p.g.board)| - RoundKills(p.g, key, tick)
  {
    hide GameInv, KeyPressed, MoveShots, MoveAliens, Aimed, Aliens, Hit, ShotDown;
    NotAtTheEnd(p.g, p.n);
    KeyKeeps(p.g, p.n, key);
    var k := KeyPressed(p.g, key);
    if tick {
      MoveShotsKills(k);
      MoveShotsKeeps(k, p.n);
      var s := MoveShots(k);
      SameMarch(k);
      MarchKills(s, p.n);
      MarchKeeps(s, p.n);
      AimKeeps(MoveAliens(s), p.n + 1, q.g);
    }
  }

  lemma SameMarch(g: State)
    ensures MoveShots(g).down == g.down && MoveShots(g).x == g.x
  {
  }

  /** All aliens that died in the first m rounds of a game. */
  ghost function Kills(keys: seq<Key>, ticks: seq<bool>, ps: seq<Play>, m: nat): nat
    requires m <= |keys| == |ticks| && |ps| == |keys| + 1
  {
    if m == 0 then 0 else Kills(keys, ticks, ps, m - 1) + RoundKills(ps[m - 1].g, keys[m - 1], ticks[m - 1])
  }

  /** In every state of every game, the live aliens and those that died are the 74 of the beginning. */
  lemma {:induction false} AliensAccounted(keys: seq<Key>, ticks: seq<bool>, ps: seq<Play>, m: nat)
    requires IsGame(keys, ticks, ps) && m < |ps|
    ensures |Aliens(ps[m].g.board)| + Kills(keys, ticks, ps, m) == 74
  {
    hide GameInv, PlayRound, RoundKills, Aliens, Initial;
    if m == 0 {
      InitialCount();
    } else {
      AliensAccounted(keys, ticks, ps, m - 1);
      GameAlways(keys, ticks, ps, m - 1);
      assert RoundAt(keys, ticks, ps, m - 1);
      RoundCounts(ps[m - 1], keys[m - 1], ticks[m - 1], ps[m]);
    }
  }

  /** A round wins exactly if it marches when all 74 aliens have died. */
  lemma WinIsAllKilled(keys: seq<Key>, ticks: seq<bool>, ps: seq<Play>, m: nat)
    requires IsGame(keys, ticks, ps) && m < |keys|
    ensures OnBoard(X_SHIP - 2, ps[m].g.yShip)
    ensures ps[m + 1].g.win
            <==> ticks[m] && Kills(keys, ticks, ps, m) + |ShotDown(KeyPressed(ps[m].g, keys[m]).board)| == 74
  {
    hide GameInv, PlayRound, RoundKills, Aliens, ShotDown, KeyPressed, MoveShots, RoundAt;
    WinExactly(keys, ticks, ps, m);
    AliensAccounted(keys, ticks, ps, m);
    GameAlways(keys, ticks, ps, m);
    KeyKeeps(ps[m].g, ps[m].n, keys[m]);
    MoveShotsKills(KeyPressed(ps[m].g, keys[m]));
  }

  /** A shot of the aliens is on the ship that no shot of the ship just below cancels. */
  ghost predicate ShotArrives(b: Board, y: int) {
    exists i, j {:trigger b[i][j]} ::
      OnBoard(i, j) && 2 <= j <= 77 && b[i][j].alienShoot && OfShip(y, i, j) && !b[i + 1][j].shipShoot
  }

  lemma ArrivesIsHit(g: State)
    requires ShipShape(g)
    ensures ShipHit(CancelShots(g.board)) <==> ShotArrives(g.board, g.yShip)
  {
    hide CancelShots;
    var c := CancelShots(g.board);
    if ShipHit(c) {
      var i, j :| OnBoard(i, j) && Shots(i, j) && c[i][j].alienShoot && c[i][j].ship;
      CancelCell(g.board, i, j);
      assert g.board[i][j].alienShoot && g.board[i][j].ship;
    }
    if ShotArrives(g.board, g.yShip) {
      var i, j :| OnBoard(i, j) && 2 <= j <= 77 && g.board[i][j].alienShoot && OfShip(g.yShip, i, j)
                  && !g.board[i + 1][j].shipShoot;
      CancelCell(g.board, i, j);
      assert g.board[i][j].ship;
      assert c[i][j].alienShoot && c[i][j].ship;
    }
  }

  lemma RoundLoses(p: Play, key: Key, tick: bool, q: Play)
    requires GameInv(p.g, p.n) && PlayRound(p, key, tick, q)
    ensures OnBoard(X_SHIP - 2, p.g.yShip)
    ensures var k := KeyPressed(p.g, key);
            q.g.lose <==> || (k.yShip != p.g.yShip && Collides(p.g.board, k.yShip))
                          || (tick && ShotArrives(k.board, k.yShip))
                          || (tick && k.down && k.x == 17)
  {
    hide KeyPressed, ShotArrives, Collides, Aimed, InRank, AliensDown, AliensRight, AliensLeft, AlienIn, AlienShots,
      ShipShots, CancelShots, ShipHit;
    NotAtTheEnd(p.g, p.n);
    KeyKeeps(p.g, p.n, key);
    KeyMoves(p.g, key);
    ArrivesIsHit(KeyPressed(p.g, key));
  }

  /** A round loses exactly if the ship moves onto a shot of the aliens, or at a tick a shot that is not cancelled is on
      the ship, or the formation marches down for the fifteenth time. */
  lemma LoseExactly(keys: seq<Key>, ticks: seq<bool>, ps: seq<Play>, m: nat)
    requires IsGame(keys, ticks, ps) && m < |keys|
    ensures OnBoard(X_SHIP - 2, ps[m].g.yShip)
    ensures var g, k := ps[m].g, KeyPressed(ps[m].g, keys[m]);
            ps[m + 1].g.lose <==> || (k.yShip != g.yShip && Collides(g.board, k.yShip))
                                  || (ticks[m] && ShotArrives(k.board, k.yShip))
                                  || (ticks[m] && k.down && k.x == 17)
  {
    hide GameInv, PlayRound, KeyPressed, Collides, ShotArrives;
    GameAlways(keys, ticks, ps, m);
    assert RoundAt(keys, ticks, ps, m);
    RoundLoses(ps[m], keys[m], ticks[m], ps[m + 1]);
  }
}
