/** The game's globals, and the functions of user.c that change them: the loops scan and change the board in
    place. */
module GameCode {
  import opened GameBoard
  import opened GameSteps
  import opened GameSpec

  class Game {
    const board: array2<Cell>
    var lose: bool
    var win: bool
    var xAliens: int
    var yAliens: int
    var yShip: int
    var moveRight: bool
    var moveLeft: bool
    var moveDown: bool
    var lastShoot: int
    var shootPointer: int

    ghost predicate Valid() {
      board.Length0 == NUM_ROWS && board.Length1 == NUM_COLUMNS
    }

    ghost function Grid(): (b: Board)
      requires Valid()
      reads board
      ensures forall i, j {:trigger b[i][j]} :: OnBoard(i, j) ==> b[i][j] == board[i, j]
    {
      seq(NUM_ROWS, i requires 0 <= i < NUM_ROWS reads board =>
        seq(NUM_COLUMNS, j requires 0 <= j < NUM_COLUMNS reads board => board[i, j]))
    }

    /** The state that the specification talks about. */
    ghost function View(): State
      requires Valid()
      reads this, board
    {
      State(Grid(), lose, win, xAliens, yAliens, yShip, moveRight, moveLeft, moveDown)
    }

    /** The globals before main: a blank board and the initial values. */
    constructor ()
      ensures Valid() && fresh(board) && View() == Started(Blank()) && AimOk()
    {
      board := new Cell[NUM_ROWS, NUM_COLUMNS]((_, _) => EMPTY);
      lose, win, xAliens, yAliens, yShip := false, false, 3, 2, NUM_COLUMNS / 2;
      moveRight, moveLeft, moveDown := true, false, false;
      lastShoot, shootPointer := 3, 1;
      new;
      SameBoard(Grid(), Blank());
    }

    function Get(i: int, j: int): (c: Cell)
      requires Valid() && OnBoard(i, j)
      reads board
      ensures c == Grid()[i][j]
    {
      board[i, j]
    }

    method Put(i: int, j: int, c: Cell)
      requires Valid() && OnBoard(i, j)
      modifies board
      ensures Grid() == With(old(Grid()), i, j, c)
    {
      ghost var b := Grid();
      board[i, j] := c;
      SameBoard(Grid(), With(b, i, j, c));
    }

    // ---------------------------------------------------------------- the marches

    method AliensDown()
      requires Valid()
      modifies board, `win
      ensures Grid() == GameBoard.AliensDown(old(Grid()))
      ensures win <==> old(win) || !AlienIn(old(Grid()), 22)
    {
      hide DownPart, DownFound, Grid;
      ghost var b := Grid();
      DownStarts(b);
      var total := 0;
      var i := 22;
      while i >= 3
        invariant 2 <= i <= 22 && DownPart(b, Grid(), i, 2) && total >= 0 && win == old(win)
        invariant total == 0 <==> !DownFound(b, i, 2)
      {
        var j := 2;
        while j <= NUM_COLUMNS - 3
          invariant 2 <= j <= NUM_COLUMNS - 2 && DownPart(b, Grid(), i, j) && total >= 0 && win == old(win)
          invariant total == 0 <==> !DownFound(b, i, j)
        {
          DownStep(b, Grid(), i, j);
          if Get(i, j).alien {
            total := total + 1;
            Put(i, j, Get(i, j).(alien := false));
            if !Get(i, j).shipShoot {
              Put(i + 1, j, Get(i + 1, j).(alien := true));
              if Get(i, j).shield {
                Put(i, j, Get(i, j).(shield := false));
              }
            }
          }
          j := j + 1;
        }
        DownRow(b, Grid(), i);
        i := i - 1;
      }
      DownEnds(b, Grid());
      if total == 0 {
        win := true;
      }
    }

    method AliensRight()
      requires Valid()
      modifies board, `win
      ensures Grid() == GameBoard.AliensRight(old(Grid()))
      ensures win <==> old(win) || !AlienIn(old(Grid()), 21)
    {
      hide RightPart, RightFound, Grid;
      ghost var b := Grid();
      RightStarts(b);
      var total := 0;
      var i := 3;
      while i < 22
        invariant 3 <= i <= 22 && RightPart(b, Grid(), i, NUM_COLUMNS - 3) && total >= 0 && win == old(win)
        invariant total == 0 <==> !RightFound(b, i, NUM_COLUMNS - 3)
      {
        var j := NUM_COLUMNS - 3;
        while j >= 2
          invariant 1 <= j <= NUM_COLUMNS - 3 && RightPart(b, Grid(), i, j) && total >= 0 && win == old(win)
          invariant total == 0 <==> !RightFound(b, i, j)
        {
          RightStep(b, Grid(), i, j);
          if Get(i, j).alien {
            total := total + 1;
            if Get(i, j).shield {
              Put(i, j, Get(i, j).(shield := false));
            }
            Put(i, j, Get(i, j).(alien := false));
            Put(i, j + 1, Get(i, j + 1).(alien := true));
          }
          j := j - 1;
        }
        RightRow(b, Grid(), i);
        i := i + 1;
      }
      RightEnds(b, Grid());
      if total == 0 {
        win := true;
      }
    }

    method AliensLeft()
      requires Valid()
      modifies board, `win
      ensures Grid() == GameBoard.AliensLeft(old(Grid()))
      ensures win <==> old(win) || !AlienIn(old(Grid()), 21)
    {
      hide LeftPart, LeftFound, Grid;
      ghost var b := Grid();
      LeftStarts(b);
      var total := 0;
      var i := 3;
      while i < 22
        invariant 3 <= i <= 22 && LeftPart(b, Grid(), i, 2) && total >= 0 && win == old(win)
        invariant total == 0 <==> !LeftFound(b, i, 2)
      {
        var j := 2;
        while j <= NUM_COLUMNS - 3
          invariant 2 <= j <= NUM_COLUMNS - 2 && LeftPart(b, Grid(), i, j) && total >= 0 && win == old(win)
          invariant total == 0 <==> !LeftFound(b, i, j)
        {
          LeftStep(b, Grid(), i, j);
          if Get(i, j).alien {
            total := total + 1;
            if Get(i, j).shield {
              Put(i, j, Get(i, j).(shield := false));
            }
            Put(i, j, Get(i, j).(alien := false));
            Put(i, j - 1, Get(i, j - 1).(alien := true));
          }
          j := j + 1;
        }
        LeftRow(b, Grid(), i);
        i := i + 1;
      }
      LeftEnds(b, Grid());
      if total == 0 {
        win := true;
      }
    }

    method MoveAliens()
      requires Valid()
      modifies board, `lose, `win, `xAliens, `yAliens, `moveRight, `moveLeft, `moveDown
      ensures View() == GameSpec.MoveAliens(old(View()))
    {
      hide Grid, GameBoard.AliensDown, GameBoard.AliensRight, GameBoard.AliensLeft, AlienIn;
      if moveDown {
        AliensDown();
        xAliens := xAliens + 1;
        if xAliens >= 18 {
          lose := true;
        }
        moveDown := false;
        if yAliens >= 29 {
          moveLeft := true;
        } else if yAliens <= 2 {
          moveRight := true;
        } else {
          moveDown := true;
        }
      } else if moveRight {
        AliensRight();
        yAliens := yAliens + 1;
        if yAliens == 29 {
          moveRight := false;
          moveDown := true;
        }
      } else if moveLeft {
        AliensLeft();
        yAliens := yAliens - 1;
        if yAliens == 2 {
          moveLeft := false;
          moveDown := true;
        }
      }
    }

    // ---------------------------------------------------------------- the shots

    method CancelShoots()
      requires Valid()
      modifies board
      ensures Grid() == CancelShots(old(Grid()))
    {
      hide CancelPart, Grid;
      ghost var b := Grid();
      CancelStarts(b);
      var i := 2;
      while i < 24
        invariant 2 <= i <= 24 && CancelPart(b, Grid(), i, 2)
      {
        var j := 2;
        while j <= NUM_COLUMNS - 3
          invariant 2 <= j <= NUM_COLUMNS - 2 && CancelPart(b, Grid(), i, j)
        {
          CancelStep(b, Grid(), i, j);
          if Get(i, j).alienShoot && Get(i + 1, j).shipShoot {
            Put(i, j, Get(i, j).(alienShoot := false));
            Put(i + 1, j, Get(i + 1, j).(shipShoot := false));
          }
          j := j + 1;
        }
        CancelRow(b, Grid(), i);
        i := i + 1;
      }
      CancelEnds(b, Grid());
    }

    method MoveShootsAliens()
      requires Valid()
      modifies board, `lose
      ensures Grid() == AlienShots(old(Grid()))
      ensures lose <==> old(lose) || ShipHit(old(Grid()))
    {
      hide FallPart, FallHit, Grid;
      ghost var b := Grid();
      FallStarts(b);
      var i := 23;
      while i >= 2
        invariant 1 <= i <= 23 && FallPart(b, Grid(), i, 2)
        invariant lose <==> old(lose) || FallHit(b, i, 2)
      {
        var j := 2;
        while j <= NUM_COLUMNS - 3
          invariant 2 <= j <= NUM_COLUMNS - 2 && FallPart(b, Grid(), i, j)
          invariant lose <==> old(lose) || FallHit(b, i, j)
        {
          FallStep(b, Grid(), i, j);
          if Get(i, j).alienShoot {
            if Get(i, j).shield {
              Put(i, j, Get(i, j).(shield := false));
            } else if i < NUM_ROWS - 2 && (!Get(i, j).shipShoot || !Get(i + 1, j).shipShoot) {
              Put(i + 1, j, Get(i + 1, j).(alienShoot := true));
            }
            if Get(i, j).ship {
              lose := true;
            }
            Put(i, j, Get(i, j).(alienShoot := false));
          }
          j := j + 1;
        }
        FallRow(b, Grid(), i);
        i := i - 1;
      }
      FallEnds(b, Grid());
    }

    method MoveShootsShip()
      requires Valid()
      modifies board
      ensures Grid() == ShipShots(old(Grid()))
    {
      hide RisePart, Grid;
      ghost var b := Grid();
      RiseStarts(b);
      var i := 2;
      while i < 24
        invariant 2 <= i <= 24 && RisePart(b, Grid(), i, 2)
      {
        var j := 2;
        while j <= NUM_COLUMNS - 3
          invariant 2 <= j <= NUM_COLUMNS - 2 && RisePart(b, Grid(), i, j)
        {
          RiseStep(b, Grid(), i, j);
          if Get(i, j).shipShoot {
            if Get(i, j).alien {
              Put(i, j, Get(i, j).(alien := false));
            } else if !Get(i - 1, j).shield && i >= 3 && (!Get(i, j).alienShoot || !Get(i - 1, j).alienShoot) {
              Put(i - 1, j, Get(i - 1, j).(shipShoot := true));
            }
            Put(i, j, Get(i, j).(shipShoot := false));
          }
          j := j + 1;
        }
        RiseRow(b, Grid(), i);
        i := i + 1;
      }
      RiseEnds(b, Grid());
    }

    method MoveShoots()
      requires Valid()
      modifies board, `lose
      ensures View() == GameSpec.MoveShots(old(View()))
    {
      CancelShoots();
      MoveShootsAliens();
      MoveShootsShip();
    }

    // ---------------------------------------------------------------- the ship

    method ShootCollision() returns (hit: bool)
      requires Valid() && 2 <= yShip < NUM_COLUMNS - 2
      ensures hit <==> ShotOnShip(Grid(), yShip)
    {
      if Get(X_SHIP, yShip).alienShoot { return true; }
      if Get(X_SHIP - 1, yShip).alienShoot { return true; }
      if Get(X_SHIP, yShip - 1).alienShoot { return true; }
      if Get(X_SHIP, yShip - 2).alienShoot { return true; }
      if Get(X_SHIP, yShip + 1).alienShoot { return true; }
      if Get(X_SHIP, yShip + 2).alienShoot { return true; }
      return false;
    }

    /** board[i][j].ship = v */
    method PutShip(i: int, j: int, v: bool)
      requires Valid() && OnBoard(i, j)
      modifies board
      ensures Grid() == SetShip(old(Grid()), i, j, v)
    {
      Put(i, j, Get(i, j).(ship := v));
    }

    method ShipRight()
      requires Valid() && 4 <= yShip <= NUM_COLUMNS - 5
      modifies board, `lose, `yShip
      ensures View() == GameSpec.ShipRight(old(View()))
    {
      hide Grid, SetShip, ShipMoved, ShotOnShip;
      var y := yShip;
      ghost var g := View();
      if yShip < NUM_COLUMNS - 5 {
        RightInSteps(Grid(), y);
        PutShip(X_SHIP, y + 3, true);
        PutShip(X_SHIP - 1, y + 1, true);
        PutShip(X_SHIP, y - 2, false);
        PutShip(X_SHIP - 1, y, false);
        yShip := y + 1;
        assert Grid() == ShipMoved(g.board, y, y + 1);
        var hit := ShootCollision();
        if hit {
          lose := true;
        }
        assert View() == ShipTo(g, y + 1);
      }
    }

    method ShipLeft()
      requires Valid() && 4 <= yShip <= NUM_COLUMNS - 5
      modifies board, `lose, `yShip
      ensures View() == GameSpec.ShipLeft(old(View()))
    {
      hide Grid, SetShip, ShipMoved, ShotOnShip;
      var y := yShip;
      ghost var g := View();
      if yShip > 4 {
        LeftInSteps(Grid(), y);
        PutShip(X_SHIP, y - 3, true);
        PutShip(X_SHIP - 1, y - 1, true);
        PutShip(X_SHIP, y + 2, false);
        PutShip(X_SHIP - 1, y, false);
        yShip := y - 1;
        assert Grid() == ShipMoved(g.board, y, y - 1);
        var hit := ShootCollision();
        if hit {
          lose := true;
        }
        assert View() == ShipTo(g, y - 1);
      }
    }

    /** EASY is 1. */
    method MakeShipShoot()
      requires Valid() && 4 <= yShip <= NUM_COLUMNS - 5
      modifies board
      ensures View() == GameSpec.ShipShoot(old(View()))
    {
      ghost var b := Grid();
      if !Get(X_SHIP - 2, yShip).shipShoot {
        Put(X_SHIP - 2, yShip, Get(X_SHIP - 2, yShip).(shipShoot := true));
      } else if !Get(X_SHIP - 3, yShip).shipShoot && !Get(X_SHIP - 2, yShip + 1).shipShoot
                && !Get(X_SHIP - 2, yShip - 1).shipShoot {
        Put(X_SHIP - 2, yShip, Get(X_SHIP - 2, yShip).(shipShoot := true));
      }
      SameBoard(Grid(), With(b, X_SHIP - 2, yShip, b[X_SHIP - 2][yShip].(shipShoot := true)));
    }

    // ---------------------------------------------------------------- init_board

    predicate IsAlienPlace(i: int, j: int)
      reads this
    {
      || ((i == xAliens || i == xAliens + 4) && j >= yAliens && j % 2 == 0 && j < 52)
      || (i == xAliens + 2 && j >= yAliens && j % 2 == 1 && j < 51)
    }

    method InitBoard()
      requires Valid() && View() == Started(Blank())
      modifies board
      ensures View() == Started(Initial())
    {
      InitStarts();
      hide InitPart, Grid, Blank, Initial, IsWall, IsShield, SetShip;
      var i := 0;
      while i < NUM_ROWS
        invariant 0 <= i <= NUM_ROWS && InitPart(Grid(), i, 0)
      {
        var j := 0;
        while j < NUM_COLUMNS
          invariant 0 <= j <= NUM_COLUMNS && InitPart(Grid(), i, j)
        {
          InitStep(Grid(), i, j);
          InitCell(i, j);
          j := j + 1;
        }
        InitRow(Grid(), i);
        i := i + 1;
      }
      InitEnds(Grid());
    }

    /** The body of the loop of init_board. */
    method InitCell(i: int, j: int)
      requires Valid() && OnBoard(i, j) && xAliens == 3 && yAliens == 2 && yShip == NUM_COLUMNS / 2
      modifies board
      ensures Grid() == OneShield(OneAlien(OneShip(OneWall(old(Grid()), i, j), i, j), i, j), i, j)
    {
      hide Grid, SetShip, With, IsWall, IsShield;
      if IsWall(i, j) {
        Put(i, j, Get(i, j).(wall := true));
      }
      if i == X_SHIP && j == yShip {
        PutShip(i, j, true);
        PutShip(i - 1, j, true);
        PutShip(i, j - 1, true);
        PutShip(i, j + 1, true);
        PutShip(i, j - 2, true);
        PutShip(i, j + 2, true);
      }
      if IsAlienPlace(i, j) {
        Put(i, j, Get(i, j).(alien := true));
      }
      if IsShield(i, j) {
        Put(i, j, Get(i, j).(shield := true));
      }
    }

    // ---------------------------------------------------------------- the aliens' shots and the main loop

    predicate AimOk()
      reads this
    {
      0 <= lastShoot && 0 <= shootPointer < 5 && 1 <= yAliens
    }

    ghost function CurrentAim(): Aim
      reads this
    {
      Aim(lastShoot, shootPointer)
    }

    /** r is the row of the lowest alien in column c at or below row `from`, or 0. */
    static ghost predicate LowestFrom(b: Board, r: int, c: int, from: int) {
      && OnBoard(23, c) && 2 <= from
      && (r == 0 || (from <= r <= 23 && b[r][c].alien))
      && forall q {:trigger b[q][c]} :: from <= q <= 23 && q > r ==> !b[q][c].alien
    }

    /** Row `row` is what the scan of ia_shoot_alien has found in column k. */
    static lemma FoundIsSighted(b: Board, row: int, k: int)
      requires 0 <= k < NUM_COLUMNS
      requires if 2 <= k <= NUM_COLUMNS - 3 then LowestFrom(b, row, k, 2) else row == 0
      ensures row > 0 <==> Sighted(b, k)
      ensures row > 0 ==> Lowest(b, row, k)
    {
    }

    /** ia_shoot_alien, when gettime answers `time`; EASY is 1. */
    method IaShootAlien(time: nat)
      requires Valid() && AimOk()
      modifies board, `lastShoot, `shootPointer
      ensures AimOk() && Aimed(old(Grid()), Grid())
      ensures AliensShoot(old(Grid()), old(CurrentAim()), yAliens, time, Grid(), CurrentAim())
    {
      ghost var b := Grid();
      var isAlien := new int[NUM_COLUMNS];
      if time % 2 == 0 {
        var m := 0;
        while m < NUM_COLUMNS
          invariant 0 <= m <= NUM_COLUMNS
          invariant forall c :: 0 <= c < m ==> isAlien[c] == 0
          modifies isAlien
        {
          isAlien[m] := 0;
          m := m + 1;
        }
        var i := 23;
        while i >= 2
          invariant 1 <= i <= 23
          invariant forall c :: 2 <= c <= NUM_COLUMNS - 3 ==> LowestFrom(b, isAlien[c], c, i + 1)
          invariant forall c :: 0 <= c < NUM_COLUMNS && !(2 <= c <= NUM_COLUMNS - 3) ==> isAlien[c] == 0
          modifies isAlien
        {
          var j := 2;
          while j <= NUM_COLUMNS - 3
            invariant 2 <= j <= NUM_COLUMNS - 2
            invariant forall c :: 2 <= c <= NUM_COLUMNS - 3 ==> LowestFrom(b, isAlien[c], c, if c < j then i else i + 1)
            invariant forall c :: 0 <= c < NUM_COLUMNS && !(2 <= c <= NUM_COLUMNS - 3) ==> isAlien[c] == 0
            modifies isAlien
          {
            if Get(i, j).alien {
              if isAlien[j] == 0 {
                isAlien[j] := i;
              }
            }
            j := j + 1;
          }
          i := i - 1;
        }
        Shoot(isAlien, b);
      }
    }

    /** The last loop of ia_shoot_alien. */
    method Shoot(isAlien: array<int>, ghost b: Board)
      requires Valid() && AimOk() && b == Grid() && isAlien.Length == NUM_COLUMNS
      requires forall c :: 2 <= c <= NUM_COLUMNS - 3 ==> LowestFrom(b, isAlien[c], c, 2)
      requires forall c :: 0 <= c < NUM_COLUMNS && !(2 <= c <= NUM_COLUMNS - 3) ==> isAlien[c] == 0
      modifies board, `lastShoot, `shootPointer
      ensures AimOk() && Aimed(b, Grid())
      ensures AliensShoot(b, old(CurrentAim()), yAliens, 0, Grid(), CurrentAim())
    {
      hide LowestFrom, Sighted, Grid;
      ghost var from, pointer := lastShoot, shootPointer;
      var count, k := 0, lastShoot;
      while k < NUM_COLUMNS && count < 1
        invariant from <= k && 0 <= count <= 1 && AimOk() && Aimed(b, Grid())
        invariant count == 0 ==> Grid() == b && lastShoot == from && shootPointer == pointer
        invariant count == 0 ==> forall c :: from <= c < k && c < NUM_COLUMNS ==> !Sighted(b, c)
        invariant count == 1 ==>
                    && FirstShoots(b, Grid(), from) && !NoneSighted(b, from)
                    && lastShoot == yAliens + (49 - 50 / (pointer + 1)) && shootPointer == (pointer + 1) % 5
        decreases NUM_COLUMNS - k
        modifies board, `lastShoot, `shootPointer
      {
        FoundIsSighted(b, isAlien[k], k);
        if isAlien[k] > 0 {
          assert Sighted(b, k);
          Put(isAlien[k], k, Get(isAlien[k], k).(alienShoot := true));
          assert ShootsFrom(b, Grid(), isAlien[k], k);
          count := count + 1;
          shootPointer := shootPointer + 1;
          lastShoot := yAliens + (49 - 50 / shootPointer);
          shootPointer := shootPointer % 5;
        }
        k := k + 1;
      }
      if count == 0 {
        NoneBeyond(b, from);
      }
    }

    static lemma NoneBeyond(b: Board, from: int)
      requires forall c :: from <= c < NUM_COLUMNS ==> !Sighted(b, c)
      ensures NoneSighted(b, from)
    {
    }

    method IaMove(time: nat)
      requires Valid() && AimOk() && yAliens >= 2
      modifies this, board
      ensures AimOk() && Ticked(old(View()), View())
    {
      hide Grid, GameSpec.MoveShots, GameSpec.MoveAliens, Aimed, AliensShoot;
      MarchesByOne(View());
      MoveShoots();
      MoveAliens();
      ghost var m := View();
      IaShootAlien(time);
      assert View() == m.(board := View().board);
    }

    /** One round of the main loop. */
    method PlayRound(key: Key, tick: bool, time: nat)
      requires Valid() && AimOk() && yAliens >= 2 && !lose && !win && 4 <= yShip <= NUM_COLUMNS - 5
      modifies this, board
      ensures AimOk() && Round(old(View()), key, tick, View())
    {
      hide Grid, GameSpec.ShipLeft, GameSpec.ShipRight, GameSpec.ShipShoot, Ticked;
      match key {
        case KeyA => ShipLeft();
        case KeyD => ShipRight();
        case KeyW => MakeShipShoot();
        case _ =>
      }
      if tick {
        IaMove(time);
      }
    }
  }
}
