/** Whole games: where the aliens and the ship can be, what wins, and why every game ends. */
module GameRuns {
  import opened GameBoard
  import opened GameSpec

  // ---------------------------------------------------------------- what one pass does to the aliens

  ghost predicate AliensWithin(b: Board, top: int, bottom: int, left: int, right: int) {
    forall i, j {:trigger b[i][j]} :: OnBoard(i, j) && b[i][j].alien ==> top <= i <= bottom && left <= j <= right
  }

  /** The aliens of d are those of b, di rows further down and dj columns to the right. */
  ghost predicate AliensShifted(b: Board, d: Board, di: int, dj: int) {
    forall i, j :: OnBoard(i, j) ==> (At(d, i, j).alien <==> At(b, i - di, j - dj).alien)
  }

  lemma RightShiftsAt(b: Board, i: int, j: int)
    requires AliensWithin(b, 3, 21, 2, NUM_COLUMNS - 3) && OnBoard(i, j)
    ensures At(AliensRight(b), i, j).alien <==> At(b, i, j - 1).alien
  {
    hide AliensRight;
    RightAt(b, i, j);
    assert At(b, i, j).alien ==> Sideways(i, j);
  }

  /** A march to the right moves every alien by exactly one column, if they are all where the march looks. */
  lemma RightShifts(b: Board)
    requires AliensWithin(b, 3, 21, 2, NUM_COLUMNS - 3)
    ensures AliensShifted(b, AliensRight(b), 0, 1)
  {
    hide AliensRight, At;
    forall i, j | OnBoard(i, j) ensures At(AliensRight(b), i, j).alien <==> At(b, i, j - 1).alien {
      RightShiftsAt(b, i, j);
    }
  }

  lemma LeftShiftsAt(b: Board, i: int, j: int)
    requires AliensWithin(b, 3, 21, 2, NUM_COLUMNS - 3) && OnBoard(i, j)
    ensures At(AliensLeft(b), i, j).alien <==> At(b, i, j + 1).alien
  {
    hide AliensLeft;
    LeftAt(b, i, j);
    assert At(b, i, j).alien ==> Sideways(i, j);
  }

  lemma LeftShifts(b: Board)
    requires AliensWithin(b, 3, 21, 2, NUM_COLUMNS - 3)
    ensures AliensShifted(b, AliensLeft(b), 0, -1)
  {
    hide AliensLeft, At;
    forall i, j | OnBoard(i, j) ensures At(AliensLeft(b), i, j).alien <==> At(b, i, j + 1).alien {
      LeftShiftsAt(b, i, j);
    }
  }

  /** Right and then left again puts every alien back. */
  lemma RightThenLeft(b: Board)
    requires AliensWithin(b, 3, 21, 2, NUM_COLUMNS - 4)
    ensures AliensShifted(b, AliensLeft(AliensRight(b)), 0, 0)
  {
    hide AliensRight, AliensLeft;
    RightShifts(b);
    var d := AliensRight(b);
    assert AliensWithin(d, 3, 21, 2, NUM_COLUMNS - 3) by {
      forall i, j | OnBoard(i, j) && d[i][j].alien ensures 3 <= i <= 21 && 2 <= j <= NUM_COLUMNS - 3 {
        assert At(d, i, j).alien && At(b, i, j - 1).alien;
      }
    }
    LeftShifts(d);
    forall i, j | OnBoard(i, j) ensures At(AliensLeft(d), i, j).alien <==> At(b, i, j).alien {
      assert At(AliensLeft(d), i, j).alien <==> At(d, i, j + 1).alien;
      if OnBoard(i, j + 1) {
        assert At(d, i, j + 1).alien <==> At(b, i, j).alien;
      }
    }
  }

  // ---------------------------------------------------------------- counting aliens

  function Aliens(b: Board): (s: set<(int, int)>)
    ensures forall i, j :: (i, j) in s <==> OnBoard(i, j) && b[i][j].alien
  {
    set i, j | 0 <= i < NUM_ROWS && 0 <= j < NUM_COLUMNS && b[i][j].alien :: (i, j)
  }

  ghost function Shifted(s: set<(int, int)>, di: int, dj: int): set<(int, int)> {
    set p | p in s :: (p.0 - di, p.1 - dj)
  }

  lemma ShiftedWithout(s: set<(int, int)>, p: (int, int), di: int, dj: int)
    requires p in s
    ensures var q := (p.0 - di, p.1 - dj);
            Shifted(s, di, dj) == Shifted(s - {p}, di, dj) + {q} && q !in Shifted(s - {p}, di, dj)
  {
  }

  lemma {:induction false} ShiftedSize(s: set<(int, int)>, di: int, dj: int)
    ensures |Shifted(s, di, dj)| == |s|
  {
    if s != {} {
      var p :| p in s;
      ShiftedSize(s - {p}, di, dj);
      ShiftedWithout(s, p, di, dj);
    }
  }

  lemma Smaller(a: set<(int, int)>, b: set<(int, int)>)
    requires a <= b
    ensures |a| <= |b|
  {
    assert b == a + (b - a);
  }

  lemma ShiftedInto(a: set<(int, int)>, b: set<(int, int)>, di: int, dj: int)
    requires forall p :: p in a ==> (p.0 - di, p.1 - dj) in b
    ensures Shifted(a, di, dj) <= b
  {
  }

  /** Every alien of d was an alien of b, di rows up and dj columns to the left. */
  ghost predicate AliensFrom(b: Board, d: Board, di: int, dj: int) {
    forall i, j {:trigger d[i][j]} :: OnBoard(i, j) && d[i][j].alien ==> At(b, i - di, j - dj).alien
  }

  lemma FromCounts(b: Board, d: Board, di: int, dj: int)
    requires AliensFrom(b, d, di, dj)
    ensures |Aliens(d)| <= |Aliens(b)|
  {
    Sources(b, d, di, dj);
    hide Aliens, Shifted, AliensFrom;
    var s := Shifted(Aliens(d), di, dj);
    ShiftedInto(Aliens(d), Aliens(b), di, dj);
    ShiftedSize(Aliens(d), di, dj);
    Smaller(s, Aliens(b));
  }

  lemma Sources(b: Board, d: Board, di: int, dj: int)
    requires AliensFrom(b, d, di, dj)
    ensures forall p :: p in Aliens(d) ==> (p.0 - di, p.1 - dj) in Aliens(b)
  {
    forall p | p in Aliens(d) ensures (p.0 - di, p.1 - dj) in Aliens(b) {
      assert (p.0, p.1) in Aliens(d) && d[p.0][p.1].alien;
    }
  }

  // ---------------------------------------------------------------- the invariant

  /** How many marches of its sweep of 28 the formation has done: 27 sideways, and then one down. */
  function Progress(g: State): int {
    if g.right then g.y - 2 else if g.left then 29 - g.y else 27
  }

  /** Exactly one direction, and n marches so far. */
  predicate Marching(g: State, n: int) {
    && (g.right <==> !g.left && !g.down) && (g.left <==> !g.right && !g.down)
    && 3 <= g.x <= 18 && 2 <= g.y <= 29
    && (g.right ==> g.y <= 28) && (g.left ==> g.y >= 3) && (g.down ==> g.y == 2 || g.y == 29)
    && n == 28 * (g.x - 3) + Progress(g)
    && (g.x == 18 ==> g.lose)
  }

  /** Every alien is one of the initial formation, as far as the formation has marched. */
  ghost predicate InRank(b: Board, x: int, y: int) {
    forall i, j {:trigger b[i][j]} :: OnBoard(i, j) && b[i][j].alien ==> InFormation(x, y, i, j)
  }

  ghost predicate ShipShape(g: State) {
    && 4 <= g.yShip <= NUM_COLUMNS - 5
    && forall i, j {:trigger g.board[i][j]} :: OnBoard(i, j) ==> (g.board[i][j].ship <==> IsShip(g.yShip, i, j))
  }

  ghost predicate GameInv(g: State, n: int) {
    Marching(g, n) && InRank(g.board, g.x, g.y) && ShipShape(g)
  }

  /** While the game runs, all aliens are on cells at which both kinds of march look. */
  lemma RankIsScanned(g: State, n: int)
    requires GameInv(g, n) && !g.lose
    ensures AliensWithin(g.board, 3, 21, 2, NUM_COLUMNS - 3)
  {
    InSight(g.board, g.x, g.y);
  }

  // ---------------------------------------------------------------- the marches keep it

  lemma DownRank(b: Board, x: int, y: int)
    requires InRank(b, x, y) && 3 <= x <= 17 && 2 <= y <= 29
    ensures InRank(AliensDown(b), x + 1, y) && AliensFrom(b, AliensDown(b), 1, 0)
    ensures AlienIn(b, 22) <==> Aliens(b) != {}
  {
    hide AliensDown;
    InSight(b, x, y);
    SomeAlien(b, 22);
    forall i, j | OnBoard(i, j) && AliensDown(b)[i][j].alien
      ensures InFormation(x + 1, y, i, j) && At(b, i - 1, j).alien
    {
      DownAt(b, i, j);
      assert At(b, i, j).alien ==> Downs(i, j);
    }
  }

  lemma RightRank(b: Board, x: int, y: int)
    requires InRank(b, x, y) && 3 <= x <= 17 && 2 <= y <= 28
    ensures InRank(AliensRight(b), x, y + 1) && AliensFrom(b, AliensRight(b), 0, 1)
    ensures AlienIn(b, 21) <==> Aliens(b) != {}
  {
    hide AliensRight;
    InSight(b, x, y);
    SomeAlien(b, 21);
    forall i, j | OnBoard(i, j) && AliensRight(b)[i][j].alien
      ensures InFormation(x, y + 1, i, j) && At(b, i, j - 1).alien
    {
      RightAt(b, i, j);
      assert At(b, i, j).alien ==> Sideways(i, j);
    }
  }

  lemma LeftRank(b: Board, x: int, y: int)
    requires InRank(b, x, y) && 3 <= x <= 17 && 3 <= y <= 29
    ensures InRank(AliensLeft(b), x, y - 1) && AliensFrom(b, AliensLeft(b), 0, -1)
    ensures AlienIn(b, 21) <==> Aliens(b) != {}
  {
    hide AliensLeft;
    InSight(b, x, y);
    SomeAlien(b, 21);
    forall i, j | OnBoard(i, j) && AliensLeft(b)[i][j].alien
      ensures InFormation(x, y - 1, i, j) && At(b, i, j + 1).alien
    {
      LeftAt(b, i, j);
      assert At(b, i, j).alien ==> Sideways(i, j);
    }
  }

  lemma InSight(b: Board, x: int, y: int)
    requires InRank(b, x, y) && 3 <= x <= 17 && 2 <= y <= 29
    ensures AliensWithin(b, 3, 21, 2, NUM_COLUMNS - 3)
  {
  }

  lemma SomeAlien(b: Board, last: int)
    requires AliensWithin(b, 3, last, 2, NUM_COLUMNS - 3)
    ensures AlienIn(b, last) <==> Aliens(b) != {}
  {
    if Aliens(b) != {} {
      var p :| p in Aliens(b);
      assert (p.0, p.1) in Aliens(b);
    }
    if AlienIn(b, last) {
      var i, j :| OnBoard(i, j) && Between(3, i, last, j) && b[i][j].alien;
      assert (i, j) in Aliens(b);
    }
  }

  ghost predicate SameShip(b: Board, d: Board) {
    forall i, j {:trigger d[i][j]} :: OnBoard(i, j) ==> d[i][j].ship == b[i][j].ship
  }

  lemma PassesKeepShip(b: Board)
    ensures SameShip(b, AliensDown(b)) && SameShip(b, AliensRight(b)) && SameShip(b, AliensLeft(b))
  {
    hide AliensDown, AliensRight, AliensLeft;
    forall i, j | OnBoard(i, j)
      ensures AliensDown(b)[i][j].ship == AliensRight(b)[i][j].ship == AliensLeft(b)[i][j].ship == b[i][j].ship
    {
      DownAt(b, i, j);
      RightAt(b, i, j);
      LeftAt(b, i, j);
    }
  }

  lemma ShotsKeep(b: Board)
    ensures SameShip(b, AlienShots(b)) && SameShip(b, ShipShots(b)) && SameShip(b, CancelShots(b))
    ensures AliensFrom(b, AlienShots(b), 0, 0) && AliensFrom(b, ShipShots(b), 0, 0) && AliensFrom(b, CancelShots(b), 0, 0)
  {
    hide AlienShots, ShipShots, CancelShots;
    forall i, j | OnBoard(i, j)
      ensures AlienShots(b)[i][j].ship == ShipShots(b)[i][j].ship == CancelShots(b)[i][j].ship == b[i][j].ship
      ensures AlienShots(b)[i][j].alien || ShipShots(b)[i][j].alien || CancelShots(b)[i][j].alien ==>
                At(b, i - 0, j - 0).alien
    {
      ShotsAt(b, i, j);
    }
  }

  lemma FromRank(b: Board, d: Board, x: int, y: int)
    requires InRank(b, x, y) && AliensFrom(b, d, 0, 0)
    ensures InRank(d, x, y) && |Aliens(d)| <= |Aliens(b)|
  {
    FromCounts(b, d, 0, 0);
    forall i, j | OnBoard(i, j) && d[i][j].alien ensures InFormation(x, y, i, j) {
      assert At(b, i - 0, j - 0).alien;
    }
  }

  lemma MoveShotsKeeps(g: State, n: int)
    requires GameInv(g, n)
    ensures GameInv(MoveShots(g), n) && |Aliens(MoveShots(g).board)| <= |Aliens(g.board)|
    ensures MoveShots(g).win == g.win && MoveShots(g).x == g.x
  {
    var a := CancelShots(g.board);
    var b := AlienShots(a);
    hide CancelShots, AlienShots, ShipShots, AliensDown, AliensRight, AliensLeft, InFormation;
    ShotsKeep(g.board);
    ShotsKeep(a);
    ShotsKeep(b);
    FromRank(g.board, a, g.x, g.y);
    FromRank(a, b, g.x, g.y);
    FromRank(b, ShipShots(b), g.x, g.y);
  }

  /** One march: the count goes up by one, and WIN is set if and only if there was no alien left anywhere. */
  lemma MarchKeeps(g: State, n: int)
    requires GameInv(g, n) && g.x < 18
    ensures GameInv(MoveAliens(g), n + 1) && |Aliens(MoveAliens(g).board)| <= |Aliens(g.board)|
    ensures MoveAliens(g).win <==> g.win || Aliens(g.board) == {}
  {
    hide AliensDown, AliensRight, AliensLeft, AlienShots, ShipShots, CancelShots, InFormation, AlienIn;
    PassesKeepShip(g.board);
    if g.down {
      DownRank(g.board, g.x, g.y);
      FromCounts(g.board, AliensDown(g.board), 1, 0);
    } else if g.right {
      RightRank(g.board, g.x, g.y);
      FromCounts(g.board, AliensRight(g.board), 0, 1);
    } else {
      LeftRank(g.board, g.x, g.y);
      FromCounts(g.board, AliensLeft(g.board), 0, -1);
    }
  }

  lemma AimKeeps(g: State, n: int, d: State)
    requires GameInv(g, n) && Aimed(g.board, d.board) && d == g.(board := d.board)
    ensures GameInv(d, n) && Aliens(d.board) == Aliens(g.board)
  {
    hide InFormation;
    forall i, j | OnBoard(i, j)
      ensures d.board[i][j].alien == g.board[i][j].alien && d.board[i][j].ship == g.board[i][j].ship
    {
      if d.board != g.board {
        var r, k :| ShootsFrom(g.board, d.board, r, k);
      }
    }
  }

  lemma KeyKeeps(g: State, n: int, key: Key)
    requires GameInv(g, n)
    ensures OnBoard(X_SHIP - 2, g.yShip)
    ensures GameInv(KeyPressed(g, key), n) && Aliens(KeyPressed(g, key).board) == Aliens(g.board)
    ensures KeyPressed(g, key).win == g.win && KeyPressed(g, key).x == g.x
  {
    hide InFormation, ShotOnShip, ShipMoved, Aliens;
    match key {
      case KeyA => if g.yShip > 4 { ShipMovedShape(g, g.yShip - 1); }
      case KeyD => if g.yShip < NUM_COLUMNS - 5 { ShipMovedShape(g, g.yShip + 1); }
      case KeyW => ShotShape(g);
      case _ =>
    }
  }

  lemma ShipMovedShape(g: State, to: int)
    requires ShipShape(g) && (to == g.yShip + 1 || to == g.yShip - 1) && 4 <= to <= NUM_COLUMNS - 5
    ensures ShipShape(ShipTo(g, to)) && Aliens(ShipTo(g, to).board) == Aliens(g.board)
    ensures forall i, j {:trigger ShipTo(g, to).board[i][j]} ::
              OnBoard(i, j) ==> ShipTo(g, to).board[i][j].alien == g.board[i][j].alien
  {
  }

  lemma ShotShape(g: State)
    requires ShipShape(g)
    ensures ShipShape(ShipShoot(g)) && Aliens(ShipShoot(g).board) == Aliens(g.board)
    ensures forall i, j {:trigger ShipShoot(g).board[i][j]} ::
              OnBoard(i, j) ==> ShipShoot(g).board[i][j].alien == g.board[i][j].alien
  {
  }

  // ---------------------------------------------------------------- rounds and games

  /** A game and the number of marches so far. */
  datatype Play = Play(g: State, n: int)

  ghost predicate PlayRound(p: Play, key: Key, tick: bool, q: Play) {
    Round(p.g, key, tick, q.g) && q.n == p.n + if tick then 1 else 0
  }

  /** What the marches find on the board in a round. */
  ghost function BeforeMarch(g: State, key: Key): State
    requires OnBoard(X_SHIP - 2, g.yShip)
  {
    MoveShots(KeyPressed(g, key))
  }

  lemma RoundKeeps(p: Play, key: Key, tick: bool, q: Play)
    requires GameInv(p.g, p.n) && PlayRound(p, key, tick, q)
    ensures GameInv(q.g, q.n) && |Aliens(q.g.board)| <= |Aliens(p.g.board)|
    ensures q.g.win <==> tick && Aliens(BeforeMarch(p.g, key).board) == {}
  {
    hide GameInv, KeyPressed, MoveShots, MoveAliens, Aimed, Aliens;
    NotAtTheEnd(p.g, p.n);
    KeyKeeps(p.g, p.n, key);
    var k := KeyPressed(p.g, key);
    if tick {
      MoveShotsKeeps(k, p.n);
      var s := MoveShots(k);
      MarchKeeps(s, p.n);
      AimKeeps(MoveAliens(s), p.n + 1, q.g);
    }
  }

  lemma NotAtTheEnd(g: State, n: int)
    requires GameInv(g, n) && !g.lose
    ensures g.x < 18
  {
  }

  ghost predicate RoundAt(keys: seq<Key>, ticks: seq<bool>, ps: seq<Play>, m: nat)
    requires m < |keys| == |ticks| && |ps| == |keys| + 1
  {
    PlayRound(ps[m], keys[m], ticks[m], ps[m + 1])
  }

  /** A game: rounds of the main loop, after init_board. */
  ghost predicate IsGame(keys: seq<Key>, ticks: seq<bool>, ps: seq<Play>) {
    && |keys| == |ticks| && |ps| == |keys| + 1
    && ps[0] == Play(Started(Initial()), 0)
    && forall m :: 0 <= m < |keys| ==> RoundAt(keys, ticks, ps, m)
  }

  lemma StartInv()
    ensures GameInv(Started(Initial()), 0)
  {
  }

  /** In every state of every game: exactly one direction is set, the ship is whole, and the live aliens are
      aliens of the initial formation, moved by (x - 3, y - 2). */
  lemma {:induction false} GameAlways(keys: seq<Key>, ticks: seq<bool>, ps: seq<Play>, m: nat)
    requires IsGame(keys, ticks, ps) && m < |ps|
    ensures GameInv(ps[m].g, ps[m].n)
  {
    hide GameInv, PlayRound, Started, Initial;
    if m == 0 {
      StartInv();
    } else {
      GameAlways(keys, ticks, ps, m - 1);
      assert RoundAt(keys, ticks, ps, m - 1);
      RoundKeeps(ps[m - 1], keys[m - 1], ticks[m - 1], ps[m]);
    }
  }

  /** The last branch of a march down, which would march down again, is never taken. */
  lemma DownBranchIsDead(keys: seq<Key>, ticks: seq<bool>, ps: seq<Play>, m: nat)
    requires IsGame(keys, ticks, ps) && m < |ps| && ps[m].g.down
    ensures ps[m].g.y >= 29 || ps[m].g.y <= 2
  {
    hide PlayRound, ShipShape, InRank;
    GameAlways(keys, ticks, ps, m);
  }

  /** While the game runs, no alien is outside the rows and columns at which the marches look. */
  lemma AliensStayInSight(keys: seq<Key>, ticks: seq<bool>, ps: seq<Play>, m: nat)
    requires IsGame(keys, ticks, ps) && m < |ps| && !ps[m].g.lose
    ensures AliensWithin(ps[m].g.board, 3, 21, 2, NUM_COLUMNS - 3)
  {
    hide PlayRound, GameInv, AliensWithin;
    GameAlways(keys, ticks, ps, m);
    RankIsScanned(ps[m].g, ps[m].n);
  }

  /** The number of live aliens never grows. */
  lemma {:induction false} AliensNeverGrow(keys: seq<Key>, ticks: seq<bool>, ps: seq<Play>, a: nat, b: nat)
    requires IsGame(keys, ticks, ps) && a <= b < |ps|
    ensures |Aliens(ps[b].g.board)| <= |Aliens(ps[a].g.board)|
  {
    hide GameInv, PlayRound, Aliens;
    if a < b {
      AliensNeverGrow(keys, ticks, ps, a, b - 1);
      GameAlways(keys, ticks, ps, b - 1);
      assert RoundAt(keys, ticks, ps, b - 1);
      RoundKeeps(ps[b - 1], keys[b - 1], ticks[b - 1], ps[b]);
    }
  }

  /** A round wins if and only if it marches and there is no alien left anywhere on the board. */
  lemma WinExactly(keys: seq<Key>, ticks: seq<bool>, ps: seq<Play>, m: nat)
    requires IsGame(keys, ticks, ps) && m < |keys|
    ensures OnBoard(X_SHIP - 2, ps[m].g.yShip)
    ensures ps[m + 1].g.win <==> ticks[m] && Aliens(BeforeMarch(ps[m].g, keys[m]).board) == {}
  {
    hide GameInv, PlayRound, Aliens;
    GameAlways(keys, ticks, ps, m);
    assert RoundAt(keys, ticks, ps, m);
    RoundKeeps(ps[m], keys[m], ticks[m], ps[m + 1]);
    KeyKeeps(ps[m].g, ps[m].n, keys[m]);
  }

  function Marches(ticks: seq<bool>): nat {
    if ticks == [] then 0 else Marches(ticks[..|ticks| - 1]) + if ticks[|ticks| - 1] then 1 else 0
  }

  lemma {:induction false} MarchesCounted(keys: seq<Key>, ticks: seq<bool>, ps: seq<Play>, m: nat)
    requires IsGame(keys, ticks, ps) && m < |ps|
    ensures ps[m].n == Marches(ticks[..m])
  {
    hide Round;
    if m > 0 {
      MarchesCounted(keys, ticks, ps, m - 1);
      assert RoundAt(keys, ticks, ps, m - 1);
      assert ticks[..m][..m - 1] == ticks[..m - 1];
    }
  }

  /** Every game ends: the marches are counted by where the formation is, and the game is lost at the latest with
      the 420th, so no game has more. */
  lemma LostByMarch420(keys: seq<Key>, ticks: seq<bool>, ps: seq<Play>, m: nat)
    requires IsGame(keys, ticks, ps) && m < |ps|
    ensures Marches(ticks[..m]) == 28 * (ps[m].g.x - 3) + Progress(ps[m].g) <= 420
    ensures Marches(ticks[..m]) == 420 ==> ps[m].g.lose
  {
    hide InRank, ShipShape, Ticked, KeyPressed;
    GameAlways(keys, ticks, ps, m);
    MarchesCounted(keys, ticks, ps, m);
    if m > 0 {
      GameAlways(keys, ticks, ps, m - 1);
      assert RoundAt(keys, ticks, ps, m - 1);
    }
  }
}
