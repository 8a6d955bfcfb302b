/** The enemy formation (src/managers/enemies.rs): a grid laid out once at
    start, swept left and right in lock step, stepping down at each reversal. */
module EnemyManagers {
  import opened Draw
  import opened Directions
  import opened Enemies
  import opened Starships
  import Retain

  const Layers: nat := 5
  const SpaceBetweenEnemies: nat := 30
  /** Every enemy is 20 pixels high. */
  const EnemyHeight: nat := 20
  /** Pixels the formation moves down on a reversal. */
  const StepDown: nat := 10

  datatype EnemiesConfig = EnemiesConfig(number: nat, width: nat, spaceBetween: nat, layers: nat)

  /** `EnemiesConfig::new(number, width)`: `number` enemies per row, 5 rows, 30 pixels apart. */
  function NewEnemiesConfig(number: nat, width: nat): (c: EnemiesConfig)
    ensures c.number == number && c.width == width
    ensures c.spaceBetween == SpaceBetweenEnemies && c.layers == Layers
  {
    EnemiesConfig(number, width, SpaceBetweenEnemies, Layers)
  }

  /** Grid generation either yields the enemies or ends the process with an
      exit status (`process::exit(1)` in the source). */
  datatype Grid = Fits(enemies: seq<Enemy>) | ExitWithStatus(code: int)

  /** The width one row of the grid claims, spacing included. */
  function TotalWidth(c: EnemiesConfig): nat
  {
    (c.width + c.spaceBetween) * c.number
  }

  /** The left margin that centres a row in the window (rounded down). */
  function LeftMargin(c: EnemiesConfig, windowWidth: nat): nat
    requires TotalWidth(c) <= windowWidth
  {
    (windowWidth - TotalWidth(c)) / 2
  }

  /** The i-th enemy of the grid, numbered row by row. */
  function GridEnemy(c: EnemiesConfig, margin: nat, i: nat): Enemy
    requires c.number > 0
  {
    NewEnemy(c.width, EnemyHeight,
             margin + (c.width + c.spaceBetween) * (i % c.number),
             (i / c.number + 1) * (EnemyHeight + c.spaceBetween))
  }

  /** `generate_enemies`: `layers * number` enemies, or exit status 1 when a
      row is wider than the window. (With no columns the source's range is
      empty; the model says so directly rather than divide by zero.) */
  function GenerateEnemies(c: EnemiesConfig, windowWidth: nat): (r: Grid)
    ensures r.ExitWithStatus? <==> TotalWidth(c) > windowWidth
    ensures r.ExitWithStatus? ==> r.code == 1
    ensures r.Fits? ==> |r.enemies| == c.layers * c.number
  {
    if TotalWidth(c) > windowWidth then ExitWithStatus(1)
    else if c.number == 0 then Fits([])
    else
      var margin := LeftMargin(c, windowWidth);
      Fits(seq(c.layers * c.number, i requires 0 <= i => GridEnemy(c, margin, i)))
  }

  /** Row-major layout: enemy i sits in column `i % number` and row `i / number`
      (rows counted from 1), 20 pixels high and `width` wide. */
  lemma GridLayout(c: EnemiesConfig, windowWidth: nat, i: nat)
    requires TotalWidth(c) <= windowWidth && i < c.layers * c.number
    ensures c.number > 0
    ensures var e := GenerateEnemies(c, windowWidth).enemies[i];
      && e.position.x == LeftMargin(c, windowWidth) + (c.width + c.spaceBetween) * (i % c.number)
      && e.position.y == (i / c.number + 1) * (EnemyHeight + c.spaceBetween)
      && e.size == Size(EnemyHeight, c.width)
  {
  }

  /** A column of a row of n cells ends no later than the row does. */
  lemma ColumnInsideRow(cell: nat, col: nat, n: nat)
    requires col < n
    ensures cell * col + cell <= cell * n
  {
    assert cell * n == cell * col + cell * (n - col);
    assert cell * (n - col) == cell + cell * (n - col - 1);
  }

  /** Every generated enemy lies inside the window: at or right of the left
      margin, and with its right edge at most at the window's width. */
  lemma GridFitsWindow(c: EnemiesConfig, windowWidth: nat, i: nat)
    requires TotalWidth(c) <= windowWidth && i < c.layers * c.number
    ensures var e := GenerateEnemies(c, windowWidth).enemies[i];
      && LeftMargin(c, windowWidth) <= e.position.x
      && e.position.x + e.size.width <= windowWidth
  {
    GridLayout(c, windowWidth, i);
    var n, cell := c.number, c.width + c.spaceBetween;
    ColumnInsideRow(cell, i % n, n);
    assert LeftMargin(c, windowWidth) + TotalWidth(c) <= windowWidth;
  }

  /** The enemy reaches the right edge or has left the left one. */
  predicate AtEdge(e: Enemy, windowWidth: nat)
  {
    e.position.x + e.size.width >= windowWidth || e.position.x < 1
  }

  predicate NeedsFlip(es: seq<Enemy>, windowWidth: nat)
  {
    exists i :: 0 <= i < |es| && AtEdge(es[i], windowWidth)
  }

  /** The sweep direction after one `update`: flipped once if any enemy is at an edge. */
  function SweepDirection(es: seq<Enemy>, d: Direction, windowWidth: nat): Direction
  {
    if NeedsFlip(es, windowWidth) then d.Opposite() else d
  }

  /** Moving the formation left subtracts 1 from every x on u32. */
  predicate SafeToMove(es: seq<Enemy>, d: Direction, windowWidth: nat)
  {
    SweepDirection(es, d, windowWidth) == Left ==> forall i :: 0 <= i < |es| ==> es[i].position.x >= 1
  }

  function Shifted(e: Enemy, d: Direction, down: bool): Enemy
    requires d == Left ==> e.position.x >= 1
  {
    var x := match d
      case Left => e.position.x - 1
      case Right => e.position.x + 1;
    MovedTo(e, x, e.position.y + if down then StepDown else 0)
  }

  /** The formation after one `update`. */
  function Formation(es: seq<Enemy>, d: Direction, windowWidth: nat): (r: seq<Enemy>)
    requires SafeToMove(es, d, windowWidth)
    ensures |r| == |es|
  {
    var d' := SweepDirection(es, d, windowWidth);
    var down := NeedsFlip(es, windowWidth);
    seq(|es|, i requires 0 <= i < |es| => Shifted(es[i], d', down))
  }

  /** One `update` moves every enemy by the same vector: one pixel in the new
      sweep direction, and 10 pixels down exactly when the direction flipped.
      Count, order and sizes are kept. */
  lemma FormationMovesInLockStep(es: seq<Enemy>, d: Direction, windowWidth: nat, i: nat)
    requires SafeToMove(es, d, windowWidth) && i < |es|
    ensures var r := Formation(es, d, windowWidth);
      && |r| == |es|
      && r[i].size == es[i].size
      && (SweepDirection(es, d, windowWidth) == Right ==> r[i].position.x == es[i].position.x + 1)
      && (SweepDirection(es, d, windowWidth) == Left ==> r[i].position.x == es[i].position.x - 1)
      && (NeedsFlip(es, windowWidth) ==> r[i].position.y == es[i].position.y + StepDown)
      && (!NeedsFlip(es, windowWidth) ==> r[i].position.y == es[i].position.y)
      && (SweepDirection(es, d, windowWidth) != d <==> NeedsFlip(es, windowWidth))
  {
  }

  /** The bounce: a formation sweeping right whose rightmost enemy touches the
      right edge (and that is otherwise clear of both edges) reverses, moves
      one pixel left and 10 down in that same update; the next update moves it
      left again without a second reversal or step down. */
  lemma BounceThenContinue(es: seq<Enemy>, windowWidth: nat, k: nat)
    requires k < |es| && es[k].position.x + es[k].size.width == windowWidth
    requires forall i :: 0 <= i < |es| ==> 2 <= es[i].position.x && es[i].position.x + es[i].size.width <= windowWidth
    ensures SafeToMove(es, Right, windowWidth)
    ensures SweepDirection(es, Right, windowWidth) == Left
    ensures var r := Formation(es, Right, windowWidth);
      && (forall i :: 0 <= i < |es| ==> r[i].position == Position(es[i].position.x - 1, es[i].position.y + StepDown))
      && SafeToMove(r, Left, windowWidth)
      && SweepDirection(r, Left, windowWidth) == Left
      && var r2 := Formation(r, Left, windowWidth);
         forall i :: 0 <= i < |es| ==> r2[i].position == Position(es[i].position.x - 2, es[i].position.y + StepDown)
  {
    assert AtEdge(es[k], windowWidth);
    var r := Formation(es, Right, windowWidth);
    forall i | 0 <= i < |r|
      ensures !AtEdge(r[i], windowWidth)
    {
      assert r[i] == Shifted(es[i], Left, true);
    }
  }

  /** `iter().any(...)` over the formation with the ship's collision test. */
  function AnyCollision(es: seq<Enemy>, shipPos: Position): (r: bool)
    ensures r <==> exists i :: 0 <= i < |es| && Collides(shipPos, es[i])
    ensures es == [] ==> !r
  {
    if es == [] then false
    else
      Collides(shipPos, es[0]) || (
        var rest := AnyCollision(es[1..], shipPos);
        assert forall i :: 1 <= i < |es| ==> es[1..][i - 1] == es[i];
        rest)
  }

  class EnemyManager {
    var enemies: seq<Enemy>
    var direction: Direction

    /** `EnemyManager::new`: the generated grid, sweeping right. The source
        exits when the grid does not fit; here that is a precondition (see
        `GenerateEnemies` for the exit). */
    constructor (config: EnemiesConfig, windowWidth: nat)
      requires TotalWidth(config) <= windowWidth
      ensures enemies == GenerateEnemies(config, windowWidth).enemies
      ensures direction == Right
    {
      enemies := GenerateEnemies(config, windowWidth).enemies;
      direction := Right;
    }

    /** `update`: a scan that flips the direction at the first enemy found at an
        edge and stops, then a pass that moves every enemy. */
    method Update(windowSize: Size)
      requires SafeToMove(enemies, direction, windowSize.width)
      modifies this
      ensures direction == SweepDirection(old(enemies), old(direction), windowSize.width)
      ensures enemies == Formation(old(enemies), old(direction), windowSize.width)
    {
      var moveDown := false;
      var i := 0;
      while i < |enemies|
        invariant 0 <= i <= |enemies|
        invariant !moveDown && direction == old(direction)
        invariant forall j :: 0 <= j < i ==> !AtEdge(enemies[j], windowSize.width)
      {
        var e := enemies[i];
        if e.position.x + e.size.width >= windowSize.width || e.position.x < 1 {
          direction := direction.Opposite();
          moveDown := true;
          break;
        }
        i := i + 1;
      }
      assert moveDown == NeedsFlip(enemies, windowSize.width);

      ghost var before := enemies;
      var j := 0;
      while j < |enemies|
        invariant 0 <= j <= |enemies| == |before|
        invariant before == old(enemies)
        invariant direction == SweepDirection(before, old(direction), windowSize.width)
        invariant moveDown == NeedsFlip(before, windowSize.width)
        invariant forall k :: 0 <= k < j ==> enemies[k] == Shifted(before[k], direction, moveDown)
        invariant forall k :: j <= k < |enemies| ==> enemies[k] == before[k]
      {
        var e := enemies[j];
        var newY := e.position.y + if moveDown then StepDown else 0;
        var newX: nat;
        match direction {
          case Left => newX := e.position.x - 1;
          case Right => newX := e.position.x + 1;
        }
        enemies := enemies[j := MovedTo(e, newX, newY)];
        j := j + 1;
      }
    }

    /** `retain_enemies`: the in-place `retain` with the caller's callback. */
    method RetainEnemies<S>(keep: (S, Enemy) -> (S, bool), s0: S) returns (s: S)
      modifies this
      ensures (s, enemies) == Retain.Pass(keep, s0, old(enemies))
      ensures direction == old(direction)
    {
      var kept: seq<Enemy> := [];
      s := s0;
      var i := 0;
      while i < |enemies|
        invariant 0 <= i <= |enemies|
        invariant enemies == old(enemies)
        invariant (s, kept) == Retain.Pass(keep, s0, enemies[..i])
      {
        assert enemies[..i + 1][..i] == enemies[..i];
        var answer := keep(s, enemies[i]);
        var k := answer.1;
        s := answer.0;
        if k {
          kept := kept + [enemies[i]];
        }
        i := i + 1;
      }
      assert enemies[..i] == enemies;
      enemies := kept;
    }

    /** `check_collision_with_starship`: some enemy meets the ship's test. */
    function CheckCollisionWithStarship(ship: Starship): (r: bool)
      reads this, ship
      ensures r <==> exists i :: 0 <= i < |enemies| && ship.CheckCollision(enemies[i])
    {
      AnyCollision(enemies, ship.position)
    }

    /** `remaining_enemies`: zero exactly when the formation is gone. */
    function RemainingEnemies(): (n: nat)
      reads this
      ensures n == 0 <==> enemies == []
      ensures n == |enemies|
    {
      |enemies|
    }
  }
}
