/** The orchestrator (src/game.rs): it owns the ship, the held keys, both
    managers, the score and the game state, and runs one frame per `update`.
    Each step of a frame is a function on a `World`, the value of everything
    the game owns; `Game.Update` is proved to compute `Frame` of its old world. */
module Games {
  import opened Draw
  import opened Directions
  import Input
  import opened Bullets
  import opened Enemies
  import opened Starships
  import opened BulletManagers
  import opened EnemyManagers
  import Retain

  // The configuration `Game::new` passes to its parts.
  const ShipHeight: nat := 20
  const ShipWidth: nat := 50
  const BulletSpeed: nat := 2
  const BulletSide: nat := 10
  const EnemyColumns: nat := 8
  const EnemyWidth: nat := 50
  const PointsPerEnemy: int := 100
  /** `Layers` rows of `EnemyColumns`. */
  const EnemyCount: nat := Layers * EnemyColumns

  datatype GameState = Win | Playing | GameOver

  /** Everything the game owns, as a value. */
  datatype World = World(
    state: GameState,
    score: int,
    window: Size,
    shipPos: Position,
    shipSize: Size,
    shipSpeed: nat,
    keys: set<Input.Key>,
    bulletConfig: BulletConfig,
    bullets: seq<Bullet>,
    enemies: seq<Enemy>,
    direction: Direction)

  /** The world `Game::new(width, height)` builds. */
  function InitialWorld(width: nat, height: nat): (w: World)
    requires width >= TotalWidth(NewEnemiesConfig(EnemyColumns, EnemyWidth))
    requires height >= ShipHeight + 30
    ensures w.state == Playing && w.score == 0 && w.direction == Right
    ensures w.bullets == [] && w.keys == {}
    ensures |w.enemies| == EnemyCount
    ensures w.shipSize == Size(20, 50) && w.shipSpeed == 1
    ensures w.bulletConfig.speed == 2 && w.bulletConfig.size == Size(10, 10)
  {
    var window := Size(height, width);
    World(
      Playing, 0, window,
      ShipStart(window, ShipHeight, ShipWidth), Size(ShipHeight, ShipWidth), 1,
      {},
      NewBulletConfig(BulletSpeed, BulletSide), [],
      GenerateEnemies(NewEnemiesConfig(EnemyColumns, EnemyWidth), width).enemies, Right)
  }

  // ---------------------------------------------------------------------------
  // The bullet/enemy pass of `handle_bullet_collisions`.

  /** The closure's test: `enemy.is_hit(bullet.get_size(), bullet.get_position())`. */
  predicate Overlaps(e: Enemy, b: Bullet)
  {
    IsHit(e, b.Size(), b.position)
  }

  /** The enemies of `es` that bullet `b` does not overlap, in order. */
  function Survivors(b: Bullet, es: seq<Enemy>): (r: seq<Enemy>)
    ensures |r| <= |es|
    decreases |es|
  {
    if es == [] then []
    else
      var last := es[|es| - 1];
      Survivors(b, es[..|es| - 1]) + (if Overlaps(last, b) then [] else [last])
  }

  predicate HitsAny(b: Bullet, es: seq<Enemy>)
  {
    exists i :: 0 <= i < |es| && Overlaps(es[i], b)
  }

  predicate HitByNone(bs: seq<Bullet>, e: Enemy)
  {
    forall i :: 0 <= i < |bs| ==> !Overlaps(e, bs[i])
  }

  /** The enemies of `es` that no bullet of `bs` overlaps, in order. */
  function Untouched(bs: seq<Bullet>, es: seq<Enemy>): (r: seq<Enemy>)
    ensures |r| <= |es|
    decreases |es|
  {
    if es == [] then []
    else
      var last := es[|es| - 1];
      Untouched(bs, es[..|es| - 1]) + (if HitByNone(bs, last) then [last] else [])
  }

  /** The bullets that survive the pass: each bullet, in order, is tested
      against the enemies the earlier bullets left, and is dropped when it
      overlaps any of them. */
  function SurvivingBullets(bs: seq<Bullet>, es: seq<Enemy>): (r: seq<Bullet>)
    ensures |r| <= |bs|
    decreases |bs|
  {
    if bs == [] then []
    else
      var front := bs[..|bs| - 1];
      SurvivingBullets(front, es) + (if HitsAny(bs[|bs| - 1], Untouched(front, es)) then [] else [bs[|bs| - 1]])
  }

  lemma {:induction false} SurvivorsAppend(b: Bullet, xs: seq<Enemy>, ys: seq<Enemy>)
    ensures Survivors(b, xs + ys) == Survivors(b, xs) + Survivors(b, ys)
    decreases |ys|
  {
    if ys == [] {
      assert xs + ys == xs;
    } else {
      var m := |ys| - 1;
      assert (xs + ys)[..|xs + ys| - 1] == xs + ys[..m];
      SurvivorsAppend(b, xs, ys[..m]);
    }
  }

  /** A bullet removes at least one enemy exactly when it overlaps one. */
  lemma {:induction false} SurvivorsShrinkIffHit(b: Bullet, es: seq<Enemy>)
    ensures |Survivors(b, es)| < |es| <==> HitsAny(b, es)
    decreases |es|
  {
    if es != [] {
      var n := |es| - 1;
      var front := es[..n];
      SurvivorsShrinkIffHit(b, front);
      if HitsAny(b, front) {
        var i :| 0 <= i < n && Overlaps(front[i], b);
        assert es[i] == front[i];
      }
      if HitsAny(b, es) && !Overlaps(es[n], b) {
        var i :| 0 <= i < |es| && Overlaps(es[i], b);
        assert front[i] == es[i];
      }
    }
  }

  lemma {:induction false} UntouchedByNothing(es: seq<Enemy>)
    ensures Untouched([], es) == es
    decreases |es|
  {
    if es != [] {
      UntouchedByNothing(es[..|es| - 1]);
    }
  }

  /** Letting one more bullet through the survivors of the earlier ones leaves
      the enemies that none of them overlaps. */
  lemma {:induction false} UntouchedExtends(bs: seq<Bullet>, b: Bullet, es: seq<Enemy>)
    ensures Survivors(b, Untouched(bs, es)) == Untouched(bs + [b], es)
    decreases |es|
  {
    if es != [] {
      var n := |es| - 1;
      var last := es[n];
      UntouchedExtends(bs, b, es[..n]);
      var tail := if HitByNone(bs, last) then [last] else [];
      SurvivorsAppend(b, Untouched(bs, es[..n]), tail);
      var bs' := bs + [b];
      assert bs'[|bs|] == b;
      assert forall i :: 0 <= i < |bs| ==> bs'[i] == bs[i];
      assert HitByNone(bs', last) <==> HitByNone(bs, last) && !Overlaps(last, b);
      if HitByNone(bs, last) {
        assert [last][..0] == [];
      }
    }
  }

  /** An enemy survives the pass exactly when no bullet overlaps it. */
  lemma {:induction false} UntouchedMembers(bs: seq<Bullet>, es: seq<Enemy>, e: Enemy)
    ensures e in Untouched(bs, es) <==> e in es && HitByNone(bs, e)
    decreases |es|
  {
    if es != [] {
      var n := |es| - 1;
      UntouchedMembers(bs, es[..n], e);
      assert es == es[..n] + [es[n]];
    }
  }

  lemma {:induction false} SurvivingBulletsMembers(bs: seq<Bullet>, es: seq<Enemy>, b: Bullet)
    ensures b in SurvivingBullets(bs, es) ==> b in bs
    decreases |bs|
  {
    if bs != [] {
      var n := |bs| - 1;
      SurvivingBulletsMembers(bs[..n], es, b);
      assert bs == bs[..n] + [bs[n]];
    }
  }

  /** No more bullets are spent than enemies are destroyed. */
  lemma {:induction false} SpentBulletsAtMostDestroyedEnemies(bs: seq<Bullet>, es: seq<Enemy>)
    ensures |bs| - |SurvivingBullets(bs, es)| <= |es| - |Untouched(bs, es)|
    decreases |bs|
  {
    if bs == [] {
      UntouchedByNothing(es);
    } else {
      var n := |bs| - 1;
      var front := bs[..n];
      SpentBulletsAtMostDestroyedEnemies(front, es);
      UntouchedExtends(front, bs[n], es);
      assert front + [bs[n]] == bs;
      SurvivorsShrinkIffHit(bs[n], Untouched(front, es));
    }
  }

  /** What the inner closure of `handle_bullet_collisions` captures: the
      running score (`score_to_add`) and whether this bullet hit (`hit`). */
  datatype Tally = Tally(score: int, hit: bool)

  /** The inner closure for bullet `b`: an overlapped enemy is dropped and
      scores 100. */
  function EnemyCheck(b: Bullet): (Tally, Enemy) -> (Tally, bool)
  {
    (t: Tally, e: Enemy) =>
      if Overlaps(e, b) then (Tally(t.score + PointsPerEnemy, true), false) else (t, true)
  }

  /** What the outer closure captures: the enemy list it borrows mutably and
      the running score. */
  datatype Sweep = Sweep(enemies: seq<Enemy>, score: int)

  /** The outer closure: run `retain_enemies` with the inner closure (with a
      fresh `hit`), and report whether this bullet hit. */
  function BulletCheck(st: Sweep, b: Bullet): (Sweep, bool)
  {
    var (t, kept) := Retain.Pass(EnemyCheck(b), Tally(st.score, false), st.enemies);
    (Sweep(kept, t.score), t.hit)
  }

  /** The inner `retain` removes the overlapped enemies and adds 100 per enemy removed. */
  lemma {:induction false} EnemyCheckPass(b: Bullet, t: Tally, es: seq<Enemy>)
    ensures Retain.Pass(EnemyCheck(b), t, es)
         == (Tally(t.score + PointsPerEnemy * (|es| - |Survivors(b, es)|), t.hit || |Survivors(b, es)| < |es|),
             Survivors(b, es))
    decreases |es|
  {
    if es != [] {
      var n := |es| - 1;
      var front, last := es[..n], es[n];
      EnemyCheckPass(b, t, front);
      var sf := Survivors(b, front);
      var t1 := Tally(t.score + PointsPerEnemy * (|front| - |sf|), t.hit || |sf| < |front|);
      assert Retain.Pass(EnemyCheck(b), t, front) == (t1, sf);
      var (t2, k) := EnemyCheck(b)(t1, last);
      assert Retain.Pass(EnemyCheck(b), t, es) == (t2, if k then sf + [last] else sf);
      if Overlaps(last, b) {
        assert Survivors(b, es) == sf;
      } else {
        assert Survivors(b, es) == sf + [last];
      }
    }
  }

  /** The whole nested pass: surviving enemies are those no bullet overlaps,
      surviving bullets are `SurvivingBullets`, and the score grows by 100 per
      enemy removed. */
  lemma {:induction false} CollisionPass(bs: seq<Bullet>, es: seq<Enemy>, score: int)
    ensures Retain.Pass(Retain.Unless(BulletCheck), Sweep(es, score), bs)
         == (Sweep(Untouched(bs, es), score + PointsPerEnemy * (|es| - |Untouched(bs, es)|)),
             SurvivingBullets(bs, es))
    decreases |bs|
  {
    if bs == [] {
      UntouchedByNothing(es);
    } else {
      var n := |bs| - 1;
      var front, last := bs[..n], bs[n];
      CollisionPass(front, es, score);
      var u := Untouched(front, es);
      var st := Sweep(u, score + PointsPerEnemy * (|es| - |u|));
      assert Retain.Pass(Retain.Unless(BulletCheck), Sweep(es, score), front) == (st, SurvivingBullets(front, es));
      EnemyCheckPass(last, Tally(st.score, false), u);
      UntouchedExtends(front, last, es);
      assert front + [last] == bs;
      SurvivorsShrinkIffHit(last, u);
      var sv := Survivors(last, u);
      assert BulletCheck(st, last) == (Sweep(sv, st.score + PointsPerEnemy * (|u| - |sv|)), |sv| < |u|);
      assert sv == Untouched(bs, es);
      var (st2, k) := Retain.Unless(BulletCheck)(st, last);
      assert st2 == Sweep(sv, st.score + PointsPerEnemy * (|u| - |sv|)) && k == !HitsAny(last, u);
      assert Retain.Pass(Retain.Unless(BulletCheck), Sweep(es, score), bs)
          == (st2, if k then SurvivingBullets(front, es) + [last] else SurvivingBullets(front, es));
      assert SurvivingBullets(bs, es) == SurvivingBullets(front, es) + (if HitsAny(last, u) then [] else [last]);
      assert st2.score == score + PointsPerEnemy * (|es| - |sv|);
      var p := Retain.Pass(Retain.Unless(BulletCheck), Sweep(es, score), bs);
      assert p.0 == Sweep(Untouched(bs, es), score + PointsPerEnemy * (|es| - |Untouched(bs, es)|));
      assert p.1 == SurvivingBullets(bs, es);
    }
  }

  // ---------------------------------------------------------------------------
  // The steps of one frame, in the order `update` runs them.

  /** Step 1, `handle_starship_movement`: a held Left key moves the ship left,
      then a held Right key moves it right. */
  function MoveShip(w: World): World
    requires w.shipSize.width < w.window.width && w.shipPos.x >= w.shipSpeed
  {
    var x1 := if Input.Left in w.keys
      then MovedX(w.shipPos.x, Left, w.shipSpeed, w.window.width, w.shipSize.width)
      else w.shipPos.x;
    var x2 := if Input.Right in w.keys
      then MovedX(x1, Right, w.shipSpeed, w.window.width, w.shipSize.width)
      else x1;
    w.(shipPos := w.shipPos.(x := x2))
  }

  /** Step 2, the enemy manager's `update`. */
  function MoveFormation(w: World): World
    requires SafeToMove(w.enemies, w.direction, w.window.width)
  {
    w.(enemies := Formation(w.enemies, w.direction, w.window.width),
       direction := SweepDirection(w.enemies, w.direction, w.window.width))
  }

  /** Step 3, the bullet manager's `update`. */
  function MoveBullets(w: World): World
    requires CanAdvance(w.bullets)
  {
    w.(bullets := Advanced(w.bullets))
  }

  /** Step 4: GameOver when some enemy reaches the ship's line. */
  function CheckStarship(w: World): World
  {
    w.(state := if AnyCollision(w.enemies, w.shipPos) then GameOver else w.state)
  }

  /** Step 5, `handle_bullet_collisions`. */
  function ResolveHits(w: World): World
  {
    var survivors := Untouched(w.bullets, w.enemies);
    w.(bullets := SurvivingBullets(w.bullets, w.enemies),
       enemies := survivors,
       score := w.score + PointsPerEnemy * (|w.enemies| - |survivors|))
  }

  /** Step 6, `handle_win`: Win when no enemy is left, whatever the state was. */
  function CheckWin(w: World): World
  {
    w.(state := if |w.enemies| == 0 then Win else w.state)
  }

  /** What a frame needs so that no u32 subtraction underflows. */
  predicate Ready(w: World)
  {
    && w.shipSize.width < w.window.width
    && w.shipPos.x >= w.shipSpeed
    && SafeToMove(w.enemies, w.direction, w.window.width)
    && CanAdvance(w.bullets)
  }

  /** `update`: all six steps, in order, whatever the state. */
  function Frame(w: World): World
    requires Ready(w)
  {
    CheckWin(ResolveHits(CheckStarship(MoveBullets(MoveFormation(MoveShip(w))))))
  }

  /** `handle_event`: the held keys follow the event, and a Space press fires
      one bullet from the ship. */
  function AfterEvent(w: World, ev: Input.Event): World
    requires w.shipPos.x + w.shipSize.width / 2 >= w.bulletConfig.size.width / 2
  {
    var fired := if ev == Input.Press(Input.Space)
      then [Bullet(StartPosition(w.shipPos, w.shipSize, w.bulletConfig.size), w.bulletConfig)]
      else [];
    w.(keys := Input.AfterEvent(w.keys, ev), bullets := w.bullets + fired)
  }

  // ---------------------------------------------------------------------------
  // What holds of every world the game reaches.

  /** A live bullet shares the manager's config, is below the top and an even
      number of pixels from it, so it can always take its next 2-pixel step. */
  predicate InFlight(b: Bullet, config: BulletConfig)
  {
    b.config == config && 0 < b.position.y && b.position.y % BulletSpeed == 0
  }

  predicate AllInFlight(bs: seq<Bullet>, config: BulletConfig)
  {
    forall i :: 0 <= i < |bs| ==> InFlight(bs[i], config)
  }

  /** No enemy is at x = 0, so the formation can move left. */
  predicate ClearOfLeftEdge(es: seq<Enemy>)
  {
    forall i :: 0 <= i < |es| ==> es[i].position.x >= 1
  }

  predicate Inv(w: World)
  {
    && w.shipSize == Size(ShipHeight, ShipWidth) && w.shipSpeed == 1
    && w.bulletConfig == BulletConfig(BulletSpeed, Size(BulletSide, BulletSide))
    && w.shipSize.width < w.window.width
    && 1 <= w.shipPos.x <= w.window.width - w.shipSize.width
    && 0 < w.shipPos.y && w.shipPos.y % BulletSpeed == 0
    && AllInFlight(w.bullets, w.bulletConfig)
    && (w.direction == Right ==> ClearOfLeftEdge(w.enemies))
    && |w.enemies| <= EnemyCount
    && w.score == PointsPerEnemy * (EnemyCount - |w.enemies|)
    && (w.state == Win ==> w.enemies == [])
  }

  /** A new game satisfies the invariant when the window is at least 642 wide
      (so the grid starts at x >= 1) and its height is even and at least 52 (so
      the ship's top, where bullets start, is a positive even y). */
  lemma InitialWorldInv(width: nat, height: nat)
    requires width >= 642 && height >= 52 && height % 2 == 0
    ensures Inv(InitialWorld(width, height))
  {
    var c := NewEnemiesConfig(EnemyColumns, EnemyWidth);
    var w := InitialWorld(width, height);
    assert LeftMargin(c, width) >= 1;
    forall i | 0 <= i < |w.enemies|
      ensures w.enemies[i].position.x >= 1
    {
      GridFitsWindow(c, width, i);
    }
  }

  lemma InvIsReady(w: World)
    requires Inv(w)
    ensures Ready(w)
  {
    if SweepDirection(w.enemies, w.direction, w.window.width) == Left && w.direction == Left {
      assert !NeedsFlip(w.enemies, w.window.width);
    }
  }

  /** Bullets in flight stay in flight through a step and through the bullet pass. */
  lemma InFlightThroughFrame(bs: seq<Bullet>, es: seq<Enemy>, config: BulletConfig)
    requires config.speed == BulletSpeed && AllInFlight(bs, config)
    ensures CanAdvance(bs)
    ensures AllInFlight(Advanced(bs), config)
    ensures AllInFlight(SurvivingBullets(Advanced(bs), es), config)
  {
    var r := Advanced(bs);
    forall i | 0 <= i < |r|
      ensures InFlight(r[i], config)
    {
      AdvancedMembers(bs, r[i]);
    }
    var r' := SurvivingBullets(r, es);
    forall i | 0 <= i < |r'|
      ensures InFlight(r'[i], config)
    {
      SurvivingBulletsMembers(r, es, r'[i]);
    }
  }

  /** After a move to the right no enemy is at x = 0, and the bullet pass only removes enemies. */
  lemma ClearOfLeftEdgeThroughFrame(es: seq<Enemy>, d: Direction, windowWidth: nat, bs: seq<Bullet>)
    requires SafeToMove(es, d, windowWidth) && SweepDirection(es, d, windowWidth) == Right
    ensures ClearOfLeftEdge(Untouched(bs, Formation(es, d, windowWidth)))
  {
    var r := Formation(es, d, windowWidth);
    forall i | 0 <= i < |r|
      ensures r[i].position.x >= 1
    {
      FormationMovesInLockStep(es, d, windowWidth, i);
    }
    var u := Untouched(bs, r);
    forall i | 0 <= i < |u|
      ensures u[i].position.x >= 1
    {
      UntouchedMembers(bs, r, u[i]);
    }
  }

  /** Every frame keeps the invariant. */
  lemma FramePreservesInv(w: World)
    requires Inv(w)
    ensures Ready(w) && Inv(Frame(w))
  {
    InvIsReady(w);
    var w1 := MoveShip(w);
    var w2 := MoveFormation(w1);
    InFlightThroughFrame(w.bullets, w2.enemies, w.bulletConfig);
    if w2.direction == Right {
      ClearOfLeftEdgeThroughFrame(w1.enemies, w1.direction, w1.window.width, Advanced(w.bullets));
    }
    assert |w2.enemies| == |w.enemies|;
  }

  /** `handle_event` keeps the invariant. */
  lemma AfterEventPreservesInv(w: World, ev: Input.Event)
    requires Inv(w)
    ensures w.shipPos.x + w.shipSize.width / 2 >= w.bulletConfig.size.width / 2
    ensures Inv(AfterEvent(w, ev))
  {
  }

  // ---------------------------------------------------------------------------
  // What a frame does to the state, the score and the entities.

  /** The state after a frame: Win when no enemy is left after the bullet
      pass, even if the collision check had just set GameOver; otherwise
      GameOver when an enemy reached the ship after the formation moved;
      otherwise unchanged. */
  lemma FrameOutcome(w: World)
    requires Ready(w)
    ensures var after := MoveFormation(MoveShip(w)).enemies;
      Frame(w).state == (if Frame(w).enemies == [] then Win
                         else if AnyCollision(after, w.shipPos) then GameOver
                         else w.state)
  {
  }

  /** No frame returns the game to Playing. */
  lemma NeverBackToPlaying(w: World)
    requires Ready(w) && w.state != Playing
    ensures Frame(w).state != Playing
  {
  }

  /** Win is absorbing: with no enemy left nothing can collide and the count stays 0. */
  lemma WinIsAbsorbing(w: World)
    requires Inv(w) && w.state == Win
    ensures Ready(w) && Frame(w).state == Win && Frame(w).enemies == []
  {
    InvIsReady(w);
    assert MoveFormation(MoveShip(w)).enemies == [];
  }

  /** The score grows by exactly 100 per enemy destroyed in the frame, so it
      never decreases and stays a multiple of 100; enemies are never added. */
  lemma ScoreAccounting(w: World)
    requires Ready(w)
    ensures |Frame(w).enemies| <= |w.enemies|
    ensures Frame(w).score == w.score + PointsPerEnemy * (|w.enemies| - |Frame(w).enemies|)
    ensures Frame(w).score >= w.score
    ensures (Frame(w).score - w.score) % PointsPerEnemy == 0
  {
    var w2 := MoveFormation(MoveShip(w));
    assert |w2.enemies| == |w.enemies|;
  }

  /** The frame's bullet pass, as seen from the enemies: an enemy survives
      exactly when no bullet overlaps it (so one bullet removes every enemy it
      overlaps), and no more bullets are spent than enemies destroyed. */
  lemma BulletPassEffect(w: World, e: Enemy)
    ensures e in ResolveHits(w).enemies <==> e in w.enemies && HitByNone(w.bullets, e)
    ensures |w.bullets| - |ResolveHits(w).bullets| <= |w.enemies| - |ResolveHits(w).enemies|
  {
    UntouchedMembers(w.bullets, w.enemies, e);
    SpentBulletsAtMostDestroyedEnemies(w.bullets, w.enemies);
  }

  /** The bullet pass, as seen from one more bullet: it is tested against the
      enemies the earlier bullets left, is dropped exactly when it overlaps
      one of them, and then removes all those it overlaps. */
  lemma NextBulletFacesSurvivors(bs: seq<Bullet>, b: Bullet, es: seq<Enemy>)
    ensures SurvivingBullets(bs + [b], es)
         == SurvivingBullets(bs, es) + (if HitsAny(b, Untouched(bs, es)) then [] else [b])
    ensures Untouched(bs + [b], es) == Survivors(b, Untouched(bs, es))
    ensures HitsAny(b, Untouched(bs, es)) <==> |Untouched(bs + [b], es)| < |Untouched(bs, es)|
  {
    assert (bs + [b])[..|bs|] == bs;
    UntouchedExtends(bs, b, es);
    SurvivorsShrinkIffHit(b, Untouched(bs, es));
  }

  /** With both arrow keys held the ship moves left then right: it stays put,
      except at the left bound, where it ends one pixel further right. */
  lemma BothArrowsHeld(w: World)
    requires Inv(w) && Input.Left in w.keys && Input.Right in w.keys
    requires w.window.width - w.shipSize.width >= 2
    ensures MoveShip(w).shipPos == w.shipPos.(x := if w.shipPos.x >= 2 then w.shipPos.x else 2)
  {
  }

  /** `update` has no guard on the state: apart from the state itself, a frame
      does the same thing whether the game is Playing, over, or won. */
  lemma PlayContinuesWhateverTheState(w: World, s: GameState)
    requires Ready(w)
    ensures Ready(w.(state := s))
    ensures Frame(w.(state := s)).(state := Playing) == Frame(w).(state := Playing)
  {
  }

  /** Firing: a Space press appends exactly one bullet, centred on the ship
      at its top; any other event leaves the bullets alone. */
  lemma SpaceFiresOneBullet(w: World, ev: Input.Event)
    requires Inv(w)
    ensures w.shipPos.x + w.shipSize.width / 2 >= w.bulletConfig.size.width / 2
    ensures var w' := AfterEvent(w, ev);
      && w'.bullets[..|w.bullets|] == w.bullets
      && (ev == Input.Press(Input.Space) ==>
            |w'.bullets| == |w.bullets| + 1
            && w'.bullets[|w.bullets|].position.y == w.shipPos.y
            && w'.bullets[|w.bullets|].position.x + BulletSide / 2 == w.shipPos.x + ShipWidth / 2)
      && (ev != Input.Press(Input.Space) ==> w'.bullets == w.bullets)
  {
  }

  // ---------------------------------------------------------------------------

  class Game {
    var state: GameState
    const windowSize: Size
    const starship: Starship
    const inputManager: Input.InputManager
    const bulletsManager: BulletManager
    const enemiesManager: EnemyManager
    var score: int

    function Snapshot(): World
      reads this, starship, inputManager, bulletsManager, enemiesManager
    {
      World(state, score, windowSize,
            starship.position, starship.size, starship.moveSpeed,
            inputManager.keys,
            bulletsManager.config, bulletsManager.bullets,
            enemiesManager.enemies, enemiesManager.direction)
    }

    ghost predicate Valid()
      reads this, starship, inputManager, bulletsManager, enemiesManager
    {
      Inv(Snapshot())
    }

    /** `Game::new(width, height)`. The source exits when the grid is wider
        than the window; below a width of 642 or with an odd or too small
        height a later u32 subtraction would underflow, so those are excluded. */
    constructor (width: nat, height: nat)
      requires width >= 642 && height >= 52 && height % 2 == 0
      ensures Valid() && Snapshot() == InitialWorld(width, height)
    {
      var window := Size(height, width);
      var ship := new Starship.Config(window, ShipHeight, ShipWidth);
      var bulletConfig := NewBulletConfig(BulletSpeed, BulletSide);
      var enemiesConfig := NewEnemiesConfig(EnemyColumns, EnemyWidth);
      windowSize := window;
      starship := ship;
      inputManager := new Input.InputManager();
      bulletsManager := new BulletManager(bulletConfig);
      enemiesManager := new EnemyManager(enemiesConfig, width);
      score := 0;
      state := Playing;
      new;
      InitialWorldInv(width, height);
    }

    /** `handle_event`. */
    method HandleEvent(ev: Input.Event)
      requires Valid()
      modifies inputManager, bulletsManager
      ensures Valid() && Snapshot() == AfterEvent(old(Snapshot()), ev)
    {
      AfterEventPreservesInv(Snapshot(), ev);
      inputManager.HandleEvent(ev);
      if ev.Press? && ev.key == Input.Space {
        bulletsManager.Fire(starship);
      }
    }

    method HandleStarshipMovement()
      requires starship.size.width < windowSize.width && starship.position.x >= starship.moveSpeed
      modifies starship
      ensures Snapshot() == MoveShip(old(Snapshot()))
    {
      var screenWidth := windowSize.width;
      if inputManager.IsKeyPressed(Input.Left) {
        starship.MoveStarship(Left, screenWidth);
      }
      if inputManager.IsKeyPressed(Input.Right) {
        starship.MoveStarship(Right, screenWidth);
      }
    }

    /** `handle_bullet_collisions`: the callback borrows the enemy manager
        mutably; here its list travels in the callback's state and is stored
        back when the pass is over. */
    method HandleBulletCollisions()
      modifies this, bulletsManager, enemiesManager
      ensures Snapshot() == ResolveHits(old(Snapshot()))
    {
      CollisionPass(bulletsManager.bullets, enemiesManager.enemies, score);
      var sweep := bulletsManager.CheckCollisions(BulletCheck, Sweep(enemiesManager.enemies, score));
      enemiesManager.enemies := sweep.enemies;
      score := sweep.score;
    }

    method HandleWin()
      modifies this
      ensures Snapshot() == CheckWin(old(Snapshot()))
    {
      if enemiesManager.RemainingEnemies() == 0 {
        state := Win;
      }
    }

    /** `update`: one frame. */
    method Update()
      requires Valid()
      modifies this, starship, bulletsManager, enemiesManager
      ensures Valid() && Snapshot() == Frame(old(Snapshot()))
    {
      FramePreservesInv(Snapshot());
      HandleStarshipMovement();
      enemiesManager.Update(windowSize);
      bulletsManager.Update();
      if enemiesManager.CheckCollisionWithStarship(starship) {
        state := GameOver;
      }
      HandleBulletCollisions();
      HandleWin();
    }
  }
}
