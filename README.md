# Space Invaders frame simulation, modelled in Dafny

This project models the per-frame simulation of a small Space Invaders game
written in Rust. The player's starship moves along the bottom of the window
and fires bullets up at a formation of 5 × 8 enemies. The formation sweeps
left and right and steps down each time it reverses. The Dafny model covers:

- the geometry records (`Draw`) and the shared `Direction` (`Directions`);
- the held-key tracker (`Input`);
- the three entities: bullets (`Bullets`), enemies (`Enemies`) and the
  starship (`Starships`);
- the two managers that own the live bullets (`BulletManagers`) and the
  formation (`EnemyManagers`);
- the game itself (`Games`): its Playing / GameOver / Win state machine, the
  score, and the six-step `update`.

`Retain` gives the meaning of `Vec::retain` called with a callback that
updates captured state. The callback is asked once per element, front to
back. In the model its captured state is passed in and handed back, so the
callback is a function `(S, T) -> (S, bool)`.

Values the Rust code keeps in vectors (bullets, enemies) are Dafny datatypes.
Rust's ownership rules out aliasing, so updating an element in place is the
same as replacing it. Objects whose fields the code updates in place are Dafny
classes: the starship, the input manager, both managers and the game. Their
vectors and sets become `seq` and `set` fields that their methods reassign.

Each step of a frame is also a pure function on a `World`, which holds
everything the game owns. `Game.Update` is proved to compute
`Frame(old(Snapshot()))`. The lemmas about `Frame` state the game's
properties: the invariant every frame keeps, score accounting, and the state
machine.

Some behaviour of the code is easy to misread, and the model keeps it as
written:

- One bullet removes every enemy it overlaps, scoring 100 for each, because
  the inner `retain` keeps scanning after the first hit (`BulletPassEffect`).
- `handle_win` runs after the collision check, so a frame that clears the
  last enemy ends in Win even if the ship was hit in the same frame
  (`FrameOutcome`).
- `update` has no guard on the state: after GameOver or Win every frame still
  runs all six steps (`PlayContinuesWhateverTheState`).
- A bullet's u32 `y -= speed` needs `y >= speed` at every step. The model
  requires that and proves the exact lifetime of a bullet whose start height
  is a multiple of the speed (`BulletLifetime`).
- Grid row r sits at `(r + 1) * (20 + space)`, one row's pitch below the top
  of the window (`GridLayout`).

## Model

| member | source | states |
|---|---|---|
| `Directions.Direction.Opposite` | src/game.rs:22-29 | the opposite direction is never the direction itself |
| `Directions.OppositeIsInvolution` | src/game.rs:22-29 | flipping twice gives the direction back, and a flip always changes it |
| `Retain.PassKeepsSelected` | src/managers/enemies.rs:92-97 | `retain` with a stateful callback keeps exactly the elements for which the callback answered keep, in order |
| `Retain.UnlessNegates` | src/managers/bullets.rs:44-49 | `retain(\|b\| !f(b))` asks `f` the same questions with the same captured state and keeps where `f` said false |
| `Retain.Pass` | src/managers/bullets.rs:48 | `Vec::retain` with a stateful callback: asks the callback about each element front to back, threading its state, and keeps, in order, the elements it answered keep for |
| `Retain.Unless` | src/managers/bullets.rs:48 | the callback `\|b\| !f(b)`: the same state change as `f`, with the answer negated |
| `Input.AfterEvent` | src/input_manager.rs:16-35 | a press adds its key, a release removes it, other events and all other keys are unchanged |
| `Input.PressIdempotentReleaseAbsentNoop` | src/input_manager.rs:16-22 | pressing twice equals pressing once; releasing a key that is not held is a no-op |
| `Input.InputManager.constructor` | src/input_manager.rs:10-14 | a new manager holds no keys |
| `Input.InputManager.KeyPressed` | src/input_manager.rs:16-18 | the key is held afterwards and the other keys are unchanged |
| `Input.InputManager.KeyReleased` | src/input_manager.rs:20-22 | the key is no longer held and the other keys are unchanged |
| `Input.InputManager.HandleEvent` | src/input_manager.rs:28-35 | the held keys become `AfterEvent` of the old keys and the event |
| `Input.InputManager.IsKeyPressed` | src/input_manager.rs:24-26 | true exactly when the key is in the held set |
| `Bullets.NewBulletConfig` | src/objects/bullet.rs:12-17 | a bullet config is a square of the given side with the given speed |
| `Bullets.Bullet.Size` | src/objects/bullet.rs:31-33 | a bullet's size is its config's size |
| `Bullets.IsOffScreen` | src/objects/bullet.rs:53-55 | a bullet is off screen when its y is below 1 |
| `Bullets.OffScreenIffAtTop` | src/objects/bullet.rs:53-55 | a bullet is off screen exactly when its unsigned y is 0 |
| `Bullets.Step` | src/objects/bullet.rs:57-59 | one update lowers y by exactly `speed` (which must not exceed y) and keeps x, config and size |
| `Enemies.NewEnemy` | src/objects/enemy.rs:28-34 | `new(width, height, x, y)` places the enemy at (x, y) with that width and height, in that argument order |
| `Enemies.IsHit` | src/objects/enemy.rs:36-41 | the bullet's box reaches the enemy's columns (inclusively) and the bullet's bottom edge lies within the enemy's rows (inclusively) |
| `Enemies.HitIncludesTouchingEdges` | src/objects/enemy.rs:36-41 | the hit test is inclusive: boxes whose edges only touch count as a hit |
| `Enemies.HitTestsOnlyBulletBottom` | src/objects/enemy.rs:36-41 | only the bullet's bottom edge is tested vertically: a bullet whose bottom is below the enemy is no hit even if it overlaps, and the bullet's height is irrelevant given its bottom |
| `Enemies.MovedTo` | src/objects/enemy.rs:43-46 | `update(x, y)` sets the position to exactly (x, y) and keeps the size |
| `Starships.Clamp` | src/objects/starship.rs:50 | the clamped value lies in `[lo, hi]`, equals the input inside it, and equals the nearer bound outside it |
| `Starships.MovedX` | src/objects/starship.rs:44-51 | after a move 1 ≤ x ≤ W − width; a move inside the bounds is exact; a move past a bound stops at the bound |
| `Starships.MoveByOnePixel` | src/objects/starship.rs:44-51 | with speed 1, Right from x < W − width gives x + 1 and Left from x > 1 gives x − 1; Left at 1 and Right at W − width are no-ops |
| `Starships.CollisionIsVerticalAndStrict` | src/objects/starship.rs:53-59 | the ship/enemy test ignores all x coordinates, and an enemy whose bottom is level with the ship's top does not collide |
| `Starships.Collides` | src/objects/starship.rs:53-59 | a ship collides with an enemy when the ship's top is strictly above the enemy's bottom edge |
| `Starships.ShipStart` | src/objects/starship.rs:33-34 | the ship's top is `height + 30` above the window's bottom, and its middle is within one pixel left of the window's middle |
| `Starships.Starship.Config` | src/objects/starship.rs:31-42 | the ship has size (height, width), speed 1, and starts at `ShipStart`: x = (W − width) / 2 and y = H − height − 30 |
| `Starships.Starship.MoveStarship` | src/objects/starship.rs:44-51 | only x changes, and it becomes `MovedX` of the old x |
| `Starships.Starship.CheckCollision` | src/objects/starship.rs:53-59 | `Collides` applied to the ship's current position |
| `BulletManagers.StartPosition` | src/managers/bullets.rs:26-35 | a new bullet starts level with the ship's top, with its middle over the ship's middle |
| `BulletManagers.Advanced` | src/managers/bullets.rs:37-42 | one update never adds bullets, and every bullet that survives it has y ≥ 1 |
| `BulletManagers.AdvancedMembers` | src/managers/bullets.rs:37-42 | the survivors of an update are exactly the stepped bullets that are not at y = 0 |
| `BulletManagers.AdvancedAppend` | src/managers/bullets.rs:37-42 | bullets move independently: updating a list updates each part, in order |
| `BulletManagers.AdvancedStaysFarEnough` | src/managers/bullets.rs:37-42 | bullets at least n steps below the top are still at least n − 1 steps below after one update |
| `BulletManagers.UpdatesOfNone` | src/managers/bullets.rs:37-42 | helper for `BulletLifetime`: any number of updates of an empty bullet list leave it empty |
| `BulletManagers.BulletLifetime` | src/managers/bullets.rs:37-42 | a bullet fired k speed-steps below the top is at (k − n) steps after n < k updates and is removed by exactly the k-th update |
| `BulletManagers.CheckCollisionsDropsHits` | src/managers/bullets.rs:44-49 | `check_collisions` keeps exactly the bullets for which the callback did not report a hit |
| `BulletManagers.BulletManager.constructor` | src/managers/bullets.rs:13-18 | a new manager has no bullets and the given config |
| `BulletManagers.BulletManager.Fire` | src/managers/bullets.rs:20-24 | exactly one bullet, at `StartPosition`, is appended and the others are unchanged |
| `BulletManagers.BulletManager.Update` | src/managers/bullets.rs:37-42 | the in-place `retain_mut` leaves exactly `Advanced` of the old bullets |
| `BulletManagers.BulletManager.CheckCollisions` | src/managers/bullets.rs:44-49 | the in-place `retain` leaves the bullets and callback state of `Retain.Pass` with the negated callback |
| `EnemyManagers.NewEnemiesConfig` | src/managers/enemies.rs:15-26 | the config has the given columns and width, 5 layers and a spacing of 30 |
| `EnemyManagers.GenerateEnemies` | src/managers/enemies.rs:43-65 | exit status 1 exactly when the row is wider than the window, otherwise layers × number enemies |
| `EnemyManagers.TotalWidth` | src/managers/enemies.rs:46 | the width of one row: (enemy width + spacing) × columns |
| `EnemyManagers.LeftMargin` | src/managers/enemies.rs:53 | the left margin that centres a row, rounded down |
| `EnemyManagers.GridEnemy` | src/managers/enemies.rs:56-64 | enemy i of the grid, numbered row by row from the top left |
| `EnemyManagers.GridLayout` | src/managers/enemies.rs:56-64 | enemy i is at x = margin + (width + space)·(i mod number), y = (i div number + 1)·(20 + space), with size 20 × width |
| `EnemyManagers.GridFitsWindow` | src/managers/enemies.rs:53-64 | every generated enemy lies between the left margin and the window's right edge |
| `EnemyManagers.AtEdge` | src/managers/enemies.rs:74 | an enemy touches the right edge or stands at x = 0 |
| `EnemyManagers.NeedsFlip` | src/managers/enemies.rs:70-79 | some enemy of the formation is at an edge |
| `EnemyManagers.SweepDirection` | src/managers/enemies.rs:68-80 | the direction after the scan: flipped once if some enemy is at an edge, kept otherwise |
| `EnemyManagers.Shifted` | src/managers/enemies.rs:82-88 | one enemy moved one pixel in the given direction and 10 pixels down when `move_down` is set |
| `EnemyManagers.Formation` | src/managers/enemies.rs:81-89 | every enemy shifted by the new sweep direction, and down iff the direction flipped |
| `EnemyManagers.FormationMovesInLockStep` | src/managers/enemies.rs:67-90 | every enemy moves by the same vector: ±1 in x by the new direction, +10 in y iff the direction flipped; count, order and sizes are kept |
| `EnemyManagers.BounceThenContinue` | src/managers/enemies.rs:67-90 | a right-moving formation touching the right edge reverses and steps down in the same update, and the next update moves on left without a second flip |
| `EnemyManagers.AnyCollision` | src/managers/enemies.rs:105-109 | true iff some enemy meets the ship's collision test; false for no enemies |
| `EnemyManagers.EnemyManager.constructor` | src/managers/enemies.rs:35-42 | the manager holds the generated grid and sweeps right |
| `EnemyManagers.EnemyManager.Update` | src/managers/enemies.rs:67-90 | the scan with `break` flips the direction at most once, iff some enemy is at an edge, and the pass moves the formation to `Formation` |
| `EnemyManagers.EnemyManager.RetainEnemies` | src/managers/enemies.rs:92-97 | the in-place `retain` leaves the enemies and callback state of `Retain.Pass` and keeps the direction |
| `EnemyManagers.EnemyManager.CheckCollisionWithStarship` | src/managers/enemies.rs:105-109 | true iff some enemy satisfies the ship's `CheckCollision` |
| `EnemyManagers.EnemyManager.RemainingEnemies` | src/managers/enemies.rs:111-113 | the count is zero exactly when no enemy is left |
| `Games.InitialWorld` | src/game.rs:52-68 | a new game is Playing with score 0, no bullets, no keys, direction Right, 40 enemies, a 20 × 50 ship of speed 1 and 10 × 10 bullets of speed 2 |
| `Games.InitialWorldInv` | src/game.rs:52-68 | a new game with width ≥ 642 and an even height ≥ 52 satisfies the game invariant |
| `Games.Overlaps` | src/game.rs:176 | the inner closure's test: the enemy's `IsHit` with the bullet's size and position |
| `Games.Survivors` | src/game.rs:175-183 | the enemies one bullet does not overlap, in order |
| `Games.Untouched` | src/game.rs:173-185 | the enemies no bullet of the list overlaps, in order |
| `Games.SurvivingBullets` | src/game.rs:173-185 | each bullet in turn is kept unless it overlaps an enemy the earlier bullets left |
| `Games.EnemyCheck` | src/game.rs:175-183 | the inner closure: an overlapped enemy is dropped and adds 100 to the score and sets `hit`; any other enemy is kept |
| `Games.BulletCheck` | src/game.rs:173-185 | the outer closure: runs the inner `retain` over the borrowed enemy list with a fresh `hit`, keeps the enemies and score it leaves, and answers `hit` |
| `Games.MoveShip` | src/game.rs:159-168 | a held Left key moves the ship left, then a held Right key moves it right |
| `Games.MoveFormation` | src/game.rs:198 | the enemy manager's update: `Formation` and `SweepDirection` |
| `Games.MoveBullets` | src/game.rs:199 | the bullet manager's update: `Advanced` |
| `Games.CheckStarship` | src/game.rs:201-206 | GameOver when some enemy collides with the ship, the state unchanged otherwise |
| `Games.ResolveHits` | src/game.rs:170-188 | the enemies no bullet overlaps, the bullets `SurvivingBullets` keeps, and the score plus 100 per enemy removed |
| `Games.CheckWin` | src/game.rs:190-194 | Win when no enemy is left, whatever the state was; the state unchanged otherwise |
| `Games.Frame` | src/game.rs:196-210 | the six steps of `update` in order, with no guard on the state |
| `Games.AfterEvent` | src/game.rs:97-105 | the held keys follow the event, and a Space press appends one bullet at the ship's start position |
| `Games.SurvivorsShrinkIffHit` | src/game.rs:173-185 | a bullet removes at least one enemy exactly when it overlaps one |
| `Games.UntouchedExtends` | src/game.rs:173-185 | the next bullet, run against what the earlier bullets left, leaves the enemies that none of them overlaps |
| `Games.UntouchedMembers` | src/game.rs:173-185 | an enemy survives the bullet pass exactly when no bullet overlaps it |
| `Games.SurvivingBulletsMembers` | src/game.rs:173-185 | the bullet pass only removes bullets |
| `Games.SpentBulletsAtMostDestroyedEnemies` | src/game.rs:173-185 | the pass never spends more bullets than it destroys enemies |
| `Games.EnemyCheckPass` | src/game.rs:175-183 | for one bullet, the inner `retain` drops the overlapped enemies, adds 100 per enemy dropped, and sets `hit` iff it dropped any |
| `Games.CollisionPass` | src/game.rs:170-188 | the nested pass leaves the enemies no bullet overlaps, the bullets `SurvivingBullets` keeps, and the score plus 100 per enemy removed |
| `Games.InvIsReady` | src/game.rs:196-210 | under the game invariant no step of a frame underflows |
| `Games.InFlightThroughFrame` | src/game.rs:196-210 | live bullets stay strictly below the top at an even height through the bullet update and the bullet pass |
| `Games.ClearOfLeftEdgeThroughFrame` | src/game.rs:196-210 | after a move to the right no enemy is at x = 0, also after the bullet pass |
| `Games.FramePreservesInv` | src/game.rs:196-210 | every frame keeps the invariant: ship in bounds, bullets in flight, score = 100 × enemies destroyed, Win only with no enemies |
| `Games.AfterEventPreservesInv` | src/game.rs:97-105 | handling an event keeps the invariant |
| `Games.FrameOutcome` | src/game.rs:196-210 | a frame ends in Win iff no enemy is left; else in GameOver iff an enemy meets the ship's test after the formation moved; else the state is unchanged |
| `Games.NeverBackToPlaying` | src/game.rs:190-210 | no frame sets the state back to Playing |
| `Games.WinIsAbsorbing` | src/game.rs:190-210 | once Win, the enemy list stays empty and every later frame ends in Win |
| `Games.ScoreAccounting` | src/game.rs:170-188 | enemies are never added, and a frame adds exactly 100 per enemy destroyed, so the score never decreases and changes by multiples of 100 |
| `Games.BulletPassEffect` | src/game.rs:170-188 | an enemy survives iff no bullet overlaps it (one bullet removes every enemy it overlaps), and no more bullets are spent than enemies destroyed |
| `Games.NextBulletFacesSurvivors` | src/game.rs:173-185 | each bullet is tested against the enemies the earlier bullets left and is removed iff it overlaps one of them |
| `Games.BothArrowsHeld` | src/game.rs:159-168 | with Left and Right both held, the ship's x is unchanged when x ≥ 2 and goes from 1 to 2 |
| `Games.PlayContinuesWhateverTheState` | src/game.rs:196-210 | apart from the state, a frame does the same whatever the state is: `update` has no state guard |
| `Games.SpaceFiresOneBullet` | src/game.rs:97-105 | a Space press appends exactly one bullet, centred on the ship at its top; other events leave the bullets unchanged |
| `Games.Game.constructor` | src/game.rs:52-68 | the game's parts form `InitialWorld` and satisfy the invariant |
| `Games.Game.HandleEvent` | src/game.rs:97-105 | the game becomes `AfterEvent` of the old one and keeps the invariant |
| `Games.Game.HandleStarshipMovement` | src/game.rs:159-168 | the ship moves left if Left is held, then right if Right is held |
| `Games.Game.HandleBulletCollisions` | src/game.rs:170-188 | the bullets, enemies and score become those of `ResolveHits` |
| `Games.Game.HandleWin` | src/game.rs:190-194 | the state becomes Win when no enemy is left and is unchanged otherwise |
| `Games.Game.Update` | src/game.rs:196-210 | the six steps run in order, the game becomes `Frame` of the old one, and the invariant is kept |

## Left out

- Rendering is not modelled: `draw.rs`'s `draw_block`, `draw_text` and `to_f64`, every `Drawable::draw`, and `Game::draw`, `draw_gameplay`, `draw_text_screen` and `draw_score`. These are Piston calls, float conversions and glyph measurements.
- Colours and `get_color` are not modelled. They are float constants with no effect on the simulation.
- `src/main.rs` is not modelled: it creates the window, loads the font and runs the event loop (I/O). `src/lib.rs` only declares modules.
- Piston's `Event` is reduced to `Press(key)`, `Release(key)` or `Ignored`. Mouse buttons and other inputs fall under `Ignored`, as they do for `handle_event`.
- `process::exit(1)` becomes the `ExitWithStatus(1)` result of `GenerateEnemies`. The diagnostic printed to stderr is not modelled.
- The unused `KeyboardEvents` enum and the trivial accessors `get_window_size`, `get_score` and `update_score` have no members of their own. `Game.HandleBulletCollisions` writes the score field directly.
- u32 overflow is not modelled: positions and sizes are unbounded `nat`. Only the u32 subtractions that can underflow are modelled, as preconditions. The i32 score is an `int`; the game invariant bounds it to 0..4000.
- Bullets.Step: requires y ≥ speed, because `y -= speed` on u32 underflows otherwise.
- Starships.Starship.MoveStarship: requires x ≥ speed when moving left, and a window wider than the ship. The u32 subtraction and `clamp` panic otherwise.
- EnemyManagers.EnemyManager.Update: requires `SafeToMove`: no enemy at x = 0 when the formation is to move left, since `x - 1` on u32 underflows.
- EnemyManagers.EnemyManager.constructor: requires the grid to fit. The source exits instead, and that path is modelled by `GenerateEnemies`.
- BulletManagers.BulletManager.Fire: requires the ship's middle to be at least half a bullet from the left edge, since the start position is computed with a u32 subtraction.
- Games.Game.constructor: requires a width of at least 642, because at widths 640 and 641 the grid passes the fit check with left margin 0. The first `update` then finds the enemy at x = 0, flips to Left and computes `0 - 1` on u32.
- Games.Game.constructor: also requires an even height of at least 52. The ship's top is at height − 50, and a bullet fired from an odd y reaches y = 1, where `1 - 2` underflows.
- Games.Game.HandleBulletCollisions: the callback's mutable borrow of the enemy manager is modelled by passing the enemy list through the callback's state and storing it back after the pass, because Dafny functions cannot write the heap. The order of effects is the same.
- The in-place `retain` and `retain_mut` are modelled as loops that build the kept sequence and assign it to the field once the loop ends. The `iter_mut` pass of the enemy manager's `update` is a loop that writes each `enemies[j]` in turn.
