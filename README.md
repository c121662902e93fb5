# SpaceDefenders enemy formation, modelled in Dafny

This project models the game logic of SpaceDefenders, a small Qt shoot-'em-up:

- the enemy formation controller (`EnemyManager`);
- the enemy record (`Enemy`);
- the player's paddle (`Player`);
- the straight-line shots (`Projectile`).

The formation controller does the following:

- It lays out a grid of enemies. Rows are banded into Basic, Shooter and Diver types.
- It keeps a shared formation origin that drifts sideways. When the box around the enemies standing in formation crosses a window edge, it bounces and descends.
- Every tick, it drives each alive enemy through InFormation → Diving → Returning → InFormation.
- It runs each enemy's shoot timer. Shots are appended to the caller's projectile list.
- It speeds the formation up as enemies die.
- It can mark one slot dead, and it can report whether every enemy is dead.

Files:

- `wrappers.dfy`: `Option`.
- `geometry.dfy`: points, the straight return path and the quadratic dive arc.
- `enemy.dfy`: the `Enemy` record and its enums.
- `projectile.dfy`: the `Projectile` class.
- `player.dfy`: the `Player` class.
- `formation.dfy`: the controller's behaviour as functions on values:
  - the grid;
  - the bounding box;
  - one enemy's tick and a whole sweep;
  - what a tick may do to an enemy;
  - the difficulty formula;
  - the kill.
- `formation_proofs.dfy`: the properties of those functions.
- `enemy_manager.dfy`: the `EnemyManager` class. Its methods keep the source's loops and in-place updates, and each one is proved against the functions in `formation.dfy`.

How the model stands for the C++:

- **Numbers.** Doubles are `real`, and `QPointF` is a pair of reals.
- **Randomness.** The random engine is a stream `rng: nat -> real` of canonical draws in [0, 1), plus a cursor `drawn` that counts how much of the stream has been used. A call of `uniform_real_distribution(a, b)` consumes one draw `u` and yields `a + (b - a) * u`. Every property about a tick is proved for every such stream.
- **Output list.** The output vector `outProjectiles` is passed in as a sequence of `Projectile` objects and returned with the new shots appended.

## Model

| member | source | states |
|---|---|---|
| Geometry.Max | SpaceDefenders/Player.cpp:15 | `std::max`: the result is at least both arguments and is one of them |
| Geometry.LerpStart | SpaceDefenders/EnemyManager.cpp:133-135 | the linear return path starts at `diveStart` (t = 0); t = 1 is never evaluated, since a return at `diveT >= 1` snaps to the slot instead |
| Geometry.BezierStart | SpaceDefenders/EnemyManager.cpp:119-122 | the quadratic dive arc starts at `diveStart`, whatever the control point; t = 1 is never evaluated, since a dive at `diveT >= 1` keeps its last arc point |
| Enemies.NewEnemy | SpaceDefenders/Enemy.h:13-14 | the constructor `Enemy(t, r, c)`: the given type, row and column, and every other field at its default; `NewEnemyDefaults` states the values |
| Enemies.DefaultEnemy | SpaceDefenders/Enemy.h:12 | the defaulted constructor `Enemy()`: `NewEnemy(Basic, 0, 0)` |
| Enemies.NewEnemyDefaults | SpaceDefenders/Enemy.h:11-33 | a new enemy stores its type, row and column, is alive and InFormation, and has zero position, offset, timer and `diveT`; `Enemy()` is a Basic at (0, 0) |
| Projectiles.Projectile.constructor | SpaceDefenders/Projectile.cpp:4-6 | stores x, y, w, h and speed unchanged; w, h and speed default to 6, 12 and 600 |
| Projectiles.Advanced | SpaceDefenders/Projectile.cpp:10 | the new y after a step, `y - speed * dt`; `AdvanceDirection` and `AdvanceByZero` state its direction and its zero step |
| Projectiles.Projectile.IsOffscreen | SpaceDefenders/Projectile.cpp:21-24 | the source's test `y + 0.0 < 0.0`; it never reads its `windowHeight` argument, and `OffscreenIgnoresHeight` states the consequence |
| Projectiles.Projectile.Update | SpaceDefenders/Projectile.cpp:8-11 | y becomes `y - speed * dt`; only y may change, since x, w, h and speed are constants |
| Projectiles.AdvanceDirection | SpaceDefenders/Projectile.cpp:10 | for dt > 0, a positive speed lowers y, a negative speed (enemy shots) raises it, and zero keeps it |
| Projectiles.AdvanceByZero | SpaceDefenders/Projectile.cpp:10 | `update(0)` leaves y where it is |
| Projectiles.OffscreenIgnoresHeight | SpaceDefenders/Projectile.cpp:21-24 | `isOffscreen(H)` holds exactly when y < 0, and gives the same answer for every window height |
| Players.Steered | SpaceDefenders/Player.cpp:8-18 | the new x lies in [0, max(0, windowWidth - w)]; it is 0 when the window is no wider than the paddle; an in-range move is kept exactly |
| Players.Player.constructor | SpaceDefenders/Player.cpp:4-6 | stores x, w, h and speed unchanged; they default to 0, 80, 20 and 350 |
| Players.Player.Update | SpaceDefenders/Player.cpp:8-18 | the move-then-clamp step changes only x, to `Steered` of the old x, which is inside the clamp range |
| Players.Player.SetX | SpaceDefenders/Player.h:18 | x becomes v; w, h and speed are untouched |
| Players.Player.SetSize | SpaceDefenders/Player.h:21 | w and h become the arguments; x and speed are untouched |
| Players.Player.SetSpeed | SpaceDefenders/Player.h:22 | only the speed changes |
| Players.IdleIsIdentity | SpaceDefenders/Player.cpp:11-17 | with direction 0, an x that is already in range is kept |
| Players.IdleAfterStepIsIdempotent | SpaceDefenders/Player.cpp:11-17 | after any step, a further idle step changes nothing |
| Formation.Cooldown | SpaceDefenders/EnemyManager.h:57-58 | both cooldowns are positive and at most the basic one; the cooldown is shorter exactly for Shooters |
| Formation.Band | SpaceDefenders/EnemyManager.cpp:26-28 | rows below rows/3 are Basic, rows from rows/3 up to 2*rows/3 are Shooter, and the rest are Diver, all by integer division |
| Formation.AliveCount | SpaceDefenders/EnemyManager.cpp:169-170 | the alive count never exceeds the array's length |
| Formation.GridEnemy | SpaceDefenders/EnemyManager.cpp:26-36 | the enemy built at cell (r, c) from its timer draw: the band's type, offset (c * sx, r * sy), position origin plus offset, timer `uniform(0, cooldown)`; `GridLayout` states its fields |
| Formation.GridRow | SpaceDefenders/EnemyManager.cpp:24-38 | the first n columns of row r, column c using draw k + c; `GridRowAt` indexes it |
| Formation.GridRows | SpaceDefenders/EnemyManager.cpp:23-39 | the first n rows, row after row, row r starting at draw k + r * cols; `GridRowsAt` indexes it |
| Formation.Grid | SpaceDefenders/EnemyManager.cpp:16-39 | the whole array after `initGrid`; `GridLayout` and `GridLength` state its contents and length |
| Formation.Extent | SpaceDefenders/EnemyManager.cpp:44-53 | the min/max accumulation over the alive in-formation enemies, with no value while none was seen (the infinity sentinel); `ExtentSpec` characterises it |
| Formation.FormationBounds | SpaceDefenders/EnemyManager.cpp:42-59 | the extent, collapsed to (0, 0) when no enemy counted; `ExtentSpec` and `NoFormationNoBounce` state its meaning |
| Formation.DiveAim | SpaceDefenders/EnemyManager.cpp:99 | the dive target `(playerX - enemyW / 2, originY + 200)` |
| Formation.ArcMid | SpaceDefenders/EnemyManager.cpp:119 | the arc's control point: midway in x, 80 below the lower of the two ends |
| Formation.Muzzle | SpaceDefenders/EnemyManager.cpp:151-152 | where a shot spawns: `(pos.x + enemyW / 2, pos.y + enemyH)` |
| Formation.Maneuver | SpaceDefenders/EnemyManager.cpp:85-137 | the movement part of an alive enemy's tick, by state, with the draw it reads; `ManeuverSpec` states its properties |
| Formation.Fire | SpaceDefenders/EnemyManager.cpp:140-165 | the shooting part of a tick: timer run-down, roll, shot and reset, with the draws it reads; `FireSpec` states its properties |
| Formation.StepEnemy | SpaceDefenders/EnemyManager.cpp:83-165 | one enemy's tick: a dead enemy is skipped, the others move and then shoot; `StepEnemySpec` states its properties |
| Formation.StepAll | SpaceDefenders/EnemyManager.cpp:82-166 | the per-enemy loop over the whole array in index order, collecting the shots; `StepAllTransitions` and `StepAllShots` state its properties |
| Formation.Speed | SpaceDefenders/EnemyManager.cpp:173-175 | the formation speed `40 * (1 + (1 - alive/total) * 2)`; `SpeedBounds` and `SpeedMonotone` state its range and monotonicity |
| Formation.Killed | SpaceDefenders/EnemyManager.cpp:195-201 | the array after `killEnemy(index)`; `KillSpec` states its effect |
| FormationProofs.GridRowAt | SpaceDefenders/EnemyManager.cpp:24-37 | row r built for n columns has n enemies, and column c is the enemy built at (r, c) with draw k + c |
| FormationProofs.GridRowsLength | SpaceDefenders/EnemyManager.cpp:23-39 | n rows of cols columns hold n * cols enemies |
| FormationProofs.GridRowsPrefix | SpaceDefenders/EnemyManager.cpp:23-37 | appending a row leaves every earlier index unchanged |
| FormationProofs.GridRowsLast | SpaceDefenders/EnemyManager.cpp:24-37 | column c of the newest row sits right after the earlier rows and uses the draw of its index |
| FormationProofs.GridRowsAt | SpaceDefenders/EnemyManager.cpp:23-37 | the enemy at index r*cols+c is the one built at row r, column c, from draw k + r*cols + c |
| FormationProofs.GridRowPlaced | SpaceDefenders/EnemyManager.cpp:30-32 | every enemy of a row is alive, in formation, and offset by (col * sx, row * sy) |
| FormationProofs.GridRowsPlaced | SpaceDefenders/EnemyManager.cpp:23-37 | the same holds for every enemy of the first n rows |
| FormationProofs.GridLayout | SpaceDefenders/EnemyManager.cpp:16-37 | `initGrid` makes rows*cols enemies in row-major order; index r*cols+c has row r, column c and its band's type; its offset is (c*sx, r*sy) and its position is origin plus offset; it is alive and InFormation, with a timer in [0, cooldown] |
| FormationProofs.GridLength | SpaceDefenders/EnemyManager.cpp:23-24 | the grid has rows * cols enemies; a non-positive row count gives none, and a negative column count counts as zero |
| FormationProofs.GridRowsWidth | SpaceDefenders/EnemyManager.cpp:24 | a negative column count builds the same rows as zero columns |
| FormationProofs.BandsInRowOrder | SpaceDefenders/EnemyManager.cpp:26-28 | types go in row order: no Diver row comes above a non-Diver row, and no Basic row comes below a non-Basic row |
| FormationProofs.ExtentSpec | SpaceDefenders/EnemyManager.cpp:42-59 | the box is empty exactly when no enemy is both alive and InFormation; otherwise lo is the least `originX + localX` and hi the greatest `originX + localX + enemyW` over those enemies, and each edge is attained |
| FormationProofs.NoFormationNoBounce | SpaceDefenders/EnemyManager.cpp:54-58 | with no alive in-formation enemy the box is (0, 0), so neither edge test fires in a window of non-negative width |
| FormationProofs.ManeuverSpec | SpaceDefenders/EnemyManager.cpp:85-137 | the movement part keeps type, cell, offset, liveness and timer; it follows the state machine; it keeps `diveT` in [0, 1]; and it reads at most one draw |
| FormationProofs.FireSpec | SpaceDefenders/EnemyManager.cpp:140-165 | the shooting part changes only the timer, by the timer rule; it reads at most two draws; a shot comes only when the timer ran out, from the bottom centre, with the timer reset into [cooldown, 1.4 * cooldown); an expired timer whose roll misses is reset into [0.05, 0.5) |
| FormationProofs.StepEnemySpec | SpaceDefenders/EnemyManager.cpp:83-165 | one enemy's tick is a legal `Transition` for every canonical stream: dead enemies are untouched, liveness never changes, only Divers leave the formation, the dive and return end as the source sets them, and the timer is positive after a reset; a shot comes only from an alive enemy whose timer expired, with its timer reset into [cooldown, 1.4 * cooldown); an expired timer that does not fire is reset into [0.05, 0.5) |
| FormationProofs.StepAllTransitions | SpaceDefenders/EnemyManager.cpp:82-166 | the per-enemy loop keeps the length, makes every enemy take a legal transition, and reads at most three draws per enemy |
| FormationProofs.StepAllShots | SpaceDefenders/EnemyManager.cpp:139-166 | the loop emits at most one shot per enemy, in index order, each from an alive enemy, at its bottom centre, with that enemy's timer reset to at least the cooldown |
| FormationProofs.DiveRoundTrip | SpaceDefenders/EnemyManager.cpp:103-137 | an uninterrupted dive with long enough steps is Returning after one tick, aimed at its formation slot, and back InFormation exactly at origin plus offset after the next |
| FormationProofs.AliveCountZero | SpaceDefenders/EnemyManager.cpp:187-193 | the alive count is zero exactly when no enemy is alive, including for the empty array |
| FormationProofs.SameLivenessSameCount | SpaceDefenders/EnemyManager.cpp:169-170 | arrays with the same liveness at every index have the same alive count |
| FormationProofs.TickKeepsAliveCount | SpaceDefenders/EnemyManager.cpp:82-170 | a tick never changes how many enemies are alive |
| FormationProofs.KillSpec | SpaceDefenders/EnemyManager.cpp:195-201 | `killEnemy(i)` keeps the length and every other slot and marks slot i dead; the alive count falls by one exactly when that enemy was alive; an index past the end changes nothing |
| FormationProofs.RatioBounds | SpaceDefenders/EnemyManager.cpp:173 | the alive ratio lies in [0, 1] |
| FormationProofs.SpeedBounds | SpaceDefenders/EnemyManager.cpp:172-176 | the recomputed speed lies between 40 and 120 |
| FormationProofs.RatioMonotone | SpaceDefenders/EnemyManager.cpp:173 | the alive ratio grows with the alive count |
| FormationProofs.SpeedMonotone | SpaceDefenders/EnemyManager.cpp:175 | more enemies alive never gives a higher speed |
| FormationProofs.KillNeverSlows | SpaceDefenders/EnemyManager.cpp:195-201 | killing an enemy never lowers the next recomputed speed |
| EnemyManagers.SweptStep | SpaceDefenders/EnemyManager.cpp:82-166 | one more iteration of the per-enemy loop extends the sweep by that enemy's step, and by its projectile if it fired |
| EnemyManagers.TickKeepsConsistent | SpaceDefenders/EnemyManager.cpp:82-137 | legal transitions keep liveness in agreement with the Dead state and keep every offset equal to cell times spacing |
| EnemyManagers.SweepKeepsConsistent | SpaceDefenders/EnemyManager.cpp:82-166 | a whole sweep keeps every enemy consistent, whatever the draws |
| EnemyManagers.EnemyManager.constructor | SpaceDefenders/EnemyManager.h:36-49 | no enemies; origin (100, 50), `dir` 1, speed 40, spacing 64 by 48; the engine's stream is unread |
| EnemyManagers.EnemyManager.Draw | SpaceDefenders/EnemyManager.cpp:36 | a draw returns the next value of the stream and advances the cursor by one |
| EnemyManagers.EnemyManager.InitGrid | SpaceDefenders/EnemyManager.cpp:12-40 | origin and spacing are set; a negative rows*cols makes `reserve` throw with the array cleared; otherwise the array is exactly the grid, with one draw per enemy, and the manager stays valid |
| EnemyManagers.EnemyManager.FillGrid | SpaceDefenders/EnemyManager.cpp:23-39 | the row loop builds the whole grid from the current origin and spacing, and leaves every enemy consistent |
| EnemyManagers.EnemyManager.AppendRow | SpaceDefenders/EnemyManager.cpp:24-38 | the column loop appends row r, one draw per column |
| EnemyManagers.EnemyManager.MakeEnemy | SpaceDefenders/EnemyManager.cpp:26-36 | the loop body builds the enemy of cell (r, c), with the type of its band and its timer from the next draw |
| EnemyManagers.EnemyManager.RecomputeFormationBounds | SpaceDefenders/EnemyManager.cpp:42-59 | the accumulator loop returns the box of the alive in-formation enemies, or (0, 0) when there are none |
| EnemyManagers.EnemyManager.MoveFormation | SpaceDefenders/EnemyManager.cpp:63-76 | the origin moves by `dir * speed * dt`; then, on the box at the moved origin, the left edge sets `dir` to 1 and descends, else the right edge sets `dir` to -1 and descends, else nothing changes; there is at most one descent, and `dir` stays at ±1 |
| EnemyManagers.EnemyManager.TickEnemy | SpaceDefenders/EnemyManager.cpp:83-165 | one enemy's update equals `Formation.StepEnemy`, and a new projectile is created exactly when that step fires, placed where it fires |
| EnemyManagers.EnemyManager.MoveEnemy | SpaceDefenders/EnemyManager.cpp:85-137 | the state-by-state movement equals `Formation.Maneuver`, including the draws it reads |
| EnemyManagers.EnemyManager.ShootEnemy | SpaceDefenders/EnemyManager.cpp:140-165 | the timer and shot logic equals `Formation.Fire`; a fired shot is a new 6 by 12 projectile with speed -300 |
| EnemyManagers.EnemyManager.UpdateSlot | SpaceDefenders/EnemyManager.cpp:82-166 | one loop iteration updates slot i in place, appends its shot, and leaves later slots and earlier list entries unchanged |
| EnemyManagers.EnemyManager.UpdateEnemies | SpaceDefenders/EnemyManager.cpp:82-166 | the loop turns the array into `Formation.StepAll` of the old array, in index order; it appends only fresh enemy shots after the existing list, which it leaves unchanged |
| EnemyManagers.EnemyManager.RescaleSpeed | SpaceDefenders/EnemyManager.cpp:168-176 | a non-empty array sets the speed to `40 * (1 + (1 - alive/total) * 2)`, which stays in [40, 120]; an empty array keeps the speed |
| EnemyManagers.EnemyManager.Update | SpaceDefenders/EnemyManager.cpp:61-177 | one tick: the formation moves and bounces; then every enemy takes its step on the moved origin, and the shots are appended to `out`; then the speed is recomputed from the swept array; `dir` stays at ±1 and the speed stays in range |
| EnemyManagers.EnemyManager.AllDead | SpaceDefenders/EnemyManager.cpp:187-193 | true exactly when no enemy is alive, including for the empty array |
| EnemyManagers.EnemyManager.KillEnemy | SpaceDefenders/EnemyManager.cpp:195-201 | the array becomes `Killed(old, index)`: slot `index` is dead, and the rest and the length are unchanged; an out-of-range index is a no-op |
| EnemyManagers.EnemyManager.GetEnemies | SpaceDefenders/EnemyManager.h:32-33 | returns the array and changes nothing |

## Left out

- **Rendering and the window.** Drawing (`Enemy::draw`, `EnemyManager::draw`, `Player::draw`, `Projectile::draw`) is Qt painting only. `GameWindow` is the widget, timer and keyboard shell around the core. Neither is part of this model.
- **The random engine.** The `std::random_device` seeding and the `std::mt19937` engine are replaced by the canonical stream `rng` given to the constructor. The model does not capture how many engine words a draw consumes, nor the engine's values.
- **Floating point.** All arithmetic is over `real`. IEEE-754 rounding is not modelled, so sums such as `diveT + dt / diveDuration` and the `>= 1.0` tests on them are exact here.
- **The unused local `targetY`** (SpaceDefenders/EnemyManager.cpp:98). It is never read, so the model omits it.
- **Integer overflow.** The `int` product `rows * cols` in `initGrid` is computed without 32-bit wrap-around. Only its sign decides whether `reserve` throws.
- **The infinity sentinel.** The ±infinity starting values of `recomputeFormationBounds` are replaced by a "found" flag. The result is the same whenever any enemy counts.
- **Accessors.** The trivial `x()`, `y()`, `width()` and `height()` are read as fields.
- EnemyManagers.EnemyManager.Update: the speed is stated on the alive count of the swept array, which is what the source counts. `TickKeepsAliveCount` proves that this count equals the count before the tick.
- EnemyManagers.EnemyManager.Update: the per-enemy transition relation (dead enemies untouched, the state machine, the timer rule) is not restated in the method's postcondition. It follows from its `Swept` postcondition via `StepAllTransitions` and `StepEnemySpec`.
- EnemyManagers.EnemyManager.InitGrid: the nested loops are split into the helper methods `FillGrid`, `AppendRow` and `MakeEnemy`. They keep the source's order of appends and draws.
- EnemyManagers.EnemyManager.UpdateEnemies: the loop body is the helper method `UpdateSlot`, which keeps the in-place write of each slot.
- FormationProofs.DiveRoundTrip: the two-tick round trip is proved for steps at least as long as the dive and return durations. Longer sequences of short steps are covered only one step at a time, by `StepEnemySpec`.
