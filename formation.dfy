/**
 * The enemy formation as values: the tuning constants of the manager, the grid
 * that `initGrid` lays out, the formation bounding box, one tick of the
 * per-enemy state machine with its shooting, and the difficulty formula.
 * The class in enemy_manager.dfy is proved against these definitions.
 *
 * Random draws are read from a stream `rng: nat -> real` of canonical values
 * in [0, 1); a draw from uniform(a, b) is `a + (b - a) * u` for the next u.
 */
module Formation {
  import opened Wrappers
  import opened Geometry
  import opened Enemies

  // Members of the manager that nothing reassigns after initialisation.
  const DescendStep: real := 20.0
  const EnemyW: real := 40.0
  const EnemyH: real := 28.0
  const DiverChancePerSecond: real := 0.15
  const DiveDuration: real := 0.9
  const ReturnDuration: real := 0.9
  const BasicCooldown: real := 3.0
  const ShooterCooldown: real := 1.2
  const ShootProbabilityPerSecond: real := 0.6

  // Literals of the update step.
  const DiveDepth: real := 200.0        // dive target lies this far below the formation origin
  const ArcHeight: real := 80.0         // the dive arc's control point lies this far below both ends
  const JitterFraction: real := 0.4     // cooldown jitter is uniform(0, 0.4 * cooldown)
  const RetryMin: real := 0.05          // a missed roll retries after uniform(0.05, 0.5)
  const RetryMax: real := 0.5
  const EnemyShotSpeed: real := -300.0  // negative: enemy shots move down the screen
  const ShotW: real := 6.0
  const ShotH: real := 12.0
  const BaseSpeed: real := 40.0
  const SpeedScale: real := 2.0

  /** Every draw of the stream lies in [0, 1). */
  ghost predicate Canonical(rng: nat -> real)
  {
    forall n: nat :: 0.0 <= rng(n) < 1.0
  }

  /** uniform_real_distribution(a, b) applied to the canonical draw u. */
  function Uniform(a: real, b: real, u: real): real
  {
    a + (b - a) * u
  }

  /** Shooters fire on a shorter cooldown; Basic and Diver share the basic one. */
  function Cooldown(t: EnemyType): (cd: real)
    ensures 0.0 < cd <= BasicCooldown
    ensures t == Shooter <==> cd < BasicCooldown
  {
    if t == Shooter then ShooterCooldown else BasicCooldown
  }

  // ---------------------------------------------------------------- grid

  /** The type band of row r of a grid with `rows` rows (integer division). */
  function Band(r: int, rows: int): (t: EnemyType)
    requires 0 <= r < rows
    ensures r < rows / 3 ==> t == Basic
    ensures rows / 3 <= r < 2 * rows / 3 ==> t == Shooter
    ensures 2 * rows / 3 <= r ==> t == Diver
  {
    var t := if r >= rows / 3 && r < 2 * rows / 3 then Shooter else Basic;
    if r >= 2 * rows / 3 then Diver else t
  }

  /** The enemy that `initGrid` creates at (r, c), given its timer draw u. */
  function GridEnemy(r: int, c: int, rows: int, ox: real, oy: real, sx: real, sy: real, u: real): Enemy
    requires 0 <= r < rows
  {
    var t := Band(r, rows);
    var lx := c as real * sx;
    var ly := r as real * sy;
    NewEnemy(t, r, c).(localX := lx, localY := ly, pos := Point(ox + lx, oy + ly),
                       shootTimer := Uniform(0.0, Cooldown(t), u))
  }

  /** The first n enemies of row r; enemy c uses draw k + c. */
  function GridRow(r: int, n: int, rows: int, ox: real, oy: real, sx: real, sy: real,
                   rng: nat -> real, k: nat): seq<Enemy>
    requires 0 <= r < rows
    decreases n
  {
    if n <= 0 then []
    else GridRow(r, n - 1, rows, ox, oy, sx, sy, rng, k) + [GridEnemy(r, n - 1, rows, ox, oy, sx, sy, rng(k + n - 1))]
  }

  /** Number of columns a loop `for c in [0, cols)` visits. */
  function Width(cols: int): nat
  {
    if cols < 0 then 0 else cols
  }

  /** The first n rows of the grid, row after row; row r starts at draw k + r * cols. */
  function GridRows(n: nat, rows: int, cols: int, ox: real, oy: real, sx: real, sy: real,
                    rng: nat -> real, k: nat): seq<Enemy>
    requires n == 0 || n <= rows
  {
    if n == 0 then []
    else GridRows(n - 1, rows, cols, ox, oy, sx, sy, rng, k)
         + GridRow(n - 1, cols, rows, ox, oy, sx, sy, rng, k + (n - 1) * Width(cols))
  }

  /** An enemy standing in formation, offset from the origin by its own cell. */
  predicate Placed(e: Enemy, sx: real, sy: real)
  {
    e.alive && e.state == InFormation && e.localX == e.col as real * sx && e.localY == e.row as real * sy
  }

  /** The whole grid of `initGrid(rows, cols, ox, oy, sx, sy)` drawing from position k on. */
  function Grid(rows: int, cols: int, ox: real, oy: real, sx: real, sy: real,
                rng: nat -> real, k: nat): seq<Enemy>
  {
    if rows <= 0 then [] else GridRows(rows, rows, cols, ox, oy, sx, sy, rng, k)
  }

  // ---------------------------------------------------------------- bounds

  datatype Span = Span(lo: real, hi: real)

  /** An enemy that counts toward the formation's bounding box. */
  predicate InBox(e: Enemy)
  {
    e.alive && e.state == InFormation
  }

  /** Horizontal extent of the in-formation, alive enemies, if there are any. */
  function Extent(es: seq<Enemy>, ox: real): Option<Span>
    decreases |es|
  {
    if es == [] then None
    else
      var rest := Extent(es[..|es| - 1], ox);
      var e := es[|es| - 1];
      if !InBox(e) then rest
      else
        var x := ox + e.localX;
        match rest
        case None => Some(Span(x, x + EnemyW))
        case Some(s) => Some(Span(if x < s.lo then x else s.lo, Max(s.hi, x + EnemyW)))
  }

  /** `recomputeFormationBounds`: the extent, collapsed to [0, 0] when empty. */
  function FormationBounds(es: seq<Enemy>, ox: real): Span
  {
    match Extent(es, ox)
    case None => Span(0.0, 0.0)
    case Some(s) => s
  }

  // ---------------------------------------------------------------- one tick

  /** How far the formation origin moves horizontally in one tick. */
  function Drift(dir: int, speed: real, dt: real): real
  {
    dir as real * speed * dt
  }

  /** What a tick knows besides the enemy: the step, the (moved) origin and the player. */
  datatype Tick = Tick(dt: real, originX: real, originY: real, playerX: real)

  /** Where an enemy stands in the formation this tick. */
  function FormationPos(e: Enemy, t: Tick): Point
  {
    Point(t.originX + e.localX, t.originY + e.localY)
  }

  /** The dive target: the player's x less half an enemy, a fixed depth below the origin. */
  function DiveAim(t: Tick): Point
  {
    Point(t.playerX - EnemyW * 0.5, t.originY + DiveDepth)
  }

  /** The control point of the dive arc. */
  function ArcMid(start: Point, target: Point): Point
  {
    Point((start.x + target.x) * 0.5, Max(start.y, target.y) + ArcHeight)
  }

  /** Where an enemy's shot spawns: bottom centre. */
  function Muzzle(e: Enemy): Point
  {
    Point(e.pos.x + EnemyW * 0.5, e.pos.y + EnemyH)
  }

  datatype Moved = Moved(enemy: Enemy, cursor: nat)

  /** The movement part of a tick for an alive enemy; k is the next unread draw. */
  function Maneuver(e: Enemy, t: Tick, rng: nat -> real, k: nat): Moved
  {
    match e.state
    case InFormation =>
      var placed := e.(pos := FormationPos(e, t));
      if e.kind != Diver then Moved(placed, k)
      else if rng(k) < DiverChancePerSecond * t.dt then
        Moved(placed.(state := Diving, diveT := 0.0, diveStart := placed.pos, diveTarget := DiveAim(t)), k + 1)
      else Moved(placed, k + 1)
    case Diving =>
      var d := e.diveT + t.dt / DiveDuration;
      if d >= 1.0 then
        Moved(e.(state := Returning, diveT := 0.0, diveStart := e.pos, diveTarget := FormationPos(e, t)), k)
      else
        Moved(e.(diveT := d, pos := Bezier(e.diveStart, ArcMid(e.diveStart, e.diveTarget), e.diveTarget, d)), k)
    case Returning =>
      var d := e.diveT + t.dt / ReturnDuration;
      if d >= 1.0 then Moved(e.(state := InFormation, diveT := 1.0, pos := FormationPos(e, t)), k)
      else Moved(e.(diveT := d, pos := Lerp(e.diveStart, e.diveTarget, d)), k)
    case Dead => Moved(e, k)
  }

  datatype Fired = Fired(enemy: Enemy, shot: Option<Point>, cursor: nat)

  /** The shooting part of a tick: run the timer down, and on expiry roll, then reset it. */
  function Fire(e: Enemy, dt: real, rng: nat -> real, k: nat): Fired
  {
    var left := e.shootTimer - dt;
    if left > 0.0 then Fired(e.(shootTimer := left), None, k)
    else
      var cd := Cooldown(e.kind);
      if rng(k) < ShootProbabilityPerSecond * dt then
        Fired(e.(shootTimer := cd + Uniform(0.0, JitterFraction * cd, rng(k + 1))), Some(Muzzle(e)), k + 2)
      else
        Fired(e.(shootTimer := Uniform(RetryMin, RetryMax, rng(k + 1))), None, k + 2)
  }

  /** One enemy's tick: dead enemies are skipped, the others move and then shoot. */
  function StepEnemy(e: Enemy, t: Tick, rng: nat -> real, k: nat): Fired
  {
    if !e.alive then Fired(e, None, k)
    else
      var m := Maneuver(e, t, rng, k);
      Fire(m.enemy, t.dt, rng, m.cursor)
  }

  /** A shot spawned by enemy `from` at point `at`. */
  datatype Shot = Shot(from: nat, at: Point)

  datatype Sweep = Sweep(enemies: seq<Enemy>, shots: seq<Shot>, cursor: nat)

  /** The per-enemy loop of a tick over the whole array, in index order. */
  function StepAll(es: seq<Enemy>, t: Tick, rng: nat -> real, k: nat): Sweep
    decreases |es|
  {
    if es == [] then Sweep([], [], k)
    else
      var s := StepAll(es[..|es| - 1], t, rng, k);
      var o := StepEnemy(es[|es| - 1], t, rng, s.cursor);
      Sweep(s.enemies + [o.enemy],
            s.shots + (if o.shot.Some? then [Shot(|es| - 1, o.shot.value)] else []),
            o.cursor)
  }

  // ---------------------------------------------------------------- what a tick may do

  /** Type, grid cell, local offset and liveness never change in a tick. */
  predicate SameIdentity(e: Enemy, e': Enemy)
  {
    e'.kind == e.kind && e'.row == e.row && e'.col == e.col
    && e'.localX == e.localX && e'.localY == e.localY && e'.alive == e.alive
  }

  /** The state machine InFormation -> Diving -> Returning -> InFormation, for any draw. */
  predicate Behaves(e: Enemy, e': Enemy, t: Tick)
  {
    match e.state
    case InFormation =>
      e'.pos == FormationPos(e, t)
      && ((e'.state == InFormation && e'.diveT == e.diveT
           && e'.diveStart == e.diveStart && e'.diveTarget == e.diveTarget)
          || (e.kind == Diver && e'.state == Diving && e'.diveT == 0.0
              && e'.diveStart == FormationPos(e, t) && e'.diveTarget == DiveAim(t)))
    case Diving =>
      var d := e.diveT + t.dt / DiveDuration;
      if d >= 1.0 then
        e'.state == Returning && e'.diveT == 0.0 && e'.pos == e.pos
        && e'.diveStart == e.pos && e'.diveTarget == FormationPos(e, t)
      else
        e'.state == Diving && e'.diveT == d
        && e'.diveStart == e.diveStart && e'.diveTarget == e.diveTarget
    case Returning =>
      var d := e.diveT + t.dt / ReturnDuration;
      if d >= 1.0 then
        e'.state == InFormation && e'.diveT == 1.0 && e'.pos == FormationPos(e, t)
      else
        e'.state == Returning && e'.diveT == d && e'.pos == Lerp(e.diveStart, e.diveTarget, d)
        && e'.diveStart == e.diveStart && e'.diveTarget == e.diveTarget
    case Dead =>
      e'.state == Dead && e'.pos == e.pos && e'.diveT == e.diveT
  }

  /** The shoot timer runs down by dt; once expired it is reset into one of two positive ranges. */
  predicate TimerRule(e: Enemy, e': Enemy, dt: real)
  {
    var left := e.shootTimer - dt;
    var cd := Cooldown(e.kind);
    (left > 0.0 ==> e'.shootTimer == left)
    && (left <= 0.0 ==>
          (cd <= e'.shootTimer < (1.0 + JitterFraction) * cd)
          || (RetryMin <= e'.shootTimer < RetryMax))
    && e'.shootTimer > 0.0
  }

  /** Everything a tick may do to one enemy, whatever the random draws are. */
  predicate Transition(e: Enemy, e': Enemy, t: Tick)
  {
    SameIdentity(e, e')
    && (!e.alive ==> e' == e)
    && (e.alive ==> Behaves(e, e', t) && TimerRule(e, e', t.dt))
    && ((e'.state == Dead) == (e.state == Dead))
    && (0.0 <= e.diveT <= 1.0 && 0.0 <= t.dt ==> 0.0 <= e'.diveT <= 1.0)
  }

  /** Every enemy of `before` becomes the one at the same index of `after` by a `Transition`. */
  predicate AllTransition(before: seq<Enemy>, after: seq<Enemy>, t: Tick)
  {
    |before| == |after|
    && forall i :: 0 <= i < |before| ==> Transition(before[i], after[i], t)
  }

  // ---------------------------------------------------------------- difficulty and kills

  /** Number of alive enemies. */
  function AliveCount(es: seq<Enemy>): (n: nat)
    ensures n <= |es|
    decreases |es|
  {
    if es == [] then 0
    else AliveCount(es[..|es| - 1]) + (if es[|es| - 1].alive then 1 else 0)
  }

  /** Formation speed for `alive` of `total` enemies alive. */
  function Speed(alive: nat, total: nat): real
    requires 0 < total
  {
    BaseSpeed * (1.0 + (1.0 - alive as real / total as real) * SpeedScale)
  }

  /** The array after `killEnemy(index)`. */
  function Killed(es: seq<Enemy>, index: nat): seq<Enemy>
  {
    if index < |es| then es[index := es[index].(alive := false, state := Dead)] else es
  }
}
