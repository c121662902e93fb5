/** Properties of the formation definitions: grid layout, bounds, the tick relation, difficulty. */
module FormationProofs {
  import opened Wrappers
  import opened Geometry
  import opened Enemies
  import opened Formation

  // ---------------------------------------------------------------- grid

  lemma {:induction false} GridRowAt(r: int, n: int, rows: int, ox: real, oy: real, sx: real, sy: real,
                                     rng: nat -> real, k: nat, c: int)
    requires 0 <= r < rows && 0 <= n
    ensures |GridRow(r, n, rows, ox, oy, sx, sy, rng, k)| == n
    ensures 0 <= c < n ==> GridRow(r, n, rows, ox, oy, sx, sy, rng, k)[c] == GridEnemy(r, c, rows, ox, oy, sx, sy, rng(k + c))
    decreases n
  {
    if n > 0 {
      GridRowAt(r, n - 1, rows, ox, oy, sx, sy, rng, k, c);
    }
  }

  /** One more row adds one row's worth of cells. */
  lemma MulSucc(a: int, b: int)
    ensures (a + 1) * b == a * b + b
  {
  }

  /** Scaling by a non-negative factor keeps order. */
  lemma MulMono(a: int, b: int, m: int)
    requires a <= b && 0 <= m
    ensures a * m <= b * m
  {
    var d := b - a;
    assert 0 <= d * m;
    assert b * m == a * m + d * m;
  }

  /** Cell (r, c) of an n-row grid lies inside it, and before the last row when r < n - 1. */
  lemma RowOffsets(r: int, n: int, cols: int, c: int)
    requires 0 <= r < n && 0 <= c < cols
    ensures r < n - 1 ==> r * cols + c < (n - 1) * cols
    ensures 0 <= r * cols + c < n * cols
  {
    MulSucc(r, cols);
    MulMono(0, r, cols);
    MulMono(r + 1, n, cols);
    if r < n - 1 {
      MulMono(r + 1, n - 1, cols);
    }
  }

  /** n rows of cols cells hold n * cols enemies. */
  lemma {:induction false} GridRowsLength(n: nat, rows: int, cols: int, ox: real, oy: real, sx: real, sy: real,
                                          rng: nat -> real, k: nat)
    requires n <= rows && 0 <= cols
    ensures |GridRows(n, rows, cols, ox, oy, sx, sy, rng, k)| == n * cols
  {
    if n > 0 {
      GridRowsLength(n - 1, rows, cols, ox, oy, sx, sy, rng, k);
      GridRowAt(n - 1, cols, rows, ox, oy, sx, sy, rng, k + (n - 1) * cols, 0);
      MulSucc(n - 1, cols);
    }
  }

  /** Adding row n - 1 leaves the cells of the earlier rows where they were. */
  lemma GridRowsPrefix(n: nat, rows: int, cols: int, ox: real, oy: real, sx: real, sy: real,
                       rng: nat -> real, k: nat, i: int)
    requires 0 < n <= rows && 0 <= cols && 0 <= i < (n - 1) * cols
    ensures i < |GridRows(n - 1, rows, cols, ox, oy, sx, sy, rng, k)| <= |GridRows(n, rows, cols, ox, oy, sx, sy, rng, k)|
    ensures GridRows(n, rows, cols, ox, oy, sx, sy, rng, k)[i] == GridRows(n - 1, rows, cols, ox, oy, sx, sy, rng, k)[i]
  {
    GridRowsLength(n - 1, rows, cols, ox, oy, sx, sy, rng, k);
  }

  /** Column c of row n - 1 sits just after the earlier rows and uses the draw of its index. */
  lemma GridRowsLast(n: nat, rows: int, cols: int, ox: real, oy: real, sx: real, sy: real,
                     rng: nat -> real, k: nat, c: int, i: int)
    requires 0 < n <= rows && 0 <= c < cols && i == (n - 1) * cols + c
    ensures 0 <= i < |GridRows(n, rows, cols, ox, oy, sx, sy, rng, k)|
    ensures GridRows(n, rows, cols, ox, oy, sx, sy, rng, k)[i] == GridEnemy(n - 1, c, rows, ox, oy, sx, sy, rng(k + i))
  {
    var front := GridRows(n - 1, rows, cols, ox, oy, sx, sy, rng, k);
    var start := k + (n - 1) * cols;
    var last := GridRow(n - 1, cols, rows, ox, oy, sx, sy, rng, start);
    GridRowsLength(n - 1, rows, cols, ox, oy, sx, sy, rng, k);
    GridRowAt(n - 1, cols, rows, ox, oy, sx, sy, rng, start, c);
    assert i == |front| + c && start + c == k + i;
    assert (front + last)[i] == last[c];
  }

  /** Cell (r, c) of the first n rows sits at index i = r * cols + c and uses draw k + i. */
  lemma {:induction false} GridRowsAt(n: nat, rows: int, cols: int, ox: real, oy: real, sx: real, sy: real,
                                      rng: nat -> real, k: nat, r: int, c: int, i: int)
    requires n <= rows && 0 <= r < n && 0 <= c < cols && i == r * cols + c
    ensures 0 <= i < |GridRows(n, rows, cols, ox, oy, sx, sy, rng, k)|
    ensures GridRows(n, rows, cols, ox, oy, sx, sy, rng, k)[i] == GridEnemy(r, c, rows, ox, oy, sx, sy, rng(k + i))
  {
    RowOffsets(r, n, cols, c);
    if r < n - 1 {
      GridRowsAt(n - 1, rows, cols, ox, oy, sx, sy, rng, k, r, c, i);
      GridRowsPrefix(n, rows, cols, ox, oy, sx, sy, rng, k, i);
    } else {
      GridRowsLast(n, rows, cols, ox, oy, sx, sy, rng, k, c, i);
    }
  }

  /** Every enemy of a grid row is alive, in formation, and offset by its own cell. */
  lemma GridRowPlaced(r: int, n: int, rows: int, ox: real, oy: real, sx: real, sy: real,
                      rng: nat -> real, k: nat)
    requires 0 <= r < rows
    ensures forall i :: 0 <= i < |GridRow(r, n, rows, ox, oy, sx, sy, rng, k)| ==> Placed(GridRow(r, n, rows, ox, oy, sx, sy, rng, k)[i], sx, sy)
  {
    if n > 0 {
      var g := GridRow(r, n, rows, ox, oy, sx, sy, rng, k);
      forall i | 0 <= i < |g|
        ensures Placed(g[i], sx, sy)
      {
        GridRowAt(r, n, rows, ox, oy, sx, sy, rng, k, i);
      }
    }
  }

  /** Placement holds for a concatenation when it holds for both parts. */
  lemma PlacedConcat(a: seq<Enemy>, b: seq<Enemy>, sx: real, sy: real)
    requires forall i :: 0 <= i < |a| ==> Placed(a[i], sx, sy)
    requires forall i :: 0 <= i < |b| ==> Placed(b[i], sx, sy)
    ensures forall i :: 0 <= i < |a + b| ==> Placed((a + b)[i], sx, sy)
  {
    forall i | 0 <= i < |a + b|
      ensures Placed((a + b)[i], sx, sy)
    {
      if i < |a| {
        assert (a + b)[i] == a[i];
      } else {
        assert (a + b)[i] == b[i - |a|];
      }
    }
  }

  /** The same for the first n rows. */
  lemma {:induction false} GridRowsPlaced(n: nat, rows: int, cols: int, ox: real, oy: real, sx: real, sy: real,
                                          rng: nat -> real, k: nat)
    requires n == 0 || n <= rows
    ensures forall i :: 0 <= i < |GridRows(n, rows, cols, ox, oy, sx, sy, rng, k)| ==> Placed(GridRows(n, rows, cols, ox, oy, sx, sy, rng, k)[i], sx, sy)
  {
    if n > 0 {
      var start := k + (n - 1) * Width(cols);
      GridRowsPlaced(n - 1, rows, cols, ox, oy, sx, sy, rng, k);
      GridRowPlaced(n - 1, cols, rows, ox, oy, sx, sy, rng, start);
      PlacedConcat(GridRows(n - 1, rows, cols, ox, oy, sx, sy, rng, k),
                   GridRow(n - 1, cols, rows, ox, oy, sx, sy, rng, start), sx, sy);
    }
  }

  /**
   * `initGrid` lays out rows*cols enemies in row-major order: index r*cols+c holds
   * row r, column c, typed by its band, offset by (c*sx, r*sy) from the origin,
   * alive and in formation, with a timer in [0, cooldown].
   */
  lemma GridLayout(rows: int, cols: int, ox: real, oy: real, sx: real, sy: real,
                   rng: nat -> real, k: nat, r: int, c: int)
    requires 0 <= rows && 0 <= cols
    requires Canonical(rng)
    requires 0 <= r < rows && 0 <= c < cols
    ensures var g := Grid(rows, cols, ox, oy, sx, sy, rng, k);
      && |g| == rows * cols
      && r * cols + c < |g|
      && var e := g[r * cols + c];
      && e.row == r && e.col == c && e.kind == Band(r, rows)
      && e.localX == c as real * sx && e.localY == r as real * sy
      && e.pos == Point(ox + e.localX, oy + e.localY)
      && e.alive && e.state == InFormation
      && 0.0 <= e.shootTimer <= Cooldown(e.kind)
  {
    GridRowsLength(rows, rows, cols, ox, oy, sx, sy, rng, k);
    GridRowsAt(rows, rows, cols, ox, oy, sx, sy, rng, k, r, c, r * cols + c);
    var u := rng(k + r * cols + c);
    assert 0.0 <= u < 1.0;
  }

  /** Every grid length is the product of its sides; a negative side gives an empty grid. */
  lemma GridLength(rows: int, cols: int, ox: real, oy: real, sx: real, sy: real, rng: nat -> real, k: nat)
    ensures |Grid(rows, cols, ox, oy, sx, sy, rng, k)| == (if rows <= 0 then 0 else rows * Width(cols))
  {
    if rows > 0 {
      GridRowsLength(rows, rows, Width(cols), ox, oy, sx, sy, rng, k);
      GridRowsWidth(rows, rows, cols, ox, oy, sx, sy, rng, k);
    }
  }

  /** A negative column count builds the same rows as zero columns. */
  lemma {:induction false} GridRowsWidth(n: nat, rows: int, cols: int, ox: real, oy: real, sx: real, sy: real,
                                         rng: nat -> real, k: nat)
    requires n <= rows
    ensures GridRows(n, rows, cols, ox, oy, sx, sy, rng, k) == GridRows(n, rows, Width(cols), ox, oy, sx, sy, rng, k)
  {
    if n > 0 {
      GridRowsWidth(n - 1, rows, cols, ox, oy, sx, sy, rng, k);
    }
  }

  /** Types are banded in row order: Basic rows, then Shooter rows, then Diver rows. */
  lemma BandsInRowOrder(r1: int, r2: int, rows: int)
    requires 0 <= r1 <= r2 < rows
    ensures Band(r1, rows) == Diver ==> Band(r2, rows) == Diver
    ensures Band(r2, rows) == Basic ==> Band(r1, rows) == Basic
  {
  }

  // ---------------------------------------------------------------- bounds

  /**
   * The extent is empty exactly when no enemy is alive and in formation; otherwise
   * lo is the least `ox + localX` and hi the greatest `ox + localX + EnemyW` among them.
   */
  lemma {:induction false} ExtentSpec(es: seq<Enemy>, ox: real)
    ensures Extent(es, ox).None? <==> forall i :: 0 <= i < |es| ==> !InBox(es[i])
    ensures Extent(es, ox).Some? ==>
      var s := Extent(es, ox).value;
      && (forall i :: 0 <= i < |es| && InBox(es[i]) ==> s.lo <= ox + es[i].localX && ox + es[i].localX + EnemyW <= s.hi)
      && (exists i :: 0 <= i < |es| && InBox(es[i]) && s.lo == ox + es[i].localX)
      && (exists i :: 0 <= i < |es| && InBox(es[i]) && s.hi == ox + es[i].localX + EnemyW)
    decreases |es|
  {
    if es != [] {
      var front := es[..|es| - 1];
      var last := |es| - 1;
      ExtentSpec(front, ox);
      assert forall i :: 0 <= i < |front| ==> front[i] == es[i];
      var rest := Extent(front, ox);
      if InBox(es[last]) && rest.Some? {
        var s := rest.value;
        var i1 :| 0 <= i1 < |front| && InBox(front[i1]) && s.lo == ox + front[i1].localX;
        var i2 :| 0 <= i2 < |front| && InBox(front[i2]) && s.hi == ox + front[i2].localX + EnemyW;
        var x := ox + es[last].localX;
        if x < s.lo {
          assert InBox(es[last]) && Extent(es, ox).value.lo == ox + es[last].localX;
        } else {
          assert InBox(es[i1]) && Extent(es, ox).value.lo == ox + es[i1].localX;
        }
        if s.hi < x + EnemyW {
          assert InBox(es[last]) && Extent(es, ox).value.hi == ox + es[last].localX + EnemyW;
        } else {
          assert InBox(es[i2]) && Extent(es, ox).value.hi == ox + es[i2].localX + EnemyW;
        }
      } else if InBox(es[last]) {
        assert InBox(es[last]) && Extent(es, ox).value.lo == ox + es[last].localX;
        assert InBox(es[last]) && Extent(es, ox).value.hi == ox + es[last].localX + EnemyW;
      } else if rest.Some? {
        var s := rest.value;
        var i1 :| 0 <= i1 < |front| && InBox(front[i1]) && s.lo == ox + front[i1].localX;
        var i2 :| 0 <= i2 < |front| && InBox(front[i2]) && s.hi == ox + front[i2].localX + EnemyW;
        assert InBox(es[i1]) && Extent(es, ox).value.lo == ox + es[i1].localX;
        assert InBox(es[i2]) && Extent(es, ox).value.hi == ox + es[i2].localX + EnemyW;
      }
    }
  }

  /**
   * With no enemy alive and in formation the box is [0, 0] and, in a window of
   * non-negative width, neither edge test fires: no bounce, no descent.
   */
  lemma NoFormationNoBounce(es: seq<Enemy>, ox: real, windowW: real)
    requires forall i :: 0 <= i < |es| ==> !InBox(es[i])
    requires 0.0 <= windowW
    ensures FormationBounds(es, ox) == Span(0.0, 0.0)
    ensures !(FormationBounds(es, ox).lo < 0.0) && !(FormationBounds(es, ox).hi > windowW)
  {
    ExtentSpec(es, ox);
  }

  // ---------------------------------------------------------------- one tick

  /**
   * The movement half keeps identity, timer and liveness, follows the state
   * machine, keeps diveT in [0, 1] for a non-negative step, and reads at most one draw.
   */
  lemma ManeuverSpec(e: Enemy, t: Tick, rng: nat -> real, k: nat)
    ensures var m := Maneuver(e, t, rng, k);
      && SameIdentity(e, m.enemy)
      && Behaves(e, m.enemy, t)
      && m.enemy.shootTimer == e.shootTimer
      && (m.enemy.state == Dead) == (e.state == Dead)
      && (0.0 <= e.diveT <= 1.0 && 0.0 <= t.dt ==> 0.0 <= m.enemy.diveT <= 1.0)
      && k <= m.cursor <= k + 1
  {
    if e.state == Returning {
      var d := e.diveT + t.dt / ReturnDuration;
      assert 0.0 <= e.diveT && 0.0 <= t.dt ==> 0.0 <= d;
    }
  }

  /**
   * The shooting half changes only the timer, by the timer rule, reads at most
   * two draws, and fires only on expiry, from the bottom centre, with the timer
   * reset into [cooldown, 1.4 * cooldown); an expired timer whose roll misses is
   * reset into [0.05, 0.5) instead.
   */
  lemma FireSpec(e: Enemy, dt: real, rng: nat -> real, k: nat)
    requires Canonical(rng)
    ensures var f := Fire(e, dt, rng, k);
      && f.enemy == e.(shootTimer := f.enemy.shootTimer)
      && TimerRule(e, f.enemy, dt)
      && k <= f.cursor <= k + 2
      && (f.shot.Some? ==>
            && e.shootTimer - dt <= 0.0
            && f.shot.value == Muzzle(e)
            && Cooldown(e.kind) <= f.enemy.shootTimer < (1.0 + JitterFraction) * Cooldown(e.kind))
      && (f.shot.None? && e.shootTimer - dt <= 0.0 ==> RetryMin <= f.enemy.shootTimer < RetryMax)
  {
    assert 0.0 <= rng(k + 1) < 1.0;
  }

  /**
   * One enemy's tick obeys the state machine and the timer rule for every
   * canonical draw, reads at most three draws, and a shot comes only from an
   * alive enemy whose timer ran out, at its bottom centre, with the timer reset
   * into [cooldown, 1.4 * cooldown); an alive enemy whose timer ran out and which
   * did not fire has its timer reset into [0.05, 0.5).
   */
  lemma StepEnemySpec(e: Enemy, t: Tick, rng: nat -> real, k: nat)
    requires Canonical(rng)
    ensures var o := StepEnemy(e, t, rng, k);
      && Transition(e, o.enemy, t)
      && k <= o.cursor <= k + 3
      && (o.shot.Some? ==>
            && e.alive && e.shootTimer - t.dt <= 0.0
            && o.shot.value == Muzzle(o.enemy)
            && Cooldown(e.kind) <= o.enemy.shootTimer < (1.0 + JitterFraction) * Cooldown(e.kind))
      && (o.shot.None? && e.alive && e.shootTimer - t.dt <= 0.0 ==> RetryMin <= o.enemy.shootTimer < RetryMax)
  {
    if e.alive {
      var m := Maneuver(e, t, rng, k);
      ManeuverSpec(e, t, rng, k);
      FireSpec(m.enemy, t.dt, rng, m.cursor);
    }
  }

  /**
   * The whole per-enemy loop keeps the array's length, makes every enemy take
   * a legal transition, and reads at most three draws per enemy.
   */
  lemma {:induction false} StepAllTransitions(es: seq<Enemy>, t: Tick, rng: nat -> real, k: nat)
    requires Canonical(rng)
    ensures var s := StepAll(es, t, rng, k);
      && |s.enemies| == |es|
      && k <= s.cursor <= k + 3 * |es|
      && forall i :: 0 <= i < |es| ==> Transition(es[i], s.enemies[i], t)
    decreases |es|
  {
    if es != [] {
      var n := |es| - 1;
      var front := es[..n];
      StepAllTransitions(front, t, rng, k);
      StepEnemySpec(es[n], t, rng, StepAll(front, t, rng, k).cursor);
      assert forall i :: 0 <= i < n ==> front[i] == es[i];
    }
  }

  /**
   * The loop appends at most one shot per enemy, in index order, each from an
   * alive enemy, at its bottom centre, with its timer reset to at least the cooldown.
   */
  lemma {:induction false} StepAllShots(es: seq<Enemy>, t: Tick, rng: nat -> real, k: nat)
    requires Canonical(rng)
    ensures var s := StepAll(es, t, rng, k);
      && |s.enemies| == |es|
      && |s.shots| <= |es|
      && (forall j :: 0 <= j < |s.shots| ==>
            && s.shots[j].from < |es|
            && es[s.shots[j].from].alive
            && s.shots[j].at == Muzzle(s.enemies[s.shots[j].from])
            && Cooldown(es[s.shots[j].from].kind) <= s.enemies[s.shots[j].from].shootTimer)
      && (forall j1, j2 :: 0 <= j1 < j2 < |s.shots| ==> s.shots[j1].from < s.shots[j2].from)
    decreases |es|
  {
    if es != [] {
      var n := |es| - 1;
      var front := es[..n];
      StepAllShots(front, t, rng, k);
      var s := StepAll(front, t, rng, k);
      var o := StepEnemy(es[n], t, rng, s.cursor);
      StepEnemySpec(es[n], t, rng, s.cursor);
      var all := StepAll(es, t, rng, k);
      assert all.enemies == s.enemies + [o.enemy];
      assert all.shots == s.shots + (if o.shot.Some? then [Shot(n, o.shot.value)] else []);
      forall j | 0 <= j < |s.shots|
        ensures all.shots[j] == s.shots[j] && s.shots[j].from < n
        ensures es[s.shots[j].from] == front[s.shots[j].from]
        ensures all.enemies[s.shots[j].from] == s.enemies[s.shots[j].from]
      {
      }
    }
  }

  /**
   * A dive that is not interrupted comes back: with steps at least as long as
   * the dive and the return, a diving enemy is returning after one tick and
   * back in formation, exactly at origin plus local offset, after the next.
   */
  lemma DiveRoundTrip(e: Enemy, t1: Tick, t2: Tick, rng: nat -> real, k1: nat, k2: nat)
    requires Canonical(rng)
    requires e.alive && e.state == Diving && 0.0 <= e.diveT
    requires t1.dt >= DiveDuration && t2.dt >= ReturnDuration
    ensures var e1 := StepEnemy(e, t1, rng, k1).enemy;
      && e1.state == Returning && e1.diveStart == e.pos && e1.diveTarget == FormationPos(e, t1)
      && var e2 := StepEnemy(e1, t2, rng, k2).enemy;
      && e2.alive && e2.state == InFormation && e2.pos == FormationPos(e, t2)
  {
    StepEnemySpec(e, t1, rng, k1);
    var e1 := StepEnemy(e, t1, rng, k1).enemy;
    StepEnemySpec(e1, t2, rng, k2);
  }

  // ---------------------------------------------------------------- liveness counts

  /** The count is zero exactly when no enemy is alive (an empty array included). */
  lemma {:induction false} AliveCountZero(es: seq<Enemy>)
    ensures AliveCount(es) == 0 <==> forall i :: 0 <= i < |es| ==> !es[i].alive
    decreases |es|
  {
    if es != [] {
      AliveCountZero(es[..|es| - 1]);
      assert forall i :: 0 <= i < |es| - 1 ==> es[..|es| - 1][i] == es[i];
    }
  }

  /** Arrays with the same liveness pattern have the same alive count. */
  lemma {:induction false} SameLivenessSameCount(a: seq<Enemy>, b: seq<Enemy>)
    requires |a| == |b|
    requires forall i :: 0 <= i < |a| ==> a[i].alive == b[i].alive
    ensures AliveCount(a) == AliveCount(b)
    decreases |a|
  {
    if a != [] {
      SameLivenessSameCount(a[..|a| - 1], b[..|b| - 1]);
    }
  }

  /** A tick never changes how many enemies are alive. */
  lemma TickKeepsAliveCount(es: seq<Enemy>, t: Tick, rng: nat -> real, k: nat)
    requires Canonical(rng)
    ensures AliveCount(StepAll(es, t, rng, k).enemies) == AliveCount(es)
  {
    StepAllTransitions(es, t, rng, k);
    var s := StepAll(es, t, rng, k);
    SameLivenessSameCount(s.enemies, es);
  }

  /**
   * `killEnemy(i)` keeps the array's length and every other slot, marks slot i
   * dead, and lowers the alive count by one exactly when that enemy was alive.
   */
  lemma {:induction false} KillSpec(es: seq<Enemy>, index: nat)
    ensures var ks := Killed(es, index);
      && |ks| == |es|
      && (forall j :: 0 <= j < |es| && j != index ==> ks[j] == es[j])
      && (index < |es| ==> !ks[index].alive && ks[index].state == Dead)
      && AliveCount(ks) == AliveCount(es) - (if index < |es| && es[index].alive then 1 else 0)
    decreases |es|
  {
    if index < |es| {
      var n := |es| - 1;
      var ks := Killed(es, index);
      if index == n {
        assert ks[..n] == es[..n];
      } else {
        KillSpec(es[..n], index);
        assert ks[..n] == Killed(es[..n], index);
      }
    }
  }

  // ---------------------------------------------------------------- difficulty

  lemma RatioBounds(alive: nat, total: nat)
    requires 0 < total && alive <= total
    ensures 0.0 <= alive as real / total as real <= 1.0
  {
    var q := alive as real / total as real;
    assert q * total as real == alive as real;
  }

  /** With alive <= total the formation speed lies between 40 and 120 pixels per second. */
  lemma SpeedBounds(alive: nat, total: nat)
    requires 0 < total && alive <= total
    ensures BaseSpeed <= Speed(alive, total) <= BaseSpeed * (1.0 + SpeedScale)
  {
    RatioBounds(alive, total);
  }

  /** Fewer enemies alive never means a slower formation. */
  lemma SpeedMonotone(a1: nat, a2: nat, total: nat)
    requires 0 < total && a1 <= a2 <= total
    ensures Speed(a2, total) <= Speed(a1, total)
  {
    RatioMonotone(a1, a2, total);
  }

  /** The alive ratio grows with the alive count. */
  lemma RatioMonotone(a1: nat, a2: nat, total: nat)
    requires 0 < total && a1 <= a2
    ensures a1 as real / total as real <= a2 as real / total as real
  {
    var n := total as real;
    var inv := 1.0 / n;
    assert inv > 0.0;
    assert a1 as real / n == a1 as real * inv;
    assert a2 as real / n == a2 as real * inv;
    assert (a2 - a1) as real * inv >= 0.0;
  }

  /** Killing an enemy never slows the formation's next recomputed speed. */
  lemma KillNeverSlows(es: seq<Enemy>, index: nat)
    requires 0 < |es|
    ensures Speed(AliveCount(es), |es|) <= Speed(AliveCount(Killed(es, index)), |es|)
  {
    KillSpec(es, index);
    SpeedMonotone(AliveCount(Killed(es, index)), AliveCount(es), |es|);
  }
}
