/**
 * The formation controller: owns the enemy array, the shared formation origin,
 * direction and speed, and the random stream; runs one tick at a time.
 */
module EnemyManagers {
  import opened Wrappers
  import opened Geometry
  import opened Enemies
  import opened Projectiles
  import opened Formation
  import opened FormationProofs

  /** Per-enemy facts the manager keeps: liveness agrees with the Dead state, offsets follow the spacing. */
  predicate Consistent(e: Enemy, spacingX: real, spacingY: real)
  {
    (e.alive <==> e.state != Dead)
    && e.localX == e.col as real * spacingX
    && e.localY == e.row as real * spacingY
  }

  /** An enemy shot spawned at `at`: 6 by 12, moving down at 300 pixels per second. */
  predicate LaunchedFrom(p: Projectile, at: Point)
    reads p
  {
    p.x == at.x && p.y == at.y && p.w == ShotW && p.h == ShotH && p.speed == EnemyShotSpeed
  }

  /**
   * What a sweep over the array produces: `after` and `cursor` are those of
   * `Formation.StepAll`, and `projectiles` is `out` followed by one
   * enemy shot per firing enemy, in index order.
   */
  ghost predicate Swept(before: seq<Enemy>, t: Tick, rng: nat -> real, k: nat,
                        after: seq<Enemy>, cursor: nat, out: seq<Projectile>, projectiles: seq<Projectile>)
    reads projectiles
  {
    var s := StepAll(before, t, rng, k);
    && after == s.enemies && cursor == s.cursor
    && |projectiles| == |out| + |s.shots|
    && projectiles[..|out|] == out
    && forall j :: 0 <= j < |s.shots| ==> LaunchedFrom(projectiles[|out| + j], s.shots[j].at)
  }

  /** One more enemy of the loop: the sweep grows by its step, and by its projectile if it fired. */
  lemma SweptStep(es: seq<Enemy>, i: nat, t: Tick, rng: nat -> real, k: nat,
                  after: seq<Enemy>, cursor: nat, out: seq<Projectile>, ps: seq<Projectile>, ps': seq<Projectile>)
    requires i < |es|
    requires Swept(es[..i], t, rng, k, after, cursor, out, ps)
    requires var o := StepEnemy(es[i], t, rng, cursor);
      if o.shot.Some? then |ps'| == |ps| + 1 && ps'[..|ps|] == ps && LaunchedFrom(ps'[|ps|], o.shot.value)
      else ps' == ps
    ensures var o := StepEnemy(es[i], t, rng, cursor);
      Swept(es[..i + 1], t, rng, k, after + [o.enemy], o.cursor, out, ps')
  {
    assert es[..i + 1][..i] == es[..i];
    var s := StepAll(es[..i], t, rng, k);
    var o := StepEnemy(es[i], t, rng, cursor);
    assert StepAll(es[..i + 1], t, rng, k)
      == Sweep(s.enemies + [o.enemy], s.shots + (if o.shot.Some? then [Shot(i, o.shot.value)] else []), o.cursor);
    if o.shot.Some? {
      assert ps'[..|out|] == ps[..|out|];
    }
  }

  /** A tick keeps every enemy consistent with the spacing. */
  lemma TickKeepsConsistent(before: seq<Enemy>, after: seq<Enemy>, t: Tick, spacingX: real, spacingY: real)
    requires |before| == |after|
    requires forall i :: 0 <= i < |before| ==> Consistent(before[i], spacingX, spacingY)
    requires forall i :: 0 <= i < |before| ==> Transition(before[i], after[i], t)
    ensures forall i :: 0 <= i < |after| ==> Consistent(after[i], spacingX, spacingY)
  {
    forall i | 0 <= i < |after|
      ensures Consistent(after[i], spacingX, spacingY)
    {
      assert Transition(before[i], after[i], t);
      assert Consistent(before[i], spacingX, spacingY);
    }
  }

  /** A whole sweep keeps the array consistent with the spacing, whatever the draws. */
  lemma SweepKeepsConsistent(es: seq<Enemy>, t: Tick, rng: nat -> real, k: nat, after: seq<Enemy>, cursor: nat,
                             out: seq<Projectile>, ps: seq<Projectile>, spacingX: real, spacingY: real)
    requires Canonical(rng)
    requires Swept(es, t, rng, k, after, cursor, out, ps)
    requires forall i :: 0 <= i < |es| ==> Consistent(es[i], spacingX, spacingY)
    ensures forall i :: 0 <= i < |after| ==> Consistent(after[i], spacingX, spacingY)
  {
    StepAllTransitions(es, t, rng, k);
    TickKeepsConsistent(es, after, t, spacingX, spacingY);
  }

  class EnemyManager {
    var enemies: seq<Enemy>
    var originX: real
    var originY: real
    var dir: int
    var formationSpeed: real
    var spacingX: real
    var spacingY: real
    /** The engine's output, fixed by its seed; `drawn` is how much of it has been used. */
    const rng: nat -> real
    var drawn: nat

    ghost predicate Valid()
      reads this
    {
      && (dir == 1 || dir == -1)
      && Canonical(rng)
      && BaseSpeed <= formationSpeed <= BaseSpeed * (1.0 + SpeedScale)
      && forall i :: 0 <= i < |enemies| ==> Consistent(enemies[i], spacingX, spacingY)
    }

    /** A manager with no enemies and the header's initial values; `rng` stands for the seeded engine. */
    constructor (rng: nat -> real)
      requires Canonical(rng)
      ensures Valid()
      ensures enemies == [] && this.rng == rng && drawn == 0
      ensures originX == 100.0 && originY == 50.0 && dir == 1 && formationSpeed == 40.0
      ensures spacingX == 64.0 && spacingY == 48.0
    {
      enemies := [];
      originX := 100.0;
      originY := 50.0;
      dir := 1;
      formationSpeed := 40.0;
      spacingX := 64.0;
      spacingY := 48.0;
      this.rng := rng;
      drawn := 0;
    }

    /** The next canonical draw of the engine. */
    method Draw() returns (u: real)
      modifies this`drawn
      ensures u == rng(old(drawn)) && drawn == old(drawn) + 1
    {
      u := rng(drawn);
      drawn := drawn + 1;
    }

    /**
     * Replace the array with a rows-by-cols grid. A negative product makes the
     * vector's reserve throw (`thrown`), after the array was cleared and the
     * origin and spacing were set.
     */
    method InitGrid(rows: int, cols: int, startX: real, startY: real, sX: real, sY: real) returns (thrown: bool)
      requires Valid()
      modifies this`enemies, this`originX, this`originY, this`spacingX, this`spacingY, this`drawn
      ensures Valid()
      ensures originX == startX && originY == startY && spacingX == sX && spacingY == sY
      ensures thrown <==> rows * cols < 0
      ensures thrown ==> enemies == [] && drawn == old(drawn)
      ensures !thrown ==> enemies == Grid(rows, cols, startX, startY, sX, sY, rng, old(drawn))
      ensures !thrown ==> drawn == old(drawn) + |enemies|
    {
      enemies := [];
      originX := startX;
      originY := startY;
      spacingX := sX;
      spacingY := sY;
      if rows * cols < 0 {
        return true;
      }
      thrown := false;
      FillGrid(rows, cols);
    }

    /** The row loop of `initGrid`, run on the cleared array with origin and spacing already set. */
    method FillGrid(rows: int, cols: int)
      requires enemies == []
      modifies this`enemies, this`drawn
      ensures enemies == Grid(rows, cols, originX, originY, spacingX, spacingY, rng, old(drawn))
      ensures drawn == old(drawn) + |enemies|
      ensures forall i :: 0 <= i < |enemies| ==> Consistent(enemies[i], spacingX, spacingY)
    {
      var r := 0;
      while r < rows
        invariant 0 <= r && (r == 0 || r <= rows)
        invariant enemies == GridRows(r, rows, cols, originX, originY, spacingX, spacingY, rng, old(drawn))
        invariant drawn == old(drawn) + r * Width(cols)
      {
        AppendRow(r, rows, cols);
        assert enemies == GridRows(r + 1, rows, cols, originX, originY, spacingX, spacingY, rng, old(drawn));
        MulSucc(r, Width(cols));
        r := r + 1;
      }
      GridLength(rows, cols, originX, originY, spacingX, spacingY, rng, old(drawn));
      GridRowsPlaced(r, rows, cols, originX, originY, spacingX, spacingY, rng, old(drawn));
    }

    /** The inner loop of `initGrid`: push row r, columns 0 .. cols - 1, one timer draw each. */
    method AppendRow(r: int, rows: int, cols: int)
      requires 0 <= r < rows
      modifies this`enemies, this`drawn
      ensures enemies == old(enemies) + GridRow(r, cols, rows, originX, originY, spacingX, spacingY, rng, old(drawn))
      ensures drawn == old(drawn) + Width(cols)
    {
      var c := 0;
      while c < cols
        invariant 0 <= c && (c == 0 || c <= cols)
        invariant enemies == old(enemies) + GridRow(r, c, rows, originX, originY, spacingX, spacingY, rng, old(drawn))
        invariant drawn == old(drawn) + c
      {
        var e := MakeEnemy(r, c, rows);
        enemies := enemies + [e];
        c := c + 1;
      }
    }

    /** The body of `initGrid`'s inner loop: the enemy at cell (r, c), its timer drawn from the engine. */
    method MakeEnemy(r: int, c: int, rows: int) returns (e: Enemy)
      requires 0 <= r < rows
      modifies this`drawn
      ensures e == GridEnemy(r, c, rows, originX, originY, spacingX, spacingY, rng(old(drawn)))
      ensures drawn == old(drawn) + 1
    {
      var t := Basic;
      if r >= rows / 3 && r < 2 * rows / 3 {
        t := Shooter;
      }
      if r >= 2 * rows / 3 {
        t := Diver;
      }
      e := NewEnemy(t, r, c);
      e := e.(localX := c as real * spacingX);
      e := e.(localY := r as real * spacingY);
      e := e.(pos := Point(originX + e.localX, originY + e.localY));
      var u := Draw();
      e := e.(shootTimer := Uniform(0.0, Cooldown(t), u));
    }

    /** `recomputeFormationBounds`: the box of the alive, in-formation enemies, or [0, 0]. */
    method RecomputeFormationBounds() returns (minX: real, maxX: real)
      ensures Span(minX, maxX) == FormationBounds(enemies, originX)
    {
      var found := false;  // stands for minX still being +infinity
      minX, maxX := 0.0, 0.0;
      var i := 0;
      while i < |enemies|
        invariant 0 <= i <= |enemies|
        invariant Extent(enemies[..i], originX) == if found then Some(Span(minX, maxX)) else None
      {
        var e := enemies[i];
        assert enemies[..i + 1][..i] == enemies[..i];
        if e.alive && e.state == InFormation {
          var x := originX + e.localX;
          if !found {
            minX, maxX := x, x + EnemyW;
            found := true;
          } else {
            minX := if x < minX then x else minX;
            maxX := Max(maxX, x + EnemyW);
          }
        }
        i := i + 1;
      }
      assert enemies[..i] == enemies;
      if !found {
        minX, maxX := 0.0, 0.0;
      }
    }

    /** Step 1 of a tick: move the origin, then bounce off at most one edge and descend. */
    method MoveFormation(dt: real, windowW: real)
      requires Valid()
      modifies this`originX, this`originY, this`dir
      ensures Valid()
      ensures originX == old(originX) + Drift(old(dir), formationSpeed, dt)
      ensures var b := FormationBounds(enemies, originX);
        if b.lo < 0.0 then dir == 1 && originY == old(originY) + DescendStep
        else if b.hi > windowW then dir == -1 && originY == old(originY) + DescendStep
        else dir == old(dir) && originY == old(originY)
    {
      originX := originX + Drift(dir, formationSpeed, dt);
      var minX, maxX := RecomputeFormationBounds();
      if minX < 0.0 {
        dir := 1;
        originY := originY + DescendStep;
      } else if maxX > windowW {
        dir := -1;
        originY := originY + DescendStep;
      }
    }

    /** One enemy's part of a tick: skip if dead, else move by state, then run the shoot timer. */
    method TickEnemy(e0: Enemy, dt: real, playerX: real) returns (e: Enemy, shot: Option<Projectile>)
      modifies this`drawn
      ensures var o := StepEnemy(e0, Tick(dt, originX, originY, playerX), rng, old(drawn));
        && e == o.enemy && drawn == o.cursor
        && shot.Some? == o.shot.Some?
        && (shot.Some? ==> fresh(shot.value) && LaunchedFrom(shot.value, o.shot.value))
    {
      e, shot := e0, None;
      if !e.alive {
        return;
      }
      e := MoveEnemy(e, dt, playerX);
      e, shot := ShootEnemy(e, dt);
    }

    /** The movement half of an alive enemy's tick, by state. */
    method MoveEnemy(e0: Enemy, dt: real, playerX: real) returns (e: Enemy)
      modifies this`drawn
      ensures Moved(e, drawn) == Maneuver(e0, Tick(dt, originX, originY, playerX), rng, old(drawn))
    {
      e := e0;
      if e.state == InFormation {
        e := e.(pos := Point(originX + e.localX, originY + e.localY));
        if e.kind == Diver {
          var chanceThisFrame := DiverChancePerSecond * dt;
          var u := Draw();
          if u < chanceThisFrame {
            e := e.(state := Diving, diveT := 0.0, diveStart := e.pos,
                    diveTarget := Point(playerX - EnemyW * 0.5, originY + DiveDepth));
          }
        }
      } else if e.state == Diving {
        e := e.(diveT := e.diveT + dt / DiveDuration);
        if e.diveT >= 1.0 {
          e := e.(diveT := 1.0, state := Returning, diveStart := e.pos,
                  diveTarget := Point(originX + e.localX, originY + e.localY));
          e := e.(diveT := 0.0);
        } else {
          var mid := Point((e.diveStart.x + e.diveTarget.x) * 0.5, Max(e.diveStart.y, e.diveTarget.y) + ArcHeight);
          e := e.(pos := Bezier(e.diveStart, mid, e.diveTarget, e.diveT));
        }
      } else if e.state == Returning {
        e := e.(diveT := e.diveT + dt / ReturnDuration);
        if e.diveT >= 1.0 {
          e := e.(diveT := 1.0, state := InFormation, pos := Point(originX + e.localX, originY + e.localY));
        } else {
          e := e.(pos := Lerp(e.diveStart, e.diveTarget, e.diveT));
        }
      }
    }

    /** The shooting half: run the timer down; on expiry roll for a shot, then reset the timer. */
    method ShootEnemy(e0: Enemy, dt: real) returns (e: Enemy, shot: Option<Projectile>)
      modifies this`drawn
      ensures var f := Fire(e0, dt, rng, old(drawn));
        && e == f.enemy && drawn == f.cursor
        && shot.Some? == f.shot.Some?
        && (shot.Some? ==> fresh(shot.value) && LaunchedFrom(shot.value, f.shot.value))
    {
      e, shot := e0, None;
      e := e.(shootTimer := e.shootTimer - dt);
      if e.shootTimer <= 0.0 {
        var cooldown := Cooldown(e.kind);
        var shootChance := ShootProbabilityPerSecond * dt;
        var u := Draw();
        if u < shootChance {
          var p := new Projectile(e.pos.x + EnemyW * 0.5, e.pos.y + EnemyH, ShotW, ShotH, EnemyShotSpeed);
          shot := Some(p);
          var jitter := Draw();
          e := e.(shootTimer := cooldown + Uniform(0.0, JitterFraction * cooldown, jitter));
        } else {
          var small := Draw();
          e := e.(shootTimer := Uniform(RetryMin, RetryMax, small));
        }
      }
    }

    /** One pass of the per-enemy loop: slot i is ticked in place and its shot, if any, appended. */
    method UpdateSlot(i: nat, dt: real, playerX: real, ghost es0: seq<Enemy>, ghost k0: nat,
                      out: seq<Projectile>, ps: seq<Projectile>) returns (ps': seq<Projectile>)
      requires i < |enemies| == |es0| && enemies[i..] == es0[i..]
      requires Swept(es0[..i], Tick(dt, originX, originY, playerX), rng, k0, enemies[..i], drawn, out, ps)
      modifies this`enemies, this`drawn
      ensures |enemies| == |es0| && enemies[i + 1..] == es0[i + 1..]
      ensures Swept(es0[..i + 1], Tick(dt, originX, originY, playerX), rng, k0, enemies[..i + 1], drawn, out, ps')
      ensures |ps| <= |ps'| && ps'[..|ps|] == ps
      ensures forall j :: |ps| <= j < |ps'| ==> fresh(ps'[j])
    {
      ghost var done := enemies[..i];
      var e, shot := TickEnemy(enemies[i], dt, playerX);
      ps' := ps;
      if shot.Some? {
        ps' := ps' + [shot.value];
      }
      SweptStep(es0, i, Tick(dt, originX, originY, playerX), rng, k0, done, old(drawn), out, ps, ps');
      enemies := enemies[i := e];
      assert enemies[..i + 1] == done + [e];
    }

    /** Step 2 of a tick: every enemy in index order; shots are appended to `out`. */
    method UpdateEnemies(dt: real, playerX: real, out: seq<Projectile>) returns (projectiles: seq<Projectile>)
      requires Valid()
      modifies this`enemies, this`drawn
      ensures Valid()
      ensures Swept(old(enemies), Tick(dt, originX, originY, playerX), rng, old(drawn), enemies, drawn, out, projectiles)
      ensures forall j :: |out| <= j < |projectiles| ==> fresh(projectiles[j])
    {
      ghost var es0 := enemies;
      ghost var k0 := drawn;
      ghost var t := Tick(dt, originX, originY, playerX);
      projectiles := out;
      var i := 0;
      while i < |enemies|
        invariant 0 <= i <= |es0| == |enemies|
        invariant Swept(es0[..i], t, rng, k0, enemies[..i], drawn, out, projectiles)
        invariant enemies[i..] == es0[i..]
        invariant forall j :: |out| <= j < |projectiles| ==> fresh(projectiles[j])
      {
        projectiles := UpdateSlot(i, dt, playerX, es0, k0, out, projectiles);
        i := i + 1;
      }
      assert es0[..i] == es0 && enemies[..i] == enemies;
      SweepKeepsConsistent(es0, t, rng, k0, enemies, drawn, out, projectiles, spacingX, spacingY);
    }

    /** Step 3 of a tick: recompute the speed from the alive ratio; an empty array keeps it. */
    method RescaleSpeed()
      requires Valid()
      modifies this`formationSpeed
      ensures Valid()
      ensures |enemies| > 0 ==> formationSpeed == Speed(AliveCount(enemies), |enemies|)
      ensures |enemies| == 0 ==> formationSpeed == old(formationSpeed)
    {
      var aliveCount := 0;
      var i := 0;
      while i < |enemies|
        invariant 0 <= i <= |enemies|
        invariant aliveCount == AliveCount(enemies[..i])
      {
        assert enemies[..i + 1][..i] == enemies[..i];
        if enemies[i].alive {
          aliveCount := aliveCount + 1;
        }
        i := i + 1;
      }
      assert enemies[..i] == enemies;
      var total := |enemies|;
      if total > 0 {
        var aliveRatio := aliveCount as real / total as real;
        formationSpeed := 40.0 * (1.0 + (1.0 - aliveRatio) * 2.0);
        SpeedBounds(aliveCount, total);
      }
    }

    /**
     * One tick: move and bounce the formation, run every enemy's state machine
     * and shoot timer, append the shots to `out`, then rescale the speed.
     */
    method Update(dt: real, windowW: real, playerX: real, out: seq<Projectile>) returns (projectiles: seq<Projectile>)
      requires Valid()
      modifies this`originX, this`originY, this`dir, this`enemies, this`drawn, this`formationSpeed
      ensures Valid()
      ensures originX == old(originX) + Drift(old(dir), old(formationSpeed), dt)
      ensures var b := FormationBounds(old(enemies), originX);
        if b.lo < 0.0 then dir == 1 && originY == old(originY) + DescendStep
        else if b.hi > windowW then dir == -1 && originY == old(originY) + DescendStep
        else dir == old(dir) && originY == old(originY)
      ensures Swept(old(enemies), Tick(dt, originX, originY, playerX), rng, old(drawn), enemies, drawn, out, projectiles)
      ensures forall j :: |out| <= j < |projectiles| ==> fresh(projectiles[j])
      ensures |enemies| > 0 ==> formationSpeed == Speed(AliveCount(enemies), |enemies|)
      ensures |enemies| == 0 ==> formationSpeed == old(formationSpeed)
    {
      ghost var e0, k0 := enemies, drawn;
      MoveFormation(dt, windowW);
      ghost var t := Tick(dt, originX, originY, playerX);
      projectiles := UpdateEnemies(dt, playerX, out);
      ghost var e1, k1 := enemies, drawn;
      assert Swept(e0, t, rng, k0, e1, k1, out, projectiles);
      RescaleSpeed();
      assert enemies == e1 && drawn == k1 && Tick(dt, originX, originY, playerX) == t;
    }

    /** Whether no enemy is left alive (true for an empty array). */
    method AllDead() returns (r: bool)
      ensures r <==> forall i :: 0 <= i < |enemies| ==> !enemies[i].alive
    {
      var i := 0;
      while i < |enemies|
        invariant 0 <= i <= |enemies|
        invariant forall j :: 0 <= j < i ==> !enemies[j].alive
      {
        if enemies[i].alive {
          return false;
        }
        i := i + 1;
      }
      return true;
    }

    /** Mark one slot dead; an index past the end is ignored. */
    method KillEnemy(index: nat)
      requires Valid()
      modifies this`enemies
      ensures Valid()
      ensures enemies == Killed(old(enemies), index)
    {
      if index < |enemies| {
        enemies := enemies[index := enemies[index].(alive := false, state := Dead)];
      }
    }

    /** The read-only view of the array; it changes nothing. */
    method GetEnemies() returns (view: seq<Enemy>)
      ensures view == enemies
    {
      view := enemies;
    }
  }
}
