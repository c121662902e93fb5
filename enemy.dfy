/** The enemy record of Enemy.h: two closed enums and a plain value with defaults. */
module Enemies {
  import opened Geometry

  datatype EnemyType = Basic | Shooter | Diver

  datatype EnemyState = InFormation | Diving | Returning | Dead

  /**
   * One grid member. `kind` is the C++ field `type` (a Dafny keyword).
   * `localX`/`localY` are the formation-local offset, `diveT` the interpolation
   * parameter of the current dive or return, `diveStart`/`diveTarget` its endpoints.
   */
  datatype Enemy = Enemy(
    kind: EnemyType,
    state: EnemyState,
    alive: bool,
    row: int,
    col: int,
    pos: Point,
    localX: real,
    localY: real,
    shootTimer: real,
    diveT: real,
    diveStart: Point,
    diveTarget: Point)

  /** The constructor `Enemy(t, r, c)`: every other field keeps its default. */
  function NewEnemy(t: EnemyType, r: int, c: int): Enemy
  {
    Enemy(t, InFormation, true, r, c, Origin, 0.0, 0.0, 0.0, 0.0, Origin, Origin)
  }

  /** The defaulted constructor `Enemy()`. */
  function DefaultEnemy(): Enemy
  {
    NewEnemy(Basic, 0, 0)
  }

  /** A new enemy is alive, in formation, stores its arguments and has all-zero defaults. */
  lemma NewEnemyDefaults(t: EnemyType, r: int, c: int)
    ensures var e := NewEnemy(t, r, c);
      && e.alive && e.state == InFormation
      && e.kind == t && e.row == r && e.col == c
      && e.pos == Origin && e.localX == 0.0 && e.localY == 0.0
      && e.shootTimer == 0.0 && e.diveT == 0.0
    ensures DefaultEnemy().kind == Basic && DefaultEnemy().row == 0 && DefaultEnemy().col == 0
  {
  }
}
