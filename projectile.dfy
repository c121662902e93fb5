/**
 * A straight-line moving shot. The sign of `speed` tells who fired it:
 * positive moves toward decreasing y (the player's shots), negative toward
 * increasing y (the enemies' shots).
 */
module Projectiles {

  /** The vertical step of `Projectile::update`. */
  function Advanced(y: real, speed: real, dt: real): real
  {
    y - speed * dt
  }

  class Projectile {
    // There are no setters: only `Update` changes y, so the rest are constants.
    const x: real
    var y: real
    const w: real
    const h: real
    const speed: real

    constructor (x: real, y: real, w: real := 6.0, h: real := 12.0, speed: real := 600.0)
      ensures this.x == x && this.y == y && this.w == w && this.h == h && this.speed == speed
    {
      this.x := x;
      this.y := y;
      this.w := w;
      this.h := h;
      this.speed := speed;
    }

    method Update(dt: real)
      modifies this`y
      ensures y == Advanced(old(y), speed, dt)
    {
      y := y - speed * dt;
    }

    /** Offscreen only above the top edge; the window height is not consulted. */
    predicate IsOffscreen(windowHeight: real)
      reads this
    {
      y + 0.0 < 0.0
    }
  }

  /** A positive speed moves a shot up the screen, a negative one down, for any positive step. */
  lemma AdvanceDirection(y: real, speed: real, dt: real)
    requires dt > 0.0
    ensures speed > 0.0 ==> Advanced(y, speed, dt) < y
    ensures speed < 0.0 ==> Advanced(y, speed, dt) > y
    ensures speed == 0.0 ==> Advanced(y, speed, dt) == y
  {
    if speed > 0.0 {
      assert speed * dt > 0.0;
    } else if speed < 0.0 {
      assert (-speed) * dt > 0.0;
    }
  }

  /** A zero time step leaves a shot where it is. */
  lemma AdvanceByZero(y: real, speed: real)
    ensures Advanced(y, speed, 0.0) == y
  {
  }

  /** Whether a shot is offscreen depends only on its y, never on the window height. */
  lemma OffscreenIgnoresHeight(p: Projectile, h1: real, h2: real)
    ensures p.IsOffscreen(h1) <==> p.y < 0.0
    ensures p.IsOffscreen(h1) == p.IsOffscreen(h2)
  {
  }
}
