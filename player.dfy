/** The player's paddle: a horizontal move-then-clamp integrator. */
module Players {
  import opened Geometry

  /**
   * The new x of `Player::update`: move by `direction * speed * dt`, then clamp
   * into `[0, max(0, windowWidth - w)]`, lower bound first.
   */
  function Steered(x: real, w: real, speed: real, dt: real, direction: int, windowWidth: real): (r: real)
    ensures 0.0 <= r <= Max(0.0, windowWidth - w)
    ensures windowWidth <= w ==> r == 0.0
    ensures var moved := x + direction as real * speed * dt;
      0.0 <= moved <= windowWidth - w ==> r == moved
  {
    var moved := x + direction as real * speed * dt;
    var maxX := Max(0.0, windowWidth - w);
    var low := if moved < 0.0 then 0.0 else moved;
    if low > maxX then maxX else low
  }

  class Player {
    var x: real
    var w: real
    var h: real
    var speed: real

    constructor (x: real := 0.0, w: real := 80.0, h: real := 20.0, speed: real := 350.0)
      ensures this.x == x && this.w == w && this.h == h && this.speed == speed
    {
      this.x := x;
      this.w := w;
      this.h := h;
      this.speed := speed;
    }

    method Update(dt: real, direction: int, windowWidth: real)
      modifies this`x
      ensures x == Steered(old(x), w, speed, dt, direction, windowWidth)
      ensures 0.0 <= x <= Max(0.0, windowWidth - w)
    {
      x := x + direction as real * speed * dt;
      var minX := 0.0;
      var maxX := Max(0.0, windowWidth - w);
      if x < minX {
        x := minX;
      }
      if x > maxX {
        x := maxX;
      }
    }

    method SetX(v: real)
      modifies this`x
      ensures x == v
    {
      x := v;
    }

    method SetSize(newW: real, newH: real)
      modifies this`w, this`h
      ensures w == newW && h == newH
    {
      w := newW;
      h := newH;
    }

    method SetSpeed(s: real)
      modifies this`speed
      ensures speed == s
    {
      speed := s;
    }
  }

  /** Standing still on an in-range position changes nothing. */
  lemma IdleIsIdentity(x: real, w: real, speed: real, dt: real, windowWidth: real)
    requires 0.0 <= x <= Max(0.0, windowWidth - w)
    ensures Steered(x, w, speed, dt, 0, windowWidth) == x
  {
  }

  /** A second idle step after any step changes nothing: the clamp is idempotent. */
  lemma IdleAfterStepIsIdempotent(x: real, w: real, speed: real, dt: real, direction: int, windowWidth: real, dt2: real)
    ensures var once := Steered(x, w, speed, dt, direction, windowWidth);
      Steered(once, w, speed, dt2, 0, windowWidth) == once
  {
    var once := Steered(x, w, speed, dt, direction, windowWidth);
    IdleIsIdentity(once, w, speed, dt2, windowWidth);
  }
}
