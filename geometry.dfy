/**
 * Plane geometry used by the game: QPointF as a pair of reals, and the two
 * interpolation curves of the dive (quadratic Bezier) and the return (linear).
 */
module Geometry {

  datatype Point = Point(x: real, y: real)

  /** A default-constructed QPointF. */
  const Origin: Point := Point(0.0, 0.0)

  /** std::max on doubles: the larger of the two arguments. */
  function Max(a: real, b: real): (m: real)
    ensures a <= m && b <= m
    ensures m == a || m == b
  {
    if a < b then b else a
  }

  /** Linear interpolation `start * (1 - t) + target * t`. */
  function Lerp(start: Point, target: Point, t: real): Point
  {
    Point(start.x * (1.0 - t) + target.x * t, start.y * (1.0 - t) + target.y * t)
  }

  /** Quadratic Bezier `(1-t)^2 * start + 2(1-t)t * mid + t^2 * target`. */
  function Bezier(start: Point, mid: Point, target: Point, t: real): Point
  {
    Point((1.0 - t) * (1.0 - t) * start.x + 2.0 * (1.0 - t) * t * mid.x + t * t * target.x,
          (1.0 - t) * (1.0 - t) * start.y + 2.0 * (1.0 - t) * t * mid.y + t * t * target.y)
  }

  // The tick never evaluates either curve at t = 1: once the parameter reaches 1
  // a dive keeps its last arc point and a return snaps to the formation slot.

  /** The straight return path starts at its start point. */
  lemma LerpStart(start: Point, target: Point)
    ensures Lerp(start, target, 0.0) == start
  {
  }

  /** The dive arc starts at its start point, whatever the control point. */
  lemma BezierStart(start: Point, mid: Point, target: Point)
    ensures Bezier(start, mid, target, 0.0) == start
  {
  }
}
