/** Plane geometry shared by every entity: positions, the circle and distance
    tests the game borrows from raylib, and Go's float-to-int conversion. */
module Geometry {

  /** A position in the play area (raylib's Vector2); float32 rounding is not modelled. */
  datatype Vec = Vec(x: real, y: real)

  function SqDist(a: Vec, b: Vec): real
  {
    (a.x - b.x) * (a.x - b.x) + (a.y - b.y) * (a.y - b.y)
  }

  /** raylib's CheckCollisionCircles: the centres are at most r1 + r2 apart. */
  predicate CirclesOverlap(c1: Vec, r1: real, c2: Vec, r2: real)
  {
    SqDist(c1, c2) <= (r1 + r2) * (r1 + r2)
  }

  /** Vector2Distance(a, b) <= radius, compared on squared values. */
  predicate WithinDistance(a: Vec, b: Vec, radius: real)
  {
    0.0 <= radius && SqDist(a, b) <= radius * radius
  }

  /** Go's `int(x)` for a floating-point x: the fraction is dropped, rounding toward zero. */
  function Truncate(x: real): (r: int)
    ensures 0.0 <= x ==> r as real <= x < r as real + 1.0
    ensures x < 0.0 ==> r as real - 1.0 < x <= r as real
  {
    if x >= 0.0 then x.Floor else -((-x).Floor)
  }

  function Min(a: int, b: int): int
  {
    if a <= b then a else b
  }

  function Max(a: int, b: int): int
  {
    if a >= b then a else b
  }
}
