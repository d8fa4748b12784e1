/**
 * Physical-to-screen coordinate transform of the projectile visualiser.
 * One metre is `Scale` pixels; the launch point sits at pixel column
 * `StartX` and height zero at pixel row `GroundY` (screen rows grow downwards).
 * Python's `int()` on a float truncates toward zero, which is `Trunc` here.
 */
module Geometry {

  const Scale: real := 100.0
  const GroundY: int := 500
  const StartX: int := 50

  /** A screen point in whole pixels. */
  datatype Point = Point(x: int, y: int)

  function Abs(r: real): real {
    if r < 0.0 then -r else r
  }

  /** Python's `int(r)`: the integer part of `r`, rounding toward zero. */
  function Trunc(r: real): (n: int)
    ensures 0.0 <= r ==> n as real <= r < n as real + 1.0
    ensures r < 0.0 ==> n as real - 1.0 < r <= n as real
  {
    if r >= 0.0 then r.Floor else -((-r).Floor)
  }

  /** Truncation toward zero never reverses the order of two reals. */
  lemma TruncMonotone(a: real, b: real)
    requires a <= b
    ensures Trunc(a) <= Trunc(b)
  {
  }

  /** Truncation leaves whole numbers alone. */
  lemma TruncOfInt(n: int)
    ensures Trunc(n as real) == n
  {
  }

  /** `phys_to_pixel`: metres (x to the right, h upwards) to whole screen pixels. */
  function PhysToPixel(xM: real, hM: real): (p: Point)
    ensures -1.0 < p.x as real - (StartX as real + xM * Scale) < 1.0
    ensures -1.0 < p.y as real - (GroundY as real - hM * Scale) < 1.0
    ensures Abs(p.x as real) <= Abs(StartX as real + xM * Scale)
    ensures Abs(p.y as real) <= Abs(GroundY as real - hM * Scale)
  {
    Point(Trunc(StartX as real + xM * Scale), Trunc(GroundY as real - hM * Scale))
  }

  /** A higher position is never drawn lower on the screen, and one further right never further left. */
  lemma PhysToPixelMonotone(x1: real, h1: real, x2: real, h2: real)
    requires x1 <= x2 && h1 <= h2
    ensures PhysToPixel(x1, h1).x <= PhysToPixel(x2, h2).x
    ensures PhysToPixel(x2, h2).y <= PhysToPixel(x1, h1).y
  {
    TruncMonotone(StartX as real + x1 * Scale, StartX as real + x2 * Scale);
    TruncMonotone(GroundY as real - h2 * Scale, GroundY as real - h1 * Scale);
  }

  /** Whole-centimetre positions land exactly on a pixel: the transform is exact there. */
  lemma PhysToPixelOnGrid(cx: int, ch: int)
    ensures PhysToPixel(cx as real / Scale, ch as real / Scale) == Point(StartX + cx, GroundY - ch)
  {
    TruncOfInt(StartX + cx);
    TruncOfInt(GroundY - ch);
  }
}
