/** Axis-aligned geometry shared by the player, the enemies and the bullets. */
module Geometry {

  /** The logical canvas the simulation runs in (canvasMaxWidth by canvasMaxHeight). */
  datatype World = World(width: real, height: real)

  /** A rectangle centred on (x, y) whose drawn size is width * scale by height * scale. */
  datatype Box = Box(x: real, y: real, width: real, height: real, scale: real)

  function Abs(d: real): (r: real)
    ensures r >= 0.0 && (r == d || r == -d)
  {
    if d < 0.0 then -d else d
  }

  /** Half-extents of a box along each axis. */
  function HalfWidth(b: Box): real { b.width / 2.0 * b.scale }
  function HalfHeight(b: Box): real { b.height / 2.0 * b.scale }

  /** The hit test of the game: the centres are no further apart, on each axis,
      than the sum of the two half-extents. That is the same as the two
      rectangles meeting. */
  predicate Overlap(a: Box, b: Box): (r: bool)
    ensures r <==> ExtentsMeet(a, b)
  {
    Abs(a.x - b.x) <= HalfWidth(a) + HalfWidth(b) &&
    Abs(a.y - b.y) <= HalfHeight(a) + HalfHeight(b)
  }

  /** The closed extents [centre - half, centre + half] of two boxes intersect on both axes. */
  predicate ExtentsMeet(a: Box, b: Box)
  {
    a.x - HalfWidth(a) <= b.x + HalfWidth(b) && b.x - HalfWidth(b) <= a.x + HalfWidth(a) &&
    a.y - HalfHeight(a) <= b.y + HalfHeight(b) && b.y - HalfHeight(b) <= a.y + HalfHeight(a)
  }

  /** The centre-distance test is exactly rectangle intersection, so it does not
      depend on which of the two boxes is named first. */
  lemma OverlapIsIntersection(a: Box, b: Box)
    ensures Overlap(a, b) <==> ExtentsMeet(a, b)
    ensures Overlap(a, b) <==> Overlap(b, a)
  {
  }

  /** An enemy of size 20 at (100, 100) and a bullet of size 8 at (105, 103)
      collide; the same bullet at (120, 100) misses. */
  lemma OverlapExample()
    ensures Overlap(Box(100.0, 100.0, 20.0, 20.0, 1.0), Box(105.0, 103.0, 8.0, 8.0, 1.0))
    ensures !Overlap(Box(100.0, 100.0, 20.0, 20.0, 1.0), Box(120.0, 100.0, 8.0, 8.0, 1.0))
  {
  }

  /** One axis of the player's bounce: a coordinate below lo is put on lo, one above
      hi on hi, and in either case the velocity along that axis is reversed. */
  function ClampAxis(p: real, v: real, lo: real, hi: real): (r: (real, real))
    ensures lo <= hi ==> lo <= r.0 <= hi
    ensures lo <= p <= hi ==> r == (p, v)
    ensures !(lo <= p <= hi) ==> r.1 == -v && (r.0 == lo || r.0 == hi)
  {
    if p < lo then (lo, -v)
    else if p > hi then (hi, -v)
    else (p, v)
  }

  /** The clamped coordinate is the point of [lo, hi] nearest to p. */
  lemma ClampIsNearest(p: real, v: real, lo: real, hi: real, q: real)
    requires lo <= q <= hi
    ensures Abs(ClampAxis(p, v, lo, hi).0 - p) <= Abs(q - p)
  {
  }
}
