/**
 * Planar vectors and distances. The source measures every distance with
 * math.hypot, a square root that Dafny cannot compute on reals, so the model
 * takes the length function as a parameter `h`. Lemmas that need its meaning
 * require IsHypot(h), the two properties of a length the model relies on.
 */
module Geometry {
  /** A 2D vector, such as the ambient current. */
  datatype Vec = Vec(x: real, y: real)

  /** The Euclidean length of (dx, dy), i.e. math.hypot. */
  type Hypot = (real, real) -> real

  /** A length is never negative, and it is zero exactly for the zero vector. */
  ghost predicate IsHypot(h: Hypot) {
    forall dx: real, dy: real :: 0.0 <= h(dx, dy) && (h(dx, dy) == 0.0 <==> dx == 0.0 && dy == 0.0)
  }

  /**
   * math.hypot(px - qx, py - qy): the distance from point p to point q. For
   * a length h it is non-negative and zero exactly when the points coincide.
   */
  function Dist(h: Hypot, px: real, py: real, qx: real, qy: real): (r: real)
    ensures IsHypot(h) ==> 0.0 <= r && (r == 0.0 <==> px == qx && py == qy)
  {
    h(px - qx, py - qy)
  }
}
