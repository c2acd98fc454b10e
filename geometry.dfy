/** Points, axis-aligned boxes and the closed-box membership test every script uses. */
module Geometry {

  /** A point (or vector) with its three Cartesian coordinates. */
  datatype Vec3 = Vec3(x: real, y: real, z: real)

  /** Axis 0 is X, 1 is Y, 2 is Z. */
  type Axis = a: nat | a < 3

  function Coord(p: Vec3, a: Axis): real {
    if a == 0 then p.x else if a == 1 then p.y else p.z
  }

  function Add(p: Vec3, q: Vec3): Vec3 { Vec3(p.x + q.x, p.y + q.y, p.z + q.z) }

  function Sub(p: Vec3, q: Vec3): Vec3 { Vec3(p.x - q.x, p.y - q.y, p.z - q.z) }

  function Scale(p: Vec3, s: real): Vec3 { Vec3(p.x * s, p.y * s, p.z * s) }

  const Origin := Vec3(0.0, 0.0, 0.0)

  /** An axis-aligned box given by its minimum and maximum corners. */
  datatype Box = Box(lo: Vec3, hi: Vec3)

  /** The corners are ordered on every axis. */
  predicate Proper(b: Box) {
    b.lo.x <= b.hi.x && b.lo.y <= b.hi.y && b.lo.z <= b.hi.z
  }

  /**
   * The selection test of every filter: `lo <= p <= hi` on all three axes,
   * closed at both ends.
   */
  predicate InBox(p: Vec3, b: Box) {
    b.lo.x <= p.x <= b.hi.x && b.lo.y <= p.y <= b.hi.y && b.lo.z <= p.z <= b.hi.z
  }

  /** Box `outer` contains box `inner` on every axis. */
  predicate Encloses(outer: Box, inner: Box) {
    outer.lo.x <= inner.lo.x && outer.lo.y <= inner.lo.y && outer.lo.z <= inner.lo.z &&
    inner.hi.x <= outer.hi.x && inner.hi.y <= outer.hi.y && inner.hi.z <= outer.hi.z
  }

  /** The extents of a box: `max_corner - min_corner` per axis. */
  function Extents(b: Box): (e: Vec3)
    ensures Add(b.lo, e) == b.hi
  {
    Sub(b.hi, b.lo)
  }

  /**
   * The centre of a box: the per-axis midpoint of its corners. A box of the
   * extents `Extents(b)` placed at this centre is `b` again, which is how the
   * scripts rebuild each cell as a box mesh.
   */
  function Centre(b: Box): (c: Vec3)
    ensures Sub(c, Scale(Extents(b), 0.5)) == b.lo
    ensures Add(c, Scale(Extents(b), 0.5)) == b.hi
  {
    Vec3((b.lo.x + b.hi.x) / 2.0, (b.lo.y + b.hi.y) / 2.0, (b.lo.z + b.hi.z) / 2.0)
  }

  /** A point inside a box lies inside every box that encloses it. */
  lemma InEnclosing(p: Vec3, inner: Box, outer: Box)
    requires InBox(p, inner) && Encloses(outer, inner)
    ensures InBox(p, outer)
  {
  }
}
