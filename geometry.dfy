/** The value types of the cbump collision kernel (src/cbump.h): 2D vectors,
    axis-aligned boxes, the collision record a sweep produces, and the box that
    a move updates in place. Coordinates are `real`; IEEE rounding is not modelled. */
module Geometry {

  datatype Option<T> = None | Some(value: T)

  /** A point or a displacement (cbump_vec2). */
  datatype Vec2 = Vec2(x: real, y: real)

  const Zero := Vec2(0.0, 0.0)

  /** The vector `v` scaled by `t`. */
  function Scale(t: real, v: Vec2): Vec2 { Vec2(t * v.x, t * v.y) }

  function Dot(a: Vec2, b: Vec2): real { a.x * b.x + a.y * b.y }

  /** The direction along a surface whose normal is `n`. */
  function Tangent(n: Vec2): Vec2 { Vec2(-n.y, n.x) }

  /** One of the four outward unit normals of a box face. */
  predicate UnitAxis(n: Vec2) {
    n == Vec2(1.0, 0.0) || n == Vec2(-1.0, 0.0) || n == Vec2(0.0, 1.0) || n == Vec2(0.0, -1.0)
  }

  /** An axis-aligned box in corner form (cbump_box): (x, y) is the corner with
      the smallest coordinates and w, h are the extents. */
  datatype Box = Box(x: real, y: real, w: real, h: real)

  /** The centre of a box. */
  function Center(b: Box): Vec2 { Vec2(b.x + b.w / 2.0, b.y + b.h / 2.0) }

  /** cbump_box_center: a box given by its centre and extents, in corner form. */
  function BoxCenter(x: real, y: real, w: real, h: real): (b: Box)
    ensures b.w == w && b.h == h
    ensures Center(b) == Vec2(x, y)
  {
    Box(x - w / 2.0, y - h / 2.0, w, h)
  }

  /** Building a box from the centre and extents of another gives that box back. */
  lemma BoxCenterOfCenter(b: Box)
    ensures BoxCenter(Center(b).x, Center(b).y, b.w, b.h) == b
  {
  }

  /** The box moved by the fraction `t` of the displacement `m` (src/cbump.c:65-66):
      its centre moves by t * m and its extents are kept. */
  function Advance(b: Box, m: Vec2, t: real): (a: Box)
    ensures a.w == b.w && a.h == b.h
    ensures Center(a) == Vec2(Center(b).x + t * m.x, Center(b).y + t * m.y)
  {
    Box(b.x + t * m.x, b.y + t * m.y, b.w, b.h)
  }

  /** The collision record of one sweep (cbump_collision). The moving box and the
      user data are not part of it; the hit obstacle is given by value and by its
      index in the list that was swept, and is None when that list was empty. */
  datatype Collision = Collision(obstacle: Option<Box>, normal: Vec2, moveleft: Vec2, time: real, index: nat)

  /** The box a sweep or a move updates in place. */
  class MovingBox {
    var x: real
    var y: real
    var w: real
    var h: real

    constructor (b: Box)
      ensures Value() == b
    {
      x, y, w, h := b.x, b.y, b.w, b.h;
    }

    function Value(): Box
      reads this
    {
      Box(x, y, w, h)
    }
  }
}
