/** cbump_time_of_impact: per axis, the fraction of the displacement at which the
    moving box's leading face reaches the obstacle's facing face, clamped into [0, 1]. */
module Impact {
  import opened Geometry
  import opened Overlap

  /** After moving by t * m, the face of [bmin, bmin + bext) that leads in the
      direction of m lies on the facing face of [omin, omin + oext). */
  predicate Contact(bmin: real, bext: real, omin: real, oext: real, m: real, t: real) {
    if m > 0.0 then bmin + bext + t * m == omin
    else if m < 0.0 then bmin + t * m == omin + oext
    else false
  }

  /** One axis of cbump_time_of_impact. A zero displacement component imposes no
      constraint and gives 1. */
  function AxisImpact(bmin: real, bext: real, omin: real, oext: real, m: real): (t: real)
    ensures 0.0 <= t <= 1.0
    ensures m == 0.0 ==> t == 1.0
    ensures t < 1.0 ==> Contact(bmin, bext, omin, oext, m, t)
  {
    var dist := if m > 0.0 then omin - bmin - bext else omin + oext - bmin;
    var ratio := if m == 0.0 then 1.0 else dist / m;
    if ratio < 0.0 || ratio > 1.0 then 1.0 else ratio
  }

  /** cbump_time_of_impact of `box` moving by `move` against `other`. */
  function TimeOfImpact(box: Box, other: Box, move: Vec2): (toi: Vec2)
    ensures 0.0 <= toi.x <= 1.0 && 0.0 <= toi.y <= 1.0
    ensures move.x == 0.0 ==> toi.x == 1.0
    ensures move.y == 0.0 ==> toi.y == 1.0
    ensures toi.x < 1.0 ==> Contact(box.x, box.w, other.x, other.w, move.x, toi.x)
    ensures toi.y < 1.0 ==> Contact(box.y, box.h, other.y, other.h, move.y, toi.y)
  {
    Vec2(AxisImpact(box.x, box.w, other.x, other.w, move.x),
         AxisImpact(box.y, box.h, other.y, other.h, move.y))
  }

  /** Any contact factor in [0, 1] is the one the axis reports: the result is the
      contact factor when there is one in range, and 1 otherwise. */
  lemma AxisImpactIsContactFactor(bmin: real, bext: real, omin: real, oext: real, m: real, s: real)
    requires 0.0 <= s <= 1.0
    requires Contact(bmin, bext, omin, oext, m, s)
    ensures AxisImpact(bmin, bext, omin, oext, m) == s
  {
  }

  /** Boxes that already overlap on an axis get 1 on that axis. */
  lemma AxisImpactWhenOverlapping(bmin: real, bext: real, omin: real, oext: real, m: real)
    requires RangeOverlap(bmin, bext, omin, oext)
    ensures AxisImpact(bmin, bext, omin, oext, m) == 1.0
  {
  }

  /** A box with positive extents never has a time of impact below 1 against itself. */
  lemma SelfImpact(b: Box, m: Vec2)
    requires b.w > 0.0 && b.h > 0.0
    ensures TimeOfImpact(b, b, m) == Vec2(1.0, 1.0)
  {
  }
}
