/** The overlap test of src/cbump.c: half-open ranges per axis, both axes for boxes. */
module Overlap {
  import opened Geometry

  /** `p` lies in the half-open range [min, min + ext). */
  predicate InRange(p: real, min: real, ext: real) {
    min <= p < min + ext
  }

  /** _range_overlap: [amin, amin + aw) and [bmin, bmin + bw) overlap, that is,
      neither range ends at or before the point where the other starts. */
  predicate RangeOverlap(amin: real, aw: real, bmin: real, bw: real): (r: bool)
    ensures r <==> !(bmin + bw <= amin || amin + aw <= bmin)
  {
    bmin + bw > amin && bmin < amin + aw
  }

  /** cbump_box_overlap: the boxes overlap on the x axis and on the y axis. The
      test does not depend on the order of the boxes. */
  predicate BoxOverlap(a: Box, b: Box): (r: bool)
    ensures r <==> RangeOverlap(b.x, b.w, a.x, a.w) && RangeOverlap(b.y, b.h, a.y, a.h)
  {
    RangeOverlap(a.x, a.w, b.x, b.w) && RangeOverlap(a.y, a.h, b.y, b.h)
  }

  /** For ranges of positive width, the test holds exactly when some number lies in both. */
  lemma RangeOverlapIffCommonPoint(amin: real, aw: real, bmin: real, bw: real)
    requires aw > 0.0 && bw > 0.0
    ensures RangeOverlap(amin, aw, bmin, bw) <==> exists p :: InRange(p, amin, aw) && InRange(p, bmin, bw)
  {
    if RangeOverlap(amin, aw, bmin, bw) {
      var p := if amin < bmin then bmin else amin;
      assert InRange(p, amin, aw) && InRange(p, bmin, bw);
    }
  }

  /** A range of zero width counts as a thin line: it overlaps another range
      exactly when it lies strictly inside it. Two such lines never overlap. */
  lemma ThinRangeOverlap(amin: real, bmin: real, bw: real)
    ensures RangeOverlap(amin, 0.0, bmin, bw) <==> bmin < amin < bmin + bw
    ensures !RangeOverlap(amin, 0.0, bmin, 0.0)
  {
  }

  /** For boxes with positive extents, overlapping means sharing a point of both
      half-open boxes. */
  lemma BoxOverlapIffCommonPoint(a: Box, b: Box)
    requires a.w > 0.0 && a.h > 0.0 && b.w > 0.0 && b.h > 0.0
    ensures BoxOverlap(a, b) <==>
      exists px, py :: InRange(px, a.x, a.w) && InRange(px, b.x, b.w) && InRange(py, a.y, a.h) && InRange(py, b.y, b.h)
  {
    RangeOverlapIffCommonPoint(a.x, a.w, b.x, b.w);
    RangeOverlapIffCommonPoint(a.y, a.h, b.y, b.h);
    if BoxOverlap(a, b) {
      var px :| InRange(px, a.x, a.w) && InRange(px, b.x, b.w);
      var py :| InRange(py, a.y, a.h) && InRange(py, b.y, b.h);
      assert InRange(px, a.x, a.w) && InRange(px, b.x, b.w) && InRange(py, a.y, a.h) && InRange(py, b.y, b.h);
    }
  }

  /** Boxes that share only an edge do not overlap. */
  lemma SharedEdgeIsNoOverlap(a: Box, b: Box)
    requires a.x + a.w == b.x || b.x + b.w == a.x || a.y + a.h == b.y || b.y + b.h == a.y
    ensures !BoxOverlap(a, b)
  {
  }
}
