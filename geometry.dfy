// Axis-aligned boxes of the platformer in script.js and its overlap test.
module Geometry {

  /** A box with its top-left corner at (x, y); y grows downwards. */
  datatype Box = Box(x: real, y: real, w: real, h: real)

  /** aabb: strict overlap on both axes. */
  function Aabb(a: Box, b: Box): (r: bool)
    ensures a.x + a.w == b.x || b.x + b.w == a.x ==> !r
    ensures a.y + a.h == b.y || b.y + b.h == a.y ==> !r
    ensures r ==> a.w + b.w > 0.0 && a.h + b.h > 0.0
  {
    a.x < b.x + b.w && a.x + a.w > b.x && a.y < b.y + b.h && a.y + a.h > b.y
  }

  /** The order of the two boxes does not matter. */
  lemma AabbSymmetric(a: Box, b: Box)
    ensures Aabb(a, b) == Aabb(b, a)
  {
  }

  /** (px, py) lies strictly inside the box. */
  predicate Inside(b: Box, px: real, py: real) {
    b.x < px < b.x + b.w && b.y < py < b.y + b.h
  }

  function Mid(lo1: real, hi1: real, lo2: real, hi2: real): real {
    var lo := if lo1 < lo2 then lo2 else lo1;
    var hi := if hi1 < hi2 then hi1 else hi2;
    (lo + hi) / 2.0
  }

  /** For boxes of positive size, aabb holds exactly when some point lies
      strictly inside both boxes. */
  lemma AabbIffCommonPoint(a: Box, b: Box)
    requires a.w > 0.0 && a.h > 0.0 && b.w > 0.0 && b.h > 0.0
    ensures Aabb(a, b) <==> exists px, py :: Inside(a, px, py) && Inside(b, px, py)
  {
    if Aabb(a, b) {
      var px := Mid(a.x, a.x + a.w, b.x, b.x + b.w);
      var py := Mid(a.y, a.y + a.h, b.y, b.y + b.h);
      assert Inside(a, px, py) && Inside(b, px, py);
    }
  }
}
