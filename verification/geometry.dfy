/** Axis-aligned rectangles and the overlap test every collision of the game uses. */
module Geometry {

  /** A box with its top-left corner at (x, y), width w and height h; y grows downward. */
  datatype Rect = Rect(x: real, y: real, w: real, h: real)

  /** The game's overlap test: two boxes collide unless one lies strictly to the
      left of, right of, above or below the other. */
  predicate Aabb(a: Rect, b: Rect) {
    !(a.x + a.w < b.x ||
      b.x + b.w < a.x ||
      a.y + a.h < b.y ||
      b.y + b.h < a.y)
  }

  /** A box whose width and height are not negative. */
  predicate HasExtent(r: Rect) {
    r.w >= 0.0 && r.h >= 0.0
  }

  /** The point (px, py) lies in the closed box r, its edges included. */
  predicate Covers(r: Rect, px: real, py: real) {
    r.x <= px <= r.x + r.w && r.y <= py <= r.y + r.h
  }

  /** The overlap test does not depend on the order of its arguments. */
  lemma AabbSymmetric(a: Rect, b: Rect)
    ensures Aabb(a, b) == Aabb(b, a)
  {
  }

  /** For boxes with extent, the test is exactly "the closed boxes share a point":
      boxes whose edges only touch count as overlapping. */
  lemma AabbIffSharedPoint(a: Rect, b: Rect)
    requires HasExtent(a) && HasExtent(b)
    ensures Aabb(a, b) <==> exists px, py :: Covers(a, px, py) && Covers(b, px, py)
  {
    if Aabb(a, b) {
      var px := if a.x < b.x then b.x else a.x;
      var py := if a.y < b.y then b.y else a.y;
      assert Covers(a, px, py) && Covers(b, px, py);
    }
  }

  /** A box whose right edge lies on another's left edge, at heights that meet,
      collides with it. */
  lemma TouchingEdgesOverlap(a: Rect, b: Rect)
    requires HasExtent(a) && HasExtent(b)
    requires a.x + a.w == b.x
    requires a.y <= b.y + b.h && b.y <= a.y + a.h
    ensures Aabb(a, b) && Aabb(b, a)
  {
  }
}
