/** Frames and attraction points, and the collision test of the relaxation. */
module Geometry {

  /** A frame's rectangle: corner (x, y), width w and height h, in canvas units. */
  datatype Rect = Rect(x: int, y: int, w: int, h: int)

  /** An attraction point or a centroid; the source computes these in floating point. */
  datatype Point = Point(x: real, y: real)

  /** The collision test of `sortFrames`: two frames collide unless one lies
      strictly left of, right of, above or below the other. Bounds are closed,
      so frames whose edges only touch collide. */
  predicate Overlaps(a: Rect, b: Rect)
  {
    !(a.x > b.x + b.w || a.x + a.w < b.x || a.y > b.y + b.h || a.y + a.h < b.y)
  }

  /** The closed rectangle r contains the grid point (px, py). */
  predicate Covers(r: Rect, px: int, py: int)
  {
    r.x <= px <= r.x + r.w && r.y <= py <= r.y + r.h
  }

  /** The test does not depend on which frame is the moving one. */
  lemma OverlapsSymmetric(a: Rect, b: Rect)
    ensures Overlaps(a, b) <==> Overlaps(b, a)
  {
  }

  /** An independent reading of the test: for frames of non-negative size it
      holds exactly when some grid point lies in both closed rectangles. */
  lemma OverlapsIffSharedPoint(a: Rect, b: Rect)
    requires a.w >= 0 && a.h >= 0 && b.w >= 0 && b.h >= 0
    ensures Overlaps(a, b) <==> exists px, py :: Covers(a, px, py) && Covers(b, px, py)
  {
    if Overlaps(a, b) {
      var px := if a.x < b.x then b.x else a.x;
      var py := if a.y < b.y then b.y else a.y;
      assert Covers(a, px, py) && Covers(b, px, py);
    }
  }

  /** Inclusiveness: two frames side by side whose edges touch collide, and
      so do two frames that share only a corner. */
  lemma TouchingFramesOverlap(a: Rect, w: int, h: int)
    requires a.w >= 0 && a.h >= 0 && w >= 0 && h >= 0
    ensures Overlaps(a, Rect(a.x + a.w, a.y, w, h))
    ensures Overlaps(a, Rect(a.x + a.w, a.y + a.h, w, h))
    ensures !Overlaps(a, Rect(a.x + a.w + 1, a.y, w, h))
  {
  }
}
