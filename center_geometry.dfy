/**
 * The geometry of backend/2d_shape_optimization.py: circles and axis-aligned rectangles
 * positioned by their CENTRE inside the 50 x 80 area, the strict overlap tests (touching
 * is allowed; the circle tests keep a 1e-9 margin), the in-area test and the area of a
 * shape. A shape is the script's dictionary: a type string, the centre, and the size
 * fields `r` (circles) or `w`, `h` (everything else).
 */
module CenterGeometry {
  import Solids

  /** `AREA_W, AREA_H`. */
  const AreaW: real := 50.0
  const AreaH: real := 80.0

  /** The `1e-9` margin of the two circle tests. */
  const Eps: real := 0.000000001

  datatype Obj = Obj(typ: string, x: real, y: real, r: real, w: real, h: real)

  predicate IsCircle(o: Obj) {
    o.typ == "circle"
  }

  /** `rect_bbox`: the corners of a centred rectangle. */
  function RectBbox(x: real, y: real, w: real, h: real): (b: (real, real, real, real))
    ensures b.2 - b.0 == w && b.3 - b.1 == h
    ensures b.0 + b.2 == 2.0 * x && b.1 + b.3 == 2.0 * y
  {
    (x - w / 2.0, y - h / 2.0, x + w / 2.0, y + h / 2.0)
  }

  /** `overlap_circle_circle`: squared centre distance below the squared radius sum. */
  predicate OverlapCircleCircle(x1: real, y1: real, r1: real, x2: real, y2: real, r2: real) {
    (x1 - x2) * (x1 - x2) + (y1 - y2) * (y1 - y2) < (r1 + r2) * (r1 + r2) - Eps
  }

  /** `overlap_rect_rect`: the separating-axis test with non-strict separation. */
  predicate OverlapRectRect(x1: real, y1: real, w1: real, h1: real, x2: real, y2: real, w2: real, h2: real) {
    !(x1 + w1 / 2.0 <= x2 - w2 / 2.0 || x1 - w1 / 2.0 >= x2 + w2 / 2.0 ||
      y1 + h1 / 2.0 <= y2 - h2 / 2.0 || y1 - h1 / 2.0 >= y2 + h2 / 2.0)
  }

  function Max(a: real, b: real): real {
    if a >= b then a else b
  }

  function Min(a: real, b: real): real {
    if a <= b then a else b
  }

  /** `max(lo, min(c, hi))`, the clamp of the circle/rectangle test and of `try_mutation`. */
  function Clamp(c: real, lo: real, hi: real): real {
    Max(lo, Min(c, hi))
  }

  /** `overlap_circle_rect`: the rectangle point closest to the centre lies inside the circle. */
  predicate OverlapCircleRect(cx: real, cy: real, r: real, rx: real, ry: real, w: real, h: real) {
    var dx := cx - Clamp(cx, rx - w / 2.0, rx + w / 2.0);
    var dy := cy - Clamp(cy, ry - h / 2.0, ry + h / 2.0);
    dx * dx + dy * dy < r * r - Eps
  }

  /** `overlap`: dispatch on the two type strings; any other pair of types never overlaps. */
  predicate Overlap(o1: Obj, o2: Obj) {
    if o1.typ == "circle" && o2.typ == "circle" then
      OverlapCircleCircle(o1.x, o1.y, o1.r, o2.x, o2.y, o2.r)
    else if o1.typ == "rect" && o2.typ == "rect" then
      OverlapRectRect(o1.x, o1.y, o1.w, o1.h, o2.x, o2.y, o2.w, o2.h)
    else if o1.typ == "circle" && o2.typ == "rect" then
      OverlapCircleRect(o1.x, o1.y, o1.r, o2.x, o2.y, o2.w, o2.h)
    else if o1.typ == "rect" && o2.typ == "circle" then
      OverlapCircleRect(o2.x, o2.y, o2.r, o1.x, o1.y, o1.w, o1.h)
    else false
  }

  /** `inside_area`: circles by their radius, every other type by `w` and `h`. */
  predicate InsideArea(o: Obj) {
    if IsCircle(o) then
      o.r <= o.x <= AreaW - o.r && o.r <= o.y <= AreaH - o.r
    else
      o.w / 2.0 <= o.x <= AreaW - o.w / 2.0 && o.h / 2.0 <= o.y <= AreaH - o.h / 2.0
  }

  /** `area_of`: `pi * r**2` for a circle, `w * h` otherwise. */
  function AreaOf(o: Obj): real {
    if IsCircle(o) then Solids.Pi * (o.r * o.r) else o.w * o.h
  }

  /** The extent `prepack_layout` gives a shape: `2r` by `2r` for a circle, `w` by `h` otherwise. */
  function Width(o: Obj): real {
    if IsCircle(o) then o.r * 2.0 else o.w
  }

  function Height(o: Obj): real {
    if IsCircle(o) then o.r * 2.0 else o.h
  }

  function Left(o: Obj): real { o.x - Width(o) / 2.0 }
  function Right(o: Obj): real { o.x + Width(o) / 2.0 }
  function Bottom(o: Obj): real { o.y - Height(o) / 2.0 }
  function Top(o: Obj): real { o.y + Height(o) / 2.0 }

  predicate NonNegativeSize(o: Obj) {
    if IsCircle(o) then o.r >= 0.0 else o.w >= 0.0 && o.h >= 0.0
  }

  /** The bounding boxes of `a` and `b` are apart along some axis (they may touch). */
  predicate Separated(a: Obj, b: Obj) {
    Right(a) <= Left(b) || Right(b) <= Left(a) || Top(a) <= Bottom(b) || Top(b) <= Bottom(a)
  }

  /** Two shapes that differ at most in position. */
  predicate SameShape(a: Obj, b: Obj) {
    a.typ == b.typ && a.r == b.r && a.w == b.w && a.h == b.h
  }

  lemma OverlapRectRectSymmetric(x1: real, y1: real, w1: real, h1: real, x2: real, y2: real, w2: real, h2: real)
    ensures OverlapRectRect(x1, y1, w1, h1, x2, y2, w2, h2) == OverlapRectRect(x2, y2, w2, h2, x1, y1, w1, h1)
  {
  }

  /** Rectangles whose edges merely touch, side by side or one above the other, do not overlap. */
  lemma RectsTouchingDoNotOverlap(x1: real, y1: real, w1: real, h1: real, x2: real, y2: real, w2: real, h2: real)
    requires x1 + w1 / 2.0 == x2 - w2 / 2.0 || y1 + h1 / 2.0 == y2 - h2 / 2.0
    ensures !OverlapRectRect(x1, y1, w1, h1, x2, y2, w2, h2)
    ensures !OverlapRectRect(x2, y2, w2, h2, x1, y1, w1, h1)
  {
  }

  /** Two rectangles overlap exactly when their `rect_bbox` boxes intersect in an open set. */
  lemma RectOverlapIsBoxIntersection(x1: real, y1: real, w1: real, h1: real, x2: real, y2: real, w2: real, h2: real)
    ensures var b1 := RectBbox(x1, y1, w1, h1);
      var b2 := RectBbox(x2, y2, w2, h2);
      OverlapRectRect(x1, y1, w1, h1, x2, y2, w2, h2) <==>
        b1.0 < b2.2 && b2.0 < b1.2 && b1.1 < b2.3 && b2.1 < b1.3
  {
  }

  lemma OverlapCircleCircleSymmetric(x1: real, y1: real, r1: real, x2: real, y2: real, r2: real)
    ensures OverlapCircleCircle(x1, y1, r1, x2, y2, r2) == OverlapCircleCircle(x2, y2, r2, x1, y1, r1)
  {
    assert (x1 - x2) * (x1 - x2) == (x2 - x1) * (x2 - x1);
    assert (y1 - y2) * (y1 - y2) == (y2 - y1) * (y2 - y1);
    assert (r1 + r2) * (r1 + r2) == (r2 + r1) * (r2 + r1);
  }

  /**
   * Circles whose centres are at least the radius sum apart do not overlap; in particular
   * tangent circles do not, thanks to the margin.
   */
  lemma CirclesApartDoNotOverlap(x1: real, y1: real, r1: real, x2: real, y2: real, r2: real)
    requires (x1 - x2) * (x1 - x2) + (y1 - y2) * (y1 - y2) >= (r1 + r2) * (r1 + r2)
    ensures !OverlapCircleCircle(x1, y1, r1, x2, y2, r2)
  {
  }

  /** A circle whose centre lies in a rectangle overlaps it, unless the radius is within the margin. */
  lemma CentreInsideRectOverlaps(cx: real, cy: real, r: real, rx: real, ry: real, w: real, h: real)
    requires rx - w / 2.0 <= cx <= rx + w / 2.0 && ry - h / 2.0 <= cy <= ry + h / 2.0
    requires r * r > Eps
    ensures OverlapCircleRect(cx, cy, r, rx, ry, w, h)
  {
    assert Clamp(cx, rx - w / 2.0, rx + w / 2.0) == cx;
    assert Clamp(cy, ry - h / 2.0, ry + h / 2.0) == cy;
  }

  /** The answer does not depend on the order of the two shapes, mixed pairs included. */
  lemma OverlapSymmetric(o1: Obj, o2: Obj)
    ensures Overlap(o1, o2) == Overlap(o2, o1)
  {
    if o1.typ == "circle" && o2.typ == "circle" {
      OverlapCircleCircleSymmetric(o1.x, o1.y, o1.r, o2.x, o2.y, o2.r);
    }
  }

  /** A shape whose type is neither "circle" nor "rect" overlaps nothing. */
  lemma OverlapUnknownType(o1: Obj, o2: Obj)
    requires o1.typ != "circle" && o1.typ != "rect"
    ensures !Overlap(o1, o2) && !Overlap(o2, o1)
  {
  }

  /** `inside_area` says exactly that the shape's extent lies within `[0, W] x [0, H]`. */
  lemma InsideAreaIsExtentInArea(o: Obj)
    ensures InsideArea(o) <==> 0.0 <= Left(o) && Right(o) <= AreaW && 0.0 <= Bottom(o) && Top(o) <= AreaH
  {
  }

  /** `area_of` is the footprint the stacking step gives a cylinder or a box of the same size. */
  lemma AreaOfIsFootprint(o: Obj)
    ensures IsCircle(o) ==> AreaOf(o) == Solids.Footprint(Solids.Zylinder(o.r))
    ensures !IsCircle(o) ==> AreaOf(o) == Solids.Footprint(Solids.Quader(o.w, o.h))
    ensures NonNegativeSize(o) ==> AreaOf(o) >= 0.0
  {
    if IsCircle(o) {
      assert Solids.Footprint(Solids.Zylinder(o.r)) == Solids.Pi * o.r * o.r;
      Solids.SquareNonNegative(o.r);
    } else if NonNegativeSize(o) {
      Solids.MulMonotone(o.w, 0.0, o.h);
    }
  }

  /** `p^2 + q^2 >= s^2` when `|p| >= s >= 0`. */
  lemma SumOfSquaresAtLeast(p: real, q: real, s: real)
    requires s >= 0.0 && (p >= s || -p >= s)
    ensures p * p + q * q >= s * s
  {
    Solids.SquareNonNegative(q);
    if p >= s {
      Solids.SquareMonotone(s, p);
    } else {
      Solids.SquareMonotone(s, -p);
      assert (-p) * (-p) == p * p;
    }
  }

  /** A point at least `r` outside `[lo, hi]` is at least `r` from its clamp. */
  lemma ClampGap(c: real, lo: real, hi: real, r: real)
    requires lo <= hi && r >= 0.0
    requires c + r <= lo || hi <= c - r
    ensures (c - Clamp(c, lo, hi)) * (c - Clamp(c, lo, hi)) >= r * r
  {
    var d := c - Clamp(c, lo, hi);
    if c + r <= lo {
      assert Clamp(c, lo, hi) == lo;
      Solids.SquareMonotone(r, -d);
      assert (-d) * (-d) == d * d;
    } else {
      assert Clamp(c, lo, hi) == hi;
      Solids.SquareMonotone(r, d);
    }
  }

  /** A squared distance at least `r^2` in one coordinate keeps the circle test false. */
  lemma FarPointNoOverlap(dx: real, dy: real, r: real)
    requires dx * dx >= r * r || dy * dy >= r * r
    ensures !(dx * dx + dy * dy < r * r - Eps)
  {
    Solids.SquareNonNegative(dx);
    Solids.SquareNonNegative(dy);
  }

  /** A circle at least its radius outside a rectangle's x- or y-range does not overlap it. */
  lemma CircleRectApartCoords(cx: real, cy: real, r: real, rx: real, ry: real, w: real, h: real)
    requires r >= 0.0 && w >= 0.0 && h >= 0.0
    requires cx + r <= rx - w / 2.0 || rx + w / 2.0 <= cx - r ||
             cy + r <= ry - h / 2.0 || ry + h / 2.0 <= cy - r
    ensures !OverlapCircleRect(cx, cy, r, rx, ry, w, h)
  {
    var dx := cx - Clamp(cx, rx - w / 2.0, rx + w / 2.0);
    var dy := cy - Clamp(cy, ry - h / 2.0, ry + h / 2.0);
    if cx + r <= rx - w / 2.0 || rx + w / 2.0 <= cx - r {
      ClampGap(cx, rx - w / 2.0, rx + w / 2.0, r);
      assert dx * dx >= r * r;
    } else {
      ClampGap(cy, ry - h / 2.0, ry + h / 2.0, r);
      assert dy * dy >= r * r;
    }
    FarPointNoOverlap(dx, dy, r);
  }

  /** A circle whose extent is apart from a rectangle does not overlap it. */
  lemma CircleRectApart(c: Obj, b: Obj)
    requires IsCircle(c) && b.typ == "rect"
    requires NonNegativeSize(c) && NonNegativeSize(b)
    requires Separated(c, b)
    ensures !OverlapCircleRect(c.x, c.y, c.r, b.x, b.y, b.w, b.h)
  {
    assert Left(c) == c.x - c.r && Right(c) == c.x + c.r;
    assert Bottom(c) == c.y - c.r && Top(c) == c.y + c.r;
    assert Left(b) == b.x - b.w / 2.0 && Right(b) == b.x + b.w / 2.0;
    assert Bottom(b) == b.y - b.h / 2.0 && Top(b) == b.y + b.h / 2.0;
    CircleRectApartCoords(c.x, c.y, c.r, b.x, b.y, b.w, b.h);
  }

  /**
   * The fact the shelf layout rests on: shapes of non-negative size whose extents are
   * apart along some axis do not overlap, in either order.
   */
  lemma SeparatedNoOverlap(a: Obj, b: Obj)
    requires NonNegativeSize(a) && NonNegativeSize(b)
    requires Separated(a, b)
    ensures !Overlap(a, b) && !Overlap(b, a)
  {
    OverlapSymmetric(a, b);
    if a.typ == "circle" && b.typ == "circle" {
      var s := a.r + b.r;
      if Right(a) <= Left(b) || Right(b) <= Left(a) {
        SumOfSquaresAtLeast(a.x - b.x, a.y - b.y, s);
      } else {
        SumOfSquaresAtLeast(a.y - b.y, a.x - b.x, s);
      }
    } else if a.typ == "circle" && b.typ == "rect" {
      CircleRectApart(a, b);
    } else if a.typ == "rect" && b.typ == "circle" {
      CircleRectApart(b, a);
    }
  }
}
