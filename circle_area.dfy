/**
 * `TwoDimensionalCircleArea` of backend/src/two_dim_rect_and_circle_genetic_alg.py: the
 * validity checks and the objective of the genetic packer for rectangles (anchored at the
 * lower-left corner) and circles (anchored at the centre). The area's fields are set once
 * by the constructor, so it is a value here. Positions and shapes are paired as `zip`
 * pairs them, up to the shorter of the two lists.
 */
module CircleArea {
  import opened Wrappers
  import opened CornerGeometry

  datatype Shape = Rec(width: real, height: real, id: int) | Circle(radius: real, id: int)

  datatype Area = Area(areaWidth: real, areaHeight: real, shapes: seq<Shape>)

  /** The number of `zip(positions, shapes)` pairs. */
  function Count(a: Area, ps: seq<Pos>): nat {
    if |ps| <= |a.shapes| then |ps| else |a.shapes|
  }

  /**
   * `sqrt(dx**2 + dy**2) < s` without the root: the root is non-negative, so it is below
   * `s` exactly when `s` is positive and the squared distance is below `s * s`.
   */
  predicate CloserThan(dx: real, dy: real, s: real) {
    s > 0.0 && dx * dx + dy * dy < s * s
  }

  /** The circle/rectangle rule: the rectangle point nearest the centre is closer than the radius. */
  predicate CircleHitsRect(c: Pos, r: real, p: Pos, w: real, h: real) {
    var nx := Max(p.0, if c.0 <= p.0 + w then c.0 else p.0 + w);
    var ny := Max(p.1, if c.1 <= p.1 + h then c.1 else p.1 + h);
    CloserThan(c.0 - nx, c.1 - ny, r)
  }

  /** The test of one ordered pair in `check_overlap`. */
  predicate PairOverlap(s1: Shape, p1: Pos, s2: Shape, p2: Pos) {
    match (s1, s2)
    case (Rec(w1, h1, _), Rec(w2, h2, _)) => RectsOverlap(p1, w1, h1, p2, w2, h2)
    case (Circle(r1, _), Circle(r2, _)) => CloserThan(p1.0 - p2.0, p1.1 - p2.1, r1 + r2)
    case (Circle(r, _), Rec(w, h, _)) => CircleHitsRect(p1, r, p2, w, h)
    case (Rec(w, h, _), Circle(r, _)) => CircleHitsRect(p2, r, p1, w, h)
  }

  /** The nested loops of `check_overlap` from pair `(i, j)` on, returning at the first hit. */
  function OverlapFrom(a: Area, ps: seq<Pos>, i: nat, j: nat): bool
    requires j <= Count(a, ps)
    decreases Count(a, ps) - i, Count(a, ps) - j
  {
    var n := Count(a, ps);
    if i >= n then false
    else if j == n then OverlapFrom(a, ps, i + 1, 0)
    else if i != j && PairOverlap(a.shapes[i], ps[i], a.shapes[j], ps[j]) then true
    else OverlapFrom(a, ps, i, j + 1)
  }

  /** `check_overlap`. */
  predicate CheckOverlap(a: Area, ps: seq<Pos>) {
    OverlapFrom(a, ps, 0, 0)
  }

  /** Two distinct shapes overlap. */
  ghost predicate SomePairOverlaps(a: Area, ps: seq<Pos>) {
    exists i, j :: 0 <= i < Count(a, ps) && 0 <= j < Count(a, ps) && i != j &&
      PairOverlap(a.shapes[i], ps[i], a.shapes[j], ps[j])
  }

  lemma {:induction false} OverlapFromIff(a: Area, ps: seq<Pos>, i: nat, j: nat)
    requires j <= Count(a, ps)
    decreases Count(a, ps) - i, Count(a, ps) - j
    ensures OverlapFrom(a, ps, i, j) <==>
      exists i', j' :: 0 <= i' < Count(a, ps) && 0 <= j' < Count(a, ps) && i' != j' &&
        ((i' == i && j' >= j) || i' > i) &&
        PairOverlap(a.shapes[i'], ps[i'], a.shapes[j'], ps[j'])
  {
    var n := Count(a, ps);
    if i >= n {
    } else if j == n {
      OverlapFromIff(a, ps, i + 1, 0);
    } else if i != j && PairOverlap(a.shapes[i], ps[i], a.shapes[j], ps[j]) {
    } else {
      OverlapFromIff(a, ps, i, j + 1);
    }
  }

  /** `check_overlap` holds exactly when two distinct shapes overlap. */
  lemma CheckOverlapIff(a: Area, ps: seq<Pos>)
    ensures CheckOverlap(a, ps) <==> SomePairOverlaps(a, ps)
  {
    OverlapFromIff(a, ps, 0, 0);
  }

  /** For every shape kind, the pair test does not depend on the order of the pair. */
  lemma PairOverlapSymmetric(s1: Shape, p1: Pos, s2: Shape, p2: Pos)
    ensures PairOverlap(s1, p1, s2, p2) == PairOverlap(s2, p2, s1, p1)
  {
    if s1.Circle? && s2.Circle? {
      assert (p1.0 - p2.0) * (p1.0 - p2.0) == (p2.0 - p1.0) * (p2.0 - p1.0);
      assert (p1.1 - p2.1) * (p1.1 - p2.1) == (p2.1 - p1.1) * (p2.1 - p1.1);
    }
  }

  /** The shape leaves `[0, W] x [0, H]`: a rectangle by its corner and size, a circle by its radius. */
  predicate OutOfArea(a: Area, s: Shape, p: Pos) {
    match s
    case Rec(w, h, _) => p.0 < 0.0 || p.1 < 0.0 || p.0 + w > a.areaWidth || p.1 + h > a.areaHeight
    case Circle(r, _) => p.0 - r < 0.0 || p.1 - r < 0.0 || p.0 + r > a.areaWidth || p.1 + r > a.areaHeight
  }

  /** The loop of `check_extents` from pair `k` on, returning at the first shape outside. */
  function ExtentsFrom(a: Area, ps: seq<Pos>, k: nat): bool
    decreases Count(a, ps) - k
  {
    if k >= Count(a, ps) then false
    else if OutOfArea(a, a.shapes[k], ps[k]) then true
    else ExtentsFrom(a, ps, k + 1)
  }

  predicate CheckExtents(a: Area, ps: seq<Pos>) {
    ExtentsFrom(a, ps, 0)
  }

  lemma {:induction false} ExtentsFromIff(a: Area, ps: seq<Pos>, k: nat)
    decreases Count(a, ps) - k
    ensures ExtentsFrom(a, ps, k) <==>
      exists l :: k <= l < Count(a, ps) && OutOfArea(a, a.shapes[l], ps[l])
  {
    if k < Count(a, ps) && !OutOfArea(a, a.shapes[k], ps[k]) {
      ExtentsFromIff(a, ps, k + 1);
    }
  }

  /** `check_extents` holds exactly when some shape leaves the area. */
  lemma CheckExtentsIff(a: Area, ps: seq<Pos>)
    ensures CheckExtents(a, ps) <==> exists l :: 0 <= l < Count(a, ps) && OutOfArea(a, a.shapes[l], ps[l])
  {
    ExtentsFromIff(a, ps, 0);
  }

  /** The right and top edge `get_used_space` takes of a shape: `x + width`, or `x + radius`. */
  function RightEdge(s: Shape, p: Pos): real {
    match s
    case Rec(w, _, _) => p.0 + w
    case Circle(r, _) => p.0 + r
  }

  function TopEdge(s: Shape, p: Pos): real {
    match s
    case Rec(_, h, _) => p.1 + h
    case Circle(r, _) => p.1 + r
  }

  function RightEdges(a: Area, ps: seq<Pos>): (es: seq<real>)
    ensures |es| == Count(a, ps)
  {
    seq(Count(a, ps), k requires 0 <= k < Count(a, ps) => RightEdge(a.shapes[k], ps[k]))
  }

  function TopEdges(a: Area, ps: seq<Pos>): (es: seq<real>)
    ensures |es| == Count(a, ps)
  {
    seq(Count(a, ps), k requires 0 <= k < Count(a, ps) => TopEdge(a.shapes[k], ps[k]))
  }

  /** The farthest right edge, at least 0. */
  function UsedWidth(a: Area, ps: seq<Pos>): real {
    MaxFromZero(RightEdges(a, ps))
  }

  /** The farthest top edge, at least 0. */
  function UsedHeight(a: Area, ps: seq<Pos>): real {
    MaxFromZero(TopEdges(a, ps))
  }

  /** `get_used_space`: the running maxima of the right and top edges, multiplied. */
  function UsedSpace(a: Area, ps: seq<Pos>): real {
    UsedWidth(a, ps) * UsedHeight(a, ps)
  }

  /**
   * The used space is the box from the origin to the farthest right and top edges (each
   * at least 0), so it is never negative and covers every shape's edges.
   */
  lemma UsedSpaceIsBoundingBox(a: Area, ps: seq<Pos>)
    ensures UsedSpace(a, ps) >= 0.0
    ensures forall k :: 0 <= k < Count(a, ps) ==>
      RightEdge(a.shapes[k], ps[k]) <= UsedWidth(a, ps) &&
      TopEdge(a.shapes[k], ps[k]) <= UsedHeight(a, ps)
  {
    var rs, ts := RightEdges(a, ps), TopEdges(a, ps);
    MaxFromZeroIsMaximum(rs);
    MaxFromZeroIsMaximum(ts);
    ProductNonNegative(UsedWidth(a, ps), UsedHeight(a, ps));
    assert forall k :: 0 <= k < Count(a, ps) ==> rs[k] == RightEdge(a.shapes[k], ps[k]);
    assert forall k :: 0 <= k < Count(a, ps) ==> ts[k] == TopEdge(a.shapes[k], ps[k]);
  }

  /** `wrong_solution`: out of the area or overlapping. */
  predicate WrongSolution(a: Area, ps: seq<Pos>) {
    CheckExtents(a, ps) || CheckOverlap(a, ps)
  }

  /** `f(X)`: used space plus the 1e7 penalty for a wrong solution; `None` for an odd-length `X`. */
  function F(a: Area, xs: seq<real>): Option<real> {
    match Pairs(xs)
    case None => None
    case Some(ps) => Some(UsedSpace(a, ps) + (if WrongSolution(a, ps) then 10000000.0 else 0.0))
  }

  /** A shape inside the area has its right and top edges within it. */
  lemma EdgesWithinArea(a: Area, ps: seq<Pos>)
    requires !CheckExtents(a, ps)
    ensures forall k :: 0 <= k < Count(a, ps) ==>
      RightEdges(a, ps)[k] <= a.areaWidth && TopEdges(a, ps)[k] <= a.areaHeight
  {
    CheckExtentsIff(a, ps);
    forall k | 0 <= k < Count(a, ps)
      ensures RightEdges(a, ps)[k] <= a.areaWidth && TopEdges(a, ps)[k] <= a.areaHeight
    {
      assert !OutOfArea(a, a.shapes[k], ps[k]);
    }
  }

  /** A solution inside the area reaches at most the area's right and top sides. */
  lemma UsedExtentsWithinArea(a: Area, ps: seq<Pos>)
    requires a.areaWidth >= 0.0 && a.areaHeight >= 0.0
    requires !CheckExtents(a, ps)
    ensures 0.0 <= UsedWidth(a, ps) <= a.areaWidth
    ensures 0.0 <= UsedHeight(a, ps) <= a.areaHeight
  {
    EdgesWithinArea(a, ps);
    MaxFromZeroBounded(RightEdges(a, ps), a.areaWidth);
    MaxFromZeroBounded(TopEdges(a, ps), a.areaHeight);
  }

  /** A solution inside the area uses at most the whole area. */
  lemma UsedSpaceWithinArea(a: Area, ps: seq<Pos>)
    requires a.areaWidth >= 0.0 && a.areaHeight >= 0.0
    requires !CheckExtents(a, ps)
    ensures UsedSpace(a, ps) <= a.areaWidth * a.areaHeight
  {
    UsedExtentsWithinArea(a, ps);
    BoundedProduct(UsedWidth(a, ps), UsedHeight(a, ps), a.areaWidth, a.areaHeight);
  }

  /**
   * In an area smaller than the penalty, the objective reaches 1e7 exactly for wrong
   * solutions: a correct solution stays inside the area, so its used space is at most
   * `W * H`.
   */
  lemma FPenaltyIffWrong(a: Area, xs: seq<real>)
    requires a.areaWidth >= 0.0 && a.areaHeight >= 0.0 && a.areaWidth * a.areaHeight < 10000000.0
    requires |xs| % 2 == 0
    ensures F(a, xs).Some?
    ensures F(a, xs).value >= 10000000.0 <==> WrongSolution(a, Pairs(xs).value)
  {
    var ps := Pairs(xs).value;
    UsedSpaceIsBoundingBox(a, ps);
    if !WrongSolution(a, ps) {
      UsedSpaceWithinArea(a, ps);
    }
  }

  /** The test each trial step of `optimize_solution` must pass: overlap or leaving the area. */
  function Rejected(a: Area): seq<Pos> -> bool {
    ps => WrongSolution(a, ps)
  }

  /**
   * `optimize_solution` with the area's own shapes: a position list shorter than the
   * shapes raises IndexError in the source. The shapes are pushed down and then left one
   * by one, as `Optimized` describes. Coordinates only decrease, a moved one stays
   * non-negative, and whenever anything moved, the result is a correct solution.
   */
  method OptimizeSolution(a: Area, solution: seq<Pos>) returns (positions: seq<Pos>)
    requires |a.shapes| <= |solution|
    ensures positions == Optimized(solution, |a.shapes|, Rejected(a))
    ensures PushedDownLeft(positions, solution)
    ensures positions == solution || !WrongSolution(a, positions)
    ensures !WrongSolution(a, solution) ==> !WrongSolution(a, positions)
  {
    positions := PushDownLeft(solution, |a.shapes|, Rejected(a));
  }
}
