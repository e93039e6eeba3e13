/**
 * `TwoDimensionalArea` of backend/algorithm.py: the genetic packer for rectangles only,
 * anchored at their lower-left corner. Its overlap check skips pairs by rectangle `id`
 * rather than by position in the list. The area's fields are set once by the
 * constructor, so it is a value here; positions and rectangles are paired as `zip` pairs
 * them.
 */
module RectArea {
  import opened Wrappers
  import opened CornerGeometry

  datatype Rec = Rec(width: real, height: real, id: int)

  datatype Area = Area(areaWidth: real, areaHeight: real, rectangles: seq<Rec>)

  /** The number of `zip(positions, rectangles)` pairs. */
  function Count(a: Area, ps: seq<Pos>): nat {
    if |ps| <= |a.rectangles| then |ps| else |a.rectangles|
  }

  /** The nested loops of `__check_overlap` from pair `(i, j)` on; equal ids are skipped. */
  function OverlapFrom(a: Area, ps: seq<Pos>, i: nat, j: nat): bool
    requires j <= Count(a, ps)
    decreases Count(a, ps) - i, Count(a, ps) - j
  {
    var n := Count(a, ps);
    if i >= n then false
    else if j == n then OverlapFrom(a, ps, i + 1, 0)
    else
      var r1, r2 := a.rectangles[i], a.rectangles[j];
      if r1.id != r2.id && RectsOverlap(ps[i], r1.width, r1.height, ps[j], r2.width, r2.height) then true
      else OverlapFrom(a, ps, i, j + 1)
  }

  /** `__check_overlap`. */
  predicate CheckOverlap(a: Area, ps: seq<Pos>) {
    OverlapFrom(a, ps, 0, 0)
  }

  /** Two rectangles with different ids overlap. */
  ghost predicate SomePairOverlaps(a: Area, ps: seq<Pos>) {
    exists i, j :: 0 <= i < Count(a, ps) && 0 <= j < Count(a, ps) &&
      a.rectangles[i].id != a.rectangles[j].id &&
      RectsOverlap(ps[i], a.rectangles[i].width, a.rectangles[i].height,
                   ps[j], a.rectangles[j].width, a.rectangles[j].height)
  }

  lemma {:induction false} OverlapFromIff(a: Area, ps: seq<Pos>, i: nat, j: nat)
    requires j <= Count(a, ps)
    decreases Count(a, ps) - i, Count(a, ps) - j
    ensures OverlapFrom(a, ps, i, j) <==>
      exists i', j' :: 0 <= i' < Count(a, ps) && 0 <= j' < Count(a, ps) &&
        ((i' == i && j' >= j) || i' > i) &&
        a.rectangles[i'].id != a.rectangles[j'].id &&
        RectsOverlap(ps[i'], a.rectangles[i'].width, a.rectangles[i'].height,
                     ps[j'], a.rectangles[j'].width, a.rectangles[j'].height)
  {
    var n := Count(a, ps);
    if i >= n {
    } else if j == n {
      OverlapFromIff(a, ps, i + 1, 0);
    } else {
      var r1, r2 := a.rectangles[i], a.rectangles[j];
      if !(r1.id != r2.id && RectsOverlap(ps[i], r1.width, r1.height, ps[j], r2.width, r2.height)) {
        OverlapFromIff(a, ps, i, j + 1);
      }
    }
  }

  /**
   * `__check_overlap` holds exactly when two rectangles with different ids overlap; a
   * rectangle is never tested against itself, nor against another with the same id.
   */
  lemma CheckOverlapIff(a: Area, ps: seq<Pos>)
    ensures CheckOverlap(a, ps) <==> SomePairOverlaps(a, ps)
  {
    OverlapFromIff(a, ps, 0, 0);
  }

  /** The rectangle leaves `[0, W] x [0, H]`. */
  predicate OutOfArea(a: Area, r: Rec, p: Pos) {
    p.0 < 0.0 || p.1 < 0.0 || p.0 + r.width > a.areaWidth || p.1 + r.height > a.areaHeight
  }

  /** The loop of `__check_extents` from pair `k` on. */
  function ExtentsFrom(a: Area, ps: seq<Pos>, k: nat): bool
    decreases Count(a, ps) - k
  {
    if k >= Count(a, ps) then false
    else if OutOfArea(a, a.rectangles[k], ps[k]) then true
    else ExtentsFrom(a, ps, k + 1)
  }

  predicate CheckExtents(a: Area, ps: seq<Pos>) {
    ExtentsFrom(a, ps, 0)
  }

  lemma {:induction false} ExtentsFromIff(a: Area, ps: seq<Pos>, k: nat)
    decreases Count(a, ps) - k
    ensures ExtentsFrom(a, ps, k) <==>
      exists l :: k <= l < Count(a, ps) && OutOfArea(a, a.rectangles[l], ps[l])
  {
    if k < Count(a, ps) && !OutOfArea(a, a.rectangles[k], ps[k]) {
      ExtentsFromIff(a, ps, k + 1);
    }
  }

  /** `__check_extents` holds exactly when some rectangle leaves the area. */
  lemma CheckExtentsIff(a: Area, ps: seq<Pos>)
    ensures CheckExtents(a, ps) <==> exists l :: 0 <= l < Count(a, ps) && OutOfArea(a, a.rectangles[l], ps[l])
  {
    ExtentsFromIff(a, ps, 0);
  }

  function RightEdges(a: Area, ps: seq<Pos>): (es: seq<real>)
    ensures |es| == Count(a, ps)
  {
    seq(Count(a, ps), k requires 0 <= k < Count(a, ps) => ps[k].0 + a.rectangles[k].width)
  }

  function TopEdges(a: Area, ps: seq<Pos>): (es: seq<real>)
    ensures |es| == Count(a, ps)
  {
    seq(Count(a, ps), k requires 0 <= k < Count(a, ps) => ps[k].1 + a.rectangles[k].height)
  }

  /** The farthest right edge, at least 0. */
  function UsedWidth(a: Area, ps: seq<Pos>): real {
    MaxFromZero(RightEdges(a, ps))
  }

  /** The farthest top edge, at least 0. */
  function UsedHeight(a: Area, ps: seq<Pos>): real {
    MaxFromZero(TopEdges(a, ps))
  }

  /** `__get_used_space`: `max(0, max(x + w)) * max(0, max(y + h))`. */
  function UsedSpace(a: Area, ps: seq<Pos>): real {
    UsedWidth(a, ps) * UsedHeight(a, ps)
  }

  /** The used space is never negative and its box covers every rectangle. */
  lemma UsedSpaceIsBoundingBox(a: Area, ps: seq<Pos>)
    ensures UsedSpace(a, ps) >= 0.0
    ensures forall k :: 0 <= k < Count(a, ps) ==>
      ps[k].0 + a.rectangles[k].width <= UsedWidth(a, ps) &&
      ps[k].1 + a.rectangles[k].height <= UsedHeight(a, ps)
  {
    var rs, ts := RightEdges(a, ps), TopEdges(a, ps);
    MaxFromZeroIsMaximum(rs);
    MaxFromZeroIsMaximum(ts);
    ProductNonNegative(UsedWidth(a, ps), UsedHeight(a, ps));
    assert forall k :: 0 <= k < Count(a, ps) ==> rs[k] == ps[k].0 + a.rectangles[k].width;
    assert forall k :: 0 <= k < Count(a, ps) ==> ts[k] == ps[k].1 + a.rectangles[k].height;
  }

  lemma EdgesWithinArea(a: Area, ps: seq<Pos>)
    requires !CheckExtents(a, ps)
    ensures forall k :: 0 <= k < Count(a, ps) ==>
      RightEdges(a, ps)[k] <= a.areaWidth && TopEdges(a, ps)[k] <= a.areaHeight
  {
    CheckExtentsIff(a, ps);
    forall k | 0 <= k < Count(a, ps)
      ensures RightEdges(a, ps)[k] <= a.areaWidth && TopEdges(a, ps)[k] <= a.areaHeight
    {
      assert !OutOfArea(a, a.rectangles[k], ps[k]);
    }
  }

  /** A solution inside the area reaches at most the area's right and top sides. */
  lemma UsedExtentsWithinArea(a: Area, ps: seq<Pos>)
    requires a.areaWidth >= 0.0 && a.areaHeight >= 0.0
    requires !CheckExtents(a, ps)
    ensures 0.0 <= UsedWidth(a, ps) <= a.areaWidth
    ensures 0.0 <= UsedHeight(a, ps) <= a.areaHeight
  {
    EdgesWithinArea(a, ps);
    MaxFromZeroBounded(RightEdges(a, ps), a.areaWidth);
    MaxFromZeroBounded(TopEdges(a, ps), a.areaHeight);
  }

  /** A solution inside the area uses at most the whole area. */
  lemma UsedSpaceWithinArea(a: Area, ps: seq<Pos>)
    requires a.areaWidth >= 0.0 && a.areaHeight >= 0.0
    requires !CheckExtents(a, ps)
    ensures UsedSpace(a, ps) <= a.areaWidth * a.areaHeight
  {
    UsedExtentsWithinArea(a, ps);
    BoundedProduct(UsedWidth(a, ps), UsedHeight(a, ps), a.areaWidth, a.areaHeight);
  }

  /** `wrong_solution`: out of the area or overlapping (computed twice in the source, alike). */
  predicate WrongSolution(a: Area, ps: seq<Pos>) {
    CheckExtents(a, ps) || CheckOverlap(a, ps)
  }

  /** `f(X)`: used space plus the penalty 10000000 for a wrong solution; `None` for an odd-length `X`. */
  function F(a: Area, xs: seq<real>): Option<real> {
    match Pairs(xs)
    case None => None
    case Some(ps) => Some(UsedSpace(a, ps) + (if WrongSolution(a, ps) then 10000000.0 else 0.0))
  }

  /** In an area smaller than the penalty, `f` reaches 10000000 exactly for wrong solutions. */
  lemma FPenaltyIffWrong(a: Area, xs: seq<real>)
    requires a.areaWidth >= 0.0 && a.areaHeight >= 0.0 && a.areaWidth * a.areaHeight < 10000000.0
    requires |xs| % 2 == 0
    ensures F(a, xs).Some?
    ensures F(a, xs).value >= 10000000.0 <==> WrongSolution(a, Pairs(xs).value)
  {
    var ps := Pairs(xs).value;
    UsedSpaceIsBoundingBox(a, ps);
    if !WrongSolution(a, ps) {
      UsedSpaceWithinArea(a, ps);
    }
  }

  /** The test each trial step of `optimize_solution` must pass: overlap or leaving the area. */
  function Rejected(a: Area): seq<Pos> -> bool {
    ps => WrongSolution(a, ps)
  }

  /**
   * `optimize_solution` with the area's own rectangles (a shorter position list raises
   * IndexError in the source): the shapes pushed down and then left one by one, as
   * `Optimized` describes; coordinates only decrease, a moved one stays non-negative, and
   * whenever anything moved the result is a correct solution.
   */
  method OptimizeSolution(a: Area, solution: seq<Pos>) returns (positions: seq<Pos>)
    requires |a.rectangles| <= |solution|
    ensures positions == Optimized(solution, |a.rectangles|, Rejected(a))
    ensures PushedDownLeft(positions, solution)
    ensures positions == solution || !WrongSolution(a, positions)
    ensures !WrongSolution(a, solution) ==> !WrongSolution(a, positions)
  {
    positions := PushDownLeft(solution, |a.rectangles|, Rejected(a));
  }
}
