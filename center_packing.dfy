/**
 * The layout steps of backend/2d_shape_optimization.py on centre-positioned shapes: the
 * shelf pre-packing, the greedy "move left/down while valid" pass, the packing density,
 * and one simulated-annealing proposal (`try_mutation`) with its temperature bookkeeping.
 * The random draws and the outcome of the Metropolis comparison are parameters.
 */
module CenterPacking {
  import opened Wrappers
  import opened Sorting
  import opened CenterGeometry

  /** A configuration is valid when every shape is inside the area and no two overlap. */
  predicate Valid(cfg: seq<Obj>) {
    (forall i :: 0 <= i < |cfg| ==> InsideArea(cfg[i])) &&
    (forall i, j :: 0 <= i < |cfg| && 0 <= j < |cfg| && i != j ==> !Overlap(cfg[i], cfg[j]))
  }

  /** The generator `any(overlap(cand, o) for j, o in enumerate(cfg) if j != i)`. */
  predicate CollidesWithOthers(cfg: seq<Obj>, i: nat, cand: Obj) {
    exists j :: 0 <= j < |cfg| && j != i && Overlap(cand, cfg[j])
  }

  /** Replacing shape `i` by one inside the area that overlaps no other shape keeps validity. */
  lemma PlaceKeepsValid(cfg: seq<Obj>, i: nat, m: Obj)
    requires i < |cfg| && Valid(cfg)
    requires InsideArea(m) && !CollidesWithOthers(cfg, i, m)
    ensures Valid(cfg[i := m])
  {
    var c := cfg[i := m];
    forall a, b | 0 <= a < |c| && 0 <= b < |c| && a != b
      ensures !Overlap(c[a], c[b])
    {
      if a == i {
        assert !Overlap(m, cfg[b]);
      } else if b == i {
        assert !Overlap(m, cfg[a]);
        OverlapSymmetric(m, cfg[a]);
      }
    }
  }

  // ---------------------------------------------------------------------------------
  // packing_density
  // ---------------------------------------------------------------------------------

  /** The area sum the density loop accumulates, in list order. */
  function SumAreas(cfg: seq<Obj>): real
    decreases |cfg|
  {
    if cfg == [] then 0.0 else SumAreas(cfg[..|cfg| - 1]) + AreaOf(cfg[|cfg| - 1])
  }

  /** Shapes of non-negative size give a non-negative area sum. */
  lemma {:induction false} SumAreasNonNegative(cfg: seq<Obj>)
    requires forall i :: 0 <= i < |cfg| ==> NonNegativeSize(cfg[i])
    decreases |cfg|
    ensures SumAreas(cfg) >= 0.0
  {
    if cfg != [] {
      SumAreasNonNegative(cfg[..|cfg| - 1]);
      AreaOfIsFootprint(cfg[|cfg| - 1]);
    }
  }

  /** Moving shapes does not change the area sum ("area is fixed, so density is identical"). */
  lemma {:induction false} SumAreasIgnoresPositions(a: seq<Obj>, b: seq<Obj>)
    requires |a| == |b| && forall i :: 0 <= i < |a| ==> SameShape(a[i], b[i])
    decreases |a|
    ensures SumAreas(a) == SumAreas(b)
  {
    if a != [] {
      SumAreasIgnoresPositions(a[..|a| - 1], b[..|b| - 1]);
    }
  }

  /** `packing_density`: the summed area over the area of the container, `W * H`. */
  method PackingDensity(config: seq<Obj>) returns (d: real)
    ensures d == SumAreas(config) / (AreaW * AreaH)
    ensures (forall i :: 0 <= i < |config| ==> NonNegativeSize(config[i])) ==> d >= 0.0
  {
    var s := 0.0;
    var k := 0;
    while k < |config|
      invariant 0 <= k <= |config|
      invariant s == SumAreas(config[..k])
    {
      assert config[..k + 1][..k] == config[..k];
      s := s + AreaOf(config[k]);
      k := k + 1;
    }
    assert config[..k] == config;
    d := s / (AreaW * AreaH);
    if forall i :: 0 <= i < |config| ==> NonNegativeSize(config[i]) {
      SumAreasNonNegative(config);
    }
  }

  // ---------------------------------------------------------------------------------
  // prepack_layout
  // ---------------------------------------------------------------------------------

  /** `sorted(shapes, key=area, reverse=True)`: area-descending, equal areas in input order. */
  function AreaDescending(shapes: seq<Obj>): (r: seq<Obj>)
    ensures |r| == |shapes| && multiset(r) == multiset(shapes)
    ensures SortedBy(r, ByKeyDesc<Obj>(AreaOf))
  {
    SortBySorted(shapes, ByKeyDesc<Obj>(AreaOf));
    ByKeyDescIsPreorder<Obj>(AreaOf);
    SortBy(shapes, ByKeyDesc<Obj>(AreaOf))
  }

  predicate AllNonNegative(s: seq<Obj>) {
    forall o :: o in s ==> NonNegativeSize(o)
  }

  /**
   * The shelf property: of two placed shapes, the earlier one ends at least the 0.5 gap
   * left of the later one (same row) or below it (an earlier row).
   */
  predicate Shelved(placed: seq<Obj>) {
    forall i, j :: 0 <= i < j < |placed| ==>
      Right(placed[i]) + 0.5 <= Left(placed[j]) || Top(placed[i]) + 0.5 <= Bottom(placed[j])
  }

  /** Shelved shapes of non-negative size are pairwise non-overlapping. */
  lemma ShelvedNoOverlap(placed: seq<Obj>)
    requires Shelved(placed)
    requires forall i :: 0 <= i < |placed| ==> NonNegativeSize(placed[i])
    ensures forall i, j :: 0 <= i < |placed| && 0 <= j < |placed| && i != j ==> !Overlap(placed[i], placed[j])
  {
    forall i, j | 0 <= i < |placed| && 0 <= j < |placed| && i != j
      ensures !Overlap(placed[i], placed[j])
    {
      if i < j {
        SeparatedNoOverlap(placed[i], placed[j]);
      } else {
        SeparatedNoOverlap(placed[j], placed[i]);
      }
    }
  }

  /**
   * The layout state between two shapes: shapes before `rowStart` lie in earlier rows,
   * which end 0.5 below the cursor `y`; shapes of the current row end 0.5 left of the
   * cursor `x` and at most `rowHeight` above `y`.
   */
  ghost predicate ShelfState(placed: seq<Obj>, rowStart: nat, x: real, y: real, rowHeight: real) {
    rowStart <= |placed| && rowHeight >= 0.0 && x >= 0.0 && y >= 0.0 &&
    (forall i :: 0 <= i < |placed| ==>
      NonNegativeSize(placed[i]) && Left(placed[i]) >= 0.0 && Bottom(placed[i]) >= 0.0) &&
    (forall i :: 0 <= i < rowStart ==> Top(placed[i]) + 0.5 <= y) &&
    (forall i :: rowStart <= i < |placed| ==> Right(placed[i]) + 0.5 <= x && Top(placed[i]) <= y + rowHeight) &&
    Shelved(placed)
  }

  /** Placing a shape at the cursors and advancing them keeps the layout state. */
  lemma PlaceInRow(placed: seq<Obj>, rowStart: nat, x: real, y: real, rowHeight: real, o: Obj)
    requires ShelfState(placed, rowStart, x, y, rowHeight)
    requires NonNegativeSize(o)
    ensures ShelfState(placed + [CornerAt(o, x, y)], rowStart, x + Width(o) + 0.5, y, Max(rowHeight, Height(o)))
  {
    var p := CornerAt(o, x, y);
    assert Width(p) == Width(o) && Height(p) == Height(o);
    var q := placed + [p];
    forall i, j | 0 <= i < j < |q|
      ensures Right(q[i]) + 0.5 <= Left(q[j]) || Top(q[i]) + 0.5 <= Bottom(q[j])
    {
      if j < |placed| {
        assert q[i] == placed[i] && q[j] == placed[j];
      } else if i < rowStart {
        assert Top(q[i]) + 0.5 <= y;
      } else {
        assert Right(q[i]) + 0.5 <= x;
      }
    }
  }

  /** A finished layout: shelved, inside the first quadrant, and pairwise non-overlapping. */
  ghost predicate ShelfLayout(placed: seq<Obj>) {
    Shelved(placed) &&
    (forall i :: 0 <= i < |placed| ==> Left(placed[i]) >= 0.0 && Bottom(placed[i]) >= 0.0) &&
    (forall i, j :: 0 <= i < |placed| && 0 <= j < |placed| && i != j ==> !Overlap(placed[i], placed[j]))
  }

  /** The layout state makes a finished layout. */
  lemma ShelfStateFacts(placed: seq<Obj>, rowStart: nat, x: real, y: real, rowHeight: real)
    requires ShelfState(placed, rowStart, x, y, rowHeight)
    ensures ShelfLayout(placed)
  {
    ShelvedNoOverlap(placed);
  }

  /** Opening a row 0.5 above the current row's tallest shape keeps the layout state. */
  lemma OpenRow(placed: seq<Obj>, rowStart: nat, x: real, y: real, rowHeight: real, h: real)
    requires ShelfState(placed, rowStart, x, y, rowHeight) && h >= 0.0
    ensures ShelfState(placed, |placed|, 0.0, y + rowHeight + 0.5, h)
  {
  }

  /** Sorting keeps the shapes, so it keeps their sizes non-negative. */
  lemma SortedStaysNonNegative(shapes: seq<Obj>)
    ensures AllNonNegative(shapes) ==> AllNonNegative(AreaDescending(shapes))
  {
    var sorted := AreaDescending(shapes);
    forall o | o in sorted ensures o in shapes {
      assert o in multiset(sorted);
    }
  }

  /** `x = x_cursor + w/2`, `y = y_cursor + h/2`: the shape placed with its lower-left corner at the cursors. */
  function CornerAt(o: Obj, x: real, y: real): (p: Obj)
    ensures SameShape(p, o) && NonNegativeSize(p) == NonNegativeSize(o)
    ensures Left(p) == x && Bottom(p) == y && Right(p) == x + Width(o) && Top(p) == y + Height(o)
  {
    o.(x := x + Width(o) / 2.0, y := y + Height(o) / 2.0)
  }

  /**
   * `prepack_layout`: the shapes in area-descending order are put left to right on rows
   * with a 0.5 gap; a shape that does not fit the rest of the row opens a new row 0.5
   * above the tallest shape of the current row, and the layout stops at the first shape
   * that does not fit below the top either. The input shapes carry no position, as at
   * the script's only call.
   */
  method PrepackLayout(shapes: seq<Obj>) returns (placed: seq<Obj>)
    ensures placed == Prepack(AreaDescending(shapes), 0, 0.0, 0.0, 0.0)
  {
    var sorted := AreaDescending(shapes);
    placed := [];
    var xCursor := 0.0;
    var yCursor := 0.0;
    var rowHeight := 0.0;
    ghost var total := Prepack(sorted, 0, 0.0, 0.0, 0.0);
    assert placed + total == total;
    var k := 0;
    while k < |sorted|
      invariant 0 <= k <= |sorted| && |placed| == k
      invariant placed + Prepack(sorted, k, xCursor, yCursor, rowHeight) == total
    {
      var next, x', y', h' := PlaceNext(sorted, k, xCursor, yCursor, rowHeight);
      if next.None? {
        assert placed + [] == placed;
        break;
      }
      assert placed + Prepack(sorted, k, xCursor, yCursor, rowHeight)
        == (placed + [next.value]) + Prepack(sorted, k + 1, x', y', h');
      placed := placed + [next.value];
      xCursor, yCursor, rowHeight := x', y', h';
      k := k + 1;
    }
    assert k == |sorted| ==> placed + [] == placed;
  }

  /**
   * One step of the loop of `prepack_layout`: the shape `k` placed on the current row or
   * on a new one, with the cursors after it, or nothing when the layout stops there.
   */
  method PlaceNext(sorted: seq<Obj>, k: nat, xCursor: real, yCursor: real, rowHeight: real)
    returns (next: Option<Obj>, x': real, y': real, h': real)
    requires k < |sorted|
    ensures next.None? ==> Prepack(sorted, k, xCursor, yCursor, rowHeight) == []
    ensures next.Some? ==>
      Prepack(sorted, k, xCursor, yCursor, rowHeight) == [next.value] + Prepack(sorted, k + 1, x', y', h')
  {
    var obj := sorted[k];
    var w, h := Width(obj), Height(obj);
    if xCursor + w <= AreaW {
      next := Some(CornerAt(obj, xCursor, yCursor));
      x', y', h' := xCursor + w + 0.5, yCursor, Max(rowHeight, h);
    } else {
      y' := yCursor + rowHeight + 0.5;
      if y' + h > AreaH {
        next, x', h' := None, 0.0, h;
      } else {
        next := Some(CornerAt(obj, 0.0, y'));
        x', h' := 0.0 + w + 0.5, h;
      }
    }
  }

  /**
   * What `prepack_layout` returns: the first shapes of the area-descending order, each
   * keeping its shape. When it stops before the last shape, the next shape fits neither
   * the rest of the last row nor, with non-negative sizes, a new row opened 0.5 above the
   * highest placed shape. With non-negative sizes the result is a shelf layout with no two
   * shapes overlapping.
   */
  lemma PrepackLayoutFacts(shapes: seq<Obj>)
    ensures var sorted := AreaDescending(shapes); var placed := Prepack(sorted, 0, 0.0, 0.0, 0.0);
      |placed| <= |sorted| && (forall i :: 0 <= i < |placed| ==> SameShape(placed[i], sorted[i]))
    ensures var sorted := AreaDescending(shapes); var placed := Prepack(sorted, 0, 0.0, 0.0, 0.0);
      |placed| < |sorted| ==>
        (if placed == [] then 0.0 else Right(placed[|placed| - 1]) + 0.5) + Width(sorted[|placed|]) > AreaW
    ensures var sorted := AreaDescending(shapes); var placed := Prepack(sorted, 0, 0.0, 0.0, 0.0);
      AllNonNegative(shapes) && |placed| < |sorted| ==> TopOf(placed) + 0.5 + Height(sorted[|placed|]) > AreaH
    ensures AllNonNegative(shapes) ==> ShelfLayout(Prepack(AreaDescending(shapes), 0, 0.0, 0.0, 0.0))
  {
    SortedStaysNonNegative(shapes);
    LayoutFrom(AreaDescending(shapes), AllNonNegative(shapes), Prepack(AreaDescending(shapes), 0, 0.0, 0.0, 0.0));
  }

  /** The facts of `PrepackLayoutFacts` for the layout `all` of any order `sorted`, from the corner. */
  lemma LayoutFrom(sorted: seq<Obj>, ok: bool, all: seq<Obj>)
    requires ok ==> AllNonNegative(sorted)
    requires all == Prepack(sorted, 0, 0.0, 0.0, 0.0)
    ensures |all| <= |sorted| && (forall i :: 0 <= i < |all| ==> SameShape(all[i], sorted[i]))
    ensures |all| < |sorted| ==>
      (if all == [] then 0.0 else Right(all[|all| - 1]) + 0.5) + Width(sorted[|all|]) > AreaW
    ensures ok && |all| < |sorted| ==> TopOf(all) + 0.5 + Height(sorted[|all|]) > AreaH
    ensures ok ==> ShelfLayout(all)
  {
    assert [] + all == all;
    PrepackFrom(sorted, [], 0, 0.0, 0.0, 0.0, ok, all);
  }

  /**
   * The facts of `PrepackLayoutFacts` for the rest of the layout from the loop state
   * after the shapes `placed`: `x` is the row cursor, `y + rowHeight` the highest top edge.
   */
  lemma {:induction false} PrepackFrom(sorted: seq<Obj>, placed: seq<Obj>, rowStart: nat, x: real, y: real,
                                       rowHeight: real, ok: bool, all: seq<Obj>)
    requires LayoutState(sorted, placed, rowStart, x, y, rowHeight, ok, all)
    ensures |all| <= |sorted| && (forall i :: 0 <= i < |all| ==> SameShape(all[i], sorted[i]))
    ensures |all| < |sorted| ==>
      (if all == [] then 0.0 else Right(all[|all| - 1]) + 0.5) + Width(sorted[|all|]) > AreaW
    ensures ok && |all| < |sorted| ==> TopOf(all) + 0.5 + Height(sorted[|all|]) > AreaH
    ensures ok ==> ShelfLayout(all)
    decreases |sorted| - |placed|
  {
    if |placed| == |sorted| {
      assert all == placed + [] == placed;
      if ok {
        ShelfStateFacts(placed, rowStart, x, y, rowHeight);
      }
    } else {
      var o := sorted[|placed|];
      if x + Width(o) <= AreaW {
        PlaceFrom(sorted, placed, rowStart, x, y, rowHeight, ok, all);
        PrepackFrom(sorted, placed + [CornerAt(o, x, y)], rowStart, x + Width(o) + 0.5, y,
                    Max(rowHeight, Height(o)), ok, all);
      } else if y + rowHeight + 0.5 + Height(o) > AreaH {
        StopFrom(sorted, placed, rowStart, x, y, rowHeight, ok, all);
      } else {
        var y' := y + rowHeight + 0.5;
        WrapFrom(sorted, placed, rowStart, x, y, rowHeight, ok, all);
        PrepackFrom(sorted, placed + [CornerAt(o, 0.0, y')], |placed|, 0.0 + Width(o) + 0.5, y', Height(o), ok, all);
      }
    }
  }

  /**
   * The loop state after the shapes `placed`, for the layout `all`: `x` is the row cursor
   * and, with non-negative sizes, `y + rowHeight` the highest top edge; `all` is `placed`
   * followed by what the rest of the loop places.
   */
  ghost predicate LayoutState(sorted: seq<Obj>, placed: seq<Obj>, rowStart: nat, x: real, y: real,
                              rowHeight: real, ok: bool, all: seq<Obj>) {
    Prepacked(sorted, placed, rowStart, x, y, rowHeight, ok) &&
    (ok ==> y + rowHeight == TopOf(placed)) &&
    all == placed + Prepack(sorted, |placed|, x, y, rowHeight)
  }

  /** A shape placed on the current row keeps the loop state. */
  lemma PlaceFrom(sorted: seq<Obj>, placed: seq<Obj>, rowStart: nat, x: real, y: real,
                  rowHeight: real, ok: bool, all: seq<Obj>)
    requires LayoutState(sorted, placed, rowStart, x, y, rowHeight, ok, all)
    requires |placed| < |sorted| && x + Width(sorted[|placed|]) <= AreaW
    ensures var o := sorted[|placed|];
      LayoutState(sorted, placed + [CornerAt(o, x, y)], rowStart, x + Width(o) + 0.5, y,
                  Max(rowHeight, Height(o)), ok, all)
  {
    var o := sorted[|placed|];
    PrepackPlace(sorted, |placed|, x, y, rowHeight, placed, all);
    PlaceStep(sorted, placed, rowStart, x, y, rowHeight, ok, placed + [CornerAt(o, x, y)],
              x + Width(o) + 0.5, Max(rowHeight, Height(o)));
  }

  /** A shape placed at the start of a new row keeps the loop state. */
  lemma WrapFrom(sorted: seq<Obj>, placed: seq<Obj>, rowStart: nat, x: real, y: real,
                 rowHeight: real, ok: bool, all: seq<Obj>)
    requires LayoutState(sorted, placed, rowStart, x, y, rowHeight, ok, all)
    requires |placed| < |sorted| && x + Width(sorted[|placed|]) > AreaW
    requires y + rowHeight + 0.5 + Height(sorted[|placed|]) <= AreaH
    ensures var o := sorted[|placed|];
      var y' := y + rowHeight + 0.5;
      LayoutState(sorted, placed + [CornerAt(o, 0.0, y')], |placed|, 0.0 + Width(o) + 0.5, y', Height(o), ok, all)
  {
    var o := sorted[|placed|];
    var y' := y + rowHeight + 0.5;
    PrepackWrap(sorted, |placed|, x, y, rowHeight, placed, all);
    WrapStep(sorted, placed, rowStart, x, y, rowHeight, ok, placed + [CornerAt(o, 0.0, y')],
             0.0 + Width(o) + 0.5, y', Height(o));
  }

  /** A shape that fits neither the row nor a new row ends the layout with the stated facts. */
  lemma StopFrom(sorted: seq<Obj>, placed: seq<Obj>, rowStart: nat, x: real, y: real,
                 rowHeight: real, ok: bool, all: seq<Obj>)
    requires LayoutState(sorted, placed, rowStart, x, y, rowHeight, ok, all)
    requires |placed| < |sorted| && x + Width(sorted[|placed|]) > AreaW
    requires y + rowHeight + 0.5 + Height(sorted[|placed|]) > AreaH
    ensures all == placed
    ensures |all| < |sorted| && (forall i :: 0 <= i < |all| ==> SameShape(all[i], sorted[i]))
    ensures (if all == [] then 0.0 else Right(all[|all| - 1]) + 0.5) + Width(sorted[|all|]) > AreaW
    ensures ok ==> TopOf(all) + 0.5 + Height(sorted[|all|]) > AreaH
    ensures ok ==> ShelfLayout(all)
  {
    PrepackWrap(sorted, |placed|, x, y, rowHeight, placed, all);
    OpenStep(sorted, placed, rowStart, x, y, rowHeight, ok, y + rowHeight + 0.5, Height(sorted[|placed|]));
    if ok {
      ShelfStateFacts(placed, |placed|, 0.0, y + rowHeight + 0.5, Height(sorted[|placed|]));
    }
  }

  /**
   * The rest of `prepack_layout` from shape `k` of `sorted`, with the cursors at `x` and
   * `y` and the current row `rowHeight` tall: the shapes it still places, in order.
   */
  function Prepack(sorted: seq<Obj>, k: nat, x: real, y: real, rowHeight: real): seq<Obj>
    decreases |sorted| - k
  {
    if k >= |sorted| then []
    else
      var obj := sorted[k];
      var w, h := Width(obj), Height(obj);
      if x + w <= AreaW then
        [CornerAt(obj, x, y)] + Prepack(sorted, k + 1, x + w + 0.5, y, Max(rowHeight, h))
      else
        var y' := y + rowHeight + 0.5;
        if y' + h > AreaH then []
        else [CornerAt(obj, 0.0, y')] + Prepack(sorted, k + 1, 0.0 + w + 0.5, y', h)
  }

  /** A shape that fits the current row is placed at the cursors, after the shapes `pre`. */
  lemma PrepackPlace(sorted: seq<Obj>, k: nat, x: real, y: real, rowHeight: real, pre: seq<Obj>, all: seq<Obj>)
    requires k < |sorted| && x + Width(sorted[k]) <= AreaW
    requires pre + Prepack(sorted, k, x, y, rowHeight) == all
    ensures (pre + [CornerAt(sorted[k], x, y)])
      + Prepack(sorted, k + 1, x + Width(sorted[k]) + 0.5, y, Max(rowHeight, Height(sorted[k]))) == all
  {
  }

  /**
   * A shape that does not fit the current row opens a new row 0.5 above it: the layout
   * ends there when the shape does not fit below the top either, and otherwise places
   * the shape at the start of the new row, after the shapes `pre`.
   */
  lemma PrepackWrap(sorted: seq<Obj>, k: nat, x: real, y: real, rowHeight: real, pre: seq<Obj>, all: seq<Obj>)
    requires k < |sorted| && x + Width(sorted[k]) > AreaW
    requires pre + Prepack(sorted, k, x, y, rowHeight) == all
    ensures y + rowHeight + 0.5 + Height(sorted[k]) > AreaH ==> pre == all
    ensures y + rowHeight + 0.5 + Height(sorted[k]) <= AreaH ==>
      (pre + [CornerAt(sorted[k], 0.0, y + rowHeight + 0.5)])
      + Prepack(sorted, k + 1, 0.0 + Width(sorted[k]) + 0.5, y + rowHeight + 0.5, Height(sorted[k])) == all
  {
    assert pre + [] == pre;
  }

  /** The highest top edge of the placed shapes, and 0 when there are none. */
  function TopOf(placed: seq<Obj>): real {
    if placed == [] then 0.0 else Max(TopOf(placed[..|placed| - 1]), Top(placed[|placed| - 1]))
  }

  lemma TopOfAppend(placed: seq<Obj>, p: Obj)
    ensures TopOf(placed + [p]) == Max(TopOf(placed), Top(p))
  {
    assert (placed + [p])[..|placed|] == placed;
  }

  /**
   * The state of the pre-packing loop: the shapes placed so far are the first ones of
   * `sorted`, `x` is 0.5 past the last one's right edge (0 before the first), and with
   * non-negative sizes the placed shapes form a shelf layout so far.
   */
  ghost predicate Prepacked(sorted: seq<Obj>, placed: seq<Obj>, rowStart: nat, x: real, y: real, rowHeight: real, ok: bool) {
    |placed| <= |sorted| &&
    (forall i :: 0 <= i < |placed| ==> SameShape(placed[i], sorted[i])) &&
    x == (if placed == [] then 0.0 else Right(placed[|placed| - 1]) + 0.5) &&
    (ok ==> AllNonNegative(sorted) && ShelfState(placed, rowStart, x, y, rowHeight))
  }

  /** Placing the next shape in the current row keeps the state. */
  lemma PlaceStep(sorted: seq<Obj>, placed: seq<Obj>, rowStart: nat, x: real, y: real, rowHeight: real, ok: bool,
                  placed': seq<Obj>, x': real, rowHeight': real)
    requires |placed| < |sorted| && Prepacked(sorted, placed, rowStart, x, y, rowHeight, ok)
    requires placed' == placed + [CornerAt(sorted[|placed|], x, y)]
    requires x' == x + Width(sorted[|placed|]) + 0.5
    requires rowHeight' == Max(rowHeight, Height(sorted[|placed|]))
    ensures Prepacked(sorted, placed', rowStart, x', y, rowHeight', ok)
    ensures ok && y + rowHeight == TopOf(placed) ==> y + rowHeight' == TopOf(placed')
  {
    var o := sorted[|placed|];
    TopOfAppend(placed, CornerAt(o, x, y));
    if ok {
      assert o in sorted;
      PlaceInRow(placed, rowStart, x, y, rowHeight, o);
    }
  }

  /** Opening a row below the current one keeps the shelf state at the row's start. */
  lemma OpenStep(sorted: seq<Obj>, placed: seq<Obj>, rowStart: nat, x: real, y: real, rowHeight: real, ok: bool,
                 y': real, rowHeight': real)
    requires |placed| < |sorted| && Prepacked(sorted, placed, rowStart, x, y, rowHeight, ok)
    requires y' == y + rowHeight + 0.5 && rowHeight' == Height(sorted[|placed|])
    ensures ok ==> ShelfState(placed, |placed|, 0.0, y', rowHeight')
  {
    if ok {
      var o := sorted[|placed|];
      assert o in sorted;
      OpenRow(placed, rowStart, x, y, rowHeight, Height(o));
    }
  }

  /** Placing the next shape at the start of a new row keeps the state. */
  lemma WrapStep(sorted: seq<Obj>, placed: seq<Obj>, rowStart: nat, x: real, y: real, rowHeight: real, ok: bool,
                 placed': seq<Obj>, x': real, y': real, rowHeight': real)
    requires |placed| < |sorted| && Prepacked(sorted, placed, rowStart, x, y, rowHeight, ok)
    requires y' == y + rowHeight + 0.5 && rowHeight' == Height(sorted[|placed|])
    requires placed' == placed + [CornerAt(sorted[|placed|], 0.0, y')]
    requires x' == 0.0 + Width(sorted[|placed|]) + 0.5
    ensures Prepacked(sorted, placed', |placed|, x', y', rowHeight', ok)
    ensures ok && y + rowHeight == TopOf(placed) ==> y' + rowHeight' == TopOf(placed')
  {
    var o := sorted[|placed|];
    TopOfAppend(placed, CornerAt(o, 0.0, y'));
    if ok {
      assert o in sorted;
      OpenRow(placed, rowStart, x, y, rowHeight, Height(o));
      PlaceInRow(placed, |placed|, 0.0, y', Height(o), o);
      assert Max(Height(o), Height(o)) == Height(o);
    }
  }

  // ---------------------------------------------------------------------------------
  // greedy_local_packing
  // ---------------------------------------------------------------------------------

  /**
   * The dictionary the greedy pass tests for overlap: a circle stays a circle, every other
   * type is tested as a rectangle of the same `w` and `h`.
   */
  function Candidate(o: Obj, nx: real, ny: real): Obj {
    if IsCircle(o) then o.(x := nx, y := ny) else o.(typ := "rect", x := nx, y := ny)
  }

  /** A move whose candidate overlaps nothing moves the shape itself to a place that overlaps nothing. */
  lemma CandidateCoversMove(cfg: seq<Obj>, i: nat, nx: real, ny: real)
    requires i < |cfg|
    requires !CollidesWithOthers(cfg, i, Candidate(cfg[i], nx, ny))
    ensures !CollidesWithOthers(cfg, i, cfg[i].(x := nx, y := ny))
  {
    var m := cfg[i].(x := nx, y := ny);
    if m.typ != "circle" && m.typ != "rect" {
      forall j | 0 <= j < |cfg| ensures !Overlap(m, cfg[j]) {
        OverlapUnknownType(m, cfg[j]);
      }
    } else {
      assert Candidate(cfg[i], nx, ny) == m;
    }
  }

  /** Shapes and sizes are those of `before`; with `down`, no coordinate has grown. */
  predicate Compacted(now: seq<Obj>, before: seq<Obj>, down: bool) {
    |now| == |before| &&
    forall i :: 0 <= i < |now| ==>
      SameShape(now[i], before[i]) && (down ==> now[i].x <= before[i].x && now[i].y <= before[i].y)
  }

  /** `[(-step, 0), (0, -step), (-step, -step)]`: left, down, diagonal. */
  function Moves(step: real): seq<(real, real)> {
    [(-step, 0.0), (0.0, -step), (-step, -step)]
  }

  /**
   * One trial move of shape `i` by `d` from where it stands in `cfg`: the new configuration
   * and whether the move was taken. It is taken exactly when the moved shape lies inside the
   * area and its candidate dictionary overlaps no other shape; otherwise nothing changes.
   */
  function TryMove(cfg: seq<Obj>, i: nat, d: (real, real)): (r: (seq<Obj>, bool))
    requires i < |cfg|
    ensures |r.0| == |cfg| && (!r.1 ==> r.0 == cfg)
    ensures r.1 ==> r.0 == cfg[i := cfg[i].(x := cfg[i].x + d.0, y := cfg[i].y + d.1)]
    ensures r.1 <==> InsideArea(cfg[i].(x := cfg[i].x + d.0, y := cfg[i].y + d.1)) &&
                     !CollidesWithOthers(cfg, i, Candidate(cfg[i], cfg[i].x + d.0, cfg[i].y + d.1))
  {
    var obj := cfg[i];
    var nx, ny := obj.x + d.0, obj.y + d.1;
    var m := obj.(x := nx, y := ny);
    if InsideArea(m) && !CollidesWithOthers(cfg, i, Candidate(obj, nx, ny)) then (cfg[i := m], true) else (cfg, false)
  }

  /** `for dx, dy in moves` for shape `i`, each move from where the previous one left it. */
  function TryMoves(cfg: seq<Obj>, i: nat, ms: seq<(real, real)>): (r: (seq<Obj>, bool))
    requires i < |cfg|
    decreases |ms|
    ensures |r.0| == |cfg| && (!r.1 ==> r.0 == cfg)
  {
    if ms == [] then (cfg, false)
    else
      var t := TryMove(cfg, i, ms[0]);
      var p := TryMoves(t.0, i, ms[1..]);
      (p.0, t.1 || p.1)
  }

  /**
   * The rest of one pass, `for i, obj in enumerate(objects)` from shape `from` on: the new
   * configuration and whether any move was taken. A pass that took no move changed nothing.
   */
  function Pass(cfg: seq<Obj>, step: real, from: nat): (r: (seq<Obj>, bool))
    decreases |cfg| - from
    ensures |r.0| == |cfg| && (!r.1 ==> r.0 == cfg)
  {
    if from >= |cfg| then (cfg, false)
    else
      var t := TryMoves(cfg, from, Moves(step));
      var p := Pass(t.0, step, from + 1);
      (p.0, t.1 || p.1)
  }

  /**
   * `while moved and iteration < max_iterations`, with at most `left` passes to go: the
   * final configuration and the number of passes run. After a pass that took no move the
   * loop stops; otherwise the next pass uses the step times 0.95.
   */
  function Passes(cfg: seq<Obj>, step: real, left: nat): (r: (seq<Obj>, nat))
    decreases left
    ensures |r.0| == |cfg|
  {
    if left == 0 then (cfg, 0)
    else
      var p := Pass(cfg, step, 0);
      if p.1 then
        var q := Passes(p.0, step * 0.95, left - 1);
        (q.0, q.1 + 1)
      else (p.0, 1)
  }

  /** The step after `k` reductions by 0.95. */
  function Shrunk(step: real, k: nat): real
    decreases k
  {
    if k == 0 then step else Shrunk(step * 0.95, k - 1)
  }

  /**
   * The loop runs between one and `left` passes (none when `left == 0`); when it stops
   * early, one more pass with the last pass's step takes no move at all.
   */
  lemma {:induction false} PassesStop(cfg: seq<Obj>, step: real, left: nat)
    decreases left
    ensures Passes(cfg, step, left).1 <= left
    ensures left > 0 ==> Passes(cfg, step, left).1 >= 1
    ensures 0 < Passes(cfg, step, left).1 < left ==>
      Pass(Passes(cfg, step, left).0, Shrunk(step, Passes(cfg, step, left).1 - 1), 0) == (Passes(cfg, step, left).0, false)
  {
    if left > 0 {
      var p := Pass(cfg, step, 0);
      if p.1 {
        PassesStop(p.0, step * 0.95, left - 1);
      }
    }
  }

  /** Trial moves that take nothing leave every single move of them untaken. */
  lemma {:induction false} QuietMoves(cfg: seq<Obj>, i: nat, ms: seq<(real, real)>)
    requires i < |cfg| && !TryMoves(cfg, i, ms).1
    decreases |ms|
    ensures forall k :: 0 <= k < |ms| ==> !TryMove(cfg, i, ms[k]).1
  {
    if ms != [] {
      QuietMoves(cfg, i, ms[1..]);
      forall k | 0 <= k < |ms| ensures !TryMove(cfg, i, ms[k]).1 {
        if k > 0 {
          assert ms[k] == ms[1..][k - 1];
        }
      }
    }
  }

  /**
   * A pass that takes no move leaves a configuration in which no shape from `from` on can
   * move left, down or diagonally by `step`: each such move would leave the area or collide.
   */
  lemma {:induction false} QuietPass(cfg: seq<Obj>, step: real, from: nat)
    requires !Pass(cfg, step, from).1
    decreases |cfg| - from
    ensures forall i, k :: from <= i < |cfg| && 0 <= k < 3 ==> !TryMove(cfg, i, Moves(step)[k]).1
  {
    if from < |cfg| {
      QuietMoves(cfg, from, Moves(step));
      QuietPass(cfg, step, from + 1);
    }
  }

  lemma CompactedTrans(a: seq<Obj>, b: seq<Obj>, c: seq<Obj>, down: bool)
    requires Compacted(a, b, down) && Compacted(b, c, down)
    ensures Compacted(a, c, down)
  {
  }

  /** An accepted move keeps the shapes and sizes, moves no coordinate up, and keeps validity. */
  lemma AcceptedMove(cfg: seq<Obj>, i: nat, d: (real, real), down: bool)
    requires i < |cfg| && TryMove(cfg, i, d).1
    requires down ==> d.0 <= 0.0 && d.1 <= 0.0
    ensures Compacted(TryMove(cfg, i, d).0, cfg, down)
    ensures Valid(cfg) ==> Valid(TryMove(cfg, i, d).0)
  {
    var nx, ny := cfg[i].x + d.0, cfg[i].y + d.1;
    CandidateCoversMove(cfg, i, nx, ny);
    if Valid(cfg) {
      PlaceKeepsValid(cfg, i, cfg[i].(x := nx, y := ny));
    }
  }

  /** Moves that never go up or right keep the shapes, move nothing up and keep validity. */
  lemma {:induction false} TryMovesKeeps(cfg: seq<Obj>, i: nat, ms: seq<(real, real)>, down: bool)
    requires i < |cfg|
    requires down ==> forall k :: 0 <= k < |ms| ==> ms[k].0 <= 0.0 && ms[k].1 <= 0.0
    decreases |ms|
    ensures Compacted(TryMoves(cfg, i, ms).0, cfg, down)
    ensures Valid(cfg) ==> Valid(TryMoves(cfg, i, ms).0)
  {
    if ms != [] {
      var t := TryMove(cfg, i, ms[0]);
      if t.1 {
        AcceptedMove(cfg, i, ms[0], down);
      }
      assert down ==> forall k :: 0 <= k < |ms[1..]| ==> ms[1..][k].0 <= 0.0 && ms[1..][k].1 <= 0.0;
      TryMovesKeeps(t.0, i, ms[1..], down);
      CompactedTrans(TryMoves(cfg, i, ms).0, t.0, cfg, down);
    }
  }

  /** A pass with a non-negative step moves nothing up; any pass keeps shapes and validity. */
  lemma {:induction false} PassKeeps(cfg: seq<Obj>, step: real, from: nat)
    decreases |cfg| - from
    ensures Compacted(Pass(cfg, step, from).0, cfg, step >= 0.0)
    ensures Valid(cfg) ==> Valid(Pass(cfg, step, from).0)
  {
    if from < |cfg| {
      var t := TryMoves(cfg, from, Moves(step));
      TryMovesKeeps(cfg, from, Moves(step), step >= 0.0);
      PassKeeps(t.0, step, from + 1);
      CompactedTrans(Pass(cfg, step, from).0, t.0, cfg, step >= 0.0);
    }
  }

  /** The whole loop keeps the shapes and validity, and with `step >= 0` moves nothing up. */
  lemma {:induction false} PassesKeeps(cfg: seq<Obj>, step: real, left: nat)
    decreases left
    ensures Compacted(Passes(cfg, step, left).0, cfg, step >= 0.0)
    ensures Valid(cfg) ==> Valid(Passes(cfg, step, left).0)
  {
    if left > 0 {
      var p := Pass(cfg, step, 0);
      PassKeeps(cfg, step, 0);
      if p.1 {
        PassesKeeps(p.0, step * 0.95, left - 1);
        CompactedTrans(Passes(cfg, step, left).0, p.0, cfg, step >= 0.0);
      }
    }
  }

  /**
   * The inner `for dx, dy in …` loop of `greedy_local_packing` for shape `i`: each move is
   * tried from where the previous accepted move left the shape. `taken` is whether any was.
   */
  method TryShape(objects: array<Obj>, i: nat, step: real) returns (taken: bool)
    requires i < objects.Length
    modifies objects
    ensures (objects[..], taken) == TryMoves(old(objects[..]), i, Moves(step))
  {
    var moves := [(-step, 0.0), (0.0, -step), (-step, -step)];
    taken := false;
    var k := 0;
    while k < |moves|
      invariant 0 <= k <= |moves|
      invariant TryMoves(objects[..], i, moves[k..]).0 == TryMoves(old(objects[..]), i, moves).0
      invariant TryMoves(old(objects[..]), i, moves).1 <==> taken || TryMoves(objects[..], i, moves[k..]).1
    {
      ghost var cfg := objects[..];
      var obj := objects[i];
      var nx, ny := obj.x + moves[k].0, obj.y + moves[k].1;
      var m := obj.(x := nx, y := ny);
      if InsideArea(m) && !CollidesWithOthers(objects[..], i, Candidate(obj, nx, ny)) {
        objects[i] := m;
        assert objects[..] == cfg[i := m];
        taken := true;
        TryMovesStep(cfg, i, moves, k, objects[..], true, m);
      } else {
        TryMovesStep(cfg, i, moves, k, objects[..], false, m);
      }
      k := k + 1;
    }
  }

  /** One trial of the moves loop, with its outcome `took` and the configuration `next` it leaves. */
  lemma TryMovesStep(cfg: seq<Obj>, i: nat, ms: seq<(real, real)>, k: nat, next: seq<Obj>, took: bool, m: Obj)
    requires i < |cfg| && k < |ms|
    requires m == cfg[i].(x := cfg[i].x + ms[k].0, y := cfg[i].y + ms[k].1)
    requires took == (InsideArea(m) && !CollidesWithOthers(cfg, i, Candidate(cfg[i], m.x, m.y)))
    requires next == if took then cfg[i := m] else cfg
    ensures TryMoves(cfg, i, ms[k..]) == (TryMoves(next, i, ms[k + 1..]).0, took || TryMoves(next, i, ms[k + 1..]).1)
  {
    assert ms[k..][0] == ms[k] && ms[k..][1..] == ms[k + 1..];
  }

  /** One pass of `for i, obj in enumerate(objects)`; `moved` is whether any shape moved. */
  method RunPass(objects: array<Obj>, step: real) returns (moved: bool)
    modifies objects
    ensures (objects[..], moved) == Pass(old(objects[..]), step, 0)
  {
    moved := false;
    var i := 0;
    while i < objects.Length
      invariant 0 <= i <= objects.Length
      invariant Pass(objects[..], step, i).0 == Pass(old(objects[..]), step, 0).0
      invariant Pass(old(objects[..]), step, 0).1 <==> moved || Pass(objects[..], step, i).1
    {
      var taken := TryShape(objects, i, step);
      moved := moved || taken;
      i := i + 1;
    }
  }

  /**
   * `greedy_local_packing`: in each pass, every shape in turn tries the moves left, down
   * and diagonal by `step`, each from where the previous accepted move left it, and takes a
   * move when it stays in the area and its candidate overlaps no other shape; the step
   * shrinks by 0.95 after a pass, and the passes stop when nothing moved or after
   * `maxIterations`. `passes` is the final iteration count. The new contents are those
   * `Passes` gives; `PassesStop` and `QuietPass` say where the loop leaves them.
   */
  method GreedyLocalPacking(objects: array<Obj>, step0: real, maxIterations: nat) returns (ghost passes: nat)
    modifies objects
    ensures (objects[..], passes) == Passes(old(objects[..]), step0, maxIterations)
    ensures Compacted(objects[..], old(objects[..]), step0 >= 0.0)
    ensures Valid(old(objects[..])) ==> Valid(objects[..])
  {
    var moved := true;
    var iteration := 0;
    var step := step0;
    while moved && iteration < maxIterations
      invariant iteration <= maxIterations
      invariant moved ==> (Passes(old(objects[..]), step0, maxIterations) ==
        (Passes(objects[..], step, maxIterations - iteration).0, Passes(objects[..], step, maxIterations - iteration).1 + iteration))
      invariant !moved ==> (objects[..], iteration) == Passes(old(objects[..]), step0, maxIterations)
      decreases maxIterations - iteration
    {
      iteration := iteration + 1;
      moved := RunPass(objects, step);
      step := step * 0.95;
    }
    passes := iteration;
    PassesKeeps(old(objects[..]), step0, maxIterations);
  }

  // ---------------------------------------------------------------------------------
  // try_mutation
  // ---------------------------------------------------------------------------------

  const InitialTemp: real := 1.0
  const CoolingRate: real := 0.9995

  /** `COOLING_RATE**0.1`, the double Python computes for it. */
  const RejectCooling: real := 0.9999499887464363

  /** `min(max(lo, c), hi)`, the clamp of `try_mutation`. */
  function ClampInto(c: real, lo: real, hi: real): real {
    Min(Max(lo, c), hi)
  }

  /** The proposal: shape moved by `(dx, dy)` and clamped into the area by its type's margins. */
  function Proposal(o: Obj, dx: real, dy: real): Obj {
    if IsCircle(o) then
      o.(x := ClampInto(o.x + dx, o.r, AreaW - o.r), y := ClampInto(o.y + dy, o.r, AreaH - o.r))
    else
      o.(x := ClampInto(o.x + dx, o.w / 2.0, AreaW - o.w / 2.0),
         y := ClampInto(o.y + dy, o.h / 2.0, AreaH - o.h / 2.0))
  }

  /** The shape is no wider and no taller than the area, so the clamp can put it inside. */
  predicate FitsArea(o: Obj) {
    Width(o) <= AreaW && Height(o) <= AreaH
  }

  /** The clamp puts a shape that fits the area inside it, and changes only its position. */
  lemma ProposalInsideArea(o: Obj, dx: real, dy: real)
    requires FitsArea(o)
    ensures InsideArea(Proposal(o, dx, dy)) && SameShape(Proposal(o, dx, dy), o)
  {
  }

  /** The clamp does nothing to a move that already stays inside the area. */
  lemma ProposalKeepsInsideMove(o: Obj, dx: real, dy: real)
    requires InsideArea(o.(x := o.x + dx, y := o.y + dy))
    ensures Proposal(o, dx, dy) == o.(x := o.x + dx, y := o.y + dy)
  {
  }

  /** The squared distance of a shape's centre from the area's centre. */
  function SqDist(o: Obj): real {
    (o.x - AreaW / 2.0) * (o.x - AreaW / 2.0) + (o.y - AreaH / 2.0) * (o.y - AreaH / 2.0)
  }

  /** The `compactness` sum, in list order. */
  function SumSqDist(cfg: seq<Obj>): real
    decreases |cfg|
  {
    if cfg == [] then 0.0 else SumSqDist(cfg[..|cfg| - 1]) + SqDist(cfg[|cfg| - 1])
  }

  /** Moving one shape changes the compactness by exactly its own change in distance. */
  lemma {:induction false} SumSqDistUpdate(cfg: seq<Obj>, i: nat, m: Obj)
    requires i < |cfg|
    decreases |cfg|
    ensures SumSqDist(cfg[i := m]) == SumSqDist(cfg) - SqDist(cfg[i]) + SqDist(m)
  {
    var n := |cfg| - 1;
    if i == n {
      assert cfg[i := m][..n] == cfg[..n];
    } else {
      assert cfg[i := m][..n] == cfg[..n][i := m];
      SumSqDistUpdate(cfg[..n], i, m);
    }
  }

  /** `compactness(cfg)`, the nested loop of `try_mutation`. */
  method Compactness(cfg: seq<Obj>) returns (s: real)
    ensures s == SumSqDist(cfg)
  {
    s := 0.0;
    var k := 0;
    while k < |cfg|
      invariant 0 <= k <= |cfg|
      invariant s == SumSqDist(cfg[..k])
    {
      assert cfg[..k + 1][..k] == cfg[..k];
      var dx := cfg[k].x - AreaW / 2.0;
      var dy := cfg[k].y - AreaH / 2.0;
      s := s + (dx * dx + dy * dy);
      k := k + 1;
    }
    assert cfg[..k] == cfg;
  }

  /** The annealer's global state: `temperature` and `attempts_done`. */
  class Annealer {
    var temperature: real
    var attemptsDone: nat

    constructor ()
      ensures temperature == InitialTemp && attemptsDone == 0
    {
      temperature := InitialTemp;
      attemptsDone := 0;
    }

    /**
     * `try_mutation`: `i` is the drawn index, `(dx, dy)` the drawn move and `metropolis` the
     * outcome of `random() < exp(delta / max(1e-8, temperature))`, consulted only when the
     * proposal does not improve the compactness. A colliding proposal is rejected at once
     * and leaves the temperature alone; otherwise the temperature cools by `COOLING_RATE`
     * on acceptance and by `COOLING_RATE**0.1` on rejection.
     */
    method TryMutation(conf: seq<Obj>, i: nat, dx: real, dy: real, metropolis: bool)
      returns (newConf: seq<Obj>, score: Option<real>, accepted: bool)
      requires i < |conf|
      modifies this
      ensures attemptsDone == old(attemptsDone) + 1
      ensures var m := Proposal(conf[i], dx, dy);
        accepted <==> !CollidesWithOthers(conf, i, m) && (SqDist(m) < SqDist(conf[i]) || metropolis)
      ensures accepted ==>
        newConf == conf[i := Proposal(conf[i], dx, dy)] && score == Some(-SumSqDist(newConf)) &&
        temperature == old(temperature) * CoolingRate
      ensures !accepted ==> newConf == conf && score == None
      ensures CollidesWithOthers(conf, i, Proposal(conf[i], dx, dy)) ==> temperature == old(temperature)
      ensures !CollidesWithOthers(conf, i, Proposal(conf[i], dx, dy)) && !accepted ==>
        temperature == old(temperature) * RejectCooling
      ensures accepted && Valid(conf) && FitsArea(conf[i]) ==> Valid(newConf)
    {
      attemptsDone := attemptsDone + 1;
      var o := Proposal(conf[i], dx, dy);
      var candidate := conf[i := o];
      var j := 0;
      while j < |candidate|
        invariant 0 <= j <= |candidate|
        invariant forall l :: 0 <= l < j && l != i ==> !Overlap(o, conf[l])
      {
        if j != i && Overlap(o, candidate[j]) {
          return conf, None, false;
        }
        j := j + 1;
      }
      var oldComp := Compactness(conf);
      var newComp := Compactness(candidate);
      SumSqDistUpdate(conf, i, o);
      var delta := oldComp - newComp;
      if delta > 0.0 || metropolis {
        temperature := temperature * CoolingRate;
        if Valid(conf) && FitsArea(conf[i]) {
          ProposalInsideArea(conf[i], dx, dy);
          PlaceKeepsValid(conf, i, o);
        }
        return candidate, Some(-newComp), true;
      } else {
        temperature := temperature * RejectCooling;
        return conf, None, false;
      }
    }
  }
}
