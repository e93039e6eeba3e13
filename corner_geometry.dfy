/**
 * What the two genetic-algorithm packers (backend/src/two_dim_rect_and_circle_genetic_alg.py
 * and backend/algorithm.py) share: positions as `(x, y)` pairs, rectangles anchored at
 * their lower-left corner, the running maximum of the used-space computation, the decoding
 * of the flat variable vector into pairs, and `optimize_solution`, which is the same code
 * in both files and differs only in the validity check it calls.
 */
module CornerGeometry {
  import opened Wrappers
  import opened Sorting

  type Pos = (real, real)

  /** Lower-left anchored rectangles overlap unless one lies fully left of, right of, below or above the other. */
  predicate RectsOverlap(p1: Pos, w1: real, h1: real, p2: Pos, w2: real, h2: real) {
    !(p1.0 + w1 <= p2.0 || p2.0 + w2 <= p1.0 || p1.1 + h1 <= p2.1 || p2.1 + h2 <= p1.1)
  }

  lemma RectsOverlapSymmetric(p1: Pos, w1: real, h1: real, p2: Pos, w2: real, h2: real)
    ensures RectsOverlap(p1, w1, h1, p2, w2, h2) == RectsOverlap(p2, w2, h2, p1, w1, h1)
  {
  }

  /** Rectangles sharing only an edge do not overlap. */
  lemma TouchingRectsDoNotOverlap(p1: Pos, w1: real, h1: real, p2: Pos, w2: real, h2: real)
    requires p1.0 + w1 == p2.0 || p1.1 + h1 == p2.1
    ensures !RectsOverlap(p1, w1, h1, p2, w2, h2) && !RectsOverlap(p2, w2, h2, p1, w1, h1)
  {
  }

  function Max(a: real, b: real): real {
    if a >= b then a else b
  }

  /** `m = 0; for e in es: m = max(m, e)`. */
  function MaxFromZero(es: seq<real>): real
    decreases |es|
  {
    if es == [] then 0.0 else Max(MaxFromZero(es[..|es| - 1]), es[|es| - 1])
  }

  /** The running maximum is `max(0, max(es))`: at least 0 and every element, and attained unless 0. */
  lemma {:induction false} MaxFromZeroIsMaximum(es: seq<real>)
    decreases |es|
    ensures MaxFromZero(es) >= 0.0
    ensures forall k :: 0 <= k < |es| ==> es[k] <= MaxFromZero(es)
    ensures MaxFromZero(es) == 0.0 || exists k :: 0 <= k < |es| && es[k] == MaxFromZero(es)
  {
    if es != [] {
      var init := es[..|es| - 1];
      MaxFromZeroIsMaximum(init);
      forall k | 0 <= k < |es| ensures es[k] <= MaxFromZero(es) {
        if k < |es| - 1 {
          assert es[k] == init[k];
        }
      }
      if MaxFromZero(es) != 0.0 && MaxFromZero(es) != es[|es| - 1] {
        var k :| 0 <= k < |init| && init[k] == MaxFromZero(init);
        assert es[k] == init[k];
      }
    }
  }

  /** Every element at most `b >= 0` keeps the running maximum at most `b`. */
  lemma {:induction false} MaxFromZeroBounded(es: seq<real>, b: real)
    requires b >= 0.0 && forall k :: 0 <= k < |es| ==> es[k] <= b
    decreases |es|
    ensures 0.0 <= MaxFromZero(es) <= b
  {
    if es != [] {
      MaxFromZeroBounded(es[..|es| - 1], b);
    }
  }

  lemma ProductNonNegative(x: real, y: real)
    requires 0.0 <= x && 0.0 <= y
    ensures 0.0 <= x * y
  {
  }

  lemma BoundedProduct(x: real, y: real, w: real, h: real)
    requires 0.0 <= x <= w && 0.0 <= y <= h
    ensures x * y <= w * h
  {
    assert x * y <= w * y;
    assert w * y <= w * h;
  }

  /** `[(X[i], X[i+1]) for i in range(0, len(X), 2)]`; an odd length raises IndexError (`None`). */
  function Pairs(xs: seq<real>): (r: Option<seq<Pos>>)
    decreases |xs|
    ensures r.Some? <==> |xs| % 2 == 0
    ensures r.Some? ==> |r.value| == |xs| / 2
    ensures r.Some? ==> forall k :: 0 <= k < |r.value| ==> r.value[k] == (xs[2 * k], xs[2 * k + 1])
  {
    if xs == [] then Some([])
    else if |xs| == 1 then None
    else
      match Pairs(xs[2..])
      case None => None
      case Some(rest) =>
        assert forall k :: 1 <= k < |rest| + 1 ==> xs[2 * k] == xs[2..][2 * (k - 1)];
        Some([(xs[0], xs[1])] + rest)
  }

  /** `sorted(range(n), key=lambda i: (positions[i][1], positions[i][0]))`: by y, then x. */
  function ByBottomLeft(ps: seq<Pos>): (nat, nat) -> bool {
    (a: nat, b: nat) =>
      if a < |ps| && b < |ps| then ps[a].1 < ps[b].1 || (ps[a].1 == ps[b].1 && ps[a].0 <= ps[b].0)
      else true
  }

  /** `step = 0.01`. */
  const Step: real := 0.01

  /**
   * No coordinate of `now` exceeds the one in `before`, and one that changed is not below 0.
   */
  predicate PushedDownLeft(now: seq<Pos>, before: seq<Pos>) {
    |now| == |before| &&
    forall k :: 0 <= k < |now| ==>
      now[k].0 <= before[k].0 && now[k].1 <= before[k].1 &&
      (now[k].0 == before[k].0 || now[k].0 >= 0.0) && (now[k].1 == before[k].1 || now[k].1 >= 0.0)
  }

  /**
   * The inner `while True` loop that pushes shape `i` down from height `y` with its
   * x-coordinate fixed at `x`: the final height. Each trial moves only shape `i` in `ps`.
   * The loop stops at a height from which one more step would go below 0 or make the
   * configuration `bad`; until then every height it reaches is accepted.
   */
  function SlideDown(ps: seq<Pos>, i: nat, x: real, y: real, bad: seq<Pos> -> bool): (r: real)
    requires i < |ps|
    decreases (y * 100.0).Floor
    ensures r <= y && (r == y || r >= 0.0)
    ensures r == y || !bad(ps[i := (x, r)])
    ensures r - Step < 0.0 || bad(ps[i := (x, r - Step)])
  {
    var newY := y - Step;
    if newY < 0.0 || bad(ps[i := (x, newY)]) then y else SlideDown(ps, i, x, newY, bad)
  }

  /** The second inner loop: the same push, to the left, at the final height `y`. */
  function SlideLeft(ps: seq<Pos>, i: nat, x: real, y: real, bad: seq<Pos> -> bool): (r: real)
    requires i < |ps|
    decreases (x * 100.0).Floor
    ensures r <= x && (r == x || r >= 0.0)
    ensures r == x || !bad(ps[i := (r, y)])
    ensures r - Step < 0.0 || bad(ps[i := (r - Step, y)])
  {
    var newX := x - Step;
    if newX < 0.0 || bad(ps[i := (newX, y)]) then x else SlideLeft(ps, i, newX, y, bad)
  }

  /**
   * One turn of `for i in order`: shape `i` goes down as far as it can, then left as far as
   * it can, and only its entry changes. At its final place the next step down (from its old
   * x) and the next step left are each blocked, by the 0 bound or by `bad`.
   */
  function PushShape(ps: seq<Pos>, i: nat, bad: seq<Pos> -> bool): (r: seq<Pos>)
    requires i < |ps|
    ensures |r| == |ps| && forall k :: 0 <= k < |ps| && k != i ==> r[k] == ps[k]
    ensures r[i].0 <= ps[i].0 && (r[i].0 == ps[i].0 || r[i].0 >= 0.0)
    ensures r[i].1 <= ps[i].1 && (r[i].1 == ps[i].1 || r[i].1 >= 0.0)
    ensures r[i].1 - Step < 0.0 || bad(ps[i := (ps[i].0, r[i].1 - Step)])
    ensures r[i].0 - Step < 0.0 || bad(ps[i := (r[i].0 - Step, r[i].1)])
    ensures r == ps || !bad(r)
  {
    var y := SlideDown(ps, i, ps[i].0, ps[i].1, bad);
    var x := SlideLeft(ps, i, ps[i].0, y, bad);
    assert (x, y) == ps[i] ==> ps[i := (x, y)] == ps;
    ps[i := (x, y)]
  }

  /** The shapes of `order`, pushed one after the other against the positions so far. */
  function PushAll(ps: seq<Pos>, order: seq<nat>, bad: seq<Pos> -> bool): (r: seq<Pos>)
    requires forall k :: 0 <= k < |order| ==> order[k] < |ps|
    decreases |order|
    ensures |r| == |ps|
  {
    if order == [] then ps else PushAll(PushShape(ps, order[0], bad), order[1..], bad)
  }

  /** The processing order of `optimize_solution` over the first `n` shapes. */
  function BottomLeftOrder(ps: seq<Pos>, n: nat): (r: seq<nat>)
    ensures IsPermutationOfRange(r, n)
  {
    SortedRangeIsPermutation(n, ByBottomLeft(ps));
    SortBy(Range(n), ByBottomLeft(ps))
  }

  /** `optimize_solution(solution, shapes)` with `n == len(shapes)` and validity test `bad`. */
  function Optimized(solution: seq<Pos>, n: nat, bad: seq<Pos> -> bool): seq<Pos>
    requires n <= |solution|
  {
    PushAll(solution, BottomLeftOrder(solution, n), bad)
  }

  /**
   * What pushing a sequence of shapes amounts to: no coordinate increases, a moved one is
   * not below 0, shapes outside `order` keep their place, and a changed configuration is
   * accepted by `bad`.
   */
  lemma {:induction false} PushAllFacts(ps: seq<Pos>, order: seq<nat>, bad: seq<Pos> -> bool)
    requires forall k :: 0 <= k < |order| ==> order[k] < |ps|
    decreases |order|
    ensures PushedDownLeft(PushAll(ps, order, bad), ps)
    ensures forall k :: 0 <= k < |ps| && k !in order ==> PushAll(ps, order, bad)[k] == ps[k]
    ensures PushAll(ps, order, bad) == ps || !bad(PushAll(ps, order, bad))
  {
    if order != [] {
      var q := PushShape(ps, order[0], bad);
      PushAllFacts(q, order[1..], bad);
      assert PushAll(ps, order, bad) == PushAll(q, order[1..], bad);
      forall k | 0 <= k < |ps| && k !in order ensures PushAll(ps, order, bad)[k] == ps[k] {
        assert k !in order[1..] && k != order[0];
      }
    }
  }

  /**
   * Every shape is processed exactly once, and those from `n` on are never touched.
   */
  lemma OptimizedFacts(solution: seq<Pos>, n: nat, bad: seq<Pos> -> bool)
    requires n <= |solution|
    ensures PushedDownLeft(Optimized(solution, n, bad), solution)
    ensures forall k :: n <= k < |solution| ==> Optimized(solution, n, bad)[k] == solution[k]
    ensures Optimized(solution, n, bad) == solution || !bad(Optimized(solution, n, bad))
  {
    var order := BottomLeftOrder(solution, n);
    PushAllFacts(solution, order, bad);
    forall k | n <= k < |solution| ensures k !in order {
    }
  }

  /**
   * `optimize_solution`: shapes in bottom-left order are pushed down, then left, in steps
   * of 0.01, as long as the coordinate stays non-negative and the configuration with only
   * that shape moved is not `bad` (overlapping or out of the area); the shape's final place
   * is stored once both pushes end. `n` is the number of shapes.
   */
  method PushDownLeft(solution: seq<Pos>, n: nat, bad: seq<Pos> -> bool) returns (positions: seq<Pos>)
    requires n <= |solution|
    ensures positions == Optimized(solution, n, bad)
    ensures PushedDownLeft(positions, solution)
    ensures forall k :: n <= k < |solution| ==> positions[k] == solution[k]
    ensures positions == solution || !bad(positions)
  {
    positions := solution;
    var order := SortBy(Range(n), ByBottomLeft(positions));
    assert order == BottomLeftOrder(solution, n);
    var t := 0;
    while t < |order|
      invariant 0 <= t <= |order| && |positions| == |solution|
      invariant PushAll(positions, order[t..], bad) == Optimized(solution, n, bad)
    {
      var i := order[t];
      var x, y := positions[i].0, positions[i].1;
      while true
        invariant x == positions[i].0
        invariant SlideDown(positions, i, x, y, bad) == SlideDown(positions, i, x, positions[i].1, bad)
        decreases (y * 100.0).Floor
      {
        var newY := y - Step;
        if newY < 0.0 {
          break;
        }
        if bad(positions[i := (x, newY)]) {
          break;
        }
        y := newY;
      }
      ghost var y0 := y;
      while true
        invariant y == y0
        invariant SlideLeft(positions, i, x, y, bad) == SlideLeft(positions, i, positions[i].0, y, bad)
        decreases (x * 100.0).Floor
      {
        var newX := x - Step;
        if newX < 0.0 {
          break;
        }
        if bad(positions[i := (newX, y)]) {
          break;
        }
        x := newX;
      }
      ghost var before := positions;
      assert before[i := (x, y)] == PushShape(before, i, bad);
      assert order[t..][1..] == order[t + 1..];
      positions := positions[i := (x, y)];
      t := t + 1;
    }
    OptimizedFacts(solution, n, bad);
  }
}
