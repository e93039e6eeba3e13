# container-knacker, modelled in Dafny

container-knacker plans how the articles of a freight order fit into shipping containers.
The model covers the parts of the repository that compute something. Each part is one
Dafny module:

- **Reading an order.** An order arrives as decoded JSON (`PyJson.Json`, with Python's
  `dict.get`, truthiness, `float()`, `int()` and `str()` spelled out). Three readers turn it
  into packer input:
  - `AlgorithmOrderParser` models `backend/Algorithm/order_parser.py`. It picks a container
    by explicit type, else the smallest `use: true` one, else the first, and it drops the
    objects it cannot pack.
  - `SrcOrderParser` models `backend/src/order_parser.py`. It checks the root keys and
    matches forms without regard to case.
  - `JsonParser` models `backend/src/json_parser.py`. It gives one record per input object,
    with defaults for missing values.
  - `PackerItems` holds the numbering loop and the type-description map that both order
    parsers share.
- **Writing an order.** `CreateJson` models `generateOrderJSON` of
  `Frontend_Eingabe/src/createJSON.js`, the form-side generator of the same JSON. It expands
  quantities, generates ids and chooses forms.
- **Stacking (3D to 2D).** `Solids` models the solids of `backend/src/three_dimensional.py`:
  footprints and the two "can carry" predicates.
  - `StackSolver` models `StapelOptimierer` of `backend/src/make_3d_to_2d_problem.py`. It
    builds the support graph, runs the longest-stack DP, rebuilds stacks greedily and
    collapses each stack into one virtual object.
  - `LegacyStackSolver` models the older variant in `backend/make_3d_to_2d_problem.py`.
  - `StackDp` holds the successor scan that both DPs share.
- **2D packing.** Two families of packers:
  - `CornerGeometry`, `RectArea` and `CircleArea` model the packers with lower-left
    anchors (`backend/algorithm.py` and `backend/src/two_dim_rect_and_circle_genetic_alg.py`):
    - overlap and extent checks;
    - the bounding-box objective and its penalty;
    - the down-then-left compaction `optimize_solution`.
  - `CenterGeometry` and `CenterPacking` model the packer with centre anchors in
    `backend/2d_shape_optimization.py`:
    - the overlap predicates;
    - the shelf pre-packing;
    - the greedy local compaction;
    - one step of the annealing mutation, with its random draws and acceptance test
      as parameters.
- **Packing lists.** Both listings are modelled as the sequences of lines they emit:
  - `PdfListing` models `backend_connector/pdf_generator.py`: bases, then a numbered
    pre-order walk of the stacks.
  - `AppListing` models the text listing of `backend_connector/app.py`.
- **Helpers.** `Wrappers` holds `Option`. `Sorting` is a stable insertion sort that models
  Python's `sorted`. `Decimal` converts between numbers and decimal text.

Modelling conventions:

- **Objects** are identified by their position in the input list. Python keys its dicts
  and sets by object identity.
- **Exceptions** are values of `PyJson.Py<T>` (`Ok` or `Raise(exc)`), so each raise in the
  source is an explicit error path. Where the source gives up by returning `None`, the
  model uses `Option`.
- **Numbers.** Coordinates, heights and areas are `real`. `math.pi` is the constant
  `Solids.Pi`.
- **Stateful code** keeps its imperative form. `StapelOptimierer`'s graph is a field the
  methods assign, the DP and the greedy rebuild are loops with invariants, and the annealer
  in `CenterPacking` is a class whose `TryMutation` updates the temperature and the attempt
  counter in place.

## Model

| member | source | states |
|---|---|---|
| Solids.MakeObjekt | backend/src/three_dimensional.py:6-25 | the constructor fails exactly for a cylinder without parameters or a box without exactly two; otherwise the footprint is `pi*r^2`, `l*b` or 0 for any other form, and name and height are kept |
| Solids.Footprint | backend/src/three_dimensional.py:12-25 | `_berechne_grundflaeche`: `pi*r^2` for a cylinder, `l*b` for a box, 0 otherwise; FootprintNonNegative and MakeObjekt state its properties |
| Solids.CanSupport | backend/src/three_dimensional.py:27-40 | `kann_traeger_sein_fuer`; CanSupportIsTotalPreorder and CanSupportIffSmallerFootprint state what it decides |
| Solids.CanSupportExact | backend/src/three_dimensional.py:42-70 | `kann_traeger_sein_fuer_no_overlap`; ExactImpliesCanSupport, ExactOtherPairs and ExactIsShapeRule state what it decides |
| Solids.FootprintNonNegative | backend/src/three_dimensional.py:12-25 | with non-negative dimensions every footprint is non-negative |
| Solids.CanSupportIsTotalPreorder | backend/src/three_dimensional.py:27-40 | the area-only support rule is reflexive, total and transitive |
| Solids.CanSupportIffSmallerFootprint | backend/src/three_dimensional.py:27-40 | `kann_traeger_sein_fuer` holds exactly when the upper footprint is not larger than the lower one |
| Solids.ExactImpliesCanSupport | backend/src/three_dimensional.py:42-70 | the exact rule never accepts a pair the area-only rule rejects |
| Solids.ExactOtherPairs | backend/src/three_dimensional.py:48-70 | a pair with a form other than cylinder or box passes the exact rule exactly when it passes the footprint check |
| Solids.ExactIsShapeRule | backend/src/three_dimensional.py:42-65 | for cylinders and boxes with matching footprints and non-negative dimensions, the exact rule is the shape rule alone (the footprint check is implied) |
| Solids.ShapeFitsBoundsFootprint | backend/src/three_dimensional.py:51-65 | each of the four shape rules implies that the upper footprint is at most the lower one |
| Solids.CircleInRectangle | backend/src/three_dimensional.py:58-61 | a circle whose diameter fits both sides of a box has a footprint at most the box's |
| CornerGeometry.RectsOverlapSymmetric | backend/algorithm.py:39-41 | the corner-anchored overlap test gives the same answer with the two rectangles swapped |
| CornerGeometry.TouchingRectsDoNotOverlap | backend/algorithm.py:39-41 | rectangles that only share an edge do not count as overlapping |
| CornerGeometry.MaxFromZeroIsMaximum | backend/algorithm.py:55-60 | the running `max` started from 0 is at least 0 and every value, and is 0 or one of the values |
| CornerGeometry.MaxFromZeroBounded | backend/algorithm.py:55-60 | values all at most a bound `b >= 0` keep the running maximum within `[0, b]` |
| CornerGeometry.Pairs | backend/algorithm.py:80 | decoding the flat vector succeeds exactly for an even length, giving `len/2` pairs `(X[2k], X[2k+1])` |
| CornerGeometry.SlideDown | backend/algorithm.py:135-146 | the push down from height `y` ends no higher, non-negative if it moved, at an accepted place if it moved, and where one more 0.01 step would go below 0 or be rejected |
| CornerGeometry.SlideLeft | backend/algorithm.py:149-159 | the push left at the final height ends no further right, non-negative if it moved, at an accepted place if it moved, and where one more 0.01 step would go below 0 or be rejected |
| CornerGeometry.PushShape | backend/algorithm.py:131-162 | one turn of the shape loop changes only shape `i`, moves it down and left only, leaves both its next step down and its next step left blocked, and gives an accepted configuration unless nothing moved |
| CornerGeometry.PushAll | backend/algorithm.py:130-162 | the shapes of the order are pushed one after the other, each against the positions the earlier ones left, keeping the list length |
| CornerGeometry.BottomLeftOrder | backend/algorithm.py:125 | the processing order holds every shape index below `n` exactly once |
| CornerGeometry.Optimized | backend/algorithm.py:112-164 | `optimize_solution` as a function: the first `n` shapes in (y, x) order, each pushed down and then left against the positions so far; OptimizedFacts and PushShape state what it does |
| CornerGeometry.PushAllFacts | backend/algorithm.py:130-162 | pushing a sequence of shapes moves no coordinate up, keeps moved coordinates non-negative, leaves shapes outside the order alone, and gives an accepted configuration unless nothing changed |
| CornerGeometry.OptimizedFacts | backend/algorithm.py:112-164 | `optimize_solution` moves shapes only down and left within the non-negative quadrant, touches no position beyond the shapes, and returns the input or an accepted configuration |
| CornerGeometry.PushDownLeft | backend/algorithm.py:112-164 | `optimize_solution`'s loops compute exactly `Optimized`; no coordinate increases, a moved coordinate stays non-negative, shapes beyond the list are untouched, and the result equals the input or is accepted by the validity check |
| RectArea.OverlapFromIff | backend/algorithm.py:25-43 | the nested overlap loops from pair `(i, j)` on report an overlap exactly when some later pair with different ids overlaps |
| RectArea.CheckOverlapIff | backend/algorithm.py:25-43 | `__check_overlap` holds exactly when two of the zipped rectangles with different ids overlap |
| RectArea.CheckOverlap | backend/algorithm.py:25-43 | `__check_overlap` as its nested loops run; CheckOverlapIff characterises it |
| RectArea.ExtentsFromIff | backend/algorithm.py:63-68 | the extents loop from pair `k` on holds exactly when some later rectangle leaves the area |
| RectArea.CheckExtentsIff | backend/algorithm.py:63-68 | `__check_extents` holds exactly when some zipped rectangle leaves `[0, W] x [0, H]` |
| RectArea.CheckExtents | backend/algorithm.py:63-68 | `__check_extents` as its loop runs; CheckExtentsIff characterises it |
| RectArea.RightEdges | backend/algorithm.py:57-59 | one right edge per zipped pair |
| RectArea.TopEdges | backend/algorithm.py:57-60 | one top edge per zipped pair |
| RectArea.UsedSpaceIsBoundingBox | backend/algorithm.py:45-61 | the used space is non-negative and its box reaches every rectangle's right and top edge |
| RectArea.EdgesWithinArea | backend/algorithm.py:63-68 | when no rectangle leaves the area, every right and top edge lies within it |
| RectArea.UsedExtentsWithinArea | backend/algorithm.py:45-68 | a solution inside the area uses a width and height between 0 and the area's |
| RectArea.UsedSpaceWithinArea | backend/algorithm.py:45-68 | a solution inside the area uses at most `W * H` |
| RectArea.FPenaltyIffWrong | backend/algorithm.py:70-84 | for an even-length vector and an area below the penalty, `f` reaches 10000000 exactly for a wrong solution |
| RectArea.WrongSolution | backend/algorithm.py:70-76 | `wrong_solution`: out of the area or overlapping |
| RectArea.F | backend/algorithm.py:78-84 | `f`: the used space plus the 10000000 penalty for a wrong solution, `None` for an odd-length vector; FPenaltyIffWrong states when the penalty applies |
| RectArea.Rejected | backend/algorithm.py:144 | the test each trial step of `optimize_solution` must pass: `__check_overlap(new) or __check_extents(new)`, which is `wrong_solution` |
| RectArea.OptimizeSolution | backend/algorithm.py:112-164 | the result is `Optimized` over the area's rectangles with `wrong_solution` as the test; positions only move down and left, a moved coordinate stays non-negative, and a changed result (as well as any result from a correct input) is a correct solution |
| CircleArea.OverlapFromIff | backend/src/two_dim_rect_and_circle_genetic_alg.py:31-67 | the nested overlap loops from pair `(i, j)` on report an overlap exactly when some later pair of distinct positions overlaps |
| CircleArea.CheckOverlapIff | backend/src/two_dim_rect_and_circle_genetic_alg.py:31-67 | `check_overlap` holds exactly when two distinct zipped shapes overlap under the rectangle, circle or nearest-point rule |
| CircleArea.CheckOverlap | backend/src/two_dim_rect_and_circle_genetic_alg.py:31-67 | `check_overlap` as its pair loop runs; CheckOverlapIff characterises it |
| CircleArea.PairOverlapSymmetric | backend/src/two_dim_rect_and_circle_genetic_alg.py:41-66 | every one of the three pair rules gives the same answer with the pair swapped |
| CircleArea.ExtentsFromIff | backend/src/two_dim_rect_and_circle_genetic_alg.py:82-92 | the extents loop from pair `k` on holds exactly when some later shape leaves the area |
| CircleArea.CheckExtentsIff | backend/src/two_dim_rect_and_circle_genetic_alg.py:82-92 | `check_extents` holds exactly when a rectangle (by its corner and size) or a circle (by its radius) leaves the area |
| CircleArea.CheckExtents | backend/src/two_dim_rect_and_circle_genetic_alg.py:82-95 | `check_extents` as its loop runs; CheckExtentsIff characterises it |
| CircleArea.RightEdges | backend/src/two_dim_rect_and_circle_genetic_alg.py:72-79 | one right edge per zipped pair |
| CircleArea.TopEdges | backend/src/two_dim_rect_and_circle_genetic_alg.py:72-79 | one top edge per zipped pair |
| CircleArea.UsedSpaceIsBoundingBox | backend/src/two_dim_rect_and_circle_genetic_alg.py:69-80 | the used space is non-negative and its box reaches every shape's right and top edge |
| CircleArea.EdgesWithinArea | backend/src/two_dim_rect_and_circle_genetic_alg.py:82-92 | when no shape leaves the area, every right and top edge lies within it |
| CircleArea.UsedExtentsWithinArea | backend/src/two_dim_rect_and_circle_genetic_alg.py:69-92 | a solution inside the area uses a width and height between 0 and the area's |
| CircleArea.UsedSpaceWithinArea | backend/src/two_dim_rect_and_circle_genetic_alg.py:69-92 | a solution inside the area uses at most `W * H` |
| CircleArea.FPenaltyIffWrong | backend/src/two_dim_rect_and_circle_genetic_alg.py:97-110 | for an even-length vector and an area below the penalty, `f` reaches 1e7 exactly for a wrong solution |
| CircleArea.WrongSolution | backend/src/two_dim_rect_and_circle_genetic_alg.py:97-102 | `wrong_solution`: out of the area or overlapping |
| CircleArea.F | backend/src/two_dim_rect_and_circle_genetic_alg.py:104-110 | `f`: the used space plus the 1e7 penalty for a wrong solution, `None` for an odd-length vector; FPenaltyIffWrong states when the penalty applies |
| CircleArea.Rejected | backend/src/two_dim_rect_and_circle_genetic_alg.py:165 | the test each trial step of `optimize_solution` must pass: `check_overlap(new) or check_extents(new)`, which is `wrong_solution` |
| CircleArea.OptimizeSolution | backend/src/two_dim_rect_and_circle_genetic_alg.py:133-185 | the result is `Optimized` over the area's shapes with `wrong_solution` as the test; positions only move down and left, a moved coordinate stays non-negative, and a changed result (as well as any result from a correct input) is a correct solution |
| CenterGeometry.RectBbox | backend/2d_shape_optimization.py:117-120 | the box has width `w`, height `h` and is centred on `(x, y)` |
| CenterGeometry.OverlapCircleCircle | backend/2d_shape_optimization.py:122-125 | `overlap_circle_circle`: squared centre distance below the squared radius sum; OverlapCircleCircleSymmetric and CirclesApartDoNotOverlap state its properties |
| CenterGeometry.OverlapRectRect | backend/2d_shape_optimization.py:127-132 | `overlap_rect_rect`, the separating-axis test on the centred boxes; OverlapRectRectSymmetric, RectsTouchingDoNotOverlap and RectOverlapIsBoxIntersection state its properties |
| CenterGeometry.OverlapCircleRect | backend/2d_shape_optimization.py:134-140 | `overlap_circle_rect`: the clamped nearest point closer than `r`, with the 1e-9 margin; CentreInsideRectOverlaps and CircleRectApart state its properties |
| CenterGeometry.Overlap | backend/2d_shape_optimization.py:142-151 | `overlap` dispatching on the two types; OverlapSymmetric, OverlapUnknownType and SeparatedNoOverlap state its properties |
| CenterGeometry.InsideArea | backend/2d_shape_optimization.py:153-157 | `inside_area` with the type's margins; InsideAreaIsExtentInArea characterises it |
| CenterGeometry.OverlapRectRectSymmetric | backend/2d_shape_optimization.py:127-132 | the separating-axis test gives the same answer with the rectangles swapped |
| CenterGeometry.RectsTouchingDoNotOverlap | backend/2d_shape_optimization.py:127-132 | rectangles whose edges only touch do not overlap, in either order |
| CenterGeometry.RectOverlapIsBoxIntersection | backend/2d_shape_optimization.py:117-132 | two rectangles overlap exactly when their `rect_bbox` boxes intersect in an open set |
| CenterGeometry.OverlapCircleCircleSymmetric | backend/2d_shape_optimization.py:122-125 | the circle test is symmetric |
| CenterGeometry.CirclesApartDoNotOverlap | backend/2d_shape_optimization.py:122-125 | circles at least the radius sum apart, tangent ones included, do not overlap |
| CenterGeometry.CentreInsideRectOverlaps | backend/2d_shape_optimization.py:134-140 | a circle whose centre lies in a rectangle overlaps it once its squared radius exceeds the 1e-9 margin |
| CenterGeometry.OverlapSymmetric | backend/2d_shape_optimization.py:142-151 | `overlap` does not depend on the order of its arguments, mixed pairs included |
| CenterGeometry.OverlapUnknownType | backend/2d_shape_optimization.py:142-151 | a shape whose type is neither `circle` nor `rect` overlaps nothing |
| CenterGeometry.InsideAreaIsExtentInArea | backend/2d_shape_optimization.py:153-157 | `inside_area` holds exactly when the shape's extent lies in `[0, 50] x [0, 80]` |
| CenterGeometry.AreaOfIsFootprint | backend/2d_shape_optimization.py:165-169 | `area_of` is the stacking footprint of a cylinder or box of the same size, and non-negative for non-negative sizes |
| CenterGeometry.SumOfSquaresAtLeast | backend/2d_shape_optimization.py:137-140 | a coordinate at least `s` away keeps the squared distance at least `s^2` |
| CenterGeometry.ClampGap | backend/2d_shape_optimization.py:137-139 | a centre at least `r` outside an interval is at least `r` from its clamp |
| CenterGeometry.FarPointNoOverlap | backend/2d_shape_optimization.py:139-140 | a squared offset of at least `r^2` in one coordinate makes the circle/rectangle test false |
| CenterGeometry.CircleRectApartCoords | backend/2d_shape_optimization.py:134-140 | a circle at least its radius outside a rectangle's x- or y-range does not overlap it |
| CenterGeometry.CircleRectApart | backend/2d_shape_optimization.py:134-150 | a circle whose extent is apart from a rectangle's does not overlap it |
| CenterGeometry.SeparatedNoOverlap | backend/2d_shape_optimization.py:122-151 | shapes of non-negative size whose extents are apart along an axis do not overlap, in either order |
| CenterPacking.PlaceKeepsValid | backend/2d_shape_optimization.py:57-68 | replacing one shape by a copy inside the area that overlaps no other shape keeps the configuration valid |
| CenterPacking.SumAreasNonNegative | backend/2d_shape_optimization.py:215-219 | shapes of non-negative size give a non-negative area sum |
| CenterPacking.SumAreasIgnoresPositions | backend/2d_shape_optimization.py:281 | moving shapes leaves the area sum, and so the density, unchanged |
| CenterPacking.PackingDensity | backend/2d_shape_optimization.py:214-219 | `packing_density` is the area sum over `50 * 80`, non-negative for shapes of non-negative size |
| CenterPacking.AreaDescending | backend/2d_shape_optimization.py:77-78 | the sorted shapes are a permutation of the input in non-increasing area order |
| CenterPacking.ShelvedNoOverlap | backend/2d_shape_optimization.py:95-114 | shapes laid out in shelf order (each earlier one 0.5 left of or below a later one) do not overlap pairwise |
| CenterPacking.PlaceInRow | backend/2d_shape_optimization.py:96-101 | placing a shape at the cursors and advancing them keeps the layout state |
| CenterPacking.ShelfStateFacts | backend/2d_shape_optimization.py:86-115 | the layout state is a finished shelf layout: shelved, in the first quadrant, no two shapes overlapping |
| CenterPacking.OpenRow | backend/2d_shape_optimization.py:102-106 | opening a row 0.5 above the tallest shape of the current row keeps the layout state |
| CenterPacking.SortedStaysNonNegative | backend/2d_shape_optimization.py:77-78 | sorting keeps the shapes' sizes non-negative |
| CenterPacking.CornerAt | backend/2d_shape_optimization.py:97-113 | the placed copy has the same shape with its lower-left corner at the cursors |
| CenterPacking.PrepackLayout | backend/2d_shape_optimization.py:74-115 | the placed shapes are exactly `Prepack` of the area-descending order from empty cursors; PrepackLayoutFacts states what that layout is |
| CenterPacking.PlaceNext | backend/2d_shape_optimization.py:85-114 | one loop step places the next shape on the current row or on a new one, continuing `Prepack` from the new cursors, or ends the layout when the shape fits neither |
| CenterPacking.PrepackLayoutFacts | backend/2d_shape_optimization.py:74-115 | the layout holds the first shapes of the area-descending order, each keeping its shape; when it stops early the next shape fits neither the rest of the last row nor, with non-negative sizes, a new row 0.5 above the highest shape; with non-negative sizes it is a shelf layout with no two shapes overlapping |
| CenterPacking.PrepackFrom | backend/2d_shape_optimization.py:85-114 | the facts of PrepackLayoutFacts hold for the rest of the layout from any loop state |
| CenterPacking.LayoutFrom | backend/2d_shape_optimization.py:74-115 | the facts of PrepackLayoutFacts hold for the layout of any order of shapes started from the corner with empty cursors |
| CenterPacking.PlaceFrom | backend/2d_shape_optimization.py:96-101 | a shape placed on the current row keeps the loop state |
| CenterPacking.WrapFrom | backend/2d_shape_optimization.py:102-114 | a shape placed at the start of a new row keeps the loop state |
| CenterPacking.StopFrom | backend/2d_shape_optimization.py:102-108 | a shape that fits neither the row nor a new row ends the layout with the facts of PrepackLayoutFacts |
| CenterPacking.PrepackPlace | backend/2d_shape_optimization.py:96-101 | a shape that fits the row is placed at the cursors and the layout continues from the advanced cursors |
| CenterPacking.PrepackWrap | backend/2d_shape_optimization.py:102-114 | a shape that does not fit the row ends the layout when it does not fit a new row, and is otherwise placed at the new row's start |
| CenterPacking.TopOfAppend | backend/2d_shape_optimization.py:100-104 | one more shape raises the highest top edge to at least its own top |
| CenterPacking.PlaceStep | backend/2d_shape_optimization.py:96-101 | a shape placed in the current row keeps the loop state |
| CenterPacking.OpenStep | backend/2d_shape_optimization.py:102-106 | opening a new row keeps the layout state at the row's start |
| CenterPacking.WrapStep | backend/2d_shape_optimization.py:102-114 | a shape placed at the start of a new row keeps the loop state |
| CenterPacking.CandidateCoversMove | backend/2d_shape_optimization.py:57-67 | a move whose test dictionary overlaps nothing moves the shape itself to a place that overlaps nothing |
| CenterPacking.GreedyLocalPacking | backend/2d_shape_optimization.py:39-72 | the new array contents and the pass count are exactly `Passes` of the old contents; shapes keep their sizes, with a non-negative step no coordinate grows, and a valid configuration stays valid |
| CenterPacking.TryMove | backend/2d_shape_optimization.py:53-69 | a trial move is taken exactly when the moved shape lies inside the area and its candidate overlaps no other shape; a taken move changes only that shape's position, and an untaken one changes nothing |
| CenterPacking.TryMoves | backend/2d_shape_optimization.py:52-69 | the three moves of one shape, each from where the previous accepted move left it; when none is taken nothing changes |
| CenterPacking.Pass | backend/2d_shape_optimization.py:49-69 | one pass over the shapes in list order reports whether any move was taken; a pass that took none changed nothing |
| CenterPacking.Passes | backend/2d_shape_optimization.py:44-71 | the loop runs passes while the last one moved something and fewer than `max_iterations` have run, multiplying the step by 0.95 after each; it keeps the list length |
| CenterPacking.PassesStop | backend/2d_shape_optimization.py:46-71 | the loop runs at most `max_iterations` passes and at least one when allowed any; when it stops early, one more pass with the last step size takes no move |
| CenterPacking.QuietMoves | backend/2d_shape_optimization.py:52-69 | when a shape takes none of its moves, each single move of them is refused |
| CenterPacking.QuietPass | backend/2d_shape_optimization.py:49-69 | after a pass that took no move, no shape can move left, down or diagonally by the step without leaving the area or overlapping another shape |
| CenterPacking.AcceptedMove | backend/2d_shape_optimization.py:57-68 | a taken move keeps shapes and sizes, moves nothing up for a non-positive offset, and keeps a valid configuration valid |
| CenterPacking.TryMovesKeeps | backend/2d_shape_optimization.py:52-69 | a shape's moves keep shapes and sizes, move nothing up when no offset is positive, and keep validity |
| CenterPacking.PassKeeps | backend/2d_shape_optimization.py:49-69 | a pass keeps shapes and sizes, moves nothing up with a non-negative step, and keeps validity |
| CenterPacking.PassesKeeps | backend/2d_shape_optimization.py:44-72 | the whole loop keeps shapes and sizes, moves nothing up with a non-negative initial step, and keeps validity |
| CenterPacking.TryShape | backend/2d_shape_optimization.py:52-69 | the moves loop for shape `i` leaves the array as `TryMoves` specifies and reports whether a move was taken |
| CenterPacking.TryMovesStep | backend/2d_shape_optimization.py:52-69 | one trial of the moves loop continues `TryMoves` from the configuration it leaves |
| CenterPacking.RunPass | backend/2d_shape_optimization.py:47-69 | one pass leaves the array as `Pass` specifies, and `moved` is whether any shape moved |
| CenterPacking.ProposalInsideArea | backend/2d_shape_optimization.py:268-275 | the clamp puts a shape that fits the area inside it and changes only its position |
| CenterPacking.ProposalKeepsInsideMove | backend/2d_shape_optimization.py:268-275 | the clamp leaves a move that already stays inside the area unchanged |
| CenterPacking.SumSqDistUpdate | backend/2d_shape_optimization.py:284-294 | moving one shape changes the compactness by exactly that shape's change in squared distance |
| CenterPacking.Compactness | backend/2d_shape_optimization.py:284-290 | `compactness` is the sum of the squared distances of the centres from the area's centre |
| CenterPacking.Annealer.TryMutation | backend/2d_shape_optimization.py:257-303 | counts the attempt; accepts exactly a non-colliding proposal that improves compactness or passes the Metropolis draw; an accepted one returns the moved configuration and its negated compactness and cools by 0.9995, a rejection after the overlap check cools by `0.9995**0.1`, a collision leaves the temperature; a valid configuration stays valid |
| CenterPacking.Annealer.constructor | backend/2d_shape_optimization.py:225-226 | the annealing starts at `INITIAL_TEMP` with no attempts done |
| AlgorithmOrderParser.TypeMatches | backend/Algorithm/order_parser.py:56 | the type comparison raises exactly on a definition that is not a dict |
| AlgorithmOrderParser.FinalDims | backend/Algorithm/order_parser.py:91-106 | step 5 raises exactly on a definition that is not a dict; otherwise it returns the width, the length and the optional `max_weight_kg`, or `None` when one of them is missing or not convertible |
| AlgorithmOrderParser.UsableListFacts | backend/Algorithm/order_parser.py:64-76 | the collected `(area, container)` entries are exactly the usable containers, in list order, each under its own area |
| AlgorithmOrderParser.CollectFacts | backend/Algorithm/order_parser.py:64-76 | collecting the present entries of a list of optional areas keeps exactly those entries, each under its own index, in increasing index order |
| AlgorithmOrderParser.Areas | backend/Algorithm/order_parser.py:64-76 | entry `j` is the usable area of definition `j` |
| AlgorithmOrderParser.UsableListStep | backend/Algorithm/order_parser.py:64-76 | looking at one more dict definition appends its `(area, index)` entry exactly when it is usable |
| AlgorithmOrderParser.FirstLeastEntryIsSmallestUsable | backend/Algorithm/order_parser.py:84-88 | a first least entry of the collected list names a usable container of least area that no earlier usable container ties |
| AlgorithmOrderParser.AreaSortHead | backend/Algorithm/order_parser.py:86-87 | the head of the stable area sort is an entry of least area with no earlier entry tying it |
| AlgorithmOrderParser.SortedHeadIsSmallestUsable | backend/Algorithm/order_parser.py:84-88 | the head of `usable_containers.sort(key=area)` names the smallest usable container, the first among equal areas |
| AlgorithmOrderParser.SelectedIsUnique | backend/Algorithm/order_parser.py:51-89 | the container the selection settles on is unique |
| AlgorithmOrderParser.ExplicitChoice | backend/Algorithm/order_parser.py:53-60 | the explicit search finds the first definition of the requested type, returns `None` exactly when no definition has it, and raises AttributeError exactly at a definition that is not a dict before any match |
| AlgorithmOrderParser.AutomaticChoice | backend/Algorithm/order_parser.py:62-89 | the automatic choice raises exactly when some definition is not a dict; otherwise it is the smallest usable container, or the first definition when none is usable |
| AlgorithmOrderParser.GetContainerDimensions | backend/Algorithm/order_parser.py:38-106 | `None` without definitions; a crash when the selection meets a definition that is not a dict; otherwise the dimensions of the uniquely selected definition (explicit match, else smallest usable, else first) |
| AlgorithmOrderParser.RectangleShape | backend/Algorithm/order_parser.py:138-144 | a rectangle with convertible width and length becomes a box of `width x length`, radius 0 and area `w * h` |
| AlgorithmOrderParser.CylinderShape | backend/Algorithm/order_parser.py:145-151 | a cylinder with a convertible radius becomes a square box of side `2r` with area `pi * r^2` |
| AlgorithmOrderParser.Shape | backend/Algorithm/order_parser.py:138-153 | the packable geometry of a `form`: a rectangle with non-null, convertible width and length, a cylinder with a non-null, convertible radius, and nothing for any other form; RectangleShape, CylinderShape and AcceptedItemIsWellFormed state its properties |
| AlgorithmOrderParser.ReadObject | backend/Algorithm/order_parser.py:117-160 | reading one object can only raise AttributeError, and does so for every object that is not a dict |
| AlgorithmOrderParser.AcceptedItemIsWellFormed | backend/Algorithm/order_parser.py:125-151 | every accepted item has a positive quantity and consistent geometry |
| AlgorithmOrderParser.ReadObjectOutcomes | backend/Algorithm/order_parser.py:117-160 | an object is accepted exactly when it is a dict whose id, quantity and weight convert, whose quantity is positive and whose form is a packable dict; it crashes exactly when it is not a dict or its form, once reached, is not a dict |
| AlgorithmOrderParser.AcceptedItemDefaults | backend/Algorithm/order_parser.py:119-123 | an accepted item keeps the converted id and quantity; the defaults are the name `Item <id>`, the id -1 and the weight 0 |
| AlgorithmOrderParser.CreateObjectDefinitions | backend/Algorithm/order_parser.py:108-162 | the definitions are the accepted objects in list order, numbered from 0, each with a positive quantity and consistent geometry; only an AttributeError escapes, exactly when some object raises one |
| AlgorithmOrderParser.ObjectsOf | backend/Algorithm/order_parser.py:110-116 | `raw_order_data.get("objects", [])` as the loop sees it, an empty list when falsy; CreateObjectDefinitions and Load state its outcomes |
| AlgorithmOrderParser.AcceptedItemsWellFormed | backend/Algorithm/order_parser.py:125-156 | every item of the accepted list has a positive quantity and consistent geometry |
| AlgorithmOrderParser.Load | backend/Algorithm/order_parser.py:15-34 | a missing or invalid file and a falsy `order` give ValueError, a document that is not a dict gives AttributeError; with a dict and a truthy `order`, the parser is built exactly when reading the objects raises nothing, and otherwise the error is that of the object list or AttributeError; a loaded parser keeps the `order` value and its numbered, well-formed definitions |
| AlgorithmOrderParser.GetTypeDescriptionMap | backend/Algorithm/order_parser.py:173-181 | every number holds the description of its last definition; with the parser's numbering the keys are exactly `0 .. n-1`, each holding its definition's name and geometry type |
| SrcOrderParser.SubstringFits | backend/src/order_parser.py:37 | a key found inside a string is no longer than the string |
| SrcOrderParser.Contains | backend/src/order_parser.py:37 | Python's `in` raises TypeError exactly on a value that is not a dict, list or string, and on a dict tests its keys |
| SrcOrderParser.ContainsMakesTruthy | backend/src/order_parser.py:19-21 | a container holding a non-empty key is truthy, so a loaded document always passes the constructor's falsy test |
| SrcOrderParser.LoadJsonData | backend/src/order_parser.py:31-47 | the decoded dict is returned exactly when it holds both `container` and `objects`, else `None`; the membership test raises only on a non-container document, and a returned document is truthy |
| SrcOrderParser.ContainerDimensions | backend/src/order_parser.py:49-68 | the dimensions returned are `float(width)`, `float(length)` and the converted `max_weight` of a dict holding `width` and `length`; any caught error gives `None` |
| SrcOrderParser.ContainerDimensionsAgree | backend/src/order_parser.py:56-64 | this reader's container dimensions equal the other reader's final step on a definition built from the same container and `max_weight` |
| SrcOrderParser.GetContainerDimensions | backend/src/order_parser.py:49-68 | `get_container_dimensions` on the stored container; SrcOrderParser.ContainerDimensions states what it returns or when it gives None |
| SrcOrderParser.Shape | backend/src/order_parser.py:105-125 | a known form with `abmessungen` that is not a dict raises AttributeError and nothing else raises; an accepted shape has consistent geometry |
| SrcOrderParser.ReadObject | backend/src/order_parser.py:82-131 | reading one object raises only AttributeError, and always raises on an object that is not a dict |
| SrcOrderParser.ReadObjectOutcomes | backend/src/order_parser.py:82-131 | an object is accepted if and only if it is a dict with a convertible weight, a string form naming a box or a cylinder and convertible dimensions; it raises if and only if it is not a dict, or, with a convertible weight, has a non-string form or a known form with non-dict `abmessungen` |
| SrcOrderParser.AcceptedItemFacts | backend/src/order_parser.py:85-103 | an accepted object is one package with consistent geometry, its name doubling as its id, `Item_<i>` without a name and weight 0 without `gewicht_kg` |
| SrcOrderParser.ReadObjectIgnoresFormCase | backend/src/order_parser.py:94 | lower-casing the `form` string beforehand does not change the outcome |
| SrcOrderParser.AcceptedItemsWellFormed | backend/src/order_parser.py:82-128 | every accepted item of the loop is a single package with consistent geometry |
| SrcOrderParser.CreateObjectDefinitions | backend/src/order_parser.py:70-133 | the loop raises exactly when some object raises (AttributeError), and otherwise returns the accepted objects in list order, numbered from 0, each a single package with consistent geometry |
| SrcOrderParser.Load | backend/src/order_parser.py:15-29 | the constructor raises ValueError for a missing document, a missing root key or a falsy container; with both keys and a truthy container, the parser is built exactly when reading the objects raises nothing, and otherwise the error is that of the object list or AttributeError; a parser holds the document, its container and its numbered accepted objects; a document that is not a dict raises TypeError in the membership test when it is no list or string, and otherwise ValueError, or AttributeError from `.get` when it holds both keys |
| SrcOrderParser.GetTypeDescriptionMap | backend/src/order_parser.py:145-153 | the map holds each number's last definition's description, and with the parser's numbering exactly one entry per definition under its number |
| PackerItems.RectangleGeometry | backend/src/order_parser.py:113-114 | a box's geometry fields are consistent: radius 0 and area width times length |
| PackerItems.CircleGeometry | backend/src/order_parser.py:121-122 | a cylinder's geometry fields are consistent: a square bounding box of side twice the radius and area pi r squared |
| PackerItems.WithGeometry | backend/src/order_parser.py:97-122 | the item carries exactly the geometry's fields, so consistent geometry fields make a consistent item |
| PackerItems.AcceptedIsSubsequence | backend/src/order_parser.py:82-128 | the accepted items are exactly the accepted objects, each from its own list position, in increasing position order, and no accepted object is missing |
| PackerItems.AcceptedAtMostObjects | backend/src/order_parser.py:82-128 | the reading loop never yields more items than there are objects |
| PackerItems.CollectDefinitions | backend/Algorithm/order_parser.py:116-162 | the loop raises exactly when some object raises an exception it does not catch, with that exception; otherwise it returns the accepted items numbered 0, 1, 2, ... by a counter that skipped objects do not advance |
| PackerItems.Numbered | backend/Algorithm/order_parser.py:116-157 | numbering keeps every item, in order, the `t`-th under number `t` |
| PackerItems.TypeDescriptionMap | backend/Algorithm/order_parser.py:173-181 | the map has one key per number that occurs, holding the name and geometry type of the last definition with that number |
| PackerItems.TypeMapStep | backend/Algorithm/order_parser.py:176-180 | one assignment of the loop extends the type map by one more definition |
| PackerItems.TypeMapStepKeys | backend/Algorithm/order_parser.py:176-180 | after one more assignment the keys are exactly the numbers of the definitions so far |
| PackerItems.TypeMapStepValues | backend/Algorithm/order_parser.py:176-180 | after one more assignment each number holds the description of the last definition with that number |
| PackerItems.SequentialTypeMap | backend/Algorithm/order_parser.py:173-181 | with the readers' numbering the map has exactly the keys `0 .. n-1`, each holding its definition's name and geometry type |
| Sorting.ByKeyDescIsPreorder | backend/src/make_3d_to_2d_problem.py:55 | `reverse=True` ordering by a key is a total preorder |
| Sorting.ByKeyAscIsPreorder | backend/Algorithm/order_parser.py:86 | ascending ordering by a key is a total preorder |
| Sorting.Insert | backend/src/make_3d_to_2d_problem.py:55 | insertion adds exactly the one element |
| Sorting.SortBy | backend/src/make_3d_to_2d_problem.py:55 | the sort keeps the length and the multiset of the input |
| Sorting.InsertSorted | backend/src/make_3d_to_2d_problem.py:55 | inserting into an ordered sequence keeps it ordered |
| Sorting.SortBySorted | backend/src/make_3d_to_2d_problem.py:55 | the sorted sequence is ordered and is a permutation of the input |
| Sorting.Ties | backend/src/make_3d_to_2d_problem.py:55 | the elements tying with `x`, in input order, are a selection no longer than the input |
| Sorting.InsertKeepsTies | backend/src/make_3d_to_2d_problem.py:55 | an insertion puts the element before every element it ties with, so the other ties keep their order |
| Sorting.SortByIsStable | backend/src/make_3d_to_2d_problem.py:55 | the sort is stable: elements that tie appear in the output in their input order |
| Sorting.InsertHead | backend/Algorithm/order_parser.py:86 | after an insertion the head is the new element when it may precede the old head, and the old head otherwise |
| Sorting.SortByHeadIsFirstMinimum | backend/Algorithm/order_parser.py:86-87 | the head of a stable sort is a least element that no earlier element ties |
| Sorting.HeadBeforeTailMinimum | backend/Algorithm/order_parser.py:86-87 | a first element that may precede the tail's least element is least itself |
| Sorting.TailMinimumFirst | backend/Algorithm/order_parser.py:86-87 | otherwise the tail's first least element is least and comes first among the least |
| Sorting.Range | backend/src/two_dim_rect_and_circle_genetic_alg.py:146 | `range(n)` holds 0 to n-1 in order |
| Sorting.SortedRangeIsPermutation | backend/src/two_dim_rect_and_circle_genetic_alg.py:146 | a sorted `range(n)` holds every index below n exactly once |
| Sorting.RangeCountsOnce | backend/src/two_dim_rect_and_circle_genetic_alg.py:146 | `range(n)` holds no index twice |
| Sorting.MultisetCountTwo | backend/src/two_dim_rect_and_circle_genetic_alg.py:146 | a value at two positions counts at least twice |
| Decimal.DigitChar | backend/src/order_parser.py:85 | a digit below ten is written as a decimal digit character |
| Decimal.DigitValue | backend/Algorithm/order_parser.py:119 | a digit character reads as a value below ten |
| Decimal.NatToString | backend/src/order_parser.py:85 | the text of a natural number is a non-empty string of digits without a leading zero |
| Decimal.IntToString | backend/Algorithm/order_parser.py:120 | the text of an integer is never empty |
| Decimal.NatToStringRoundTrip | backend/src/order_parser.py:85 | reading back the digits of a natural number gives the number |
| Decimal.IntToStringRoundTrip | backend/Algorithm/order_parser.py:119-120 | `int()` of an integer's text gives the integer |
| Decimal.Pow10 | backend/Algorithm/order_parser.py:123 | a power of ten is at least one |
| Decimal.IndexOfDot | backend/Algorithm/order_parser.py:123 | the position found is the first `.` of the text, or its length when there is none |
| Decimal.IntToStringReadsAsReal | backend/Algorithm/order_parser.py:119-123 | `float()` of an integer's text gives the integer as a number |
| Decimal.UnsignedRealOfDigits | backend/Algorithm/order_parser.py:123 | `float()` of plain digits is their decimal value |
| Decimal.NoDotInDigits | backend/Algorithm/order_parser.py:123 | a string of digits has no `.` |
| PyJson.Get | backend/src/order_parser.py:85 | `.get` raises AttributeError exactly on a value that is not a dict, and otherwise gives the key's value or the default |
| PyJson.Field | backend/src/order_parser.py:91 | a dict's `.get` gives the key's value when present and the default otherwise |
| PyJson.Elements | backend/src/order_parser.py:82 | a loop over a list sees its items; a non-empty string or dict makes the body's first step raise, and a non-container TypeError |
| PyJson.Subscript | backend/src/order_parser.py:58 | `d[key]` succeeds exactly on a dict holding the key, else KeyError for a dict and TypeError for anything else |
| PyJson.Truncate | backend/Algorithm/order_parser.py:119 | `int()` of a float truncates toward zero |
| PyJson.LowerString | backend/src/order_parser.py:94 | lower-casing keeps the length and maps every character |
| PyJson.LowerStringIdempotent | backend/src/order_parser.py:94 | lower-casing twice is lower-casing once |
| PyJson.Lower | backend/src/order_parser.py:94 | `.lower()` succeeds exactly on a string and raises AttributeError otherwise |
| PyJson.PyEqIsEquivalence | backend_connector/app.py:41 | Python's `==` on decoded values, lists and dicts compared item by item, is reflexive, symmetric and transitive |
| PyJson.PyEq | backend_connector/app.py:41 | Python's `==` on decoded values: numbers by value across bool, int and float, lists item by item, dicts by keys and values; PyEqIsEquivalence and KeyOfIsPyEq state its properties |
| PyJson.PyEqReflexive | backend_connector/app.py:41 | every decoded value is `==` to itself |
| PyJson.PyEqSymmetric | backend_connector/app.py:41 | `a == b` gives `b == a`, nested lists and dicts included |
| PyJson.PyEqTransitive | backend_connector/app.py:41 | `a == b` and `b == c` give `a == c`, nested lists and dicts included |
| PyJson.NestedNumbersEqual | backend_connector/app.py:41 | `[1] == [1.0]` and `{"a": True} == {"a": 1}` hold, and lists of different lengths differ, as in Python |
| PyJson.KeyOf | backend_connector/pdf_generator.py:36 | a value can be a dict key exactly when it is hashable |
| PyJson.KeyOfIsPyEq | backend_connector/pdf_generator.py:36 | two hashable values find the same dict entry exactly when `==` holds between them |
| StackDp.ScanBestIsFirstMaximum | backend/src/make_3d_to_2d_problem.py:64-84 | the inner loop's best count is at least every fitting neighbour's count plus one; either nothing beat the start value, or the best is the first fitting neighbour reaching that maximum and beats the start strictly |
| StackDp.ScanBestNoSuccessor | backend/src/make_3d_to_2d_problem.py:64-84 | from a start without successor, the result has no successor exactly when it is the start; a successor is a fitting neighbour, one more in count and its stored height on top |
| StackDp.ScanBestFromAlone | backend/src/make_3d_to_2d_problem.py:64-84 | started from the object alone over positive counts: no successor exactly when no neighbour's stack fits, and a successor adds one to its count and its height to the object's own |
| StackDp.BestSuccessor | backend/src/make_3d_to_2d_problem.py:64-84 | the loop over `graph.neighbors(unten)` computes the inner-loop best over the neighbours in order |
| StackDp.SeenTable | backend/src/make_3d_to_2d_problem.py:61-68 | the table an object sees keeps the table's length |
| StackDp.SeenTableFrame | backend/src/make_3d_to_2d_problem.py:61-97 | writing the entry of an object not yet processed does not change what the current object sees |
| StackDp.SeenTableIsCurrent | backend/src/make_3d_to_2d_problem.py:61-97 | while the loop runs, the current table is exactly what the object being processed sees |
| StackSolver.Initial | backend/src/make_3d_to_2d_problem.py:59 | before the loop every object's entry is itself alone, `(1, hoehe, None)` |
| StackSolver.DpStep | backend/src/make_3d_to_2d_problem.py:61-97 | processing one more position of the area order with the table as it stands extends the loop's state by that object |
| StackSolver.LaterEntriesKept | backend/src/make_3d_to_2d_problem.py:61-97 | storing the entry of the object at position `i` leaves the entries of all later positions final over the tables they saw |
| StackSolver.AreaOrderFacts | backend/src/make_3d_to_2d_problem.py:55 | `objekte_sortiert` holds every object exactly once, largest footprint first |
| StackSolver.NotLater | backend/src/make_3d_to_2d_problem.py:61 | an object of the area order does not occur again at a later position |
| StackSolver.DpEntryAt | backend/src/make_3d_to_2d_problem.py:61-97 | each object's DP entry is the inner-loop best over the table as it stood at the object's position in the area order |
| StackSolver.DpCountsPositive | backend/src/make_3d_to_2d_problem.py:59-97 | every count in the DP dictionary is at least one |
| StackSolver.SmallerIsFinal | backend/src/make_3d_to_2d_problem.py:55-61 | an object with a strictly smaller footprint is processed before, so its entry is already final |
| StackSolver.DpEntryFacts | backend/src/make_3d_to_2d_problem.py:51-99 | each entry counts at least one; no successor exactly when no neighbour's stack fits, and then the object is alone; otherwise the successor is an object it can carry, the count is one more than the successor's and the height adds up within `max_hoehe` |
| StackSolver.DpSuccessorsInRange | backend/src/make_3d_to_2d_problem.py:84-97 | every successor in the DP dictionary is one of the objects |
| StackSolver.MembersAppend | backend/src/make_3d_to_2d_problem.py:159 | appending to a stack adds exactly that object to its members |
| StackSolver.MembersOfRange | backend/src/make_3d_to_2d_problem.py:118 | `set(self.objekte)` holds exactly the object indices |
| StackSolver.SumHoeheAppend | backend/src/make_3d_to_2d_problem.py:160 | appending an object adds its height to the stack's height |
| StackSolver.SumBaseAreasAppend | backend/src/make_3d_to_2d_problem.py:170-171 | appending a stack adds its base footprint to `gesamt_grundflaeche` |
| StackSolver.PlacedAppend | backend/src/make_3d_to_2d_problem.py:170-175 | placing a stack of distinct remaining objects and discarding them keeps placed and remaining objects disjoint and together complete |
| StackSolver.PlacedAllIsPartition | backend/src/make_3d_to_2d_problem.py:178-182 | when nothing remains the stacks split the objects, each in exactly one place |
| StackSolver.CandidatesInRange | backend/src/make_3d_to_2d_problem.py:123-127 | the ranked candidates are one per object, every one an object |
| StackSolver.AggregateMatchesForm | backend/src/make_3d_to_2d_problem.py:204-241 | the virtual object's footprint matches its form whenever the base's does |
| StackSolver.MixedBoxCoversMembers | backend/src/make_3d_to_2d_problem.py:223-241 | the enclosing box of a mixed stack is at least as large as every member's footprint |
| StackSolver.AreaOrderOfEqualPair | backend/src/make_3d_to_2d_problem.py:55 | two objects with the same footprint keep their input order |
| StackSolver.EqualPairDpTable | backend/src/make_3d_to_2d_problem.py:51-99 | for two equal boxes of height 1 under limit 10 the DP gives each the other as successor, with counts 3 and 2 |
| StackSolver.EqualPairSeen | backend/src/make_3d_to_2d_problem.py:61-68 | of the two, the object processed second sees the first one's final entry and the first sees only initial entries |
| StackSolver.EqualPairCandidates | backend/src/make_3d_to_2d_problem.py:123-127 | the first box is the best-ranked candidate |
| StackSolver.EqualPairWalk | backend/src/make_3d_to_2d_problem.py:146-167 | the walk as written builds the stack 0, 1, 0, 1, ... of ten entries, which repeats objects |
| StackSolver.WalkAsWritten | backend/src/make_3d_to_2d_problem.py:154-167 | the stack walk as the source writes it, which checks only `verbleibende_objekte`; EqualPairWalk and WalkAsWrittenRepeatsObjects show it repeating objects |
| StackSolver.WalkAsWrittenRepeatsObjects | backend/src/make_3d_to_2d_problem.py:146-175 | on two equal boxes the written walk places each object five times in one stack |
| StackSolver.SupportRowStep | backend/src/make_3d_to_2d_problem.py:27-39 | testing one more object `j` extends the successors of `i` by `j` exactly when `i != j` and `i` can carry `j` |
| StackSolver.StapelOptimierer.constructor | backend/src/make_3d_to_2d_problem.py:15-20 | the optimiser keeps the objects and `max_hoehe` and starts from a valid state |
| StackSolver.StapelOptimierer.ErzeugeGraphen | backend/src/make_3d_to_2d_problem.py:22-39 | the graph lists, per object and in increasing order, exactly the other objects it can carry |
| StackSolver.StapelOptimierer.FindeOptimaleStapel | backend/src/make_3d_to_2d_problem.py:51-99 | the returned dictionary is the DP table over the area order |
| StackSolver.StapelOptimierer.BaueStapel | backend/src/make_3d_to_2d_problem.py:146-167 | the stack is `Walk` from the base (corrected walk, see ## Findings): it starts at the base, follows DP successors, holds only distinct available objects, fits under `max_hoehe` unless it is the base alone, and stops only at a successor that is missing, used up, already in the stack or too tall |
| StackSolver.StapelOptimierer.GierigeAuswahl | backend/src/make_3d_to_2d_problem.py:130-175 | the stacks are `GreedyStacks` over the candidates reached before the timeout: in rank order, each candidate still unused becomes the base of the walk from it and that walk's objects are discarded, a used one is skipped; so at most one stack per candidate, every reached candidate ends up in some stack, placed objects are disjoint from the remaining ones, and the sum is the stacks' base footprints (corrected walk, see ## Findings) |
| StackSolver.StapelOptimierer.EinzelstapelAnfuegen | backend/src/make_3d_to_2d_problem.py:178-182 | the greedy stacks stay first and every remaining object follows as a stack of its own, in index order, so nothing remains; the sum is the stacks' base footprints |
| StackSolver.SingletonsAfterStep | backend/src/make_3d_to_2d_problem.py:178-182 | appending the singleton of the next remaining object keeps the singleton tail in increasing index order |
| StackSolver.DiscardAll | backend/src/make_3d_to_2d_problem.py:174-175 | discarding every member of a stack leaves exactly the set minus the stack's members |
| StackSolver.StapelOptimierer.LoeseProblem | backend/src/make_3d_to_2d_problem.py:110-196 | ZeroDivisionError exactly when some footprint is zero; otherwise the greedy stacks are `GreedyStacks` over the top-ranked candidates reached before the timeout, each reached candidate lies in one of them, then single stacks follow; the stacks split the objects, each fits under `max_hoehe` or is alone, and the sum is the base footprints (corrected walk, see ## Findings) |
| StackSolver.Walk | backend/src/make_3d_to_2d_problem.py:146-167 | the corrected walk extends the stack it is given, so the stack always starts with the base |
| StackSolver.WalkStep | backend/src/make_3d_to_2d_problem.py:154-165 | one step of the corrected walk: an available successor not yet in the stack that fits is taken, and any other ends the walk with the stack as it is |
| StackSolver.BuildStep | backend/src/make_3d_to_2d_problem.py:154-165 | taking such a successor keeps the stack a chain of distinct available objects under `max_hoehe` whose remaining walk ends where the walk from the base ends, with one object fewer left to take |
| StackSolver.BuildEnd | backend/src/make_3d_to_2d_problem.py:154-167 | where the walk stops, the stack is the walk from the base and its top has no successor that could be taken |
| StackSolver.SolutionFacts | backend/src/make_3d_to_2d_problem.py:134-196 | the greedy stacks followed by the single stacks split the objects, the greedy ones keep their bases among the candidates and follow DP successors, and every reached candidate lies in one of them |
| StackSolver.Reached | backend/src/make_3d_to_2d_problem.py:130-138 | the candidates the loop reaches are the first ones of the top-K list, all of them unless the timeout comes first |
| StackSolver.GreedyStacksFacts | backend/src/make_3d_to_2d_problem.py:134-175 | there are at most as many stacks as candidates; each is non-empty and based on a candidate that was still unused, and every unused candidate lies in some stack |
| StackSolver.ReachedAllPlaced | backend/src/make_3d_to_2d_problem.py:134-175 | every candidate the loop reaches lies in one of the greedy stacks |
| StackSolver.GreedyStep | backend/src/make_3d_to_2d_problem.py:140-175 | one candidate of the loop either is skipped as used or contributes the walk from it and discards its objects |
| StackSolver.StapelOptimierer.UmschliessendeSeiten | backend/src/make_3d_to_2d_problem.py:227-237 | the two accumulators are the maxima (from 0) of the boxes' sides and the cylinders' diameters |
| StackSolver.StapelOptimierer.StapelZuObjektenAggregieren | backend/src/make_3d_to_2d_problem.py:198-273 | one virtual object per stack, named `Stapel_<i+1>`, with the summed height and weight; a pure box or cylinder stack keeps its base's form and footprint, a mixed one becomes the enclosing box |
| LegacyStackSolver.Zeros | backend/make_3d_to_2d_problem.py:112 | the dictionary starts with `(0, 0, None)` for every object |
| LegacyStackSolver.LegacyDpEntryFacts | backend/make_3d_to_2d_problem.py:103-140 | an object with no fitting neighbour stores `(1, hoehe, None)`; otherwise a fitting neighbour it carries exactly, with count two more than the neighbour's and height twice its own plus the neighbour's; objects with smaller footprints are already final |
| LegacyStackSolver.LegacyDpEntryAt | backend/make_3d_to_2d_problem.py:114-137 | each entry is the stored inner-loop best over the table as it stood at the object's position in the area order |
| LegacyStackSolver.StoredFromLeer | backend/make_3d_to_2d_problem.py:116-137 | started from `(0, 0, None)` and stored: no successor exactly when no neighbour fits, and then `(1, hoehe, None)`; otherwise count `2 + count(v)` and height `2 * hoehe + height(v)` |
| LegacyStackSolver.LegacySuccessorsInRange | backend/make_3d_to_2d_problem.py:119-137 | every successor in the dictionary is one of the objects |
| LegacyStackSolver.LegacyCountsBaseTwice | backend/make_3d_to_2d_problem.py:122-136 | a box of footprint 4 carrying one of footprint 1, both of height 1, stores count 3 and height 3 for a two-object stack of height 2 |
| LegacyStackSolver.TwoBoxGraph | backend/make_3d_to_2d_problem.py:74-91 | the larger box carries the smaller and not the other way round |
| LegacyStackSolver.TwoBoxOrder | backend/make_3d_to_2d_problem.py:109 | the larger footprint comes first in the area order |
| LegacyStackSolver.CandidatesInRange | backend/make_3d_to_2d_problem.py:159-163 | the ranked candidates are one per object, every one an object |
| LegacyStackSolver.RepeatMeansNoEnd | backend/make_3d_to_2d_problem.py:185-188 | a successor walk that has met an object twice has a successor again at its end, so the walk never stops |
| LegacyStackSolver.ShiftRepeat | backend/make_3d_to_2d_problem.py:185-188 | a repeat in a successor walk keeps repeating up to its end |
| LegacyStackSolver.MembersCard | backend/make_3d_to_2d_problem.py:197-198 | a stack of distinct objects has as many members as entries |
| LegacyStackSolver.SubsetCard | backend/make_3d_to_2d_problem.py:154 | a subset of a set of objects is no larger |
| LegacyStackSolver.Pigeonhole | backend/make_3d_to_2d_problem.py:185-188 | a walk longer than the number of objects meets some object twice |
| LegacyStackSolver.CoveredAppend | backend/make_3d_to_2d_problem.py:192-198 | placing a stack and discarding its members keeps every placed object out of the remaining set and every object placed or remaining |
| LegacyStackSolver.LegacyDpStep | backend/make_3d_to_2d_problem.py:114-137 | processing one more position of the area order extends the loop's state by that object |
| LegacyStackSolver.ExactSupportRowStep | backend/make_3d_to_2d_problem.py:78-91 | testing one more object `j` extends the successors of `i` by `j` exactly when `i != j` and `i` carries `j` by the exact rule |
| LegacyStackSolver.GreedyStackAppended | backend/make_3d_to_2d_problem.py:169-198 | a finished successor chain from a remaining candidate, placed and discarded, keeps the greedy loop's state |
| LegacyStackSolver.StapelOptimierer.constructor | backend/make_3d_to_2d_problem.py:68-72 | the optimiser keeps the objects and `max_hoehe` and starts from a valid state |
| LegacyStackSolver.StapelOptimierer.ErzeugeGraphen | backend/make_3d_to_2d_problem.py:74-91 | the graph lists, per object and in increasing order, exactly the other objects it carries by the exact rule |
| LegacyStackSolver.StapelOptimierer.FindeOptimaleStapel | backend/make_3d_to_2d_problem.py:103-140 | the returned dictionary is the older DP table over the area order |
| LegacyStackSolver.StapelOptimierer.FolgeKette | backend/make_3d_to_2d_problem.py:180-188 | the stack is the successor `Walk` from the base, and the walk reports endless exactly when it `Hangs`; it follows DP successors, ends at an object without successor with no object repeated, and otherwise repeats an object and so never ends |
| LegacyStackSolver.StapelOptimierer.GierigeAuswahl | backend/make_3d_to_2d_problem.py:166-198 | the result is `LegacyGreedy` over the candidates reached before the timeout: in rank order, each candidate still unused contributes the full successor walk from it and that walk's objects are discarded, a used one is skipped; it reports an endless loop exactly when the first such candidate whose walk repeats an object comes before the candidates run out |
| LegacyStackSolver.StapelOptimierer.EinzelstapelAnfuegen | backend/make_3d_to_2d_problem.py:202-206 | the greedy stacks stay first and every remaining object follows as a stack of its own, in index order, so every object is covered |
| LegacyStackSolver.StapelOptimierer.LoeseProblem | backend/make_3d_to_2d_problem.py:146-211 | `None` (the loop that never ends) exactly when `LegacyGreedy` over the reached top-three candidates is `None`, that is when an unused reached candidate's walk repeats an object; otherwise the greedy stacks are that `LegacyGreedy` result, every object is in some stack, then the left-over objects follow as single stacks in index order, with the summed base footprints |
| LegacyStackSolver.Chain | backend/make_3d_to_2d_problem.py:184-188 | following successors extends the stack it is given |
| LegacyStackSolver.Walk | backend/make_3d_to_2d_problem.py:180-188 | the walk from a base starts with that base |
| LegacyStackSolver.ChainFacts | backend/make_3d_to_2d_problem.py:184-188 | every step of the chain is a DP successor of the one before; when it stops with a successor left, it has used up all its steps |
| LegacyStackSolver.HangsIffRepeats | backend/make_3d_to_2d_problem.py:185-188 | the walk still has a successor at its end exactly when it meets some object twice, so the `while` loop never ends exactly then |
| LegacyStackSolver.LegacyGreedyNone | backend/make_3d_to_2d_problem.py:169-198 | the greedy loop hangs only when some unused candidate's walk repeats an object, and never when no walk does |
| LegacyStackSolver.LegacyGreedyStacks | backend/make_3d_to_2d_problem.py:179-198 | each greedy stack is the full walk from its base, repeats no object, and its base is a candidate that was still unused |
| LegacyStackSolver.LegacyGreedyCovers | backend/make_3d_to_2d_problem.py:176-198 | every unused candidate lies in some greedy stack |
| LegacyStackSolver.LegacyGreedyStep | backend/make_3d_to_2d_problem.py:169-198 | one candidate of the loop is skipped as used, hangs, or contributes its walk and discards its objects |
| LegacyStackSolver.StapelOptimierer.GierigerSchritt | backend/make_3d_to_2d_problem.py:176-198 | one turn of the greedy loop: a used-up candidate is skipped, a walk that repeats an object stops the loop and makes the whole outcome `None`, and a walk that ends is placed and its objects discarded, keeping the loop state |
| LegacyStackSolver.LoopSkip | backend/make_3d_to_2d_problem.py:176-177 | a used-up candidate leaves the stacks and the outcome of the rest unchanged |
| LegacyStackSolver.LoopHangs | backend/make_3d_to_2d_problem.py:180-188 | an unused candidate whose walk never ends makes the outcome of the whole loop `None` |
| LegacyStackSolver.LoopPlace | backend/make_3d_to_2d_problem.py:180-198 | an unused candidate whose walk ends adds that walk as a stack, discards its objects and adds its base footprint, keeping the loop state |
| LegacyStackSolver.LoopDone | backend/make_3d_to_2d_problem.py:166-198 | when the reached candidates are all handled, the outcome of the loop is the stacks placed |
| LegacyStackSolver.ConcatHasMembers | backend/make_3d_to_2d_problem.py:202-206 | a member of one stack is a member of all stacks together |
| JsonParser.MapFormToType | backend/src/json_parser.py:26-33 | raises AttributeError exactly on a form that is not a dict or a `type` that is not a string; otherwise the result is `Zylinder` exactly for a cylinder name in any letter case, and `Quader` for everything else |
| JsonParser.MapFormIgnoresCase | backend/src/json_parser.py:27 | a `type` and its lower-cased spelling map alike |
| JsonParser.MissingTypeIsBox | backend/src/json_parser.py:27-33 | a form without `type`, or with an empty one, is a box |
| JsonParser.OrderOf | backend/src/json_parser.py:46 | the order is the document's truthy `order`, else the document itself; a document that is not a dict raises |
| JsonParser.Uses | backend/src/json_parser.py:52 | `c.get("use")` raises exactly on a container that is not a dict |
| JsonParser.DimsOf | backend/src/json_parser.py:53-58 | raises exactly on a container, or its `inner_dimensions`, that is not a dict; otherwise the three raw dimensions, each 0 when missing |
| JsonParser.FirstInUseIsUnique | backend/src/json_parser.py:51-59 | there is only one first container in use |
| JsonParser.OrZero | backend/src/json_parser.py:85-86 | `p or 0` keeps a truthy value and turns any falsy one into 0 |
| JsonParser.ObjectRecord | backend/src/json_parser.py:71-87 | raises AttributeError exactly on an object or form that is not a dict or a non-string `type`; a cylinder gets one parameter and a box two, every value truthy or 0, and the name `product_name` or `obj_<id>` |
| JsonParser.ParseOrder | backend/src/json_parser.py:36-90 | raises exactly when the order, its container list, the container search, the object list or some object raises; otherwise the chosen container and exactly one record per object, in list order |
| JsonParser.ChooseContainer | backend/src/json_parser.py:49-67 | the first container with a truthy `use`, else the first container, else none; it raises exactly at the first container that fails before a choice, or in the fallback |
| JsonParser.ReadRecords | backend/src/json_parser.py:69-88 | one record per object in list order, or the first exception when some object raises |
| JsonParser.ChoiceFacts | backend/src/json_parser.py:49-67 | the search's two outcomes, a first container in use or none in use, leave a choice that does not raise and is the chosen container |
| CreateJson.Put | Frontend_Eingabe/src/createJSON.js:59-101 | an entry whose value is `undefined` is dropped from the object, any other value is stored under its key |
| CreateJson.SelectedFromFacts | Frontend_Eingabe/src/createJSON.js:43-44 | the selected positions are exactly the selected options, each once, in increasing order |
| CreateJson.ContainerDefinitionsOrder | Frontend_Eingabe/src/createJSON.js:12-54 | the definitions are those of exactly the options whose flag is truthy, in the fixed order 20, 40, 40-hc, 40-hw |
| CreateJson.DefinitionJsonFacts | Frontend_Eingabe/src/createJSON.js:45-54 | each definition is in use, has its option's type, and the region's limit times 1000 as `max_weight_kg` |
| CreateJson.FlatCopiesLayout | Frontend_Eingabe/src/createJSON.js:56-58 | the flattened list holds `sum(count)` entries; entry `t` is copy `cs[t]` of article `ks[t]`, ordered by article and then by copy |
| CreateJson.ElementsStep | Frontend_Eingabe/src/createJSON.js:56-58 | every entry of the first article's copies followed by the rest's is the copy its shifted position names |
| CreateJson.FlatCopiesStep | Frontend_Eingabe/src/createJSON.js:56-58 | the copies of the first article come first, then the rest with their positions shifted by one article |
| CreateJson.ElementsShifted | Frontend_Eingabe/src/createJSON.js:56 | putting the copies of a new first article in front shifts every later article position by one |
| CreateJson.CopiesNumbered | Frontend_Eingabe/src/createJSON.js:58 | the new article's copies are numbered from 0 and the later copy numbers are kept |
| CreateJson.CopyOrderStep | Frontend_Eingabe/src/createJSON.js:56-58 | putting a new article's copies in front keeps the order by article and then by copy |
| CreateJson.IdOfObjectJson | Frontend_Eingabe/src/createJSON.js:60 | copy `i` of article `idx` has id `idx * 1000 + 1000 + i` |
| CreateJson.IdsIncrease | Frontend_Eingabe/src/createJSON.js:56-60 | there are `sum(amount \|\| 1)` objects, and with at most 1000 copies per article the ids lie from 1000 up and strictly increase through the list, so they are distinct |
| CreateJson.OrderHeader | Frontend_Eingabe/src/createJSON.js:108-116 | both timestamps are the same `now`, and the delivery region is the region's truthy name, else empty |
| CreateJson.GeneratedFields | Frontend_Eingabe/src/createJSON.js:59-64 | a generated object carries its id, quantity 1, the article's weight and name, and its form, as the reader looks them up |
| CreateJson.ReadGenerated | Frontend_Eingabe/src/createJSON.js:80-104 | the reader's verdict on a generated object is decided by its form alone, which is always a dict |
| CreateJson.GeneratedObjectNeverRaises | Frontend_Eingabe/src/createJSON.js:56-106 | the reading of backend/Algorithm/order_parser.py never raises on a generated object |
| CreateJson.RechteckReadsBack | Frontend_Eingabe/src/createJSON.js:89-95 | a `Rechteck` article with length and width reads back as one rectangle of that width and length |
| CreateJson.PalletReadsBack | Frontend_Eingabe/src/createJSON.js:81-88 | a `Zylinder` on a pallet reads back as one rectangle of the pallet's width and length |
| CreateJson.CylinderReadsBack | Frontend_Eingabe/src/createJSON.js:96-101 | a `Zylinder` without pallet and with a non-zero diameter reads back as one circle of half that diameter, whose box width is the diameter |
| CreateJson.CylinderFormShape | Frontend_Eingabe/src/createJSON.js:96-101 | the form written for a `Zylinder` without pallet and with a non-zero diameter is a dict the reader takes as a circle of half the diameter |
| CreateJson.UnpackableArticleSkipped | Frontend_Eingabe/src/createJSON.js:80-102 | any other shape, or a cylinder without pallet and without a non-zero diameter, is skipped by the reader |
| CreateJson.RadiuslessCylinderSkipped | Frontend_Eingabe/src/createJSON.js:100 | a cylinder without pallet gets a null radius when its diameter is missing or zero, and is skipped |
| CreateJson.FormlessArticleSkipped | Frontend_Eingabe/src/createJSON.js:80-102 | a shape other than the two gets no `form` and is skipped |
| CreateJson.GeneratedOrderReadsWithoutRaising | Frontend_Eingabe/src/createJSON.js:1-143 | the reader of backend/Algorithm/order_parser.py reads the objects of every generated order without an uncaught exception |
| CreateJson.OrderObjects | Frontend_Eingabe/src/createJSON.js:110-143 | the `objects` of a generated order, read as the order parser reads them, are the flattened article copies in order |
| CreateJson.GenerateOrderJson | Frontend_Eingabe/src/createJSON.js:1-143 | `generateOrderJSON`; OrderHeader, ContainerDefinitionsOrder, DefinitionJsonFacts, FlatCopiesLayout, IdsIncrease and GeneratedOrderReadsWithoutRaising state what the generated order holds |
| PdfListing.StackMapGroups | backend_connector/pdf_generator.py:52-60 | `stack_map` has a key exactly for each `stack_level` that some non-base object names, holding those objects in list order |
| PdfListing.PartitionIsComplete | backend_connector/pdf_generator.py:52-60 | every placed object is either a base or filed under its own `stack_level`, never both |
| PdfListing.EmptyPartition | backend_connector/pdf_generator.py:62-66 | the "no content" test holds exactly for an empty list of placed objects |
| PdfListing.Partition | backend_connector/pdf_generator.py:49-60 | the loop raises exactly when an object is not a dict or a non-base one has an unhashable `stack_level`; otherwise it returns the bases and the stack map |
| PdfListing.IsBaseIsMembership | backend_connector/pdf_generator.py:55 | the base test is `parent_id is None or parent_id in [0, 1]` with Python's `==` |
| PdfListing.ObjectsMapDefined | backend_connector/pdf_generator.py:36 | the lookup map is built exactly when every object is a dict with a hashable `id` |
| PdfListing.ObjectsMapKeys | backend_connector/pdf_generator.py:36 | the lookup map has exactly one key per id that occurs |
| PdfListing.ObjectsMapLastWins | backend_connector/pdf_generator.py:36 | each key holds the last object with that id |
| PdfListing.LastWithKeyExtends | backend_connector/pdf_generator.py:36 | an object with a different id appended at the end does not change which object is last for a key |
| PdfListing.Indent | backend_connector/pdf_generator.py:76 | the indent is four spaces per level |
| PdfListing.VisitAllPrefixFails | backend_connector/pdf_generator.py:103-108 | once one walk of a loop raises, the whole loop raises |
| PdfListing.VisitAllStep | backend_connector/pdf_generator.py:103-108 | one more object of a loop appends that object's walk, with the counter carried on |
| PdfListing.PrintStackRecursively | backend_connector/pdf_generator.py:71-104 | the walk succeeds exactly when the specified visit does (it raises at the recursion limit, on an unhashable id, and on a product name that is not a string), appends its lines and leaves the counter where the visit does |
| PdfListing.Visit | backend_connector/pdf_generator.py:71-104 | `print_stack_recursively` as a function of the counter, raising at the recursion limit, on an unhashable id and on a non-string product name; VisitIsNumberedPreorder, VisitReachesOnlyChildren and NonStringNameFails state what a walk lists and when it raises |
| PdfListing.NonStringNameFails | backend_connector/pdf_generator.py:78-92 | an object whose details hold a `product_name` that is not a string makes the bold name cell, and so the walk, raise |
| PdfListing.PrintChildren | backend_connector/pdf_generator.py:103-108 | the loop over a list of objects succeeds exactly when the specified walks do, appends their lines and carries the counter through them |
| PdfListing.LinesOfAppend | backend_connector/pdf_generator.py:71-104 | numbering the lines of two runs of visits one after the other continues the numbering |
| PdfListing.VisitIsNumberedPreorder | backend_connector/pdf_generator.py:71-104 | a walk raises exactly when its pre-order does; the counter advances once per visited object, line or not, and the `t`-th visited object is written with number `n + t + 1` |
| PdfListing.NumberStep | backend_connector/pdf_generator.py:72-104 | a visit's lines are its item line, its stack header when it has children, then its children's lines |
| PdfListing.VisitAllIsNumberedPreorder | backend_connector/pdf_generator.py:103-108 | the same numbered pre-order holds for a loop of walks |
| PdfListing.VisitReachesOnlyChildren | backend_connector/pdf_generator.py:100-104 | a walk starts at its object and every later visit is a child, one level deeper, of an earlier visit |
| PdfListing.RootStep | backend_connector/pdf_generator.py:100-104 | an object followed by walks from its children forms a walk rooted at that object |
| PdfListing.VisitAllReachesOnlyChildren | backend_connector/pdf_generator.py:103-108 | every object visited by a loop of walks is one of its objects or a child of an earlier visit |
| PdfListing.GrowStep | backend_connector/pdf_generator.py:103-108 | appending one more rooted walk keeps every visit grown from the loop's objects |
| PdfListing.VisitAllFailsOnMember | backend_connector/pdf_generator.py:103-108 | a loop containing an object whose walk always raises raises |
| PdfListing.SelfStackedObjectFails | backend_connector/pdf_generator.py:100-104 | an object whose `stack_level` is its own `id` recurses until the recursion limit, so the walk raises |
| PdfListing.PlacedOf | backend_connector/pdf_generator.py:46 | the placed objects are read only from a container that is a dict |
| PdfListing.ContainersPrefixFails | backend_connector/pdf_generator.py:40-110 | once one container raises, the whole listing raises |
| PdfListing.ContainersStep | backend_connector/pdf_generator.py:40-110 | one more container either makes the listing raise or appends its block |
| PdfListing.BuildObjectsMap | backend_connector/pdf_generator.py:36 | the comprehension builds the specified lookup map, or raises exactly when that is undefined |
| PdfListing.ObjectsMapPrefixFails | backend_connector/pdf_generator.py:36 | once one object cannot be filed, the comprehension raises |
| PdfListing.ListBody | backend_connector/pdf_generator.py:49-108 | after the header, the "no content" line or the walks from the bases with the counter from 0, exactly as specified |
| PdfListing.ListContainer | backend_connector/pdf_generator.py:40-110 | one pass writes the container header and title, then the body, exactly as specified |
| PdfListing.ListContainers | backend_connector/pdf_generator.py:40-110 | the container loop succeeds exactly when every container's lines are defined, and appends them in order |
| PdfListing.ContainersAdvance | backend_connector/pdf_generator.py:40-110 | one pass of the container loop either ends the listing with None or appends that container's lines |
| PdfListing.GeneratePackingListPdf | backend_connector/pdf_generator.py:18-118 | the lines written are the specified listing, and None exactly when some step raises, including a `product_name` that is not a string |
| PdfListing.PackingList | backend_connector/pdf_generator.py:18-118 | the whole listing, None when any step raises (a non-dict, an unhashable key, the recursion limit, a non-string product name); GeneratePackingListPdf computes it, and ListContainers, ContainerLinesShape, VisitIsNumberedPreorder and NonStringNameFails state its parts |
| PdfListing.ContainerLinesShape | backend_connector/pdf_generator.py:40-66 | a container's lines start with its header and title; one without placed objects gets only those and the "no content" line |
| AppListing.HeaderLine | backend_connector/app.py:35 | the container header is written exactly when the container is a dict with `sequence`, `instance_id` and `type` |
| AppListing.IdsOfValues | backend_connector/app.py:39 | the comprehension succeeds exactly when every placed object has an `id`, and then lists those ids one per object in order |
| AppListing.ObjectEntry | backend_connector/app.py:41-42 | a pass succeeds exactly on a dict with an `id` that, when placed, also has `product_name` and `quantity`; it writes the object's line when placed and nothing otherwise |
| AppListing.ObjectLinesDefined | backend_connector/app.py:40-42 | the object loop runs through exactly when every object's pass does |
| AppListing.ObjectLinesAreFilter | backend_connector/app.py:40-42 | the object lines are exactly those of the placed objects, in the order of the order's object list and not of the placement |
| AppListing.FilterPrefix | backend_connector/app.py:40-42 | the lines of a prefix of the object list are the placed objects of that prefix, in order |
| AppListing.FilterStep | backend_connector/app.py:41-42 | one more pass adds the object's line exactly when it is placed |
| AppListing.ContainerBlockShape | backend_connector/app.py:35-43 | a container's block starts with its header and the rule and ends with a blank line |
| AppListing.ContainersStep | backend_connector/app.py:34-43 | one more container either ends the text with its exception or appends its block |
| AppListing.ContainerAppended | backend_connector/app.py:34-43 | the container's own block decides: its exception ends the listing, its lines are appended |
| AppListing.ContainersPrefixRaises | backend_connector/app.py:34-43 | once one container raises, the listing is that exception |
| AppListing.PackingListHead | backend_connector/app.py:30-32 | the text opens with the order line, its id defaulting to "Unbekannt", then the rule and a blank line |
| AppListing.NoContainersNoBlocks | backend_connector/app.py:30-43 | without containers the text is the three opening lines alone |
| AppListing.EmptyContainerReadsIds | backend_connector/app.py:39-42 | with no placed ids every object's `id` is still read, and no object line is written |
| AppListing.CollectIds | backend_connector/app.py:39 | the loop computes the comprehension's ids, or raises as it does |
| AppListing.IdsPrefixRaises | backend_connector/app.py:39 | once one placed object has no `id`, the comprehension raises that KeyError |
| AppListing.IsMember | backend_connector/app.py:41 | the scan finds the id exactly when some placed id is `==` to it, numbers by value and lists and dicts item by item |
| AppListing.ListObjects | backend_connector/app.py:40-42 | the loop writes the specified object lines after what is already written, or raises as specified |
| AppListing.ObjectStep | backend_connector/app.py:40-42 | one pass either ends the loop with its exception or extends the lines by its own |
| AppListing.ObjectsPrefixRaises | backend_connector/app.py:40-42 | once one pass raises, the object loop is that exception |
| AppListing.ListContainer | backend_connector/app.py:35-43 | one pass writes the specified block after what is already written |
| AppListing.ListContainers | backend_connector/app.py:34-43 | the container loop writes the specified blocks in order, or the first exception |
| AppListing.GeneratePackingList | backend_connector/app.py:20-48 | the buffer's lines are the specified text, or the exception that ends the function |
| AppListing.PackingList | backend_connector/app.py:20-48 | the whole text; GeneratePackingList computes it, and PackingListHead, ContainersStep and ObjectLinesAreFilter state its parts |

## Left out

- Floating point. Every Python `float` and JavaScript number is a `real`, so rounding and overflow are not modelled. `math.pi` is the constant 3.141592653589793. Square roots are replaced by comparisons of squares.
- Number parsing. `float()` and `int()` accept only plain decimal text (optional sign, digits, one optional dot). Exponents, `inf`, `nan`, underscores and surrounding whitespace are not parsed. `str()` of a non-integral float or of a container is an opaque placeholder text, because only equality of such texts matters here.
- File and network I/O. The `open`/`json.load` of both order parsers becomes an `Option<Json>` argument, with `None` standing for a missing or undecodable file. `exportOrderJSONToFile` of Frontend_Eingabe/src/createJSON.js, with its `fetch` and redirect, is not modelled.
- The clocks. `new Date()` in `generateOrderJSON` is the argument `now`. The `time.time()` check of both `loese_problem` variants is the argument `timeoutAt`, the candidate at which it fires, and every property holds for any value of it.
- Randomness and the Metropolis test. `random.uniform`, `random.randrange` and the comparison `random() < exp(delta / T)` in `try_mutation` are arguments, so `math.exp` does not appear.
- Plotting and animation. All matplotlib code, `show_solution` and the module-level random start layout and animation loop of backend/2d_shape_optimization.py are not modelled. They only draw.
- The genetic search. The `optimize` methods that call the `geneticalgorithm` library are foreign code and are not modelled. Only the objective `f` they minimise is.
- The `Circle` class of backend/algorithm.py is not modelled, because `TwoDimensionalArea` only ever handles rectangles.
- CenterPacking.PrepackLayout: the input shapes carry no position, so the `{**o, "x": ..., "y": ...}` override of an existing position is not modelled.
- RectArea.OptimizeSolution: the separate `shapes` argument is taken to be the area's own `rectangles`, and a position list shorter than it is excluded by `requires`. The source raises IndexError there.
- CircleArea.OptimizeSolution: the same as for RectArea.OptimizeSolution, with the area's own `shapes`.
- Objects become packer records, not `Objekt` instances:
  - JsonParser.ParseOrder returns the constructor arguments of each `Objekt`. The call itself is left out, because backend/src/json_parser.py refers to an `Objekt` it never imports.
  - StackSolver.StapelOptimierer.StapelZuObjektenAggregieren returns records with a weight field. The `Objekt` constructor call at backend/src/make_3d_to_2d_problem.py:263 passes five arguments where backend/src/three_dimensional.py:6 takes four.
- LegacyStackSolver.StapelOptimierer.LoeseProblem: its stacks are not proved disjoint, because the older reconstruction does not check availability and objects can appear in two stacks. If a successor chain would cycle, the Python loop never ends. The model returns `None` there.
- StackSolver.WalkAsWritten follows as many successors as its `fuel` argument allows. With positive heights, fuel beyond the number of steps under `max_hoehe` changes nothing.
- Python iterates the set `verbleibende_objekte` in hash order. The model uses ascending index order, and no property depends on the order.
- PdfListing.GeneratePackingListPdf stands for Python's recursion limit with `maxLevels`, the number of nested calls that still fit. It does not model the FPDF page header, footer, fonts or the latin-1 encoding of the output.
- The Flask routes, BytesIO handling, `buffer.seek`, `send_file`, the file write of app.py and the stubbed `run_optimization_algorithm` are not modelled. They are HTTP plumbing.
- `print` and verbose output are not modelled.
- Python's list `in` compares by `==`, and `PyJson.PyEq` models that for decoded JSON values, lists and dicts item by item. Identity shortcuts (`is`) are left out, because values decoded from JSON cannot be told apart by them.
- PyJson.LowerString lower-cases only `A`-`Z`. Python's `str.lower()` also maps other letters (`Ä` to `ä`) and can change a string's length (`İ`). No outcome of the model changes, because the lower-cased forms are only compared with the ASCII names `quader`, `rectangle`, `rect`, `box`, `zylinder` and `cylinder`.
- JavaScript inputs of `generateOrderJSON` that are neither numbers nor `undefined` (strings from form fields, `null`) are left out. The form binds numeric fields.
- backend/src/main.py and algo/algorithm.py are not part of this model. The first is a driver script for methods the parser does not define, and the second is an unfinished prototype.
- The React/three.js viewer and the Vue form state of the front end are not part of this model, because they only render.

## Findings

| source | as written | input that shows it | evidently intended | confidence | as-written member | corrected member |
|---|---|---|---|---|---|---|
| backend/src/make_3d_to_2d_problem.py:154-175 | the walk checks `akt_knoten in verbleibende_objekte`, but objects are only discarded after the stack is finished, so an object already in the current stack counts as available | two boxes of footprint 1 and height 1 with `max_hoehe` 10: each is the other's DP successor, and the stack from object 0 becomes 0, 1, 0, 1, ... with each object placed five times | no object appears twice in a stack, as the comment at line 166 says | not executed | StackSolver.WalkAsWrittenRepeatsObjects | StackSolver.StapelOptimierer.BaueStapel |
| backend/make_3d_to_2d_problem.py:122-136 | the candidate count `anzahl_j + 1` already includes the base, and the stored entry adds the base again (`1 + anzahl_folgestapel`, `unten.hoehe + hoehe_folgestapel`) | a 2 x 2 box carrying a 1 x 1 box, both of height 1: the DP stores count 3 and height 3 for a stack of two objects of total height 2 | the entry counts the base once, as in backend/src/make_3d_to_2d_problem.py | not executed | LegacyStackSolver.LegacyCountsBaseTwice | StackSolver.DpEntryFacts |
