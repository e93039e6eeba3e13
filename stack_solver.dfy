/**
 * `StapelOptimierer` of backend/src/make_3d_to_2d_problem.py: the support graph over the
 * objects (by footprint only), the DP over the objects sorted by footprint, the greedy
 * choice of at most twelve stacks ranked by count per footprint, and the aggregation of
 * each stack into one virtual object. Objects are identified by their index in `objekte`.
 */
module StackSolver {
  import opened Wrappers
  import opened Solids
  import opened StackDp
  import opened Sorting
  import Decimal

  /** `TOP_K_BASEN`. */
  const TopKBasen: nat := 12

  predicate StrictlyIncreasing(s: seq<nat>) {
    forall i, j :: 0 <= i < j < |s| ==> s[i] < s[j]
  }

  /**
   * The graph `erzeuge_graphen` builds: `graph[u]` lists, in increasing order (the order
   * networkx returns successors in), exactly the other objects `u` can carry.
   */
  ghost predicate IsSupportGraph(objekte: seq<Objekt>, graph: seq<seq<nat>>) {
    |graph| == |objekte| &&
    forall u :: 0 <= u < |graph| ==>
      StrictlyIncreasing(graph[u]) &&
      (forall k :: 0 <= k < |graph[u]| ==>
        graph[u][k] < |objekte| && graph[u][k] != u && CanSupport(objekte[u], objekte[graph[u][k]])) &&
      (forall v :: 0 <= v < |objekte| && v != u && CanSupport(objekte[u], objekte[v]) ==> v in graph[u])
  }

  function AreaKey(objekte: seq<Objekt>): nat -> real {
    (v: nat) => if v < |objekte| then objekte[v].grundflaeche else 0.0
  }

  /** `objekte_sortiert`: the indices by footprint, largest first, ties in input order. */
  function AreaOrder(objekte: seq<Objekt>): seq<nat> {
    SortBy(Range(|objekte|), ByKeyDesc<nat>(AreaKey(objekte)))
  }

  /** The DP dictionary before the loop: every object alone, `(1, hoehe, None)`. */
  function Initial(objekte: seq<Objekt>): (r: seq<Entry>)
    ensures |r| == |objekte|
    ensures forall v :: 0 <= v < |objekte| ==> r[v] == Entry(1, objekte[v].hoehe, None)
  {
    seq(|objekte|, (v: int) requires 0 <= v < |objekte| => Entry(1, objekte[v].hoehe, None))
  }

  /**
   * The dictionary `finde_optimale_stapel` returns: the entry of the object at position
   * `k` of `AreaOrder` is the inner loop's best, started from `(1, hoehe, None)`, over
   * the table as it stood when that object was processed.
   */
  ghost predicate IsDpTable(objekte: seq<Objekt>, maxH: real, graph: seq<seq<nat>>, table: seq<Entry>) {
    IsSupportGraph(objekte, graph) && |table| == |objekte| &&
    var order := AreaOrder(objekte);
    forall k :: 0 <= k < |order| && order[k] < |table| ==>
      var u := order[k];
      var h := objekte[u].hoehe;
      table[u] == ScanBest(Entry(1, h, None), h, maxH, graph[u], SeenTable(order, k, table, Initial(objekte)))
  }

  /**
   * The state of the DP loop after processing positions `i ..` of `order`: those objects
   * hold their final entries over the table they saw, all others still hold their
   * initial ones.
   */
  ghost predicate DpSuffix(objekte: seq<Objekt>, maxH: real, graph: seq<seq<nat>>, order: seq<nat>,
                           table: seq<Entry>, i: nat)
  {
    IsSupportGraph(objekte, graph) && |table| == |objekte| && i <= |order| &&
    IsPermutationOfRange(order, |objekte|) &&
    (forall v :: 0 <= v < |table| && v !in order[i..] ==> table[v] == Initial(objekte)[v]) &&
    forall k :: i <= k < |order| ==>
      var u := order[k];
      var h := objekte[u].hoehe;
      table[u] == ScanBest(Entry(1, h, None), h, maxH, graph[u], SeenTable(order, k, table, Initial(objekte)))
  }

  /** Processing position `i` of the order, with the table as it stands, extends the state by one. */
  lemma DpStep(objekte: seq<Objekt>, maxH: real, graph: seq<seq<nat>>, order: seq<nat>,
               table: seq<Entry>, i: nat)
    requires i < |order| && DpSuffix(objekte, maxH, graph, order, table, i + 1)
    ensures InTable(graph[order[i]], table)
    ensures var u := order[i];
      var h := objekte[u].hoehe;
      DpSuffix(objekte, maxH, graph, order, table[u := ScanBest(Entry(1, h, None), h, maxH, graph[u], table)], i)
  {
    var n := |objekte|;
    var initial := Initial(objekte);
    var u := order[i];
    var h := objekte[u].hoehe;
    var entry := ScanBest(Entry(1, h, None), h, maxH, graph[u], table);
    NotLater(order, n, i, i);
    SeenTableIsCurrent(order, i, table, initial, entry);
    var t := table[u := entry];
    LaterEntriesKept(objekte, maxH, graph, order, table, i, entry);
    forall v | 0 <= v < n && v !in order[i..] ensures t[v] == initial[v] {
      assert v != u;
      assert order[i + 1..] == order[i..][1..];
    }
  }

  /** Overwriting the entry at position `i` leaves every later position's entry final over the table it saw. */
  lemma LaterEntriesKept(objekte: seq<Objekt>, maxH: real, graph: seq<seq<nat>>, order: seq<nat>,
                         table: seq<Entry>, i: nat, entry: Entry)
    requires i < |order| && DpSuffix(objekte, maxH, graph, order, table, i + 1)
    ensures forall k :: i < k < |order| ==>
      var w := order[k];
      var t := table[order[i] := entry];
      t[w] == ScanBest(Entry(1, objekte[w].hoehe, None), objekte[w].hoehe, maxH, graph[w], SeenTable(order, k, t, Initial(objekte)))
  {
    var n := |objekte|;
    forall k | i < k < n
      ensures var w := order[k];
        var t := table[order[i] := entry];
        t[w] == ScanBest(Entry(1, objekte[w].hoehe, None), objekte[w].hoehe, maxH, graph[w], SeenTable(order, k, t, Initial(objekte)))
    {
      NotLater(order, n, k, i);
      SeenTableFrame(order, k, table, Initial(objekte), order[i], entry);
      assert order[k] != order[i];
    }
  }

  lemma AreaOrderFacts(objekte: seq<Objekt>)
    ensures IsPermutationOfRange(AreaOrder(objekte), |objekte|)
    ensures forall v: nat :: v < |objekte| ==> v in AreaOrder(objekte)
    ensures SortedBy(AreaOrder(objekte), ByKeyDesc<nat>(AreaKey(objekte)))
  {
    SortedRangeIsPermutation(|objekte|, ByKeyDesc<nat>(AreaKey(objekte)));
    ByKeyDescIsPreorder(AreaKey(objekte));
    SortBySorted(Range(|objekte|), ByKeyDesc<nat>(AreaKey(objekte)));
  }

  /** Position `k` of the area order holds `u`, so `u` is not among the later positions. */
  lemma NotLater(order: seq<nat>, n: nat, k: nat, m: nat)
    requires IsPermutationOfRange(order, n) && m <= k < n
    ensures order[m] !in order[k + 1..]
  {
    var later := order[k + 1..];
    forall j | 0 <= j < |later| ensures later[j] != order[m] {
      assert later[j] == order[k + 1 + j];
    }
  }

  /** Where the DP entry of `u` comes from: its position `k` in the area order. */
  lemma DpEntryAt(objekte: seq<Objekt>, maxH: real, graph: seq<seq<nat>>, table: seq<Entry>, u: nat)
    returns (k: nat)
    requires IsDpTable(objekte, maxH, graph, table) && u < |objekte|
    ensures k < |objekte| && AreaOrder(objekte)[k] == u
    ensures table[u] == ScanBest(Entry(1, objekte[u].hoehe, None), objekte[u].hoehe, maxH, graph[u],
                                  SeenTable(AreaOrder(objekte), k, table, Initial(objekte)))
  {
    var order := AreaOrder(objekte);
    AreaOrderFacts(objekte);
    assert u in order;
    k :| 0 <= k < |order| && order[k] == u;
  }

  /** Every count in the DP table is at least one. */
  lemma DpCountsPositive(objekte: seq<Objekt>, maxH: real, graph: seq<seq<nat>>, table: seq<Entry>)
    requires IsDpTable(objekte, maxH, graph, table)
    ensures forall v :: 0 <= v < |table| ==> table[v].anzahl >= 1
  {
    forall v | 0 <= v < |table| ensures table[v].anzahl >= 1 {
      var k := DpEntryAt(objekte, maxH, graph, table, v);
      var h := objekte[v].hoehe;
      var seen := SeenTable(AreaOrder(objekte), k, table, Initial(objekte));
      var p := ScanBestIsFirstMaximum(Entry(1, h, None), h, maxH, graph[v], seen);
    }
  }

  /** An object with a strictly smaller footprint than `u` was processed before `u`. */
  lemma SmallerIsFinal(objekte: seq<Objekt>, table: seq<Entry>, initial: seq<Entry>, k: nat, u: nat, v: nat)
    requires |table| == |objekte| == |initial| && k < |objekte| && u < |objekte| && v < |objekte|
    requires AreaOrder(objekte)[k] == u
    requires objekte[v].grundflaeche < objekte[u].grundflaeche
    ensures SeenTable(AreaOrder(objekte), k, table, initial)[v] == table[v]
  {
    var order := AreaOrder(objekte);
    AreaOrderFacts(objekte);
    assert v in order;
    var m :| 0 <= m < |order| && order[m] == v;
    assert k < m;
    assert order[k + 1..][m - k - 1] == v;
  }

  /**
   * The facts the DP table guarantees for every object `u`: a count of at least one; no
   * successor exactly when no neighbour's stack (as seen then) fits on top, and then the
   * entry is `(1, hoehe, None)`; otherwise the successor is a neighbour `u` can carry,
   * the count is one more than the successor's, and the stored height is `u`'s height plus
   * the successor's stored height, which is within `max_hoehe`. The table `u` saw holds
   * the final entry of every object with a smaller footprint.
   */
  lemma DpEntryFacts(objekte: seq<Objekt>, maxH: real, graph: seq<seq<nat>>, table: seq<Entry>, u: nat)
    returns (seen: seq<Entry>)
    requires IsDpTable(objekte, maxH, graph, table) && u < |objekte|
    ensures |seen| == |table| && InTable(graph[u], seen)
    ensures table[u].anzahl >= 1
    ensures table[u].nachfolger.None? <==>
      forall j :: 0 <= j < |graph[u]| ==> !Feasible(objekte[u].hoehe, maxH, seen[graph[u][j]])
    ensures table[u].nachfolger.None? ==> table[u] == Entry(1, objekte[u].hoehe, None)
    ensures table[u].nachfolger.Some? ==>
      var v := table[u].nachfolger.value;
      v < |objekte| && v in graph[u] && v != u && CanSupport(objekte[u], objekte[v]) &&
      table[u].anzahl == seen[v].anzahl + 1 &&
      table[u].hoehe == objekte[u].hoehe + seen[v].hoehe && table[u].hoehe <= maxH
    ensures forall v :: 0 <= v < |table| && objekte[v].grundflaeche < objekte[u].grundflaeche ==> seen[v] == table[v]
  {
    var k := DpEntryAt(objekte, maxH, graph, table, u);
    seen := SeenTable(AreaOrder(objekte), k, table, Initial(objekte));
    DpCountsPositive(objekte, maxH, graph, table);
    assert forall v :: 0 <= v < |seen| ==> seen[v].anzahl >= 1;
    ScanBestFromAlone(objekte[u].hoehe, maxH, graph[u], seen);
    forall v | 0 <= v < |table| && objekte[v].grundflaeche < objekte[u].grundflaeche
      ensures seen[v] == table[v]
    {
      SmallerIsFinal(objekte, table, Initial(objekte), k, u, v);
    }
  }

  /** Every successor in the table is an object index. */
  lemma DpSuccessorsInRange(objekte: seq<Objekt>, maxH: real, graph: seq<seq<nat>>, table: seq<Entry>)
    requires IsDpTable(objekte, maxH, graph, table)
    ensures forall u :: 0 <= u < |table| && table[u].nachfolger.Some? ==> table[u].nachfolger.value < |table|
  {
    forall u | 0 <= u < |table| && table[u].nachfolger.Some? ensures table[u].nachfolger.value < |table| {
      var seen := DpEntryFacts(objekte, maxH, graph, table, u);
    }
  }

  /** The solution `loese_problem` returns: the stacks bottom-up, and the summed base footprint. */
  datatype Loesung = Loesung(stapel: seq<seq<nat>>, gesamtGrundflaeche: real)

  function Min(a: nat, b: nat): nat {
    if a <= b then a else b
  }

  /** All stacks one after the other. */
  function Concat(ss: seq<seq<nat>>): seq<nat> {
    if ss == [] then [] else Concat(ss[..|ss| - 1]) + ss[|ss| - 1]
  }

  /** The set of a stack's members, `set(stapel)`. */
  function Members(s: seq<nat>): set<nat> {
    set x | x in s
  }

  lemma MembersAppend(s: seq<nat>, v: nat)
    ensures Members(s + [v]) == Members(s) + {v}
  {
  }

  /** `for obj in aktueller_stapel: verbleibende_objekte.discard(obj)`: every member of the stack leaves the set. */
  method DiscardAll(verbleibend: set<nat>, s: seq<nat>) returns (rest: set<nat>)
    ensures rest == verbleibend - Members(s)
  {
    rest := verbleibend;
    var p := 0;
    while p < |s|
      invariant 0 <= p <= |s|
      invariant rest == verbleibend - Members(s[..p])
    {
      assert s[..p + 1] == s[..p] + [s[p]];
      MembersAppend(s[..p], s[p]);
      rest := rest - {s[p]};
      p := p + 1;
    }
    assert s[..|s|] == s;
  }

  lemma MembersOfRange(n: nat)
    ensures forall v: nat :: v in Members(Range(n)) <==> v < n
  {
    forall v: nat ensures v in Members(Range(n)) <==> v < n {
      if v < n {
        assert Range(n)[v] == v;
      }
    }
  }

  predicate NoRepeats(s: seq<nat>) {
    forall i, j :: 0 <= i < j < |s| ==> s[i] != s[j]
  }

  function HoeheOf(objekte: seq<Objekt>, v: nat): real {
    if v < |objekte| then objekte[v].hoehe else 0.0
  }

  /** The height of a stack: the sum of its members' heights. */
  function SumHoehe(objekte: seq<Objekt>, s: seq<nat>): real {
    if s == [] then 0.0 else SumHoehe(objekte, s[..|s| - 1]) + HoeheOf(objekte, s[|s| - 1])
  }

  lemma SumHoeheAppend(objekte: seq<Objekt>, s: seq<nat>, v: nat)
    ensures SumHoehe(objekte, s + [v]) == SumHoehe(objekte, s) + HoeheOf(objekte, v)
  {
    assert (s + [v])[..|s|] == s;
  }

  function BaseArea(objekte: seq<Objekt>, s: seq<nat>): real {
    if s != [] && s[0] < |objekte| then objekte[s[0]].grundflaeche else 0.0
  }

  /** `gesamt_grundflaeche`: the footprints of the stacks' bases, summed. */
  function SumBaseAreas(objekte: seq<Objekt>, ss: seq<seq<nat>>): real {
    if ss == [] then 0.0 else SumBaseAreas(objekte, ss[..|ss| - 1]) + BaseArea(objekte, ss[|ss| - 1])
  }

  /** Appending a stack adds its base footprint to the sum. */
  lemma SumBaseAreasAppend(objekte: seq<Objekt>, ss: seq<seq<nat>>, s: seq<nat>)
    ensures SumBaseAreas(objekte, ss + [s]) == SumBaseAreas(objekte, ss) + BaseArea(objekte, s)
  {
    assert (ss + [s])[..|ss|] == ss;
  }

  /** Each member of the stack is the DP successor of the one below it. */
  predicate FollowsChain(table: seq<Entry>, s: seq<nat>) {
    forall p :: 0 <= p < |s| - 1 ==> s[p] < |table| && table[s[p]].nachfolger == Some(s[p + 1])
  }

  /** The stacks split the objects `0 .. n-1`: none empty, each object in exactly one place. */
  ghost predicate IsPartition(ss: seq<seq<nat>>, n: nat) {
    (forall i :: 0 <= i < |ss| ==> ss[i] != []) &&
    NoRepeats(Concat(ss)) &&
    (forall p :: 0 <= p < |Concat(ss)| ==> Concat(ss)[p] < n) &&
    (forall v: nat :: v < n ==> v in Concat(ss))
  }

  /** The state of `loese_problem` between stacks: what is placed and what remains. */
  ghost predicate Placed(objekte: seq<Objekt>, maxH: real, ss: seq<seq<nat>>, remaining: set<nat>) {
    (forall i :: 0 <= i < |ss| ==> ss[i] != [] && (SumHoehe(objekte, ss[i]) <= maxH || |ss[i]| == 1)) &&
    NoRepeats(Concat(ss)) &&
    (forall p :: 0 <= p < |Concat(ss)| ==> Concat(ss)[p] < |objekte| && Concat(ss)[p] !in remaining) &&
    (forall v: nat :: v < |objekte| && v !in remaining ==> v in Concat(ss)) &&
    (forall v :: v in remaining ==> v < |objekte|)
  }

  /**
   * The stacks `alle` holds beyond `stapel`: singletons of objects of `verbleibend` below
   * `v`, in increasing index order.
   */
  ghost predicate SingletonsAfter(stapel: seq<seq<nat>>, alle: seq<seq<nat>>, verbleibend: set<nat>, v: nat) {
    |stapel| <= |alle| && alle[..|stapel|] == stapel &&
    (forall i :: |stapel| <= i < |alle| ==> |alle[i]| == 1 && alle[i][0] < v && alle[i][0] in verbleibend) &&
    (forall i, j :: |stapel| <= i < j < |alle| ==> alle[i][0] < alle[j][0])
  }

  /** Appending the singleton of the next object `v` keeps the tail increasing. */
  lemma SingletonsAfterStep(stapel: seq<seq<nat>>, alle: seq<seq<nat>>, verbleibend: set<nat>, v: nat,
                            alle': seq<seq<nat>>)
    requires SingletonsAfter(stapel, alle, verbleibend, v)
    requires alle' == alle + [[v]] && v in verbleibend
    ensures SingletonsAfter(stapel, alle', verbleibend, v + 1)
  {
    assert alle'[..|alle|] == alle;
    assert alle'[..|stapel|] == alle[..|stapel|];
  }

  /** Placing a stack of distinct remaining objects and discarding them keeps the state sound. */
  lemma PlacedAppend(objekte: seq<Objekt>, maxH: real, ss: seq<seq<nat>>, remaining: set<nat>, s: seq<nat>)
    requires Placed(objekte, maxH, ss, remaining)
    requires s != [] && NoRepeats(s) && (SumHoehe(objekte, s) <= maxH || |s| == 1)
    requires forall p :: 0 <= p < |s| ==> s[p] in remaining
    ensures Placed(objekte, maxH, ss + [s], remaining - Members(s))
  {
    var ss' := ss + [s];
    assert ss'[..|ss|] == ss;
    var c := Concat(ss');
    assert c == Concat(ss) + s;
    forall i, j | 0 <= i < j < |c| ensures c[i] != c[j] {
      if j >= |Concat(ss)| && i < |Concat(ss)| {
        assert c[j] == s[j - |Concat(ss)|];
      } else if i >= |Concat(ss)| {
        assert c[i] == s[i - |Concat(ss)|] && c[j] == s[j - |Concat(ss)|];
      }
    }
    forall v: nat | v < |objekte| && v !in remaining - Members(s) ensures v in c {
      if v in remaining {
        assert v in s;
      }
    }
  }

  lemma PlacedAllIsPartition(objekte: seq<Objekt>, maxH: real, ss: seq<seq<nat>>)
    requires Placed(objekte, maxH, ss, {})
    ensures IsPartition(ss, |objekte|)
  {
  }

  lemma CandidatesInRange(objekte: seq<Objekt>, table: seq<Entry>)
    ensures |Candidates(objekte, table)| == |objekte|
    ensures forall i :: 0 <= i < |objekte| ==> Candidates(objekte, table)[i] < |objekte|
  {
    var c := Candidates(objekte, table);
    AreaOrderFacts(objekte);
    assert multiset(c) == multiset(AreaOrder(objekte));
    forall i | 0 <= i < |objekte| ensures c[i] < |objekte| {
      assert c[i] in multiset(AreaOrder(objekte));
      assert c[i] in AreaOrder(objekte);
    }
  }

  function RatioKey(objekte: seq<Objekt>, table: seq<Entry>): nat -> real {
    (v: nat) =>
      if v < |objekte| && v < |table| && objekte[v].grundflaeche != 0.0
      then table[v].anzahl as real / objekte[v].grundflaeche else 0.0
  }

  /** `basis_kandidaten_sortiert`: the DP keys (area order) by count per footprint, largest first. */
  function Candidates(objekte: seq<Objekt>, table: seq<Entry>): seq<nat> {
    SortBy(AreaOrder(objekte), ByKeyDesc<nat>(RatioKey(objekte, table)))
  }

  predicate AllQuader(s: seq<Objekt>) {
    forall p :: 0 <= p < |s| ==> s[p].form.Quader?
  }

  predicate AllZylinder(s: seq<Objekt>) {
    forall p :: 0 <= p < |s| ==> s[p].form.Zylinder?
  }

  /**
   * What a member adds to the enclosing box of a mixed stack along one side (`laenge`
   * when `alongLaenge`, else `breite`): a box its own side, a cylinder its diameter.
   * Members of any other form are skipped.
   */
  function Side(o: Objekt, alongLaenge: bool): real {
    match o.form
    case Quader(l, b) => if alongLaenge then l else b
    case Zylinder(r) => 2.0 * r
    case Sonstige(_) => 0.0
  }

  /** `m` is `max(0, ...)` of the sides the members contribute. */
  ghost predicate IsMaxSide(m: real, s: seq<Objekt>, alongLaenge: bool) {
    m >= 0.0 &&
    (forall p :: 0 <= p < |s| && !s[p].form.Sonstige? ==> Side(s[p], alongLaenge) <= m) &&
    (m == 0.0 || exists p :: 0 <= p < |s| && !s[p].form.Sonstige? && Side(s[p], alongLaenge) == m)
  }

  function SumHoehen(s: seq<Objekt>): real {
    if s == [] then 0.0 else SumHoehen(s[..|s| - 1]) + s[|s| - 1].hoehe
  }

  function SumGewichte(s: seq<Objekt>): real {
    if s == [] then 0.0 else SumGewichte(s[..|s| - 1]) + s[|s| - 1].gewicht
  }

  function StapelName(i: nat): string {
    "Stapel_" + Decimal.NatToString(i + 1)
  }

  /**
   * The virtual object for stack number `i` (from 0): named `Stapel_{i+1}`, with the summed
   * height and weight; a stack of boxes only or of cylinders only keeps its base's form,
   * dimensions and footprint, any other stack becomes the box enclosing all members.
   */
  ghost predicate IsAggregate(i: nat, s: seq<Objekt>, o: Objekt)
    requires s != []
  {
    o.name == StapelName(i) && o.hoehe == SumHoehen(s) && o.gewicht == SumGewichte(s) &&
    (AllQuader(s) || AllZylinder(s) ==> o.form == s[0].form && o.grundflaeche == s[0].grundflaeche) &&
    (!(AllQuader(s) || AllZylinder(s)) ==>
      o.form.Quader? && IsMaxSide(o.form.laenge, s, true) && IsMaxSide(o.form.breite, s, false) &&
      o.grundflaeche == o.form.laenge * o.form.breite)
  }

  /** An aggregate's footprint matches its form whenever its base's does. */
  lemma AggregateMatchesForm(i: nat, s: seq<Objekt>, o: Objekt)
    requires s != [] && IsAggregate(i, s, o) && FootprintMatchesForm(s[0])
    ensures FootprintMatchesForm(o)
  {
  }

  /**
   * The enclosing box of a mixed stack is at least as large as every member's footprint,
   * when the members' footprints match their non-negative dimensions.
   */
  lemma {:induction false} MixedBoxCoversMembers(i: nat, s: seq<Objekt>, o: Objekt, p: nat)
    requires s != [] && IsAggregate(i, s, o) && !(AllQuader(s) || AllZylinder(s))
    requires p < |s| && FootprintMatchesForm(s[p]) && NonNegativeDims(s[p].form)
    ensures s[p].grundflaeche <= o.grundflaeche
  {
    var box := o.form;
    assert o.grundflaeche == Footprint(box);
    if s[p].form.Sonstige? {
      FootprintNonNegative(box);
    } else {
      assert Side(s[p], true) <= box.laenge && Side(s[p], false) <= box.breite;
      ShapeFitsBoundsFootprint(box, s[p].form);
    }
  }

  /**
   * The stack walk of `loese_problem` as the source writes it: a successor is taken when it
   * is still in `verbleibende_objekte` and fits under `max_hoehe`, but the members of the
   * stack being built are only discarded once the stack is finished. `fuel` bounds the
   * number of steps.
   */
  function WalkAsWritten(objekte: seq<Objekt>, maxH: real, table: seq<Entry>, verbleibend: set<nat>,
                         stapel: seq<nat>, hoehe: real, akt: Option<nat>, fuel: nat): seq<nat>
    decreases fuel
  {
    if fuel == 0 || akt.None? then stapel
    else
      var v := akt.value;
      if v < |objekte| && v < |table| && v in verbleibend && hoehe + objekte[v].hoehe <= maxH
      then WalkAsWritten(objekte, maxH, table, verbleibend, stapel + [v], hoehe + objekte[v].hoehe,
                         table[v].nachfolger, fuel - 1)
      else stapel
  }

  /**
   * The stack walk with the correction of ## Findings: from the stack `stapel` built so
   * far, of height `hoehe`, whose top has the DP successor `akt`, the successor is taken
   * while it is still available, not yet in this stack, and fits under `max_hoehe`.
   */
  function Walk(objekte: seq<Objekt>, maxH: real, table: seq<Entry>, verbleibend: set<nat>,
                stapel: seq<nat>, hoehe: real, akt: Option<nat>): (r: seq<nat>)
    ensures |stapel| <= |r| && r[..|stapel|] == stapel
    decreases verbleibend - Members(stapel)
  {
    if akt.None? then stapel
    else
      var v := akt.value;
      if v < |objekte| && v < |table| && v in verbleibend && v !in stapel && hoehe + objekte[v].hoehe <= maxH
      then
        MembersAppend(stapel, v);
        var r := Walk(objekte, maxH, table, verbleibend, stapel + [v], hoehe + objekte[v].hoehe, table[v].nachfolger);
        assert r[..|stapel|] == r[..|stapel| + 1][..|stapel|];
        r
      else stapel
  }

  /** One step of the walk: an available, new successor that fits is taken, and otherwise the walk ends. */
  lemma WalkStep(objekte: seq<Objekt>, maxH: real, table: seq<Entry>, verbleibend: set<nat>,
                 stapel: seq<nat>, hoehe: real, v: nat)
    requires v < |objekte| && v < |table|
    ensures v in verbleibend && v !in stapel && hoehe + objekte[v].hoehe <= maxH ==>
      Walk(objekte, maxH, table, verbleibend, stapel, hoehe, Some(v)) ==
      Walk(objekte, maxH, table, verbleibend, stapel + [v], hoehe + objekte[v].hoehe, table[v].nachfolger)
    ensures !(v in verbleibend && v !in stapel && hoehe + objekte[v].hoehe <= maxH) ==>
      Walk(objekte, maxH, table, verbleibend, stapel, hoehe, Some(v)) == stapel
  {
  }

  /**
   * The state of the stack walk from `basis`: a chain of distinct available objects
   * within the height limit, `akt` the top's successor, and the rest of the walk
   * ending where the walk from `basis` ends.
   */
  ghost predicate BuildState(objekte: seq<Objekt>, maxH: real, table: seq<Entry>, verbleibend: set<nat>,
                             basis: nat, stapel: seq<nat>, hoehe: real, akt: Option<nat>)
    requires |table| == |objekte| && basis < |objekte|
  {
    stapel != [] && stapel[0] == basis &&
    (forall p :: 0 <= p < |stapel| ==> stapel[p] in verbleibend && stapel[p] < |objekte|) &&
    NoRepeats(stapel) &&
    hoehe == SumHoehe(objekte, stapel) &&
    (hoehe <= maxH || |stapel| == 1) &&
    FollowsChain(table, stapel) &&
    akt == table[stapel[|stapel| - 1]].nachfolger &&
    Walk(objekte, maxH, table, verbleibend, stapel, hoehe, akt) ==
      Walk(objekte, maxH, table, verbleibend, [basis], objekte[basis].hoehe, table[basis].nachfolger)
  }

  /** The walk from `basis` starts from the stack `[basis]`. */
  lemma BuildStart(objekte: seq<Objekt>, maxH: real, table: seq<Entry>, verbleibend: set<nat>, basis: nat)
    requires |table| == |objekte| && basis < |objekte| && basis in verbleibend
    ensures BuildState(objekte, maxH, table, verbleibend, basis, [basis], objekte[basis].hoehe, table[basis].nachfolger)
  {
    assert SumHoehe(objekte, [basis]) == SumHoehe(objekte, []) + HoeheOf(objekte, basis);
  }

  /** Where the walk stops, the stack built is the walk's result and its top's successor cannot be taken. */
  lemma BuildEnd(objekte: seq<Objekt>, maxH: real, table: seq<Entry>, verbleibend: set<nat>,
                 basis: nat, stapel: seq<nat>, hoehe: real, akt: Option<nat>)
    requires |table| == |objekte| && basis < |objekte|
    requires BuildState(objekte, maxH, table, verbleibend, basis, stapel, hoehe, akt)
    requires akt.Some? ==> akt.value < |objekte|
    requires akt.Some? ==> !(akt.value in verbleibend && akt.value !in stapel && hoehe + objekte[akt.value].hoehe <= maxH)
    ensures stapel != [] && stapel[0] == basis
    ensures forall p :: 0 <= p < |stapel| ==> stapel[p] in verbleibend && stapel[p] < |objekte|
    ensures NoRepeats(stapel)
    ensures SumHoehe(objekte, stapel) <= maxH || |stapel| == 1
    ensures FollowsChain(table, stapel)
    ensures stapel == Walk(objekte, maxH, table, verbleibend, [basis], objekte[basis].hoehe, table[basis].nachfolger)
    ensures var next := table[stapel[|stapel| - 1]].nachfolger;
      next.None? || next.value !in verbleibend || next.value in stapel ||
      SumHoehe(objekte, stapel) + objekte[next.value].hoehe > maxH
  {
    if akt.Some? {
      WalkStep(objekte, maxH, table, verbleibend, stapel, hoehe, akt.value);
    }
  }

  /** Taking the successor `v` keeps the walk's state and leaves one object fewer to take. */
  lemma BuildStep(objekte: seq<Objekt>, maxH: real, table: seq<Entry>, verbleibend: set<nat>,
                  basis: nat, stapel: seq<nat>, hoehe: real, v: nat)
    requires |table| == |objekte| && basis < |objekte|
    requires BuildState(objekte, maxH, table, verbleibend, basis, stapel, hoehe, Some(v))
    requires v < |objekte| && v in verbleibend && v !in stapel && hoehe + objekte[v].hoehe <= maxH
    ensures BuildState(objekte, maxH, table, verbleibend, basis, stapel + [v], hoehe + objekte[v].hoehe, table[v].nachfolger)
    ensures verbleibend - Members(stapel + [v]) < verbleibend - Members(stapel)
  {
    SumHoeheAppend(objekte, stapel, v);
    MembersAppend(stapel, v);
    WalkStep(objekte, maxH, table, verbleibend, stapel, hoehe, v);
    assert v in verbleibend - Members(stapel);
  }

  /** The candidates the greedy loop reaches: those before position `timeoutAt`, where the timeout check fires. */
  function Reached(begrenzt: seq<nat>, timeoutAt: nat): (r: seq<nat>)
    ensures |r| <= |begrenzt| && |r| <= timeoutAt && r == begrenzt[..|r|]
    ensures |r| == |begrenzt| || |r| == timeoutAt
  {
    begrenzt[..Min(timeoutAt, |begrenzt|)]
  }

  /**
   * The stacks the greedy loop of `loese_problem` builds from the candidates `kandidaten`
   * in order, with `verbleibend` available: a candidate still available is the base of
   * the corrected walk from it, whose members are then no longer available; any other
   * candidate is skipped.
   */
  function GreedyStacks(objekte: seq<Objekt>, maxH: real, table: seq<Entry>, kandidaten: seq<nat>,
                        verbleibend: set<nat>): seq<seq<nat>>
    decreases |kandidaten|
  {
    if kandidaten == [] then []
    else
      var b := kandidaten[0];
      if b in verbleibend && b < |objekte| && b < |table| then
        var s := Walk(objekte, maxH, table, verbleibend, [b], objekte[b].hoehe, table[b].nachfolger);
        [s] + GreedyStacks(objekte, maxH, table, kandidaten[1..], verbleibend - Members(s))
      else GreedyStacks(objekte, maxH, table, kandidaten[1..], verbleibend)
  }

  /**
   * What the greedy stacks are made of: at most one per candidate, each non-empty with a
   * candidate as its base; and every candidate that is available when the loop starts
   * ends up in one of them, as a base or on top of an earlier base.
   */
  lemma {:induction false} GreedyStacksFacts(objekte: seq<Objekt>, maxH: real, table: seq<Entry>,
                                             kandidaten: seq<nat>, verbleibend: set<nat>)
    ensures var ss := GreedyStacks(objekte, maxH, table, kandidaten, verbleibend);
      |ss| <= |kandidaten| &&
      (forall i :: 0 <= i < |ss| ==> ss[i] != [] && ss[i][0] in kandidaten && ss[i][0] in verbleibend) &&
      (forall c :: c in kandidaten && c in verbleibend && c < |objekte| && c < |table| ==>
        exists i :: 0 <= i < |ss| && c in ss[i])
    decreases |kandidaten|
  {
    if kandidaten != [] {
      var ss := GreedyStacks(objekte, maxH, table, kandidaten, verbleibend);
      var b := kandidaten[0];
      var tail := kandidaten[1..];
      assert forall c :: c in kandidaten && c != b ==> c in tail;
      if b in verbleibend && b < |objekte| && b < |table| {
        var s := Walk(objekte, maxH, table, verbleibend, [b], objekte[b].hoehe, table[b].nachfolger);
        var rest := verbleibend - Members(s);
        GreedyStacksFacts(objekte, maxH, table, tail, rest);
        var rs := GreedyStacks(objekte, maxH, table, tail, rest);
        assert ss == [s] + rs;
        assert s[..1] == [b];
        assert s[0] == b && b in s;
        forall c | c in kandidaten && c in verbleibend && c < |objekte| && c < |table|
          ensures exists i :: 0 <= i < |ss| && c in ss[i]
        {
          if c in s {
            assert c in ss[0];
          } else {
            assert c != b && c in tail && c in rest;
            var i :| 0 <= i < |rs| && c in rs[i];
            assert ss[i + 1] == rs[i];
          }
        }
      } else {
        GreedyStacksFacts(objekte, maxH, table, tail, verbleibend);
      }
    }
  }

  /** With all objects available at the start, every reached candidate is in one of the greedy stacks. */
  lemma ReachedAllPlaced(objekte: seq<Objekt>, maxH: real, table: seq<Entry>, cut: seq<nat>,
                         alle: seq<seq<nat>>, greedy: nat)
    requires |table| == |objekte| && forall i :: 0 <= i < |cut| ==> cut[i] < |objekte|
    requires greedy <= |alle| && alle[..greedy] == GreedyStacks(objekte, maxH, table, cut, Members(Range(|objekte|)))
    ensures forall c :: c in cut ==> exists i :: 0 <= i < greedy && c in alle[i]
  {
    GreedyStacksFacts(objekte, maxH, table, cut, Members(Range(|objekte|)));
    MembersOfRange(|objekte|);
    forall c | c in cut ensures exists i :: 0 <= i < greedy && c in alle[i] {
      var i :| 0 <= i < greedy && c in alle[..greedy][i];
      assert alle[..greedy][i] == alle[i];
    }
  }

  /**
   * The greedy stacks `stapel` from the candidates `begrenzt`, followed by the leftover
   * singletons, form the solution: a partition whose first stacks are the greedy ones
   * and cover every reached candidate.
   */
  lemma SolutionFacts(objekte: seq<Objekt>, maxH: real, table: seq<Entry>, begrenzt: seq<nat>, timeoutAt: nat,
                      stapel: seq<seq<nat>>, alle: seq<seq<nat>>)
    requires |table| == |objekte| && forall i :: 0 <= i < |begrenzt| ==> begrenzt[i] < |objekte|
    requires forall i :: 0 <= i < |stapel| ==> stapel[i] != [] && stapel[i][0] in begrenzt && FollowsChain(table, stapel[i])
    requires stapel == GreedyStacks(objekte, maxH, table, Reached(begrenzt, timeoutAt), Members(Range(|objekte|)))
    requires Placed(objekte, maxH, alle, {})
    requires |stapel| <= |alle| && alle[..|stapel|] == stapel
    ensures IsPartition(alle, |objekte|)
    ensures forall i :: 0 <= i < |stapel| ==> alle[i][0] in begrenzt && FollowsChain(table, alle[i])
    ensures forall c :: c in Reached(begrenzt, timeoutAt) ==> exists i :: 0 <= i < |stapel| && c in alle[i]
  {
    PlacedAllIsPartition(objekte, maxH, alle);
    forall i | 0 <= i < |stapel| ensures alle[i] == stapel[i] {
      assert alle[..|stapel|][i] == alle[i];
    }
    ReachedAllPlaced(objekte, maxH, table, Reached(begrenzt, timeoutAt), alle, |stapel|);
  }

  /** One turn of the greedy loop at position `idx` of the reached candidates, after the stacks `pre`. */
  lemma GreedyStep(objekte: seq<Objekt>, maxH: real, table: seq<Entry>, cut: seq<nat>, idx: nat,
                   verbleibend: set<nat>, pre: seq<seq<nat>>, s: seq<nat>)
    requires idx < |cut| && cut[idx] < |objekte| && cut[idx] < |table|
    ensures var b := cut[idx];
      b in verbleibend && s == Walk(objekte, maxH, table, verbleibend, [b], objekte[b].hoehe, table[b].nachfolger) ==>
        pre + GreedyStacks(objekte, maxH, table, cut[idx..], verbleibend) ==
        (pre + [s]) + GreedyStacks(objekte, maxH, table, cut[idx + 1..], verbleibend - Members(s))
    ensures cut[idx] !in verbleibend ==>
      pre + GreedyStacks(objekte, maxH, table, cut[idx..], verbleibend) ==
      pre + GreedyStacks(objekte, maxH, table, cut[idx + 1..], verbleibend)
  {
    assert cut[idx..][0] == cut[idx] && cut[idx..][1..] == cut[idx + 1..];
  }

  /** Two objects with the same footprint keep their input order in the area order. */
  lemma {:induction false} AreaOrderOfEqualPair(objekte: seq<Objekt>)
    requires |objekte| == 2 && objekte[0].grundflaeche == objekte[1].grundflaeche
    ensures AreaOrder(objekte) == [0, 1]
  {
    assert Range(2) == [0, 1] by {
      assert Range(1) == [0];
    }
    var eins: seq<nat> := [1];
    assert SortBy(eins, ByKeyDesc<nat>(AreaKey(objekte))) == eins;
  }

  /** The DP table for two equal boxes of height 1 under limit 10: each carries the other. */
  lemma {:induction false} EqualPairDpTable(objekte: seq<Objekt>, table: seq<Entry>)
    requires |objekte| == 2
    requires objekte[0].grundflaeche == objekte[1].grundflaeche == 1.0
    requires objekte[0].hoehe == objekte[1].hoehe == 1.0
    requires table == [Entry(3, 3.0, Some(1)), Entry(2, 2.0, Some(0))]
    ensures IsDpTable(objekte, 10.0, [[1], [0]], table)
  {
    AreaOrderOfEqualPair(objekte);
    var order := AreaOrder(objekte);
    var graph: seq<seq<nat>> := [[1], [0]];
    var initial := Initial(objekte);
    assert IsSupportGraph(objekte, graph) by {
      assert CanSupport(objekte[0], objekte[1]) && CanSupport(objekte[1], objekte[0]);
    }
    EqualPairSeen(table, initial);
    assert initial == [Entry(1, 1.0, None), Entry(1, 1.0, None)];
    forall k | 0 <= k < |order| && order[k] < |table|
      ensures table[order[k]] == ScanBest(Entry(1, objekte[order[k]].hoehe, None), objekte[order[k]].hoehe, 10.0,
                                          graph[order[k]], SeenTable(order, k, table, initial))
    {
      if k == 0 {
        assert ScanBest(Entry(1, 1.0, None), 1.0, 10.0, [1], [Entry(1, 1.0, None), Entry(2, 2.0, Some(0))]) == table[0];
      } else {
        assert ScanBest(Entry(1, 1.0, None), 1.0, 10.0, [0], initial) == table[1];
      }
    }
  }

  /** The tables the two objects see: the second one processed sees the first's final entry, the first sees none. */
  lemma EqualPairSeen(table: seq<Entry>, initial: seq<Entry>)
    requires |table| == |initial| == 2
    ensures SeenTable([0, 1], 0, table, initial) == [initial[0], table[1]]
    ensures SeenTable([0, 1], 1, table, initial) == initial
  {
    var order: seq<nat> := [0, 1];
    assert order[1..] == [1] && order[2..] == [];
  }

  lemma {:induction false} EqualPairCandidates(objekte: seq<Objekt>, table: seq<Entry>)
    requires |objekte| == 2
    requires objekte[0].grundflaeche == objekte[1].grundflaeche == 1.0
    requires objekte[0].hoehe == objekte[1].hoehe == 1.0
    requires table == [Entry(3, 3.0, Some(1)), Entry(2, 2.0, Some(0))]
    ensures Candidates(objekte, table) == [0, 1]
  {
    AreaOrderOfEqualPair(objekte);
    var eins: seq<nat> := [1];
    assert SortBy(eins, ByKeyDesc<nat>(RatioKey(objekte, table))) == eins;
  }

  /** The walk as written over the two-box table, one step at a time from the end. */
  lemma {:induction false} EqualPairWalk(objekte: seq<Objekt>, table: seq<Entry>)
    requires |objekte| == 2
    requires objekte[0].grundflaeche == objekte[1].grundflaeche == 1.0
    requires objekte[0].hoehe == objekte[1].hoehe == 1.0
    requires table == [Entry(3, 3.0, Some(1)), Entry(2, 2.0, Some(0))]
    ensures WalkAsWritten(objekte, 10.0, table, {0, 1}, [0], 1.0, table[0].nachfolger, 20) == [0, 1, 0, 1, 0, 1, 0, 1, 0, 1]
    ensures !NoRepeats(WalkAsWritten(objekte, 10.0, table, {0, 1}, [0], 1.0, table[0].nachfolger, 20))
  {
    var rest := {0, 1};
    var full := [0, 1, 0, 1, 0, 1, 0, 1, 0, 1];
    assert WalkAsWritten(objekte, 10.0, table, rest, full, 10.0, Some(0), 11) == full;
    assert WalkAsWritten(objekte, 10.0, table, rest, full[..9], 9.0, Some(1), 12) == full;
    assert WalkAsWritten(objekte, 10.0, table, rest, full[..8], 8.0, Some(0), 13) == full;
    assert WalkAsWritten(objekte, 10.0, table, rest, full[..7], 7.0, Some(1), 14) == full;
    assert WalkAsWritten(objekte, 10.0, table, rest, full[..6], 6.0, Some(0), 15) == full;
    assert WalkAsWritten(objekte, 10.0, table, rest, full[..5], 5.0, Some(1), 16) == full;
    assert WalkAsWritten(objekte, 10.0, table, rest, full[..4], 4.0, Some(0), 17) == full;
    assert WalkAsWritten(objekte, 10.0, table, rest, full[..3], 3.0, Some(1), 18) == full;
    assert WalkAsWritten(objekte, 10.0, table, rest, full[..2], 2.0, Some(0), 19) == full;
    assert WalkAsWritten(objekte, 10.0, table, rest, full[..1], 1.0, Some(1), 20) == full;
    assert full[..1] == [0] && table[0].nachfolger == Some(1);
    assert full[0] == full[2];
  }

  /**
   * Two boxes of footprint 1 and height 1 under `max_hoehe` 10 carry each other: the DP
   * gives each the other as successor, object 0 is the best candidate, and the walk as
   * written builds the stack 0, 1, 0, 1, ... until the height limit, so both objects are
   * placed five times each.
   */
  lemma {:induction false} WalkAsWrittenRepeatsObjects(objekte: seq<Objekt>, table: seq<Entry>)
    requires |objekte| == 2
    requires objekte[0].grundflaeche == objekte[1].grundflaeche == 1.0
    requires objekte[0].hoehe == objekte[1].hoehe == 1.0
    requires table == [Entry(3, 3.0, Some(1)), Entry(2, 2.0, Some(0))]
    ensures IsDpTable(objekte, 10.0, [[1], [0]], table)
    ensures Candidates(objekte, table)[0] == 0
    ensures !NoRepeats(WalkAsWritten(objekte, 10.0, table, {0, 1}, [0], 1.0, table[0].nachfolger, 20))
  {
    EqualPairDpTable(objekte, table);
    EqualPairCandidates(objekte, table);
    EqualPairWalk(objekte, table);
  }

  /**
   * `row` is what the edges added so far leave as the successors of `u`: in increasing
   * order, the objects below `j` other than `u` that `u` can carry.
   */
  ghost predicate SupportRow(objekte: seq<Objekt>, u: nat, row: seq<nat>, j: nat)
    requires u < |objekte|
  {
    StrictlyIncreasing(row) &&
    (forall k :: 0 <= k < |row| ==> row[k] < j && row[k] < |objekte| && row[k] != u && CanSupport(objekte[u], objekte[row[k]])) &&
    (forall v :: 0 <= v < j && v < |objekte| && v != u && CanSupport(objekte[u], objekte[v]) ==> v in row)
  }

  /** The inner loop's test of object `j` extends the row by one position. */
  lemma SupportRowStep(objekte: seq<Objekt>, u: nat, row: seq<nat>, j: nat)
    requires u < |objekte| && j < |objekte| && SupportRow(objekte, u, row, j)
    ensures u != j && CanSupport(objekte[u], objekte[j]) ==> SupportRow(objekte, u, row + [j], j + 1)
    ensures !(u != j && CanSupport(objekte[u], objekte[j])) ==> SupportRow(objekte, u, row, j + 1)
  {
  }

  class StapelOptimierer {
    const objekte: seq<Objekt>
    const maxHoehe: real
    var graph: seq<seq<nat>>

    ghost predicate Valid()
      reads this
    {
      IsSupportGraph(objekte, graph)
    }

    constructor (objekte: seq<Objekt>, maxHoehe: real)
      ensures this.objekte == objekte && this.maxHoehe == maxHoehe
      ensures Valid()
    {
      this.objekte := objekte;
      this.maxHoehe := maxHoehe;
      graph := [];
      new;
      ErzeugeGraphen();
    }

    /** `erzeuge_graphen`: an edge `i -> j` for every ordered pair of distinct objects with `CanSupport`. */
    method ErzeugeGraphen()
      modifies this
      ensures Valid()
    {
      var n := |objekte|;
      graph := seq(n, (_: int) => []);
      var i := 0;
      while i < n
        invariant 0 <= i <= n && |graph| == n
        invariant forall u :: i <= u < n ==> graph[u] == []
        invariant forall u :: 0 <= u < i ==> SupportRow(objekte, u, graph[u], n)
      {
        var j := 0;
        while j < n
          invariant 0 <= j <= n && |graph| == n
          invariant forall u :: i < u < n ==> graph[u] == []
          invariant forall u :: 0 <= u < i ==> SupportRow(objekte, u, graph[u], n)
          invariant SupportRow(objekte, i, graph[i], j)
        {
          SupportRowStep(objekte, i, graph[i], j);
          if i != j && CanSupport(objekte[i], objekte[j]) {
            graph := graph[i := graph[i] + [j]];
          }
          j := j + 1;
        }
        i := i + 1;
      }
    }

    /** `finde_optimale_stapel`. */
    method FindeOptimaleStapel() returns (table: seq<Entry>)
      requires Valid()
      ensures IsDpTable(objekte, maxHoehe, graph, table)
    {
      var n := |objekte|;
      var order := SortBy(Range(n), ByKeyDesc<nat>(AreaKey(objekte)));
      AreaOrderFacts(objekte);
      table := Initial(objekte);
      var i := n;
      while i > 0
        invariant 0 <= i <= n
        invariant DpSuffix(objekte, maxHoehe, graph, order, table, i)
      {
        i := i - 1;
        var u := order[i];
        var h := objekte[u].hoehe;
        DpStep(objekte, maxHoehe, graph, order, table, i);
        var best := BestSuccessor(Entry(1, h, None), h, maxHoehe, graph[u], table);
        table := table[u := best];
      }
    }

    /**
     * One greedy stack from `basis` along the DP successors; the walk stops at the first
     * successor that is used up, already in this stack, or would exceed `max_hoehe`.
     */
    method BaueStapel(table: seq<Entry>, verbleibend: set<nat>, basis: nat) returns (stapel: seq<nat>)
      requires |table| == |objekte| && basis < |objekte| && basis in verbleibend
      requires forall u :: 0 <= u < |table| && table[u].nachfolger.Some? ==> table[u].nachfolger.value < |table|
      ensures stapel != [] && stapel[0] == basis
      ensures forall p :: 0 <= p < |stapel| ==> stapel[p] in verbleibend && stapel[p] < |objekte|
      ensures NoRepeats(stapel)
      ensures SumHoehe(objekte, stapel) <= maxHoehe || |stapel| == 1
      ensures FollowsChain(table, stapel)
      ensures stapel == Walk(objekte, maxHoehe, table, verbleibend, [basis], objekte[basis].hoehe, table[basis].nachfolger)
      ensures var next := table[stapel[|stapel| - 1]].nachfolger;
        next.None? || next.value !in verbleibend || next.value in stapel ||
        SumHoehe(objekte, stapel) + objekte[next.value].hoehe > maxHoehe
    {
      stapel := [basis];
      var hoehe := objekte[basis].hoehe;
      var akt := table[basis].nachfolger;
      BuildStart(objekte, maxHoehe, table, verbleibend, basis);
      while akt.Some?
        invariant BuildState(objekte, maxHoehe, table, verbleibend, basis, stapel, hoehe, akt)
        decreases verbleibend - Members(stapel)
      {
        var v := akt.value;
        WalkStep(objekte, maxHoehe, table, verbleibend, stapel, hoehe, v);
        if v in verbleibend && v !in stapel && hoehe + objekte[v].hoehe <= maxHoehe {
          BuildStep(objekte, maxHoehe, table, verbleibend, basis, stapel, hoehe, v);
          stapel := stapel + [v];
          hoehe := hoehe + objekte[v].hoehe;
          akt := table[v].nachfolger;
        } else {
          break;
        }
      }
      BuildEnd(objekte, maxHoehe, table, verbleibend, basis, stapel, hoehe, akt);
    }

    /**
     * The loop over the first `TOP_K_BASEN` candidates in `loese_problem`: a candidate
     * still available becomes the base of a stack, and the stack's members are discarded.
     * The loop stops at candidate `timeoutAt`, where the timeout check fires.
     */
    method GierigeAuswahl(tabelle: seq<Entry>, begrenzt: seq<nat>, timeoutAt: nat)
      returns (stapel: seq<seq<nat>>, verbleibend: set<nat>, gesamt: real)
      requires |tabelle| == |objekte|
      requires forall i :: 0 <= i < |begrenzt| ==> begrenzt[i] < |objekte|
      requires forall u :: 0 <= u < |tabelle| && tabelle[u].nachfolger.Some? ==> tabelle[u].nachfolger.value < |tabelle|
      ensures |stapel| <= |begrenzt|
      ensures Placed(objekte, maxHoehe, stapel, verbleibend)
      ensures forall i :: 0 <= i < |stapel| ==> stapel[i][0] in begrenzt && FollowsChain(tabelle, stapel[i])
      ensures gesamt == SumBaseAreas(objekte, stapel)
      ensures stapel == GreedyStacks(objekte, maxHoehe, tabelle, Reached(begrenzt, timeoutAt), Members(Range(|objekte|)))
    {
      verbleibend := Members(Range(|objekte|));
      MembersOfRange(|objekte|);
      stapel := [];
      gesamt := 0.0;
      ghost var cut := Reached(begrenzt, timeoutAt);
      ghost var alle := verbleibend;
      var idx := 0;
      while idx < |begrenzt|
        invariant 0 <= idx <= |cut| && |stapel| <= idx
        invariant Placed(objekte, maxHoehe, stapel, verbleibend)
        invariant forall i :: 0 <= i < |stapel| ==> stapel[i][0] in begrenzt && FollowsChain(tabelle, stapel[i])
        invariant gesamt == SumBaseAreas(objekte, stapel)
        invariant stapel + GreedyStacks(objekte, maxHoehe, tabelle, cut[idx..], verbleibend) ==
                  GreedyStacks(objekte, maxHoehe, tabelle, cut, alle)
      {
        if idx == timeoutAt {
          break;
        }
        var basis := begrenzt[idx];
        if basis in verbleibend {
          var s := BaueStapel(tabelle, verbleibend, basis);
          GreedyStep(objekte, maxHoehe, tabelle, cut, idx, verbleibend, stapel, s);
          PlacedAppend(objekte, maxHoehe, stapel, verbleibend, s);
          assert (stapel + [s])[..|stapel|] == stapel;
          stapel := stapel + [s];
          gesamt := gesamt + objekte[basis].grundflaeche;
          verbleibend := DiscardAll(verbleibend, s);
        } else {
          GreedyStep(objekte, maxHoehe, tabelle, cut, idx, verbleibend, stapel, []);
        }
        idx := idx + 1;
      }
      assert cut[idx..] == [];
    }

    /** The end of `loese_problem`: every object still available becomes a stack of its own. */
    method EinzelstapelAnfuegen(stapel: seq<seq<nat>>, verbleibend: set<nat>, gesamt: real)
      returns (alle: seq<seq<nat>>, summe: real)
      requires Placed(objekte, maxHoehe, stapel, verbleibend)
      requires gesamt == SumBaseAreas(objekte, stapel)
      ensures Placed(objekte, maxHoehe, alle, {})
      ensures |stapel| <= |alle| && alle[..|stapel|] == stapel
      ensures forall i :: |stapel| <= i < |alle| ==> |alle[i]| == 1 && alle[i][0] in verbleibend
      ensures forall i, j :: |stapel| <= i < j < |alle| ==> alle[i][0] < alle[j][0]
      ensures summe == SumBaseAreas(objekte, alle)
    {
      alle, summe := stapel, gesamt;
      ghost var rest := verbleibend;
      var v := 0;
      while v < |objekte|
        invariant 0 <= v <= |objekte|
        invariant forall x :: x in rest <==> x in verbleibend && x >= v
        invariant Placed(objekte, maxHoehe, alle, rest)
        invariant SingletonsAfter(stapel, alle, verbleibend, v)
        invariant summe == SumBaseAreas(objekte, alle)
      {
        if v in verbleibend {
          assert v in rest;
          assert SumHoehe(objekte, [v]) == SumHoehe(objekte, []) + HoeheOf(objekte, v);
          PlacedAppend(objekte, maxHoehe, alle, rest, [v]);
          assert Members([v]) == {v};
          SumBaseAreasAppend(objekte, alle, [v]);
          ghost var vorher := alle;
          alle := alle + [[v]];
          SingletonsAfterStep(stapel, vorher, verbleibend, v, alle);
          summe := summe + objekte[v].grundflaeche;
          rest := rest - {v};
        }
        v := v + 1;
      }
      assert rest == {};
    }

    /**
     * `loese_problem`, with the clock replaced by `timeoutAt`. `None` is the
     * ZeroDivisionError raised while ranking the candidates when some footprint is zero.
     * The greedy stacks come first, then every object left over as a stack of its own, in
     * index order.
     */
    method LoeseProblem(timeoutAt: nat) returns (r: Option<Loesung>, ghost table: seq<Entry>, ghost greedy: nat)
      requires Valid()
      ensures IsDpTable(objekte, maxHoehe, graph, table)
      ensures r.None? <==> exists v :: 0 <= v < |objekte| && objekte[v].grundflaeche == 0.0
      ensures r.Some? ==> IsPartition(r.value.stapel, |objekte|)
      ensures r.Some? ==> forall i :: 0 <= i < |r.value.stapel| ==>
        SumHoehe(objekte, r.value.stapel[i]) <= maxHoehe || |r.value.stapel[i]| == 1
      ensures r.Some? ==> r.value.gesamtGrundflaeche == SumBaseAreas(objekte, r.value.stapel)
      ensures r.Some? ==> greedy <= TopKBasen && greedy <= |r.value.stapel|
      ensures r.Some? ==> forall i :: 0 <= i < greedy ==>
        r.value.stapel[i][0] in Candidates(objekte, table)[..Min(TopKBasen, |objekte|)] &&
        FollowsChain(table, r.value.stapel[i])
      ensures r.Some? ==>
        r.value.stapel[..greedy] == GreedyStacks(objekte, maxHoehe, table, Reached(Candidates(objekte, table)[..Min(TopKBasen, |objekte|)], timeoutAt),
                     Members(Range(|objekte|)))
      ensures r.Some? ==> forall c :: c in Reached(Candidates(objekte, table)[..Min(TopKBasen, |objekte|)], timeoutAt) ==>
        exists i :: 0 <= i < greedy && c in r.value.stapel[i]
      ensures r.Some? ==> forall i :: greedy <= i < |r.value.stapel| ==> |r.value.stapel[i]| == 1
      ensures r.Some? ==> forall i, j :: greedy <= i < j < |r.value.stapel| ==> r.value.stapel[i][0] < r.value.stapel[j][0]
    {
      var n := |objekte|;
      var tabelle := FindeOptimaleStapel();
      table := tabelle;
      DpSuccessorsInRange(objekte, maxHoehe, graph, tabelle);
      greedy := 0;
      if exists v :: 0 <= v < n && objekte[v].grundflaeche == 0.0 {
        return None, table, greedy;
      }
      var kandidaten := SortBy(AreaOrder(objekte), ByKeyDesc<nat>(RatioKey(objekte, tabelle)));
      CandidatesInRange(objekte, tabelle);
      var begrenzt := kandidaten[..Min(TopKBasen, |kandidaten|)];
      var stapel, verbleibend, gesamt := GierigeAuswahl(tabelle, begrenzt, timeoutAt);
      greedy := |stapel|;
      var alle, summe := EinzelstapelAnfuegen(stapel, verbleibend, gesamt);
      assert kandidaten == Candidates(objekte, table);
      SolutionFacts(objekte, maxHoehe, tabelle, begrenzt, timeoutAt, stapel, alle);
      r := Some(Loesung(alle, summe));
    }
    /** The max accumulators of a mixed stack: the enclosing box's `laenge` and `breite`. */
    method UmschliessendeSeiten(s: seq<Objekt>) returns (maxLaenge: real, maxBreite: real)
      ensures IsMaxSide(maxLaenge, s, true) && IsMaxSide(maxBreite, s, false)
    {
      maxLaenge, maxBreite := 0.0, 0.0;
      ghost var wl, wb := 0, 0;
      var p := 0;
      while p < |s|
        invariant 0 <= p <= |s| && maxLaenge >= 0.0 && maxBreite >= 0.0
        invariant forall q :: 0 <= q < p && !s[q].form.Sonstige? ==> Side(s[q], true) <= maxLaenge
        invariant forall q :: 0 <= q < p && !s[q].form.Sonstige? ==> Side(s[q], false) <= maxBreite
        invariant maxLaenge == 0.0 || (wl < p && !s[wl].form.Sonstige? && Side(s[wl], true) == maxLaenge)
        invariant maxBreite == 0.0 || (wb < p && !s[wb].form.Sonstige? && Side(s[wb], false) == maxBreite)
      {
        var o := s[p];
        if o.form.Quader? {
          if o.form.laenge > maxLaenge {
            maxLaenge, wl := o.form.laenge, p;
          }
          if o.form.breite > maxBreite {
            maxBreite, wb := o.form.breite, p;
          }
        } else if o.form.Zylinder? {
          var durchmesser := 2.0 * o.form.radius;
          if durchmesser > maxLaenge {
            maxLaenge, wl := durchmesser, p;
          }
          if durchmesser > maxBreite {
            maxBreite, wb := durchmesser, p;
          }
        }
        p := p + 1;
      }
    }

    /** `stapel_zu_objekten_aggregieren`: one virtual object per stack, in stack order. */
    method StapelZuObjektenAggregieren(fertigeStapel: seq<seq<Objekt>>) returns (neue: seq<Objekt>)
      requires forall i :: 0 <= i < |fertigeStapel| ==> fertigeStapel[i] != []
      ensures |neue| == |fertigeStapel|
      ensures forall i :: 0 <= i < |neue| ==> IsAggregate(i, fertigeStapel[i], neue[i])
    {
      neue := [];
      var i := 0;
      while i < |fertigeStapel|
        invariant 0 <= i <= |fertigeStapel| && |neue| == i
        invariant forall k :: 0 <= k < i ==> IsAggregate(k, fertigeStapel[k], neue[k])
      {
        var stapel := fertigeStapel[i];
        var basis := stapel[0];
        var form: Form;
        var flaeche: real;
        if AllQuader(stapel) || AllZylinder(stapel) {
          form, flaeche := basis.form, basis.grundflaeche;
        } else {
          var maxLaenge, maxBreite := UmschliessendeSeiten(stapel);
          form, flaeche := Quader(maxLaenge, maxBreite), maxLaenge * maxBreite;
        }
        var neu := Objekt(StapelName(i), form, SumHoehen(stapel), flaeche, SumGewichte(stapel));
        neue := neue + [neu];
        i := i + 1;
      }
    }
  }
}
