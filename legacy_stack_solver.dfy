/**
 * The older `StapelOptimierer` of backend/make_3d_to_2d_problem.py: the support graph
 * uses the exact containment predicate, the DP starts every object from `(0, 0, None)`
 * and adds the base once more when it stores an entry, only the top three candidates
 * by count are tried, and a stack is rebuilt along the DP successors without any check.
 * Objects are identified by their index in `objekte`.
 */
module LegacyStackSolver {
  import opened Wrappers
  import opened Solids
  import opened StackDp
  import opened Sorting
  import StackSolver

  /** `TOP_K_BASEN`. */
  const TopKBasen: nat := 3

  /** The graph `_erzeuge_graphen` builds: the exact predicate decides every edge. */
  ghost predicate IsExactSupportGraph(objekte: seq<Objekt>, graph: seq<seq<nat>>) {
    |graph| == |objekte| &&
    forall u :: 0 <= u < |graph| ==>
      StackSolver.StrictlyIncreasing(graph[u]) &&
      (forall k :: 0 <= k < |graph[u]| ==>
        graph[u][k] < |objekte| && graph[u][k] != u && CanSupportExact(objekte[u], objekte[graph[u][k]])) &&
      (forall v :: 0 <= v < |objekte| && v != u && CanSupportExact(objekte[u], objekte[v]) ==> v in graph[u])
  }

  /** The empty entry `(0, 0, None)`: the dictionary's start value and the inner loop's. */
  const Leer: Entry := Entry(0, 0.0, None)

  function Zeros(n: nat): (r: seq<Entry>)
    ensures |r| == n && forall v :: 0 <= v < n ==> r[v] == Leer
  {
    seq(n, _ => Leer)
  }

  /** The entry stored for `unten`: one more for the base, and the base's height once more. */
  function Stored(hu: real, best: Entry): Entry {
    Entry(1 + best.anzahl, hu + best.hoehe, best.nachfolger)
  }

  /**
   * The dictionary `finde_optimale_stapel` returns: the entry of the object at position
   * `k` of the area order is `Stored` of the inner loop's best, started from
   * `(0, 0, None)`, over the table as it stood when that object was processed.
   */
  ghost predicate IsLegacyDpTable(objekte: seq<Objekt>, maxH: real, graph: seq<seq<nat>>, table: seq<Entry>) {
    IsExactSupportGraph(objekte, graph) && |table| == |objekte| &&
    var order := StackSolver.AreaOrder(objekte);
    forall k :: 0 <= k < |order| && order[k] < |table| ==>
      var u := order[k];
      var h := objekte[u].hoehe;
      table[u] == Stored(h, ScanBest(Leer, h, maxH, graph[u], SeenTable(order, k, table, Zeros(|objekte|))))
  }

  /**
   * What the older DP stores for every object `u`: with no neighbour whose stack (as seen
   * then) fits on top, `(1, hoehe, None)`; otherwise a neighbour `v` that `u` carries
   * exactly, with count `2 + count(v)` and height `2 * hoehe + height(v)`, where `hoehe +
   * height(v)` is within `max_hoehe`. The table `u` saw holds the final entry of every
   * object with a smaller footprint.
   */
  lemma LegacyDpEntryFacts(objekte: seq<Objekt>, maxH: real, graph: seq<seq<nat>>, table: seq<Entry>, u: nat)
    returns (seen: seq<Entry>)
    requires IsLegacyDpTable(objekte, maxH, graph, table) && u < |objekte|
    ensures |seen| == |table| && InTable(graph[u], seen)
    ensures table[u].nachfolger.None? <==>
      forall j :: 0 <= j < |graph[u]| ==> !Feasible(objekte[u].hoehe, maxH, seen[graph[u][j]])
    ensures table[u].nachfolger.None? ==> table[u] == Entry(1, objekte[u].hoehe, None)
    ensures table[u].nachfolger.Some? ==>
      var v := table[u].nachfolger.value;
      var h := objekte[u].hoehe;
      v < |objekte| && v in graph[u] && v != u && CanSupportExact(objekte[u], objekte[v]) &&
      Feasible(h, maxH, seen[v]) &&
      table[u] == Entry(2 + seen[v].anzahl, h + h + seen[v].hoehe, Some(v))
    ensures forall v :: 0 <= v < |table| && objekte[v].grundflaeche < objekte[u].grundflaeche ==> seen[v] == table[v]
  {
    var k := LegacyDpEntryAt(objekte, maxH, graph, table, u);
    seen := SeenTable(StackSolver.AreaOrder(objekte), k, table, Zeros(|objekte|));
    StoredFromLeer(objekte[u].hoehe, maxH, graph[u], seen);
    if table[u].nachfolger.Some? {
      var v := table[u].nachfolger.value;
      var j :| 0 <= j < |graph[u]| && graph[u][j] == v;
    }
    forall v | 0 <= v < |table| && objekte[v].grundflaeche < objekte[u].grundflaeche
      ensures seen[v] == table[v]
    {
      StackSolver.SmallerIsFinal(objekte, table, Zeros(|objekte|), k, u, v);
    }
  }

  /** Where the older DP entry of `u` comes from: its position `k` in the area order. */
  lemma LegacyDpEntryAt(objekte: seq<Objekt>, maxH: real, graph: seq<seq<nat>>, table: seq<Entry>, u: nat)
    returns (k: nat)
    requires IsLegacyDpTable(objekte, maxH, graph, table) && u < |objekte|
    ensures k < |objekte| && StackSolver.AreaOrder(objekte)[k] == u
    ensures InTable(graph[u], Zeros(|objekte|))
    ensures table[u] == Stored(objekte[u].hoehe, ScanBest(Leer, objekte[u].hoehe, maxH, graph[u],
                                 SeenTable(StackSolver.AreaOrder(objekte), k, table, Zeros(|objekte|))))
  {
    var order := StackSolver.AreaOrder(objekte);
    StackSolver.AreaOrderFacts(objekte);
    assert u in order;
    k :| 0 <= k < |order| && order[k] == u;
  }

  /**
   * The inner loop started from `(0, 0, None)` and then stored: no successor exactly when
   * no neighbour fits, and then `(1, hoehe, None)`; otherwise a fitting neighbour `v`
   * with count `2 + count(v)` and height `2 * hoehe + height(v)`.
   */
  lemma StoredFromLeer(h: real, maxH: real, nbrs: seq<nat>, t: seq<Entry>)
    requires InTable(nbrs, t)
    ensures var r := Stored(h, ScanBest(Leer, h, maxH, nbrs, t));
      (r.nachfolger.None? <==> forall j :: 0 <= j < |nbrs| ==> !Feasible(h, maxH, t[nbrs[j]])) &&
      (r.nachfolger.None? ==> r == Entry(1, h, None)) &&
      (r.nachfolger.Some? ==>
        r.nachfolger.value in nbrs && Feasible(h, maxH, t[r.nachfolger.value]) &&
        r == Entry(2 + t[r.nachfolger.value].anzahl, h + h + t[r.nachfolger.value].hoehe, r.nachfolger))
  {
    var k := ScanBestIsFirstMaximum(Leer, h, maxH, nbrs, t);
    ScanBestNoSuccessor(Leer, h, maxH, nbrs, t);
  }

  lemma LegacySuccessorsInRange(objekte: seq<Objekt>, maxH: real, graph: seq<seq<nat>>, table: seq<Entry>)
    requires IsLegacyDpTable(objekte, maxH, graph, table)
    ensures forall u :: 0 <= u < |table| && table[u].nachfolger.Some? ==> table[u].nachfolger.value < |table|
  {
    forall u | 0 <= u < |table| && table[u].nachfolger.Some? ensures table[u].nachfolger.value < |table| {
      var seen := LegacyDpEntryFacts(objekte, maxH, graph, table, u);
    }
  }

  /**
   * A box of footprint 4 carrying a box of footprint 1, both of height 1: the older DP
   * stores count 3 and height 3 for the two-object stack of height 2.
   */
  lemma {:induction false} LegacyCountsBaseTwice(objekte: seq<Objekt>, table: seq<Entry>)
    requires |objekte| == 2
    requires objekte[0].form == Quader(2.0, 2.0) && objekte[0].grundflaeche == 4.0 && objekte[0].hoehe == 1.0
    requires objekte[1].form == Quader(1.0, 1.0) && objekte[1].grundflaeche == 1.0 && objekte[1].hoehe == 1.0
    requires table == [Entry(3, 3.0, Some(1)), Entry(1, 1.0, None)]
    ensures IsLegacyDpTable(objekte, 10.0, [[1], []], table)
    ensures StackSolver.SumHoehe(objekte, [0, 1]) == 2.0
  {
    TwoBoxGraph(objekte);
    TwoBoxOrder(objekte);
    var order := StackSolver.AreaOrder(objekte);
    var seen0 := SeenTable(order, 0, table, Zeros(2));
    assert seen0 == [Leer, Entry(1, 1.0, None)];
    assert ScanBest(Leer, 1.0, 10.0, [], seen0) == Leer;
    assert ScanBest(Leer, 1.0, 10.0, [1], seen0) == Entry(2, 2.0, Some(1));
    var seen1 := SeenTable(order, 1, table, Zeros(2));
    assert ScanBest(Leer, 1.0, 10.0, [], seen1) == Leer;
    assert StackSolver.SumHoehe(objekte, [0]) == 1.0;
    assert [0, 1][..1] == [0];
  }

  lemma {:induction false} TwoBoxGraph(objekte: seq<Objekt>)
    requires |objekte| == 2
    requires objekte[0].form == Quader(2.0, 2.0) && objekte[0].grundflaeche == 4.0
    requires objekte[1].form == Quader(1.0, 1.0) && objekte[1].grundflaeche == 1.0
    ensures IsExactSupportGraph(objekte, [[1], []])
  {
    assert CanSupportExact(objekte[0], objekte[1]);
    assert !CanSupportExact(objekte[1], objekte[0]);
  }

  lemma {:induction false} TwoBoxOrder(objekte: seq<Objekt>)
    requires |objekte| == 2 && objekte[0].grundflaeche == 4.0 && objekte[1].grundflaeche == 1.0
    ensures StackSolver.AreaOrder(objekte) == [0, 1]
  {
    assert Range(2) == [0, 1] by {
      assert Range(1) == [0];
    }
    var eins: seq<nat> := [1];
    assert SortBy(eins, ByKeyDesc<nat>(StackSolver.AreaKey(objekte))) == eins;
  }

  /** `basis_kandidaten_sortiert`: the DP keys (area order) by count, largest first. */
  /** The candidates the greedy loop reaches: the top `TOP_K_BASEN`, cut where the timeout check fires. */
  function Reached(objekte: seq<Objekt>, table: seq<Entry>, timeoutAt: nat): seq<nat> {
    StackSolver.Reached(Candidates(objekte, table)[..StackSolver.Min(TopKBasen, |objekte|)], timeoutAt)
  }

  function CountKey(table: seq<Entry>): nat -> real {
    (v: nat) => if v < |table| then table[v].anzahl as real else 0.0
  }

  function Candidates(objekte: seq<Objekt>, table: seq<Entry>): seq<nat> {
    SortBy(StackSolver.AreaOrder(objekte), ByKeyDesc<nat>(CountKey(table)))
  }

  lemma CandidatesInRange(objekte: seq<Objekt>, table: seq<Entry>)
    ensures |Candidates(objekte, table)| == |objekte|
    ensures forall i :: 0 <= i < |objekte| ==> Candidates(objekte, table)[i] < |objekte|
  {
    var c := Candidates(objekte, table);
    StackSolver.AreaOrderFacts(objekte);
    assert multiset(c) == multiset(StackSolver.AreaOrder(objekte));
    forall i | 0 <= i < |objekte| ensures c[i] < |objekte| {
      assert c[i] in multiset(StackSolver.AreaOrder(objekte));
      assert c[i] in StackSolver.AreaOrder(objekte);
    }
  }

  /**
   * A walk along the DP successors that has met an object twice never ends: its last
   * object has a successor again, and the walk one step longer still has the repeat.
   */
  lemma {:induction false} RepeatMeansNoEnd(table: seq<Entry>, s: seq<nat>)
    requires s != [] && StackSolver.FollowsChain(table, s) && s[|s| - 1] < |table|
    requires !StackSolver.NoRepeats(s)
    ensures table[s[|s| - 1]].nachfolger.Some?
  {
    var i, j :| 0 <= i < j < |s| && s[i] == s[j];
    ShiftRepeat(table, s, i, j);
  }

  /** Moving a repeat `s[i] == s[j]` up along the chain until it reaches the end. */
  lemma {:induction false} ShiftRepeat(table: seq<Entry>, s: seq<nat>, i: nat, j: nat)
    requires i < j < |s| && s[i] == s[j]
    requires StackSolver.FollowsChain(table, s) && s[|s| - 1] < |table|
    ensures table[s[|s| - 1]].nachfolger.Some?
    decreases |s| - j
  {
    if j == |s| - 1 {
      assert table[s[i]].nachfolger == Some(s[i + 1]);
    } else {
      assert table[s[i]].nachfolger == Some(s[i + 1]) && table[s[j]].nachfolger == Some(s[j + 1]);
      ShiftRepeat(table, s, i + 1, j + 1);
    }
  }

  /**
   * The `while akt_knoten` walk from the stack `s`, at most `fuel` steps: the DP successor
   * of the top is appended, with no check, until the top has none.
   */
  function Chain(table: seq<Entry>, s: seq<nat>, fuel: nat): (r: seq<nat>)
    ensures |s| <= |r| && r[..|s|] == s
    decreases fuel
  {
    if fuel == 0 || s == [] || s[|s| - 1] >= |table| || table[s[|s| - 1]].nachfolger.None? then s
    else
      var r := Chain(table, s + [table[s[|s| - 1]].nachfolger.value], fuel - 1);
      assert r[..|s|] == r[..|s| + 1][..|s|];
      r
  }

  /** The walk from `basis`, cut after as many steps as there are objects. */
  function Walk(table: seq<Entry>, basis: nat): (r: seq<nat>)
    ensures r != [] && r[0] == basis
  {
    var r := Chain(table, [basis], |table|);
    assert r[..1] == [basis];
    r
  }

  /** The walk from `basis` has not ended after as many steps as there are objects: the source never leaves it. */
  predicate Hangs(table: seq<Entry>, basis: nat) {
    var c := Walk(table, basis);
    c[|c| - 1] < |table| && table[c[|c| - 1]].nachfolger.Some?
  }

  /**
   * A walk from a chain of objects stays a chain of objects, and its top still has a
   * successor only when all the fuel was used.
   */
  lemma {:induction false} ChainFacts(table: seq<Entry>, s: seq<nat>, fuel: nat)
    requires s != [] && StackSolver.FollowsChain(table, s) && forall p :: 0 <= p < |s| ==> s[p] < |table|
    requires forall u :: 0 <= u < |table| && table[u].nachfolger.Some? ==> table[u].nachfolger.value < |table|
    ensures var r := Chain(table, s, fuel);
      StackSolver.FollowsChain(table, r) && (forall p :: 0 <= p < |r| ==> r[p] < |table|) &&
      (table[r[|r| - 1]].nachfolger.Some? ==> |r| == |s| + fuel)
    decreases fuel
  {
    if !(fuel == 0 || table[s[|s| - 1]].nachfolger.None?) {
      var s' := s + [table[s[|s| - 1]].nachfolger.value];
      assert StackSolver.FollowsChain(table, s');
      ChainFacts(table, s', fuel - 1);
    }
  }

  /**
   * The source's walk from `basis` never ends exactly when the walk meets an object
   * twice; otherwise the walk is a full DP chain ending at an object without successor.
   */
  lemma HangsIffRepeats(table: seq<Entry>, basis: nat)
    requires basis < |table|
    requires forall u :: 0 <= u < |table| && table[u].nachfolger.Some? ==> table[u].nachfolger.value < |table|
    ensures Hangs(table, basis) <==> !StackSolver.NoRepeats(Walk(table, basis))
    ensures StackSolver.FollowsChain(table, Walk(table, basis))
    ensures forall p :: 0 <= p < |Walk(table, basis)| ==> Walk(table, basis)[p] < |table|
  {
    var c := Walk(table, basis);
    ChainFacts(table, [basis], |table|);
    if Hangs(table, basis) {
      Pigeonhole(c, |table|);
    }
    if !StackSolver.NoRepeats(c) {
      RepeatMeansNoEnd(table, c);
    }
  }

  /** The greedy stacks `pre` followed by the outcome `rest` of the candidates after them. */
  function Prepend(pre: seq<seq<nat>>, rest: Option<seq<seq<nat>>>): Option<seq<seq<nat>>> {
    if rest.None? then None else Some(pre + rest.value)
  }

  /**
   * The greedy loop of `loese_problem` over the candidates `kandidaten` in order, with
   * `verbleibend` not yet used: a candidate not yet used whose walk never ends stops
   * everything (`None`); one whose walk ends is the base of that walk, whose members are
   * then used; any other candidate is skipped.
   */
  function LegacyGreedy(table: seq<Entry>, kandidaten: seq<nat>, verbleibend: set<nat>): Option<seq<seq<nat>>>
    decreases |kandidaten|
  {
    if kandidaten == [] then Some([])
    else
      var b := kandidaten[0];
      if b in verbleibend && b < |table| then
        if Hangs(table, b) then None
        else
          var s := Walk(table, b);
          Prepend([s], LegacyGreedy(table, kandidaten[1..], verbleibend - StackSolver.Members(s)))
      else LegacyGreedy(table, kandidaten[1..], verbleibend)
  }

  /**
   * When the greedy loop never returns: it does so only if some candidate not yet used
   * has a walk that meets an object twice, and it returns whenever no candidate has one.
   */
  lemma {:induction false} LegacyGreedyNone(table: seq<Entry>, kandidaten: seq<nat>, verbleibend: set<nat>)
    requires forall i :: 0 <= i < |kandidaten| ==> kandidaten[i] < |table|
    requires forall u :: 0 <= u < |table| && table[u].nachfolger.Some? ==> table[u].nachfolger.value < |table|
    ensures var g := LegacyGreedy(table, kandidaten, verbleibend);
      (g.None? ==> exists c :: c in kandidaten && c in verbleibend && !StackSolver.NoRepeats(Walk(table, c))) &&
      ((forall c :: c in kandidaten ==> StackSolver.NoRepeats(Walk(table, c))) ==> g.Some?)
    decreases |kandidaten|
  {
    if kandidaten != [] {
      var b := kandidaten[0];
      var tail := kandidaten[1..];
      assert forall c :: c in tail ==> c in kandidaten;
      assert forall i :: 0 <= i < |tail| ==> tail[i] == kandidaten[i + 1];
      HangsIffRepeats(table, b);
      if b in verbleibend {
        if !Hangs(table, b) {
          LegacyGreedyNone(table, tail, verbleibend - StackSolver.Members(Walk(table, b)));
        }
      } else {
        LegacyGreedyNone(table, tail, verbleibend);
      }
    }
  }

  /**
   * When the greedy loop returns, every stack is the full walk from a candidate that was
   * not yet used, a walk without repeats.
   */
  lemma {:induction false} LegacyGreedyStacks(table: seq<Entry>, kandidaten: seq<nat>, verbleibend: set<nat>)
    requires forall i :: 0 <= i < |kandidaten| ==> kandidaten[i] < |table|
    requires forall u :: 0 <= u < |table| && table[u].nachfolger.Some? ==> table[u].nachfolger.value < |table|
    ensures var g := LegacyGreedy(table, kandidaten, verbleibend);
      g.Some? ==>
        |g.value| <= |kandidaten| &&
        (forall i :: 0 <= i < |g.value| ==>
          g.value[i] != [] && g.value[i] == Walk(table, g.value[i][0]) && StackSolver.NoRepeats(g.value[i]) &&
          g.value[i][0] in kandidaten && g.value[i][0] in verbleibend)
    decreases |kandidaten|
  {
    if kandidaten != [] {
      var g := LegacyGreedy(table, kandidaten, verbleibend);
      var b := kandidaten[0];
      var tail := kandidaten[1..];
      assert forall c :: c in tail ==> c in kandidaten;
      assert forall i :: 0 <= i < |tail| ==> tail[i] == kandidaten[i + 1];
      if b in verbleibend {
        if !Hangs(table, b) {
          HangsIffRepeats(table, b);
          var s := Walk(table, b);
          var rest := verbleibend - StackSolver.Members(s);
          LegacyGreedyStacks(table, tail, rest);
          var rg := LegacyGreedy(table, tail, rest);
          if g.Some? {
            var ss := g.value;
            assert ss == [s] + rg.value;
            forall i | 0 <= i < |ss|
              ensures ss[i] != [] && ss[i] == Walk(table, ss[i][0]) && StackSolver.NoRepeats(ss[i])
              ensures ss[i][0] in kandidaten && ss[i][0] in verbleibend
            {
              if i > 0 {
                assert ss[i] == rg.value[i - 1];
              }
            }
          }
        }
      } else {
        LegacyGreedyStacks(table, tail, verbleibend);
      }
    }
  }

  /** When the greedy loop returns, every candidate not yet used at the start is in one of the stacks. */
  lemma {:induction false} LegacyGreedyCovers(table: seq<Entry>, kandidaten: seq<nat>, verbleibend: set<nat>)
    ensures var g := LegacyGreedy(table, kandidaten, verbleibend);
      g.Some? ==> forall c :: c in kandidaten && c in verbleibend && c < |table| ==>
        exists i :: 0 <= i < |g.value| && c in g.value[i]
    decreases |kandidaten|
  {
    if kandidaten != [] {
      var g := LegacyGreedy(table, kandidaten, verbleibend);
      var b := kandidaten[0];
      var tail := kandidaten[1..];
      assert forall c :: c in kandidaten && c != b ==> c in tail;
      if b in verbleibend && b < |table| {
        if !Hangs(table, b) {
          var s := Walk(table, b);
          var rest := verbleibend - StackSolver.Members(s);
          LegacyGreedyCovers(table, tail, rest);
          var rg := LegacyGreedy(table, tail, rest);
          if g.Some? {
            var ss := g.value;
            assert ss == [s] + rg.value;
            forall c | c in kandidaten && c in verbleibend && c < |table|
              ensures exists i :: 0 <= i < |ss| && c in ss[i]
            {
              if c in s {
                assert c in ss[0];
              } else {
                assert s[0] == b;
                assert c != b && c in tail && c in rest;
                var i :| 0 <= i < |rg.value| && c in rg.value[i];
                assert ss[i + 1] == rg.value[i];
              }
            }
          }
        }
      } else {
        LegacyGreedyCovers(table, tail, verbleibend);
      }
    }
  }

  /** One turn of the greedy loop at position `idx` of the reached candidates, after the stacks `pre`. */
  lemma LegacyGreedyStep(table: seq<Entry>, cut: seq<nat>, idx: nat, verbleibend: set<nat>, pre: seq<seq<nat>>)
    requires idx < |cut| && cut[idx] < |table|
    ensures var b := cut[idx];
      b in verbleibend && !Hangs(table, b) ==>
        Prepend(pre, LegacyGreedy(table, cut[idx..], verbleibend)) ==
        Prepend(pre + [Walk(table, b)], LegacyGreedy(table, cut[idx + 1..], verbleibend - StackSolver.Members(Walk(table, b))))
    ensures cut[idx] in verbleibend && Hangs(table, cut[idx]) ==> LegacyGreedy(table, cut[idx..], verbleibend).None?
    ensures cut[idx] !in verbleibend ==>
      LegacyGreedy(table, cut[idx..], verbleibend) == LegacyGreedy(table, cut[idx + 1..], verbleibend)
  {
    assert cut[idx..][0] == cut[idx] && cut[idx..][1..] == cut[idx + 1..];
    var b := cut[idx];
    if b in verbleibend && !Hangs(table, b) {
      var rest := LegacyGreedy(table, cut[idx + 1..], verbleibend - StackSolver.Members(Walk(table, b)));
      if rest.Some? {
        assert pre + ([Walk(table, b)] + rest.value) == (pre + [Walk(table, b)]) + rest.value;
      }
    }
  }

  /** A sequence of distinct members has as many members as elements. */
  lemma {:induction false} MembersCard(s: seq<nat>)
    requires StackSolver.NoRepeats(s)
    ensures |StackSolver.Members(s)| == |s|
  {
    if s != [] {
      var init := s[..|s| - 1];
      assert s == init + [s[|s| - 1]];
      StackSolver.MembersAppend(init, s[|s| - 1]);
      assert StackSolver.NoRepeats(init);
      MembersCard(init);
      assert s[|s| - 1] !in StackSolver.Members(init);
    }
  }

  lemma {:induction false} SubsetCard(a: set<nat>, b: set<nat>)
    requires a <= b
    ensures |a| <= |b|
    decreases |b|
  {
    if b != {} {
      var x :| x in b;
      SubsetCard(a - {x}, b - {x});
    }
  }

  /** Pigeonhole: more than `n` objects below `n` contain one twice. */
  lemma Pigeonhole(s: seq<nat>, n: nat)
    requires |s| > n && forall p :: 0 <= p < |s| ==> s[p] < n
    ensures !StackSolver.NoRepeats(s)
  {
    if StackSolver.NoRepeats(s) {
      MembersCard(s);
      var r := Range(n);
      assert StackSolver.NoRepeats(r);
      MembersCard(r);
      StackSolver.MembersOfRange(n);
      SubsetCard(StackSolver.Members(s), StackSolver.Members(r));
    }
  }

  /** The stacks cover the objects `0 .. n-1` placed so far, none of which remains. */
  ghost predicate Covered(n: nat, ss: seq<seq<nat>>, remaining: set<nat>) {
    var c := StackSolver.Concat(ss);
    (forall i :: 0 <= i < |ss| ==> ss[i] != []) &&
    (forall p :: 0 <= p < |c| ==> c[p] < n && c[p] !in remaining) &&
    (forall v: nat :: v < n && v !in remaining ==> v in c) &&
    (forall v :: v in remaining ==> v < n)
  }

  lemma CoveredAppend(n: nat, ss: seq<seq<nat>>, remaining: set<nat>, s: seq<nat>)
    requires Covered(n, ss, remaining)
    requires s != [] && forall p :: 0 <= p < |s| ==> s[p] < n
    ensures Covered(n, ss + [s], remaining - StackSolver.Members(s))
  {
    var ss' := ss + [s];
    assert ss'[..|ss|] == ss;
    var c := StackSolver.Concat(ss');
    assert c == StackSolver.Concat(ss) + s;
    forall v: nat | v < n && v !in remaining - StackSolver.Members(s) ensures v in c {
      if v in remaining {
        assert v in s;
      }
    }
  }

  /**
   * The state of the DP loop of `finde_optimale_stapel` once the positions `i ..` of the
   * area order `order` are processed: those objects hold their entries, all others still
   * hold `(0, 0, None)`.
   */
  ghost predicate LegacyDpSuffix(objekte: seq<Objekt>, maxH: real, graph: seq<seq<nat>>, order: seq<nat>,
                                 table: seq<Entry>, i: nat)
  {
    |table| == |objekte| == |graph| && i <= |order| &&
    IsPermutationOfRange(order, |objekte|) &&
    (forall u :: 0 <= u < |graph| ==> InTable(graph[u], table)) &&
    (forall v :: 0 <= v < |table| && v !in order[i..] ==> table[v] == Leer) &&
    forall k :: i <= k < |order| ==>
      var u := order[k];
      var h := objekte[u].hoehe;
      table[u] == Stored(h, ScanBest(Leer, h, maxH, graph[u], SeenTable(order, k, table, Zeros(|table|))))
  }

  /** Processing position `i - 1` of the order, with the table as it stands, extends the state by one. */
  lemma LegacyDpStep(objekte: seq<Objekt>, maxH: real, graph: seq<seq<nat>>, order: seq<nat>,
                     table: seq<Entry>, i: nat)
    requires i < |order| && LegacyDpSuffix(objekte, maxH, graph, order, table, i + 1)
    ensures var u := order[i];
      var h := objekte[u].hoehe;
      LegacyDpSuffix(objekte, maxH, graph, order, table[u := Stored(h, ScanBest(Leer, h, maxH, graph[u], table))], i)
  {
    var n := |objekte|;
    var initial := Zeros(n);
    var u := order[i];
    var h := objekte[u].hoehe;
    var entry := Stored(h, ScanBest(Leer, h, maxH, graph[u], table));
    StackSolver.NotLater(order, n, i, i);
    SeenTableIsCurrent(order, i, table, initial, entry);
    var t := table[u := entry];
    forall k | i < k < n
      ensures SeenTable(order, k, t, initial) == SeenTable(order, k, table, initial)
      ensures order[k] != u
    {
      StackSolver.NotLater(order, n, k, i);
      SeenTableFrame(order, k, table, initial, u, entry);
    }
    forall v | 0 <= v < n && v !in order[i..] ensures t[v] == Leer {
      assert v != u;
      assert order[i + 1..] == order[i..][1..];
    }
  }

  /**
   * `row` is what the edges added so far leave as the successors of `u`: in increasing
   * order, the objects below `j` other than `u` that `u` can carry.
   */
  ghost predicate ExactSupportRow(objekte: seq<Objekt>, u: nat, row: seq<nat>, j: nat)
    requires u < |objekte|
  {
    StackSolver.StrictlyIncreasing(row) &&
    (forall k :: 0 <= k < |row| ==> row[k] < j && row[k] < |objekte| && row[k] != u && CanSupportExact(objekte[u], objekte[row[k]])) &&
    (forall v :: 0 <= v < j && v < |objekte| && v != u && CanSupportExact(objekte[u], objekte[v]) ==> v in row)
  }

  /** The inner loop's test of object `j` extends the row by one position. */
  lemma ExactSupportRowStep(objekte: seq<Objekt>, u: nat, row: seq<nat>, j: nat)
    requires u < |objekte| && j < |objekte| && ExactSupportRow(objekte, u, row, j)
    ensures u != j && CanSupportExact(objekte[u], objekte[j]) ==> ExactSupportRow(objekte, u, row + [j], j + 1)
    ensures !(u != j && CanSupportExact(objekte[u], objekte[j])) ==> ExactSupportRow(objekte, u, row, j + 1)
  {
  }

  /**
   * Each stack is a full DP chain from a candidate in `begrenzt`: it follows the successors
   * from its base and ends at an object without one.
   */
  ghost predicate FullChains(tabelle: seq<Entry>, begrenzt: seq<nat>, stapel: seq<seq<nat>>) {
    forall i :: 0 <= i < |stapel| ==>
      stapel[i] != [] && stapel[i][0] in begrenzt && stapel[i][|stapel[i]| - 1] < |tabelle| &&
      StackSolver.FollowsChain(tabelle, stapel[i]) && tabelle[stapel[i][|stapel[i]| - 1]].nachfolger.None?
  }

  /**
   * The state of the greedy loop between candidates: what is placed and what remains, each
   * stack a full DP chain from a candidate, no base inside an earlier stack, and the summed
   * base footprint.
   */
  ghost predicate GreedyState(objekte: seq<Objekt>, tabelle: seq<Entry>, begrenzt: seq<nat>,
                              stapel: seq<seq<nat>>, verbleibend: set<nat>, gesamt: real)
  {
    Covered(|objekte|, stapel, verbleibend) &&
    FullChains(tabelle, begrenzt, stapel) &&
    (forall i, j :: 0 <= i < j < |stapel| ==> stapel[j][0] !in stapel[i]) &&
    gesamt == StackSolver.SumBaseAreas(objekte, stapel)
  }

  /** The greedy state spelled out. */
  lemma GreedyStateFacts(objekte: seq<Objekt>, tabelle: seq<Entry>, begrenzt: seq<nat>,
                         stapel: seq<seq<nat>>, verbleibend: set<nat>, gesamt: real)
    requires GreedyState(objekte, tabelle, begrenzt, stapel, verbleibend, gesamt)
    ensures Covered(|objekte|, stapel, verbleibend)
    ensures FullChains(tabelle, begrenzt, stapel)
    ensures forall i, j :: 0 <= i < j < |stapel| ==> stapel[j][0] !in stapel[i]
    ensures gesamt == StackSolver.SumBaseAreas(objekte, stapel)
  {
  }

  /** A finished chain from a remaining candidate, placed and discarded, keeps the state. */
  lemma GreedyStackAppended(objekte: seq<Objekt>, tabelle: seq<Entry>, begrenzt: seq<nat>,
                            stapel: seq<seq<nat>>, verbleibend: set<nat>, gesamt: real, s: seq<nat>)
    requires |tabelle| == |objekte| && GreedyState(objekte, tabelle, begrenzt, stapel, verbleibend, gesamt)
    requires s != [] && s[0] in begrenzt && s[0] in verbleibend
    requires forall p :: 0 <= p < |s| ==> s[p] < |tabelle|
    requires StackSolver.FollowsChain(tabelle, s) && tabelle[s[|s| - 1]].nachfolger.None?
    ensures GreedyState(objekte, tabelle, begrenzt, stapel + [s], verbleibend - StackSolver.Members(s),
                        gesamt + objekte[s[0]].grundflaeche)
  {
    CoveredAppend(|objekte|, stapel, verbleibend, s);
    StackSolver.SumBaseAreasAppend(objekte, stapel, s);
    var next := stapel + [s];
    assert next[..|stapel|] == stapel;
    forall i | 0 <= i < |stapel| ensures s[0] !in stapel[i] {
      ConcatHasMembers(stapel, i);
    }
    forall i, j | 0 <= i < j < |next| ensures next[j][0] !in next[i] {
      if j < |stapel| {
        assert next[i] == stapel[i] && next[j] == stapel[j];
      } else {
        assert next[i] == stapel[i];
      }
    }
  }

  /**
   * The greedy loop before candidate `idx` of the reached candidates `cut`: the greedy
   * state, and the stacks so far followed by the outcome of the candidates still to come
   * are the outcome of the whole loop from all objects `alle`.
   */
  ghost predicate LoopState(objekte: seq<Objekt>, tabelle: seq<Entry>, begrenzt: seq<nat>, cut: seq<nat>, idx: nat,
                            stapel: seq<seq<nat>>, verbleibend: set<nat>, gesamt: real, alle: set<nat>)
  {
    idx <= |cut| && |stapel| <= idx &&
    GreedyState(objekte, tabelle, begrenzt, stapel, verbleibend, gesamt) &&
    Prepend(stapel, LegacyGreedy(tabelle, cut[idx..], verbleibend)) == LegacyGreedy(tabelle, cut, alle)
  }

  /** A used-up candidate is skipped. */
  lemma LoopSkip(objekte: seq<Objekt>, tabelle: seq<Entry>, begrenzt: seq<nat>, cut: seq<nat>, idx: nat,
                 stapel: seq<seq<nat>>, verbleibend: set<nat>, gesamt: real, alle: set<nat>)
    requires LoopState(objekte, tabelle, begrenzt, cut, idx, stapel, verbleibend, gesamt, alle)
    requires idx < |cut| && cut[idx] < |tabelle| && cut[idx] !in verbleibend
    ensures LoopState(objekte, tabelle, begrenzt, cut, idx + 1, stapel, verbleibend, gesamt, alle)
  {
    LegacyGreedyStep(tabelle, cut, idx, verbleibend, stapel);
  }

  /** A remaining candidate whose walk never ends makes the whole loop never end. */
  lemma LoopHangs(objekte: seq<Objekt>, tabelle: seq<Entry>, begrenzt: seq<nat>, cut: seq<nat>, idx: nat,
                  stapel: seq<seq<nat>>, verbleibend: set<nat>, gesamt: real, alle: set<nat>)
    requires LoopState(objekte, tabelle, begrenzt, cut, idx, stapel, verbleibend, gesamt, alle)
    requires idx < |cut| && cut[idx] < |tabelle| && cut[idx] in verbleibend && Hangs(tabelle, cut[idx])
    ensures LegacyGreedy(tabelle, cut, alle).None?
  {
    LegacyGreedyStep(tabelle, cut, idx, verbleibend, stapel);
  }

  /** A remaining candidate whose walk `s` ends becomes a stack, and its members are used. */
  lemma LoopPlace(objekte: seq<Objekt>, tabelle: seq<Entry>, begrenzt: seq<nat>, cut: seq<nat>, idx: nat,
                  stapel: seq<seq<nat>>, verbleibend: set<nat>, gesamt: real, alle: set<nat>, s: seq<nat>)
    requires |tabelle| == |objekte|
    requires LoopState(objekte, tabelle, begrenzt, cut, idx, stapel, verbleibend, gesamt, alle)
    requires idx < |cut| && cut[idx] < |tabelle| && cut[idx] in begrenzt && cut[idx] in verbleibend
    requires !Hangs(tabelle, cut[idx]) && s == Walk(tabelle, cut[idx])
    requires forall p :: 0 <= p < |s| ==> s[p] < |tabelle|
    requires StackSolver.FollowsChain(tabelle, s) && tabelle[s[|s| - 1]].nachfolger.None?
    ensures LoopState(objekte, tabelle, begrenzt, cut, idx + 1, stapel + [s], verbleibend - StackSolver.Members(s),
                      gesamt + objekte[cut[idx]].grundflaeche, alle)
  {
    LegacyGreedyStep(tabelle, cut, idx, verbleibend, stapel);
    GreedyStackAppended(objekte, tabelle, begrenzt, stapel, verbleibend, gesamt, s);
  }

  /** Once every reached candidate is handled, the loop's outcome is the stacks placed. */
  lemma LoopDone(objekte: seq<Objekt>, tabelle: seq<Entry>, begrenzt: seq<nat>, cut: seq<nat>,
                 stapel: seq<seq<nat>>, verbleibend: set<nat>, gesamt: real, alle: set<nat>)
    requires LoopState(objekte, tabelle, begrenzt, cut, |cut|, stapel, verbleibend, gesamt, alle)
    ensures LegacyGreedy(tabelle, cut, alle) == Some(stapel)
  {
    assert cut[|cut|..] == [] && stapel + [] == stapel;
  }

  class StapelOptimierer {
    const objekte: seq<Objekt>
    const maxHoehe: real
    var graph: seq<seq<nat>>

    ghost predicate Valid()
      reads this
    {
      IsExactSupportGraph(objekte, graph)
    }

    constructor (objekte: seq<Objekt>, maxHoehe: real)
      ensures this.objekte == objekte && this.maxHoehe == maxHoehe
      ensures Valid()
    {
      this.objekte := objekte;
      this.maxHoehe := maxHoehe;
      graph := [];
      new;
      ErzeugeGraphen();
    }

    /** `_erzeuge_graphen`: an edge `i -> j` for every ordered pair of distinct objects with `CanSupportExact`. */
    method ErzeugeGraphen()
      modifies this
      ensures Valid()
    {
      var n := |objekte|;
      graph := seq(n, (_: int) => []);
      var i := 0;
      while i < n
        invariant 0 <= i <= n && |graph| == n
        invariant forall u :: i <= u < n ==> graph[u] == []
        invariant forall u :: 0 <= u < i ==> ExactSupportRow(objekte, u, graph[u], n)
      {
        var j := 0;
        while j < n
          invariant 0 <= j <= n && |graph| == n
          invariant forall u :: i < u < n ==> graph[u] == []
          invariant forall u :: 0 <= u < i ==> ExactSupportRow(objekte, u, graph[u], n)
          invariant ExactSupportRow(objekte, i, graph[i], j)
        {
          ExactSupportRowStep(objekte, i, graph[i], j);
          if i != j && CanSupportExact(objekte[i], objekte[j]) {
            graph := graph[i := graph[i] + [j]];
          }
          j := j + 1;
        }
        i := i + 1;
      }
    }

    /** `finde_optimale_stapel`. */
    method FindeOptimaleStapel() returns (table: seq<Entry>)
      requires Valid()
      ensures IsLegacyDpTable(objekte, maxHoehe, graph, table)
    {
      var n := |objekte|;
      var order := SortBy(Range(n), ByKeyDesc<nat>(StackSolver.AreaKey(objekte)));
      StackSolver.AreaOrderFacts(objekte);
      table := Zeros(n);
      var i := n;
      while i > 0
        invariant 0 <= i <= n
        invariant LegacyDpSuffix(objekte, maxHoehe, graph, order, table, i)
      {
        i := i - 1;
        var u := order[i];
        var h := objekte[u].hoehe;
        var best := BestSuccessor(Leer, h, maxHoehe, graph[u], table);
        LegacyDpStep(objekte, maxHoehe, graph, order, table, i);
        table := table[u := Stored(h, best)];
      }
    }

    /**
     * The `while akt_knoten` walk: the base, then its DP successors with no check at all.
     * The source loops forever when the chain comes back to an object; here the walk stops
     * once it holds more objects than there are, and `endlos` says that it would not end.
     */
    method FolgeKette(table: seq<Entry>, basis: nat) returns (stapel: seq<nat>, endlos: bool)
      requires basis < |table|
      requires forall u :: 0 <= u < |table| && table[u].nachfolger.Some? ==> table[u].nachfolger.value < |table|
      ensures stapel != [] && stapel[0] == basis
      ensures forall p :: 0 <= p < |stapel| ==> stapel[p] < |table|
      ensures StackSolver.FollowsChain(table, stapel)
      ensures !endlos ==> table[stapel[|stapel| - 1]].nachfolger.None? && StackSolver.NoRepeats(stapel)
      ensures endlos ==> !StackSolver.NoRepeats(stapel)
      ensures stapel == Walk(table, basis) && (endlos <==> Hangs(table, basis))
    {
      stapel := [basis];
      endlos := false;
      var akt := table[basis].nachfolger;
      while akt.Some?
        invariant stapel != [] && stapel[0] == basis && |stapel| <= |table| + 1
        invariant forall p :: 0 <= p < |stapel| ==> stapel[p] < |table|
        invariant StackSolver.FollowsChain(table, stapel)
        invariant akt == table[stapel[|stapel| - 1]].nachfolger
        invariant Chain(table, stapel, |table| + 1 - |stapel|) == Walk(table, basis)
        decreases |table| + 1 - |stapel|
      {
        if |stapel| > |table| {
          Pigeonhole(stapel, |table|);
          endlos := true;
          return;
        }
        stapel := stapel + [akt.value];
        akt := table[akt.value].nachfolger;
      }
      if !StackSolver.NoRepeats(stapel) {
        RepeatMeansNoEnd(table, stapel);
      }
    }

    /**
     * The loop over the first `TOP_K_BASEN` candidates: a candidate not yet used becomes
     * the base of a stack, and the stack's members are discarded. The loop stops at
     * candidate `timeoutAt`, or with `endlos` at the first walk that would never end.
     */
    method GierigeAuswahl(tabelle: seq<Entry>, begrenzt: seq<nat>, timeoutAt: nat)
      returns (stapel: seq<seq<nat>>, verbleibend: set<nat>, gesamt: real, endlos: bool, ghost kette: seq<nat>)
      requires |tabelle| == |objekte|
      requires forall i :: 0 <= i < |begrenzt| ==> begrenzt[i] < |objekte|
      requires forall u :: 0 <= u < |tabelle| && tabelle[u].nachfolger.Some? ==> tabelle[u].nachfolger.value < |tabelle|
      ensures |stapel| <= |begrenzt|
      ensures Covered(|objekte|, stapel, verbleibend)
      ensures FullChains(tabelle, begrenzt, stapel)
      ensures forall i, j :: 0 <= i < j < |stapel| ==> stapel[j][0] !in stapel[i]
      ensures gesamt == StackSolver.SumBaseAreas(objekte, stapel)
      ensures endlos ==>
        kette != [] && kette[0] in begrenzt && StackSolver.FollowsChain(tabelle, kette) && !StackSolver.NoRepeats(kette)
      ensures var g := LegacyGreedy(tabelle, StackSolver.Reached(begrenzt, timeoutAt), StackSolver.Members(Range(|objekte|)));
        (endlos <==> g.None?) && (!endlos ==> g == Some(stapel))
    {
      verbleibend := StackSolver.Members(Range(|objekte|));
      StackSolver.MembersOfRange(|objekte|);
      stapel := [];
      gesamt := 0.0;
      endlos := false;
      kette := [];
      ghost var cut := StackSolver.Reached(begrenzt, timeoutAt);
      ghost var alle := verbleibend;
      assert cut[0..] == cut;
      assert Prepend(stapel, LegacyGreedy(tabelle, cut, alle)) == LegacyGreedy(tabelle, cut, alle) by {
        if LegacyGreedy(tabelle, cut, alle).Some? {
          assert [] + LegacyGreedy(tabelle, cut, alle).value == LegacyGreedy(tabelle, cut, alle).value;
        }
      }
      var idx := 0;
      while idx < |begrenzt|
        invariant LoopState(objekte, tabelle, begrenzt, cut, idx, stapel, verbleibend, gesamt, alle)
      {
        if idx == timeoutAt {
          break;
        }
        assert begrenzt[idx] == cut[idx];
        stapel, verbleibend, gesamt, endlos, kette := GierigerSchritt(tabelle, begrenzt, begrenzt[idx], cut, idx, stapel, verbleibend, gesamt, alle);
        if endlos {
          GreedyStateFacts(objekte, tabelle, begrenzt, stapel, verbleibend, gesamt);
          return;
        }
        idx := idx + 1;
      }
      LoopDone(objekte, tabelle, begrenzt, cut, stapel, verbleibend, gesamt, alle);
      GreedyStateFacts(objekte, tabelle, begrenzt, stapel, verbleibend, gesamt);
    }

    /**
     * One turn of the greedy loop, at candidate `cut[idx]`: skipped when used up, otherwise
     * walked; a walk that would never end stops the loop (`endlos`), and one that ends is
     * placed and its members discarded.
     */
    method GierigerSchritt(tabelle: seq<Entry>, begrenzt: seq<nat>, basis: nat, ghost cut: seq<nat>, ghost idx: nat,
                           stapel: seq<seq<nat>>, verbleibend: set<nat>, gesamt: real, ghost alle: set<nat>)
      returns (stapel': seq<seq<nat>>, verbleibend': set<nat>, gesamt': real, endlos: bool, ghost kette: seq<nat>)
      requires |tabelle| == |objekte|
      requires forall u :: 0 <= u < |tabelle| && tabelle[u].nachfolger.Some? ==> tabelle[u].nachfolger.value < |tabelle|
      requires idx < |cut| && basis == cut[idx] && basis in begrenzt && basis < |tabelle|
      requires LoopState(objekte, tabelle, begrenzt, cut, idx, stapel, verbleibend, gesamt, alle)
      ensures endlos ==>
        kette != [] && kette[0] in begrenzt && StackSolver.FollowsChain(tabelle, kette) && !StackSolver.NoRepeats(kette) &&
        LegacyGreedy(tabelle, cut, alle).None?
      ensures endlos ==> stapel' == stapel && verbleibend' == verbleibend && gesamt' == gesamt
      ensures !endlos ==> LoopState(objekte, tabelle, begrenzt, cut, idx + 1, stapel', verbleibend', gesamt', alle)
    {
      stapel', verbleibend', gesamt', endlos, kette := stapel, verbleibend, gesamt, false, [];
      if basis in verbleibend {
        var s, haengt := FolgeKette(tabelle, basis);
        if haengt {
          LoopHangs(objekte, tabelle, begrenzt, cut, idx, stapel, verbleibend, gesamt, alle);
          endlos, kette := true, s;
          return;
        }
        LoopPlace(objekte, tabelle, begrenzt, cut, idx, stapel, verbleibend, gesamt, alle, s);
        stapel' := stapel + [s];
        gesamt' := gesamt + objekte[basis].grundflaeche;
        verbleibend' := StackSolver.DiscardAll(verbleibend, s);
      } else {
        LoopSkip(objekte, tabelle, begrenzt, cut, idx, stapel, verbleibend, gesamt, alle);
      }
    }

    /** The end of `loese_problem`: every object never placed becomes a stack of its own. */
    method EinzelstapelAnfuegen(stapel: seq<seq<nat>>, verbleibend: set<nat>, gesamt: real)
      returns (alle: seq<seq<nat>>, summe: real)
      requires Covered(|objekte|, stapel, verbleibend)
      requires gesamt == StackSolver.SumBaseAreas(objekte, stapel)
      ensures Covered(|objekte|, alle, {})
      ensures |stapel| <= |alle| && alle[..|stapel|] == stapel
      ensures forall i :: |stapel| <= i < |alle| ==> |alle[i]| == 1 && alle[i][0] in verbleibend
      ensures forall i, j :: |stapel| <= i < j < |alle| ==> alle[i][0] < alle[j][0]
      ensures summe == StackSolver.SumBaseAreas(objekte, alle)
    {
      alle, summe := stapel, gesamt;
      ghost var rest := verbleibend;
      var v := 0;
      while v < |objekte|
        invariant 0 <= v <= |objekte|
        invariant forall x :: x in rest <==> x in verbleibend && x >= v
        invariant Covered(|objekte|, alle, rest)
        invariant StackSolver.SingletonsAfter(stapel, alle, verbleibend, v)
        invariant summe == StackSolver.SumBaseAreas(objekte, alle)
      {
        if v in verbleibend {
          CoveredAppend(|objekte|, alle, rest, [v]);
          assert StackSolver.Members([v]) == {v};
          StackSolver.SumBaseAreasAppend(objekte, alle, [v]);
          ghost var vorher := alle;
          alle := alle + [[v]];
          StackSolver.SingletonsAfterStep(stapel, vorher, verbleibend, v, alle);
          summe := summe + objekte[v].grundflaeche;
          rest := rest - {v};
        }
        v := v + 1;
      }
      assert rest == {};
    }

    /**
     * `loese_problem`, with the clock replaced by `timeoutAt`. `None` stands for the
     * endless stack walk: `kette` is a walk from one of the top candidates that meets an
     * object twice, so the source never returns. Otherwise every object is in some stack,
     * though stacks may share objects, the greedy stacks are full DP chains from distinct
     * candidates none of which had been used, and the objects they leave out follow as
     * stacks of their own, in index order.
     */
    method LoeseProblem(timeoutAt: nat) returns (r: Option<StackSolver.Loesung>, ghost table: seq<Entry>,
                                                 ghost greedy: nat, ghost kette: seq<nat>)
      requires Valid()
      ensures IsLegacyDpTable(objekte, maxHoehe, graph, table)
      ensures r.None? ==>
        kette != [] && kette[0] in Candidates(objekte, table)[..StackSolver.Min(TopKBasen, |objekte|)] &&
        StackSolver.FollowsChain(table, kette) && !StackSolver.NoRepeats(kette)
      ensures r.None? <==> LegacyGreedy(table, Reached(objekte, table, timeoutAt), StackSolver.Members(Range(|objekte|))).None?
      ensures r.Some? ==> Covered(|objekte|, r.value.stapel, {})
      ensures r.Some? ==> r.value.gesamtGrundflaeche == StackSolver.SumBaseAreas(objekte, r.value.stapel)
      ensures r.Some? ==> greedy <= TopKBasen && greedy <= |r.value.stapel|
      ensures r.Some? ==>
        LegacyGreedy(table, Reached(objekte, table, timeoutAt), StackSolver.Members(Range(|objekte|))) ==
        Some(r.value.stapel[..greedy])
      ensures r.Some? ==> forall i :: 0 <= i < greedy ==>
        var s := r.value.stapel[i];
        s != [] && s[|s| - 1] < |table| && s[0] in Candidates(objekte, table)[..StackSolver.Min(TopKBasen, |objekte|)] &&
        StackSolver.FollowsChain(table, s) && table[s[|s| - 1]].nachfolger.None?
      ensures r.Some? ==> forall i, j :: 0 <= i < j < greedy ==> r.value.stapel[j][0] !in r.value.stapel[i]
      ensures r.Some? ==> forall i :: greedy <= i < |r.value.stapel| ==>
        |r.value.stapel[i]| == 1 && r.value.stapel[i][0] !in StackSolver.Concat(r.value.stapel[..greedy])
      ensures r.Some? ==> forall i, j :: greedy <= i < j < |r.value.stapel| ==> r.value.stapel[i][0] < r.value.stapel[j][0]
    {
      var tabelle := FindeOptimaleStapel();
      table := tabelle;
      LegacySuccessorsInRange(objekte, maxHoehe, graph, tabelle);
      var kandidaten := SortBy(StackSolver.AreaOrder(objekte), ByKeyDesc<nat>(CountKey(tabelle)));
      CandidatesInRange(objekte, tabelle);
      assert kandidaten == Candidates(objekte, table);
      var begrenzt := kandidaten[..StackSolver.Min(TopKBasen, |kandidaten|)];
      assert StackSolver.Reached(begrenzt, timeoutAt) == Reached(objekte, table, timeoutAt);
      var stapel, verbleibend, gesamt, endlos, k := GierigeAuswahl(tabelle, begrenzt, timeoutAt);
      ghost var g := LegacyGreedy(table, Reached(objekte, table, timeoutAt), StackSolver.Members(Range(|objekte|)));
      assert endlos <==> g.None?;
      greedy, kette := |stapel|, k;
      if endlos {
        return None, table, greedy, kette;
      }
      assert g == Some(stapel);
      var alle, summe := EinzelstapelAnfuegen(stapel, verbleibend, gesamt);
      forall i | 0 <= i < greedy ensures alle[i] == stapel[i] {
        assert alle[..|stapel|][i] == alle[i];
      }
      assert alle[..greedy] == stapel;
      assert g == Some(alle[..greedy]);
      forall i | 0 <= i < greedy
        ensures alle[i][0] in begrenzt && StackSolver.FollowsChain(table, alle[i])
        ensures alle[i] != [] && table[alle[i][|alle[i]| - 1]].nachfolger.None?
      {
        assert alle[i] == stapel[i];
      }
      forall i, j | 0 <= i < j < greedy ensures alle[j][0] !in alle[i] {
        assert alle[i] == stapel[i] && alle[j] == stapel[j];
      }
      forall i | greedy <= i < |alle| ensures alle[i][0] !in StackSolver.Concat(stapel) {
        assert alle[i][0] in verbleibend;
      }
      r := Some(StackSolver.Loesung(alle, summe));
    }
  }

  /** A member of one of the stacks is a member of their concatenation. */
  lemma {:induction false} ConcatHasMembers(ss: seq<seq<nat>>, i: nat)
    requires i < |ss|
    ensures forall x :: x in ss[i] ==> x in StackSolver.Concat(ss)
    decreases |ss|
  {
    var init := ss[..|ss| - 1];
    assert StackSolver.Concat(ss) == StackSolver.Concat(init) + ss[|ss| - 1];
    if i < |ss| - 1 {
      assert init[i] == ss[i];
      ConcatHasMembers(init, i);
    }
  }
}
