/**
 * The dynamic programme both stack optimisers run over the support graph
 * (`finde_optimale_stapel` in backend/src/make_3d_to_2d_problem.py and in
 * backend/make_3d_to_2d_problem.py): objects are indices, the graph is one ascending
 * neighbour list per object, and the DP dictionary is a table of entries indexed by object.
 */
module StackDp {
  import opened Wrappers

  /** An entry `(anzahl, hoehe, nachfolger)` of the DP dictionary. */
  datatype Entry = Entry(anzahl: nat, hoehe: real, nachfolger: Option<nat>)

  /** `unten.hoehe + hoehe_j <= max_hoehe`: the neighbour's stored stack still fits on top. */
  predicate Feasible(hu: real, maxH: real, e: Entry) {
    hu + e.hoehe <= maxH
  }

  predicate InTable(nbrs: seq<nat>, t: seq<Entry>) {
    forall k :: 0 <= k < |nbrs| ==> nbrs[k] < |t|
  }

  /**
   * The inner loop over `graph.neighbors(unten)`: starting from `best`, a neighbour
   * replaces the current best when it fits and strictly increases the count.
   */
  function ScanBest(best: Entry, hu: real, maxH: real, nbrs: seq<nat>, t: seq<Entry>): Entry
    requires InTable(nbrs, t)
    decreases |nbrs|
  {
    if nbrs == [] then best
    else
      var e := t[nbrs[0]];
      var next := if Feasible(hu, maxH, e) && e.anzahl + 1 > best.anzahl
        then Entry(e.anzahl + 1, hu + e.hoehe, Some(nbrs[0])) else best;
      ScanBest(next, hu, maxH, nbrs[1..], t)
  }

  /**
   * What the inner loop computes: the count of every fitting neighbour plus one is at
   * most the result's count; either nothing beat the start value, or the result is the
   * FIRST fitting neighbour (position `k`) reaching the maximal count, and it beats the
   * start value strictly.
   */
  lemma {:induction false} ScanBestIsFirstMaximum(best: Entry, hu: real, maxH: real, nbrs: seq<nat>, t: seq<Entry>)
    returns (k: nat)
    requires InTable(nbrs, t)
    decreases |nbrs|
    ensures var r := ScanBest(best, hu, maxH, nbrs, t);
      r.anzahl >= best.anzahl &&
      (forall j :: 0 <= j < |nbrs| && Feasible(hu, maxH, t[nbrs[j]]) ==> t[nbrs[j]].anzahl + 1 <= r.anzahl) &&
      (r == best ||
        (k < |nbrs| && Feasible(hu, maxH, t[nbrs[k]]) &&
         r == Entry(t[nbrs[k]].anzahl + 1, hu + t[nbrs[k]].hoehe, Some(nbrs[k])) &&
         r.anzahl > best.anzahl &&
         forall j :: 0 <= j < k && Feasible(hu, maxH, t[nbrs[j]]) ==> t[nbrs[j]].anzahl + 1 < r.anzahl))
  {
    if nbrs == [] {
      k := 0;
    } else {
      var e := t[nbrs[0]];
      var next := if Feasible(hu, maxH, e) && e.anzahl + 1 > best.anzahl
        then Entry(e.anzahl + 1, hu + e.hoehe, Some(nbrs[0])) else best;
      var tail := nbrs[1..];
      var k' := ScanBestIsFirstMaximum(next, hu, maxH, tail, t);
      var r := ScanBest(best, hu, maxH, nbrs, t);
      assert r == ScanBest(next, hu, maxH, tail, t);
      forall j | 0 <= j < |nbrs| && Feasible(hu, maxH, t[nbrs[j]])
        ensures t[nbrs[j]].anzahl + 1 <= r.anzahl
      {
        if j > 0 {
          assert nbrs[j] == tail[j - 1];
        }
      }
      if r == next {
        k := 0;
      } else {
        k := k' + 1;
        assert nbrs[k] == tail[k'];
        forall j | 0 <= j < k && Feasible(hu, maxH, t[nbrs[j]])
          ensures t[nbrs[j]].anzahl + 1 < r.anzahl
        {
          if j > 0 {
            assert nbrs[j] == tail[j - 1];
          }
        }
      }
    }
  }

  /** With a start value without successor, no successor means nothing fitting beat it. */
  lemma ScanBestNoSuccessor(best: Entry, hu: real, maxH: real, nbrs: seq<nat>, t: seq<Entry>)
    requires InTable(nbrs, t) && best.nachfolger.None?
    ensures var r := ScanBest(best, hu, maxH, nbrs, t);
      r.nachfolger.None? <==> r == best
    ensures var r := ScanBest(best, hu, maxH, nbrs, t);
      r.nachfolger.Some? ==>
        r.nachfolger.value in nbrs && Feasible(hu, maxH, t[r.nachfolger.value]) &&
        r.anzahl == t[r.nachfolger.value].anzahl + 1 && r.hoehe == hu + t[r.nachfolger.value].hoehe
  {
    var k := ScanBestIsFirstMaximum(best, hu, maxH, nbrs, t);
  }

  /**
   * The inner loop started from an object alone, `(1, hoehe, None)`, over a table whose
   * counts are all positive: no successor exactly when no neighbour fits, and a successor
   * adds one to its count and its height to the object's own.
   */
  lemma ScanBestFromAlone(h: real, maxH: real, nbrs: seq<nat>, t: seq<Entry>)
    requires InTable(nbrs, t)
    requires forall v :: 0 <= v < |t| ==> t[v].anzahl >= 1
    ensures var r := ScanBest(Entry(1, h, None), h, maxH, nbrs, t);
      r.anzahl >= 1 &&
      (r.nachfolger.None? <==> forall j :: 0 <= j < |nbrs| ==> !Feasible(h, maxH, t[nbrs[j]])) &&
      (r.nachfolger.None? ==> r == Entry(1, h, None)) &&
      (r.nachfolger.Some? ==>
        r.nachfolger.value in nbrs && Feasible(h, maxH, t[r.nachfolger.value]) &&
        r.anzahl == t[r.nachfolger.value].anzahl + 1 && r.hoehe == h + t[r.nachfolger.value].hoehe)
  {
    var start := Entry(1, h, None);
    var k := ScanBestIsFirstMaximum(start, h, maxH, nbrs, t);
    ScanBestNoSuccessor(start, h, maxH, nbrs, t);
    var r := ScanBest(start, h, maxH, nbrs, t);
    if r.nachfolger.None? {
      forall j | 0 <= j < |nbrs| ensures !Feasible(h, maxH, t[nbrs[j]]) {
        assert t[nbrs[j]].anzahl >= 1;
      }
    }
  }

  /** The inner loop itself. */
  method BestSuccessor(start: Entry, hu: real, maxH: real, nbrs: seq<nat>, t: seq<Entry>) returns (best: Entry)
    requires InTable(nbrs, t)
    ensures best == ScanBest(start, hu, maxH, nbrs, t)
  {
    best := start;
    var k := 0;
    while k < |nbrs|
      invariant 0 <= k <= |nbrs|
      invariant ScanBest(best, hu, maxH, nbrs[k..], t) == ScanBest(start, hu, maxH, nbrs, t)
    {
      assert nbrs[k..][1..] == nbrs[k + 1..];
      var e := t[nbrs[k]];
      if Feasible(hu, maxH, e) {
        if e.anzahl + 1 > best.anzahl {
          best := Entry(e.anzahl + 1, hu + e.hoehe, Some(nbrs[k]));
        }
      }
      k := k + 1;
    }
  }

  /**
   * The table the DP loop sees when it processes `order[k]`: objects later in `order`
   * already hold their final entries, all others still hold their initial ones.
   */
  ghost function SeenTable(order: seq<nat>, k: nat, table: seq<Entry>, initial: seq<Entry>): (r: seq<Entry>)
    requires |initial| == |table| && k < |order|
    ensures |r| == |table|
  {
    seq(|table|, v requires 0 <= v < |table| => if v in order[k + 1..] then table[v] else initial[v])
  }

  lemma SeenTableFrame(order: seq<nat>, k: nat, table: seq<Entry>, initial: seq<Entry>, u: nat, e: Entry)
    requires |initial| == |table| && u < |table| && k < |order|
    requires u !in order[k + 1..]
    ensures SeenTable(order, k, table[u := e], initial) == SeenTable(order, k, table, initial)
  {
  }

  /** When `order[k]` is processed, the current table is exactly the table it sees. */
  lemma SeenTableIsCurrent(order: seq<nat>, k: nat, table: seq<Entry>, initial: seq<Entry>, e: Entry)
    requires |initial| == |table| && k < |order| && order[k] < |table|
    requires order[k] !in order[k + 1..]
    requires forall v :: 0 <= v < |table| && v !in order[k + 1..] ==> table[v] == initial[v]
    ensures SeenTable(order, k, table[order[k] := e], initial) == table
  {
    var t' := table[order[k] := e];
    var s := SeenTable(order, k, t', initial);
    forall v | 0 <= v < |table| ensures s[v] == table[v] {
      if v in order[k + 1..] {
        assert v != order[k];
      }
    }
  }
}
