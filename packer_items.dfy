/**
 * What the two order readers (backend/Algorithm/order_parser.py and
 * backend/src/order_parser.py) hand to the packer: one item record per accepted
 * object, numbered by `sequential_type_id` in the order the objects were accepted, and
 * the map from that number to the item's name and geometry type. The numbering loop and
 * the type map are the same code in both files; only the reading of one object differs,
 * so each reader passes its own `Reader`.
 */
module PackerItems {
  import opened Wrappers
  import opened PyJson
  import Solids

  /** `GEOM_RECT` and `GEOM_CIRCLE`. */
  const GeomRect: nat := 0
  const GeomCircle: nat := 1

  /** The fields of an item dict other than `sequential_type_id`; `Id` is the type of `original_json_id`. */
  datatype Item<Id> = Item(originalJsonId: Id, name: Json, anzahl: int, weight: real,
                           geomType: nat, wBb: real, hBb: real, radius: real, area: real)

  /** The geometry fields of an item: `geom_type`, `w_bb`, `h_bb`, `radius`, `area`. */
  datatype Geometry = Geometry(geomType: nat, wBb: real, hBb: real, radius: real, area: real)

  /**
   * The geometry fields agree with each other as the readers fill them: a rectangle has
   * radius 0 and area `w_bb * h_bb`; a circle has a square bounding box of side twice its
   * radius and area `math.pi * r**2`.
   */
  predicate GeometryConsistent(g: Geometry) {
    (g.geomType == GeomRect && g.radius == 0.0 && g.area == g.wBb * g.hBb) ||
    (g.geomType == GeomCircle && g.wBb == 2.0 * g.radius && g.hBb == 2.0 * g.radius &&
     g.area == Solids.Pi * (g.radius * g.radius))
  }

  /** The geometry fields an item carries. */
  function GeometryOf<Id>(it: Item<Id>): Geometry {
    Geometry(it.geomType, it.wBb, it.hBb, it.radius, it.area)
  }

  /** An item whose geometry fields agree with each other. */
  predicate ConsistentGeometry<Id>(it: Item<Id>) {
    GeometryConsistent(GeometryOf(it))
  }

  /** `{"geom_type": GEOM_RECT, "w_bb": w, "h_bb": h, "radius": 0.0, "area": w * h}`. */
  function RectangleGeometry(w: real, h: real): (g: Geometry)
    ensures GeometryConsistent(g) && g.geomType == GeomRect
  {
    Geometry(GeomRect, w, h, 0.0, w * h)
  }

  /** `{"geom_type": GEOM_CIRCLE, "w_bb": r * 2, "h_bb": r * 2, "radius": r, "area": math.pi * r**2}`. */
  function CircleGeometry(r: real): (g: Geometry)
    ensures GeometryConsistent(g) && g.geomType == GeomCircle
  {
    Geometry(GeomCircle, r * 2.0, r * 2.0, r, Solids.Pi * (r * r))
  }

  /** `item_data.update(geometry)`: the item carries the geometry's fields, so consistent geometry makes a consistent item. */
  function WithGeometry<Id>(id: Id, name: Json, anzahl: int, weight: real, g: Geometry): (it: Item<Id>)
    ensures GeometryOf(it) == g
    ensures GeometryConsistent(g) ==> ConsistentGeometry(it)
  {
    Item(id, name, anzahl, weight, g.geomType, g.wBb, g.hBb, g.radius, g.area)
  }

  datatype Definition<Id> = Definition(sequentialTypeId: nat, item: Item<Id>)

  /** The value `{"name": ..., "geom_type": ...}` of the type map. */
  datatype TypeDescription = TypeDescription(name: Json, geomType: nat)

  /**
   * The body of the reading loop for the object at a position: `Raise` for an exception
   * the loop does not catch, `Ok(None)` for an object skipped (by `continue` or by a caught
   * exception), `Ok(Some(item))` for an accepted one.
   */
  type Reader<Id> = (Json, nat) -> Py<Option<Item<Id>>>

  predicate IsAccepted<Id>(outcome: Py<Option<Item<Id>>>) {
    outcome.Ok? && outcome.value.Some?
  }

  /** The accepted items among `objs[..n]`, in list order. */
  function Accepted<Id>(objs: seq<Json>, read: Reader<Id>, n: nat): seq<Item<Id>>
    requires n <= |objs|
  {
    if n == 0 then []
    else
      var outcome := read(objs[n - 1], n - 1);
      if IsAccepted(outcome) then Accepted(objs, read, n - 1) + [outcome.value.value]
      else Accepted(objs, read, n - 1)
  }

  /** Some object raises an exception the loop does not catch. */
  ghost predicate Raises<Id>(objs: seq<Json>, read: Reader<Id>) {
    exists k :: 0 <= k < |objs| && read(objs[k], k).Raise?
  }

  /**
   * The accepted items are exactly the accepted objects, in increasing list position:
   * `pos[t]` is where the `t`-th item came from, and every accepted position occurs.
   */
  lemma {:induction false} AcceptedIsSubsequence<Id>(objs: seq<Json>, read: Reader<Id>, n: nat) returns (pos: seq<nat>)
    requires n <= |objs|
    ensures |pos| == |Accepted(objs, read, n)|
    ensures forall t :: 0 <= t < |pos| ==>
      pos[t] < n && read(objs[pos[t]], pos[t]) == Ok(Some(Accepted(objs, read, n)[t]))
    ensures forall t, u :: 0 <= t < u < |pos| ==> pos[t] < pos[u]
    ensures forall k :: 0 <= k < n && IsAccepted(read(objs[k], k)) ==> k in pos
  {
    if n == 0 {
      pos := [];
    } else {
      var prev := AcceptedIsSubsequence(objs, read, n - 1);
      var outcome := read(objs[n - 1], n - 1);
      if IsAccepted(outcome) {
        pos := prev + [n - 1];
        assert Accepted(objs, read, n) == Accepted(objs, read, n - 1) + [outcome.value.value];
      } else {
        pos := prev;
      }
    }
  }

  /** There are never more items than objects. */
  lemma {:induction false} AcceptedAtMostObjects<Id>(objs: seq<Json>, read: Reader<Id>, n: nat)
    requires n <= |objs|
    ensures |Accepted(objs, read, n)| <= n
  {
    if n > 0 {
      AcceptedAtMostObjects(objs, read, n - 1);
    }
  }

  /**
   * The loop of `_create_object_definitions` over the object list: an uncaught exception
   * ends the reading; otherwise the accepted items, numbered 0, 1, 2, ... by
   * `sequential_id_counter`, which skipped objects do not advance.
   */
  method CollectDefinitions<Id>(objs: seq<Json>, read: Reader<Id>) returns (r: Py<seq<Definition<Id>>>)
    ensures r.Raise? <==> Raises(objs, read)
    ensures r.Raise? ==> exists k :: 0 <= k < |objs| && read(objs[k], k) == Raise(r.exc) &&
                                 forall j :: 0 <= j < k ==> read(objs[j], j).Ok?
    ensures r.Ok? ==> r.value == Numbered(Accepted(objs, read, |objs|))
  {
    var definitions: seq<Definition<Id>> := [];
    var counter: nat := 0;
    for i := 0 to |objs|
      invariant counter == |definitions| == |Accepted(objs, read, i)|
      invariant forall t :: 0 <= t < |definitions| ==> definitions[t] == Definition(t, Accepted(objs, read, i)[t])
      invariant forall j :: 0 <= j < i ==> read(objs[j], j).Ok?
    {
      var outcome := read(objs[i], i);
      if outcome.Raise? {
        return Raise(outcome.exc);
      }
      if outcome.value.Some? {
        definitions := definitions + [Definition(counter, outcome.value.value)];
        counter := counter + 1;
      }
    }
    r := Ok(definitions);
  }

  /** The items numbered 0, 1, 2, ... in order. */
  function Numbered<Id>(items: seq<Item<Id>>): (ds: seq<Definition<Id>>)
    ensures |ds| == |items|
    ensures forall t :: 0 <= t < |items| ==> ds[t] == Definition(t, items[t])
  {
    seq(|items|, t requires 0 <= t < |items| => Definition(t, items[t]))
  }

  function Describe<Id>(d: Definition<Id>): TypeDescription {
    TypeDescription(d.item.name, d.item.geomType)
  }

  /**
   * `m` is what `type_map[d["sequential_type_id"]] = {...}` leaves after a pass over
   * `defs[..n]`: one key per number that occurs, holding the description of the last
   * definition with that number.
   */
  /** No definition of `defs[t + 1..n]` has the number of `defs[t]`. */
  ghost predicate LastWithNumber<Id>(defs: seq<Definition<Id>>, t: nat, n: nat)
    requires t < n <= |defs|
  {
    forall u :: t < u < n ==> defs[u].sequentialTypeId != defs[t].sequentialTypeId
  }

  ghost predicate IsTypeMapOfPrefix<Id>(m: map<nat, TypeDescription>, defs: seq<Definition<Id>>, n: nat)
    requires n <= |defs|
  {
    (forall key :: key in m <==> exists t :: 0 <= t < n && defs[t].sequentialTypeId == key) &&
    (forall t :: 0 <= t < n && LastWithNumber(defs, t, n) ==>
       defs[t].sequentialTypeId in m && m[defs[t].sequentialTypeId] == Describe(defs[t]))
  }

  ghost predicate IsTypeMapOf<Id>(m: map<nat, TypeDescription>, defs: seq<Definition<Id>>) {
    IsTypeMapOfPrefix(m, defs, |defs|)
  }

  /** `get_type_description_map`. */
  method TypeDescriptionMap<Id>(defs: seq<Definition<Id>>) returns (m: map<nat, TypeDescription>)
    ensures IsTypeMapOf(m, defs)
  {
    m := map[];
    for i := 0 to |defs|
      invariant IsTypeMapOfPrefix(m, defs, i)
    {
      TypeMapStep(m, defs, i);
      m := m[defs[i].sequentialTypeId := Describe(defs[i])];
    }
  }

  /** One assignment of the loop extends the pass by one definition. */
  lemma TypeMapStep<Id>(m: map<nat, TypeDescription>, defs: seq<Definition<Id>>, i: nat)
    requires i < |defs| && IsTypeMapOfPrefix(m, defs, i)
    ensures IsTypeMapOfPrefix(m[defs[i].sequentialTypeId := Describe(defs[i])], defs, i + 1)
  {
    var m' := m[defs[i].sequentialTypeId := Describe(defs[i])];
    TypeMapStepKeys(m, m', defs, i);
    TypeMapStepValues(m, m', defs, i);
  }

  /** The keys after one more assignment are the numbers of the definitions so far. */
  lemma TypeMapStepKeys<Id>(m: map<nat, TypeDescription>, m': map<nat, TypeDescription>, defs: seq<Definition<Id>>, i: nat)
    requires i < |defs| && m' == m[defs[i].sequentialTypeId := Describe(defs[i])]
    requires forall key :: key in m <==> exists t :: 0 <= t < i && defs[t].sequentialTypeId == key
    ensures forall key :: key in m' <==> exists t :: 0 <= t < i + 1 && defs[t].sequentialTypeId == key
  {
    forall key ensures key in m' <==> exists t :: 0 <= t < i + 1 && defs[t].sequentialTypeId == key {
      if key == defs[i].sequentialTypeId {
        assert 0 <= i < i + 1 && defs[i].sequentialTypeId == key;
      }
    }
  }

  /** After one more assignment, each number holds the description of the last definition with it. */
  lemma TypeMapStepValues<Id>(m: map<nat, TypeDescription>, m': map<nat, TypeDescription>, defs: seq<Definition<Id>>, i: nat)
    requires i < |defs| && m' == m[defs[i].sequentialTypeId := Describe(defs[i])]
    requires forall t :: 0 <= t < i && LastWithNumber(defs, t, i) ==>
       defs[t].sequentialTypeId in m && m[defs[t].sequentialTypeId] == Describe(defs[t])
    ensures forall t :: 0 <= t < i + 1 && LastWithNumber(defs, t, i + 1) ==>
       defs[t].sequentialTypeId in m' && m'[defs[t].sequentialTypeId] == Describe(defs[t])
  {
    forall t | 0 <= t < i + 1 && LastWithNumber(defs, t, i + 1)
      ensures defs[t].sequentialTypeId in m' && m'[defs[t].sequentialTypeId] == Describe(defs[t])
    {
      if t < i {
        assert defs[i].sequentialTypeId != defs[t].sequentialTypeId;
        assert LastWithNumber(defs, t, i);
      }
    }
  }

  /**
   * With the numbering the readers produce (the `t`-th definition has number `t`), the
   * type map has exactly the keys `0 .. n-1`, one per definition, each holding that
   * definition's name and geometry type.
   */
  lemma SequentialTypeMap<Id>(m: map<nat, TypeDescription>, defs: seq<Definition<Id>>)
    requires IsTypeMapOf(m, defs)
    requires forall t :: 0 <= t < |defs| ==> defs[t].sequentialTypeId == t
    ensures forall key: nat :: key in m <==> key < |defs|
    ensures forall t :: 0 <= t < |defs| ==> t in m && m[t] == Describe(defs[t])
  {
    forall key: nat | key < |defs| ensures key in m {
      assert defs[key].sequentialTypeId == key;
    }
  }
}
