/**
 * `OrderParser` of backend/Algorithm/order_parser.py: reads the `order` part of an order
 * document (the value `data.get("order")` of the decoded file), chooses the container
 * whose inner width and length become the packing area, and turns the ordered objects
 * into packer items. The fields are assigned once by the constructor, so the parser is a
 * value here.
 */
module AlgorithmOrderParser {
  import opened Wrappers
  import opened PyJson
  import opened Sorting
  import opened PackerItems
  import Solids
  import Decimal

  /** `(area_w, area_h, max_weight)`. */
  datatype Dims = Dims(areaW: real, areaH: real, maxWeight: Option<real>)

  datatype OrderParser = OrderParser(rawOrderData: Json, objectDefinitions: seq<Definition<int>>)

  /** A `container_type_name` argument that selects explicitly: not `None` and not empty. */
  predicate Named(containerTypeName: Option<string>) {
    containerTypeName.Some? && containerTypeName.value != ""
  }

  /** `raw_order_data.get("container_definitions", [])` as the loops see it; `Ok([])` when it is falsy. */
  function DefinitionsOf(raw: Json): Py<seq<Json>> {
    var d :- Get(raw, "container_definitions", JArr([]));
    if !Truthy(d) then Ok([]) else Elements(d, AttributeError)
  }

  /** `container.get("type") == container_type_name`; only a dict has `get`. */
  function TypeMatches(c: Json, name: string): (r: Py<bool>)
    ensures r.Raise? <==> !c.JObj?
  {
    if c.JObj? then Ok(PyEq(Field(c.fields, "type", JNull), JStr(name))) else Raise(AttributeError)
  }

  /** `(float(dims["width"]), float(dims["length"]))`, or `None` if either step raises. */
  function WidthAndLength(dims: Json): Option<(real, real)> {
    match (Subscript(dims, "width"), Subscript(dims, "length"))
    case (Ok(w), Ok(l)) =>
      (match (Float(w), Float(l))
       case (Ok(fw), Ok(fl)) => Some((fw, fl))
       case _ => None)
    case _ => None
  }

  /**
   * The area under which the automatic selection records a dict container: `None` unless
   * `use` is truthy and `inner_dimensions` holds a readable width and length.
   */
  function UsableArea(c: Json): Option<real>
    requires c.JObj?
  {
    if !Truthy(Field(c.fields, "use", JBool(false))) || "inner_dimensions" !in c.fields then None
    else
      match WidthAndLength(c.fields["inner_dimensions"])
      case Some((w, l)) => Some(w * l)
      case None => None
  }

  predicate DictsBelow(defs: seq<Json>, n: nat) {
    forall j :: 0 <= j < n && j < |defs| ==> defs[j].JObj?
  }

  predicate AllDicts(defs: seq<Json>) {
    DictsBelow(defs, |defs|)
  }

  predicate IsUsable(defs: seq<Json>, j: nat) {
    j < |defs| && defs[j].JObj? && UsableArea(defs[j]).Some?
  }

  /** The first definition whose `type` equals the requested name. */
  ghost predicate FirstMatch(defs: seq<Json>, name: string, k: nat) {
    k < |defs| && TypeMatches(defs[k], name) == Ok(true) &&
    forall j :: 0 <= j < k ==> TypeMatches(defs[j], name) == Ok(false)
  }

  /** The explicit search meets a definition that is not a dict before any match. */
  ghost predicate ExplicitSearchRaises(defs: seq<Json>, name: string) {
    exists j :: 0 <= j < |defs| && !defs[j].JObj? && forall i :: 0 <= i < j ==> TypeMatches(defs[i], name) == Ok(false)
  }

  /** No explicit name was given, or no definition has that type: the automatic selection runs. */
  ghost predicate AutomaticSelection(defs: seq<Json>, containerTypeName: Option<string>) {
    !Named(containerTypeName) ||
    forall j :: 0 <= j < |defs| ==> TypeMatches(defs[j], containerTypeName.value) == Ok(false)
  }

  /** `k` is a usable container of least area, and no usable container before it has that area. */
  ghost predicate IsSmallestUsable(defs: seq<Json>, k: nat)
    requires AllDicts(defs)
  {
    IsUsable(defs, k) &&
    (forall j :: 0 <= j < |defs| && IsUsable(defs, j) ==> UsableArea(defs[k]).value <= UsableArea(defs[j]).value) &&
    (forall j :: 0 <= j < k && IsUsable(defs, j) ==> UsableArea(defs[j]).value > UsableArea(defs[k]).value)
  }

  /** The definition `get_container_dimensions` settles on, as its comments describe the choice. */
  ghost predicate Selected(defs: seq<Json>, containerTypeName: Option<string>, k: nat) {
    (Named(containerTypeName) && FirstMatch(defs, containerTypeName.value, k)) ||
    (AutomaticSelection(defs, containerTypeName) && AllDicts(defs) &&
     (IsSmallestUsable(defs, k) || (k == 0 < |defs| && forall j :: 0 <= j < |defs| ==> !IsUsable(defs, j))))
  }

  /** The selection crashes with AttributeError on a definition that is not a dict. */
  ghost predicate SelectionRaises(defs: seq<Json>, containerTypeName: Option<string>) {
    (Named(containerTypeName) && ExplicitSearchRaises(defs, containerTypeName.value)) ||
    (AutomaticSelection(defs, containerTypeName) && !AllDicts(defs))
  }

  /**
   * Step 5: the chosen container's dimensions and `max_weight_kg` (`None` when absent or
   * `null`); any KeyError, TypeError or ValueError gives `None`. The handler itself calls
   * `target_def.get`, which raises on a definition that is not a dict.
   */
  function FinalDims(c: Json): (r: Py<Option<Dims>>)
    ensures r.Raise? <==> !c.JObj?
  {
    if !c.JObj? then Raise(AttributeError)
    else if "inner_dimensions" !in c.fields then Ok(None)
    else
      match WidthAndLength(c.fields["inner_dimensions"])
      case None => Ok(None)
      case Some((w, l)) =>
        var mw := Field(c.fields, "max_weight_kg", JNull);
        if mw == JNull then Ok(Some(Dims(w, l, None)))
        else
          match Float(mw)
          case Ok(v) => Ok(Some(Dims(w, l, Some(v))))
          case Raise(_) => Ok(None)
  }

  /** The `(value, index)` pairs of the present entries of `opts`, in index order. */
  function Collect(opts: seq<Option<real>>): seq<(real, nat)>
    decreases |opts|
  {
    if opts == [] then []
    else
      var prev := Collect(opts[..|opts| - 1]);
      match opts[|opts| - 1]
      case Some(a) => prev + [(a, |opts| - 1)]
      case None => prev
  }

  /** `Collect` lists exactly the present entries, each under its own index, in increasing index order. */
  lemma {:induction false} CollectFacts(opts: seq<Option<real>>)
    ensures forall t :: 0 <= t < |Collect(opts)| ==>
      Collect(opts)[t].1 < |opts| && opts[Collect(opts)[t].1] == Some(Collect(opts)[t].0)
    ensures forall t, u :: 0 <= t < u < |Collect(opts)| ==> Collect(opts)[t].1 < Collect(opts)[u].1
    ensures forall j :: 0 <= j < |opts| && opts[j].Some? ==> exists t :: 0 <= t < |Collect(opts)| && Collect(opts)[t].1 == j
  {
    if opts != [] {
      var n := |opts|;
      var init := opts[..n - 1];
      CollectFacts(init);
      var prev := Collect(init);
      var full := Collect(opts);
      assert forall j :: 0 <= j < n - 1 ==> init[j] == opts[j];
      if opts[n - 1].Some? {
        var last := (opts[n - 1].value, n - 1);
        assert full == prev + [last];
        forall t | 0 <= t < |full| ensures full[t].1 < n && opts[full[t].1] == Some(full[t].0) {
          if t < |prev| {
            assert full[t] == prev[t];
          }
        }
        forall t, u | 0 <= t < u < |full| ensures full[t].1 < full[u].1 {
          assert full[t] == prev[t];
          if u < |prev| {
            assert full[u] == prev[u];
          }
        }
        forall j | 0 <= j < n && opts[j].Some? ensures exists t :: 0 <= t < |full| && full[t].1 == j {
          if j == n - 1 {
            assert full[|prev|].1 == j;
          } else {
            assert init[j].Some?;
            var t :| 0 <= t < |prev| && prev[t].1 == j;
            assert full[t].1 == j;
          }
        }
      } else {
        assert full == prev;
        forall j | 0 <= j < n && opts[j].Some? ensures exists t :: 0 <= t < |full| && full[t].1 == j {
          assert j != n - 1 && init[j].Some?;
        }
      }
    }
  }

  /** The usable area of each of `defs[..n]`, `None` for a container that is not usable. */
  function Areas(defs: seq<Json>, n: nat): (r: seq<Option<real>>)
    requires DictsBelow(defs, n) && n <= |defs|
    ensures |r| == n && forall j :: 0 <= j < n ==> r[j] == UsableArea(defs[j])
  {
    seq(n, j requires 0 <= j < n => UsableArea(defs[j]))
  }

  /** `[(area, index)]` for the usable containers among `defs[..n]`, in list order. */
  function UsableList(defs: seq<Json>, n: nat): seq<(real, nat)>
    requires DictsBelow(defs, n) && n <= |defs|
  {
    Collect(Areas(defs, n))
  }

  lemma UsableListFacts(defs: seq<Json>, n: nat)
    requires DictsBelow(defs, n) && n <= |defs|
    ensures forall t :: 0 <= t < |UsableList(defs, n)| ==>
      UsableList(defs, n)[t].1 < n && UsableArea(defs[UsableList(defs, n)[t].1]) == Some(UsableList(defs, n)[t].0)
    ensures forall t, u :: 0 <= t < u < |UsableList(defs, n)| ==> UsableList(defs, n)[t].1 < UsableList(defs, n)[u].1
    ensures forall j :: 0 <= j < n && IsUsable(defs, j) ==> exists t :: 0 <= t < |UsableList(defs, n)| && UsableList(defs, n)[t].1 == j
  {
    var opts := Areas(defs, n);
    CollectFacts(opts);
    assert UsableList(defs, n) == Collect(opts);
    forall j | 0 <= j < n && IsUsable(defs, j)
      ensures exists t :: 0 <= t < |UsableList(defs, n)| && UsableList(defs, n)[t].1 == j
    {
      assert opts[j] == UsableArea(defs[j]);
      var t :| 0 <= t < |Collect(opts)| && Collect(opts)[t].1 == j;
    }
  }

  function AreaKey(e: (real, nat)): real {
    e.0
  }

  /**
   * The usable containers as `(area, index)` pairs in index order, every usable one
   * among them, and `us[p]` a first least entry: then `us[p]` names a smallest usable
   * container that no usable container before it ties.
   */
  lemma FirstLeastEntryIsSmallestUsable(defs: seq<Json>, us: seq<(real, nat)>, p: nat)
    requires AllDicts(defs) && p < |us|
    requires forall t :: 0 <= t < |us| ==> us[t].1 < |defs| && UsableArea(defs[us[t].1]) == Some(us[t].0)
    requires forall t, u :: 0 <= t < u < |us| ==> us[t].1 < us[u].1
    requires forall j :: 0 <= j < |defs| && IsUsable(defs, j) ==> exists t :: 0 <= t < |us| && us[t].1 == j
    requires forall t :: 0 <= t < |us| ==> us[p].0 <= us[t].0
    requires forall t :: 0 <= t < p ==> us[t].0 > us[p].0
    ensures IsSmallestUsable(defs, us[p].1)
  {
    var k := us[p].1;
    forall j | 0 <= j < |defs| && IsUsable(defs, j)
      ensures UsableArea(defs[k]).value <= UsableArea(defs[j]).value
      ensures j < k ==> UsableArea(defs[j]).value > UsableArea(defs[k]).value
    {
      var t :| 0 <= t < |us| && us[t].1 == j;
      assert t < p || t == p || t > p;
    }
  }

  /** The head of the area sort is an entry of least area, and no earlier entry ties it. */
  lemma AreaSortHead(us: seq<(real, nat)>) returns (p: nat)
    requires us != []
    ensures p < |us| && SortBy(us, ByKeyAsc(AreaKey))[0] == us[p]
    ensures forall t :: 0 <= t < |us| ==> us[p].0 <= us[t].0
    ensures forall t :: 0 <= t < p ==> us[t].0 > us[p].0
  {
    var le := ByKeyAsc(AreaKey);
    ByKeyAscIsPreorder(AreaKey);
    p := SortByHeadIsFirstMinimum(us, le);
    forall t | 0 <= t < |us| ensures us[p].0 <= us[t].0 {
      assert le(us[p], us[t]) == (AreaKey(us[p]) <= AreaKey(us[t]));
    }
    forall t | 0 <= t < p ensures us[t].0 > us[p].0 {
      assert le(us[t], us[p]) == (AreaKey(us[t]) <= AreaKey(us[p]));
    }
  }

  /**
   * The head of `usable_containers.sort(key=lambda x: x[0])` names a smallest usable
   * container, and the stable sort makes it the first among equal areas.
   */
  lemma SortedHeadIsSmallestUsable(defs: seq<Json>)
    requires AllDicts(defs)
    requires UsableList(defs, |defs|) != []
    ensures IsSmallestUsable(defs, SortBy(UsableList(defs, |defs|), ByKeyAsc(AreaKey))[0].1)
  {
    var us := UsableList(defs, |defs|);
    UsableListFacts(defs, |defs|);
    var p := AreaSortHead(us);
    FirstLeastEntryIsSmallestUsable(defs, us, p);
  }

  /** The choice of `get_container_dimensions` is unique. */
  lemma SelectedIsUnique(defs: seq<Json>, containerTypeName: Option<string>, k1: nat, k2: nat)
    requires Selected(defs, containerTypeName, k1) && Selected(defs, containerTypeName, k2)
    ensures k1 == k2
  {
    if Named(containerTypeName) && FirstMatch(defs, containerTypeName.value, k1) {
      assert TypeMatches(defs[k1], containerTypeName.value) == Ok(true);
    } else if Named(containerTypeName) && FirstMatch(defs, containerTypeName.value, k2) {
    } else {
      if IsSmallestUsable(defs, k1) {
        assert IsUsable(defs, k1);
      }
      if IsSmallestUsable(defs, k2) {
        assert IsUsable(defs, k2);
      }
    }
  }

  /** The loop of step 1: the first definition of the requested type, stopping with AttributeError at a non-dict. */
  method ExplicitChoice(defs: seq<Json>, name: string) returns (r: Py<Option<nat>>)
    ensures r.Raise? <==> ExplicitSearchRaises(defs, name)
    ensures r.Raise? ==> r.exc == AttributeError
    ensures r.Ok? && r.value.Some? ==> FirstMatch(defs, name, r.value.value)
    ensures r == Ok(None) <==> forall j :: 0 <= j < |defs| ==> TypeMatches(defs[j], name) == Ok(false)
  {
    for i := 0 to |defs|
      invariant forall j :: 0 <= j < i ==> TypeMatches(defs[j], name) == Ok(false)
    {
      var m := TypeMatches(defs[i], name);
      if m.Raise? {
        return Raise(m.exc);
      }
      if m.value {
        assert !ExplicitSearchRaises(defs, name) by {
          forall j | 0 <= j < |defs| && !defs[j].JObj?
            ensures exists l :: 0 <= l < j && TypeMatches(defs[l], name) != Ok(false)
          {
            assert TypeMatches(defs[i], name) == Ok(true);
          }
        }
        return Ok(Some(i));
      }
    }
    r := Ok(None);
  }

  /** The loop of step 2 looks at one more definition. */
  lemma UsableListStep(defs: seq<Json>, i: nat)
    requires i < |defs| && DictsBelow(defs, i) && defs[i].JObj?
    ensures DictsBelow(defs, i + 1)
    ensures UsableList(defs, i + 1) ==
      if UsableArea(defs[i]).Some? then UsableList(defs, i) + [(UsableArea(defs[i]).value, i)] else UsableList(defs, i)
  {
    assert Areas(defs, i + 1)[..i] == Areas(defs, i);
  }

  /**
   * Steps 2 to 4 on definitions without a match: the smallest `use: true` container,
   * else the first definition; AttributeError at a definition that is not a dict.
   */
  method AutomaticChoice(defs: seq<Json>) returns (r: Py<nat>)
    requires defs != []
    ensures r.Raise? <==> !AllDicts(defs)
    ensures r.Raise? ==> r.exc == AttributeError
    ensures r.Ok? ==> IsSmallestUsable(defs, r.value) || (r.value == 0 && forall j :: 0 <= j < |defs| ==> !IsUsable(defs, j))
  {
    var usable: seq<(real, nat)> := [];
    for i := 0 to |defs|
      invariant DictsBelow(defs, i)
      invariant usable == UsableList(defs, i)
    {
      if !defs[i].JObj? {
        return Raise(AttributeError);
      }
      var u := UsableArea(defs[i]);
      UsableListStep(defs, i);
      if u.Some? {
        usable := usable + [(u.value, i)];
      }
    }
    if usable == [] {
      UsableListFacts(defs, |defs|);
      r := Ok(0);
    } else {
      SortedHeadIsSmallestUsable(defs);
      var sorted := SortBy(usable, ByKeyAsc(AreaKey));
      r := Ok(sorted[0].1);
    }
  }

  /**
   * `get_container_dimensions(container_type_name)`. With no definitions the result is
   * `None`. Otherwise it reads the dimensions of the selected definition: the first whose
   * `type` is the given name; failing that, the `use: true` container of least area with
   * readable dimensions (the first among equal areas); failing that, the first
   * definition. Definitions that are not dicts make it crash with AttributeError.
   */
  method GetContainerDimensions(p: OrderParser, containerTypeName: Option<string>) returns (r: Py<Option<Dims>>)
    ensures DefinitionsOf(p.rawOrderData).Raise? ==> r == Raise(DefinitionsOf(p.rawOrderData).exc)
    ensures DefinitionsOf(p.rawOrderData) == Ok([]) ==> r == Ok(None)
    ensures DefinitionsOf(p.rawOrderData).Ok? && DefinitionsOf(p.rawOrderData).value != [] ==>
      var defs := DefinitionsOf(p.rawOrderData).value;
      (SelectionRaises(defs, containerTypeName) ==> r == Raise(AttributeError)) &&
      (!SelectionRaises(defs, containerTypeName) ==>
         exists k: nat :: k < |defs| && Selected(defs, containerTypeName, k) && r == FinalDims(defs[k]))
  {
    var d := Get(p.rawOrderData, "container_definitions", JArr([]));
    if d.Raise? {
      return Raise(d.exc);
    }
    if !Truthy(d.value) {
      return Ok(None);
    }
    var es := Elements(d.value, AttributeError);
    if es.Raise? {
      return Raise(es.exc);
    }
    var defs := es.value;
    assert defs == DefinitionsOf(p.rawOrderData).value;
    var target: nat := 0;
    var explicit: Py<Option<nat>> := Ok(None);
    if Named(containerTypeName) {
      explicit := ExplicitChoice(defs, containerTypeName.value);
      if explicit.Raise? {
        return Raise(explicit.exc);
      }
    }
    if explicit.value.Some? {
      target := explicit.value.value;
      assert TypeMatches(defs[target], containerTypeName.value) == Ok(true);
    } else {
      assert AutomaticSelection(defs, containerTypeName);
      var auto := AutomaticChoice(defs);
      if auto.Raise? {
        return Raise(auto.exc);
      }
      target := auto.value;
    }
    assert Selected(defs, containerTypeName, target);
    r := FinalDims(defs[target]);
  }

  /** `float(v) if v is not None else 0.0` for `weight_kg`. */
  function Weight(v: Json): Py<real> {
    if v == JNull then Ok(0.0) else Float(v)
  }

  /**
   * The `form` part of an accepted object: a rectangle with non-null, convertible `width`
   * and `length`, or a cylinder with a non-null, convertible `radius`; `None` for every
   * other form, which the loop skips.
   */
  function Shape(form: map<string, Json>): Option<Geometry> {
    var formType := Field(form, "type", JNull);
    if formType == JStr("rectangle") then
      var wv, hv := Field(form, "width", JNull), Field(form, "length", JNull);
      if wv == JNull || hv == JNull then None
      else
        match (Float(wv), Float(hv))
        case (Ok(w), Ok(h)) => Some(RectangleGeometry(w, h))
        case _ => None
    else if formType == JStr("cylinder") then
      var rv := Field(form, "radius", JNull);
      if rv == JNull then None
      else
        match Float(rv)
        case Ok(r) => Some(CircleGeometry(r))
        case Raise(_) => None
    else None
  }

  /** A rectangle with convertible `width` and `length` has bounding box `width x length` and no radius. */
  lemma RectangleShape(form: map<string, Json>)
    requires Field(form, "type", JNull) == JStr("rectangle")
    requires Convertible(Field(form, "width", JNull)) && Convertible(Field(form, "length", JNull))
    ensures Shape(form) == Some(RectangleGeometry(Float(Field(form, "width", JNull)).value, Float(Field(form, "length", JNull)).value))
  {
  }

  /** A cylinder with a convertible `radius` has a square bounding box of twice the radius. */
  lemma CylinderShape(form: map<string, Json>)
    requires Field(form, "type", JNull) == JStr("cylinder")
    requires Convertible(Field(form, "radius", JNull))
    ensures Shape(form) == Some(CircleGeometry(Float(Field(form, "radius", JNull)).value))
  {
  }

  /**
   * The body of the loop of `_create_object_definitions` for one object. `id` (default
   * -1) and `quantity` (default 0) go through `int()`, `weight_kg` through `float()`
   * unless it is missing or null; a failing conversion is caught and skips the object, and
   * so does a quantity of 0 or less. The default name is `"Item " + str(id)`. Only the
   * AttributeError of `.get` on an object or a `form` that is not a dict escapes.
   */
  function ReadObject(obj: Json): (r: Py<Option<Item<int>>>)
    ensures r.Raise? ==> r.exc == AttributeError
    ensures !obj.JObj? ==> r.Raise?
  {
    if !obj.JObj? then Raise(AttributeError)
    else
      var fields := obj.fields;
      match (Int(Field(fields, "id", JInt(-1))), Int(Field(fields, "quantity", JInt(0))), Weight(Field(fields, "weight_kg", JNull)))
      case (Ok(id), Ok(anzahl), Ok(weight)) =>
        var name := Field(fields, "product_name", JStr("Item " + Decimal.IntToString(id)));
        if anzahl <= 0 then Ok(None)
        else
          var form := Field(fields, "form", JObj(map[]));
          if !form.JObj? then Raise(AttributeError)
          else
            (match Shape(form.fields)
             case Some(g) => Ok(Some(WithGeometry(id, name, anzahl, weight, g)))
             case None => Ok(None))
      case _ => Ok(None)
  }

  /** Every item the reader accepts has a positive quantity and consistent geometry. */
  lemma AcceptedItemIsWellFormed(obj: Json)
    requires IsAccepted(ReadObject(obj))
    ensures ReadObject(obj).value.value.anzahl > 0
    ensures ConsistentGeometry(ReadObject(obj).value.value)
  {
  }

  /** A value the reader converts: present, not null, and accepted by `float()`. */
  predicate Convertible(v: Json) {
    v != JNull && Float(v).Ok?
  }

  /** A `form` dict of a kind the packer handles, with convertible dimensions. */
  predicate PackableForm(form: map<string, Json>) {
    (Field(form, "type", JNull) == JStr("rectangle") &&
     Convertible(Field(form, "width", JNull)) && Convertible(Field(form, "length", JNull))) ||
    (Field(form, "type", JNull) == JStr("cylinder") && Convertible(Field(form, "radius", JNull)))
  }

  /** The conversions of `id`, `quantity` and `weight_kg` that precede the form all succeed. */
  predicate ReadableHeader(fields: map<string, Json>) {
    Int(Field(fields, "id", JInt(-1))).Ok? && Int(Field(fields, "quantity", JInt(0))).Ok? &&
    Weight(Field(fields, "weight_kg", JNull)).Ok?
  }

  function Quantity(fields: map<string, Json>): int
    requires ReadableHeader(fields)
  {
    Int(Field(fields, "quantity", JInt(0))).value
  }

  /**
   * An object is accepted exactly when it is a dict, its header converts, its quantity
   * is positive and its `form` is a packable dict; it crashes the reading exactly when it
   * is not a dict, or when it gets as far as the form and the form is not a dict.
   */
  lemma ReadObjectOutcomes(obj: Json)
    ensures IsAccepted(ReadObject(obj)) <==>
      obj.JObj? && ReadableHeader(obj.fields) && Quantity(obj.fields) > 0 &&
      Field(obj.fields, "form", JObj(map[])).JObj? && PackableForm(Field(obj.fields, "form", JObj(map[])).fields)
    ensures ReadObject(obj).Raise? <==>
      !obj.JObj? ||
      (ReadableHeader(obj.fields) && Quantity(obj.fields) > 0 && !Field(obj.fields, "form", JObj(map[])).JObj?)
  {
  }

  /**
   * An accepted object keeps its converted `id` and quantity; without `product_name` it is
   * named `"Item <id>"`, without `id` its id is -1, and without `weight_kg` it weighs 0.
   */
  lemma AcceptedItemDefaults(obj: Json)
    requires IsAccepted(ReadObject(obj))
    ensures obj.JObj? && ReadableHeader(obj.fields)
    ensures ReadObject(obj).value.value.originalJsonId == Int(Field(obj.fields, "id", JInt(-1))).value
    ensures ReadObject(obj).value.value.anzahl == Quantity(obj.fields)
    ensures "product_name" !in obj.fields ==>
      ReadObject(obj).value.value.name == JStr("Item " + Decimal.IntToString(ReadObject(obj).value.value.originalJsonId))
    ensures "id" !in obj.fields ==> ReadObject(obj).value.value.originalJsonId == -1
    ensures "weight_kg" !in obj.fields ==> ReadObject(obj).value.value.weight == 0.0
  {
  }

  function ReadAt(obj: Json, i: nat): Py<Option<Item<int>>> {
    ReadObject(obj)
  }

  /** `raw_order_data.get("objects", [])` as the loop sees it; `Ok([])` when it is falsy. */
  function ObjectsOf(raw: Json): Py<seq<Json>> {
    var o :- Get(raw, "objects", JArr([]));
    if !Truthy(o) then Ok([]) else Elements(o, AttributeError)
  }

  /**
   * `_create_object_definitions`: one definition per accepted object, in list order,
   * numbered from 0, each with a positive quantity and consistent geometry.
   */
  method CreateObjectDefinitions(raw: Json) returns (r: Py<seq<Definition<int>>>)
    ensures ObjectsOf(raw).Raise? ==> r == Raise(ObjectsOf(raw).exc)
    ensures ObjectsOf(raw).Ok? ==> (r.Raise? <==> Raises(ObjectsOf(raw).value, ReadAt))
    ensures ObjectsOf(raw).Ok? && r.Raise? ==> r.exc == AttributeError
    ensures r.Ok? ==> ObjectsOf(raw).Ok? && r.value == Numbered(Accepted(ObjectsOf(raw).value, ReadAt, |ObjectsOf(raw).value|))
    ensures r.Ok? ==> forall t :: 0 <= t < |r.value| ==>
      r.value[t].sequentialTypeId == t && r.value[t].item.anzahl > 0 && ConsistentGeometry(r.value[t].item)
  {
    var o := Get(raw, "objects", JArr([]));
    if o.Raise? {
      return Raise(o.exc);
    }
    if !Truthy(o.value) {
      return Ok([]);
    }
    var es := Elements(o.value, AttributeError);
    if es.Raise? {
      return Raise(es.exc);
    }
    var objs := es.value;
    r := CollectDefinitions(objs, ReadAt);
    if r.Ok? {
      AcceptedItemsWellFormed(objs);
    }
  }

  lemma AcceptedItemsWellFormed(objs: seq<Json>)
    ensures forall t :: 0 <= t < |Accepted(objs, ReadAt, |objs|)| ==>
      Accepted(objs, ReadAt, |objs|)[t].anzahl > 0 && ConsistentGeometry(Accepted(objs, ReadAt, |objs|)[t])
  {
    var items := Accepted(objs, ReadAt, |objs|);
    var pos := AcceptedIsSubsequence(objs, ReadAt, |objs|);
    forall t | 0 <= t < |items| ensures items[t].anzahl > 0 && ConsistentGeometry(items[t]) {
      AcceptedItemIsWellFormed(objs[pos[t]]);
    }
  }

  /**
   * `OrderParser(json_filepath)`: `data` is the decoded file, `None` when it is missing or
   * not valid JSON. The parser keeps `data.get("order")` and refuses a falsy one with
   * ValueError; a document that is not a dict has no `get`. With a truthy order, the parser
   * is built exactly when reading its objects raises nothing.
   */
  method Load(data: Option<Json>) returns (r: Py<OrderParser>)
    ensures data.None? ==> r == Raise(ValueError)
    ensures data.Some? && !data.value.JObj? ==> r == Raise(AttributeError)
    ensures data.Some? && data.value.JObj? && !Truthy(Field(data.value.fields, "order", JNull)) ==> r == Raise(ValueError)
    ensures data.Some? && data.value.JObj? && Truthy(Field(data.value.fields, "order", JNull)) ==>
      var raw := Field(data.value.fields, "order", JNull);
      (ObjectsOf(raw).Raise? ==> r == Raise(ObjectsOf(raw).exc)) &&
      (ObjectsOf(raw).Ok? ==> (r.Ok? <==> !Raises(ObjectsOf(raw).value, ReadAt)) && (r.Raise? ==> r.exc == AttributeError))
    ensures r.Ok? ==> data.Some? && data.value.JObj? && r.value.rawOrderData == data.value.fields["order"] && Truthy(r.value.rawOrderData)
    ensures r.Ok? ==> ObjectsOf(r.value.rawOrderData).Ok?
    ensures r.Ok? ==> r.value.objectDefinitions == Numbered(Accepted(ObjectsOf(r.value.rawOrderData).value, ReadAt, |ObjectsOf(r.value.rawOrderData).value|))
    ensures r.Ok? ==> forall t :: 0 <= t < |r.value.objectDefinitions| ==>
      r.value.objectDefinitions[t].sequentialTypeId == t && r.value.objectDefinitions[t].item.anzahl > 0 &&
      ConsistentGeometry(r.value.objectDefinitions[t].item)
  {
    var raw: Json := JNull;
    if data.Some? {
      var order := Get(data.value, "order", JNull);
      if order.Raise? {
        return Raise(order.exc);
      }
      raw := order.value;
    }
    if !Truthy(raw) {
      return Raise(ValueError);
    }
    var defs := CreateObjectDefinitions(raw);
    if defs.Raise? {
      return Raise(defs.exc);
    }
    r := Ok(OrderParser(raw, defs.value));
  }

  /** `get_type_description_map`: each number holds its last definition's description; with the parser's numbering, one entry per definition under its number. */
  method GetTypeDescriptionMap(p: OrderParser) returns (m: map<nat, TypeDescription>)
    ensures IsTypeMapOf(m, p.objectDefinitions)
    ensures (forall t :: 0 <= t < |p.objectDefinitions| ==> p.objectDefinitions[t].sequentialTypeId == t) ==>
      (forall key: nat :: key in m <==> key < |p.objectDefinitions|) &&
      (forall t :: 0 <= t < |p.objectDefinitions| ==> m[t] == Describe(p.objectDefinitions[t]))
  {
    m := TypeDescriptionMap(p.objectDefinitions);
    if forall t :: 0 <= t < |p.objectDefinitions| ==> p.objectDefinitions[t].sequentialTypeId == t {
      SequentialTypeMap(m, p.objectDefinitions);
    }
  }
}
