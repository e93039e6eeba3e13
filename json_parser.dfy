/**
 * `JSONParser` of backend/src/json_parser.py: maps a `form` dict to the form names of the
 * stacking step, and turns an order document into the chosen container's raw dimensions
 * and one set of constructor arguments per ordered object.
 */
module JsonParser {
  import opened Wrappers
  import opened PyJson

  /** `ContainerDim(length, width, height)`; the values are stored as read, without conversion. */
  datatype ContainerDim = ContainerDim(length: Json, width: Json, height: Json)

  /** The arguments of `Objekt(name, mapped, params, hoehe)`. */
  datatype ObjektArgs = ObjektArgs(name: Json, form: string, params: seq<Json>, hoehe: Json)

  datatype Parsed = Parsed(chosen: Option<ContainerDim>, objs: seq<ObjektArgs>)

  predicate IsBoxName(t: string) {
    t == "rectangle" || t == "rect" || t == "quader" || t == "box"
  }

  predicate IsCylinderName(t: string) {
    t == "cylinder" || t == "zylinder"
  }

  /**
   * `_map_form_to_type`: the lower-cased `type` (default `""`) selects `"Zylinder"` for
   * cylinder names and `"Quader"` for everything else; `.get` on a form that is not a dict
   * and `.lower()` on a `type` that is not a string raise AttributeError.
   */
  function MapFormToType(form: Json): (r: Py<string>)
    ensures r.Raise? <==> !form.JObj? || !Field(form.fields, "type", JStr("")).JStr?
    ensures r.Raise? ==> r.exc == AttributeError
    ensures r.Ok? ==> r.value == "Quader" || r.value == "Zylinder"
    ensures r.Ok? ==> (r.value == "Zylinder" <==> IsCylinderName(LowerString(Field(form.fields, "type", JStr("")).s)))
  {
    var t :- Get(form, "type", JStr(""));
    var fType :- Lower(t);
    if IsBoxName(fType) then Ok("Quader")
    else if IsCylinderName(fType) then Ok("Zylinder")
    else Ok("Quader")
  }

  /** The mapping ignores letter case: a `type` and its lower-cased form map alike. */
  lemma MapFormIgnoresCase(fields: map<string, Json>, t: string)
    ensures MapFormToType(JObj(fields["type" := JStr(t)])) == MapFormToType(JObj(fields["type" := JStr(LowerString(t))]))
  {
    LowerStringIdempotent(t);
  }

  /** A form without `type` (or with an empty one) is a box. */
  lemma MissingTypeIsBox(fields: map<string, Json>)
    requires "type" !in fields || fields["type"] == JStr("")
    ensures MapFormToType(JObj(fields)) == Ok("Quader")
  {
  }

  /** `data.get("order") or data`. */
  function OrderOf(data: Json): (r: Py<Json>)
    ensures r.Raise? <==> !data.JObj?
    ensures data.JObj? && "order" in data.fields && Truthy(data.fields["order"]) ==> r == Ok(data.fields["order"])
    ensures data.JObj? && !("order" in data.fields && Truthy(data.fields["order"])) ==> r == Ok(data)
  {
    var o :- Get(data, "order", JNull);
    Ok(if Truthy(o) then o else data)
  }

  /** The elements the loop `for c in order.get(key, [])` visits, each first asked `.get`. */
  function ListOf(order: Json, key: string): Py<seq<Json>> {
    var v :- Get(order, key, JArr([]));
    Elements(v, AttributeError)
  }

  /** `c.get("use")` as a condition. */
  function Uses(c: Json): (r: Py<bool>)
    ensures r.Raise? <==> !c.JObj?
  {
    var u :- Get(c, "use", JNull);
    Ok(Truthy(u))
  }

  /** `dims = c.get("inner_dimensions", {})` and `ContainerDim(dims.get(..., 0), ...)`. */
  function DimsOf(c: Json): (r: Py<ContainerDim>)
    ensures r.Raise? <==> !c.JObj? || !Field(c.fields, "inner_dimensions", JObj(map[])).JObj?
    ensures r.Ok? ==> var dims := Field(c.fields, "inner_dimensions", JObj(map[])).fields;
      r.value == ContainerDim(Field(dims, "length", JInt(0)), Field(dims, "width", JInt(0)), Field(dims, "height", JInt(0)))
  {
    var dims :- Get(c, "inner_dimensions", JObj(map[]));
    if !dims.JObj? then Raise(AttributeError)
    else Ok(ContainerDim(Field(dims.fields, "length", JInt(0)), Field(dims.fields, "width", JInt(0)), Field(dims.fields, "height", JInt(0))))
  }

  /** `k` is the first container with a truthy `use`. */
  ghost predicate FirstInUse(cs: seq<Json>, k: nat) {
    k < |cs| && Uses(cs[k]) == Ok(true) && forall j :: 0 <= j < k ==> Uses(cs[j]) == Ok(false)
  }

  lemma FirstInUseIsUnique(cs: seq<Json>, k1: nat, k2: nat)
    requires FirstInUse(cs, k1) && FirstInUse(cs, k2)
    ensures k1 == k2
  {
  }

  /** `chosen`: the first container in use, else the first container, else none. */
  ghost predicate ChosenIs(cs: seq<Json>, chosen: Option<ContainerDim>) {
    if exists k :: FirstInUse(cs, k) then
      exists k: nat :: FirstInUse(cs, k) && chosen.Some? && DimsOf(cs[k]) == Ok(chosen.value)
    else if cs == [] then chosen.None?
    else chosen.Some? && DimsOf(cs[0]) == Ok(chosen.value)
  }

  /** The container search raises: at the first container that fails before a choice, or in the fallback. */
  ghost predicate ChoiceRaises(cs: seq<Json>) {
    (exists k :: 0 <= k < |cs| && (forall j :: 0 <= j < k ==> Uses(cs[j]) == Ok(false)) &&
       (Uses(cs[k]).Raise? || (Uses(cs[k]) == Ok(true) && DimsOf(cs[k]).Raise?))) ||
    (cs != [] && (forall j :: 0 <= j < |cs| ==> Uses(cs[j]) == Ok(false)) && DimsOf(cs[0]).Raise?)
  }

  /** `p or 0`. */
  function OrZero(v: Json): (r: Json)
    ensures Truthy(v) ==> r == v
    ensures !Truthy(v) ==> r == JInt(0)
  {
    if Truthy(v) then v else JInt(0)
  }

  /**
   * The loop body for one object: its form's mapped name; `[radius]` for a cylinder and
   * `[length, width]` otherwise, with the height, each `or 0`; the name `product_name`,
   * else `"obj_" + str(id)`. An object or form that is not a dict raises AttributeError.
   */
  function ObjectRecord(o: Json): (r: Py<ObjektArgs>)
    ensures r.Raise? ==> r.exc == AttributeError
    ensures r.Raise? <==> !o.JObj? || MapFormToType(Field(o.fields, "form", JObj(map[]))).Raise?
    ensures r.Ok? ==> r.value.form == MapFormToType(Field(o.fields, "form", JObj(map[]))).value
    ensures r.Ok? ==> |r.value.params| == (if r.value.form == "Zylinder" then 1 else 2)
    ensures r.Ok? ==> (forall p :: p in r.value.params ==> Truthy(p) || p == JInt(0)) && (Truthy(r.value.hoehe) || r.value.hoehe == JInt(0))
    ensures r.Ok? ==> r.value.name == Field(o.fields, "product_name", JStr("obj_" + Str(Field(o.fields, "id", JNull))))
  {
    var form :- Get(o, "form", JObj(map[]));
    var mapped :- MapFormToType(form);
    var fields := form.fields;
    var params := if mapped == "Zylinder" then [Field(fields, "radius", JNull)]
                  else [Field(fields, "length", JNull), Field(fields, "width", JNull)];
    var name := Field(o.fields, "product_name", JStr("obj_" + Str(Field(o.fields, "id", JNull))));
    Ok(ObjektArgs(name, mapped, seq(|params|, t requires 0 <= t < |params| => OrZero(params[t])), OrZero(Field(fields, "height", JNull))))
  }

  /**
   * The records part of `parse_order` on a decoded document: the chosen container, and
   * exactly one record per object in list order, none skipped. Any exception ends it.
   */
  method ParseOrder(data: Json) returns (r: Py<Parsed>)
    ensures OrderOf(data).Raise? ==> r == Raise(AttributeError)
    ensures OrderOf(data).Ok? && ListOf(OrderOf(data).value, "container_definitions").Raise? ==>
      r == Raise(ListOf(OrderOf(data).value, "container_definitions").exc)
    ensures OrderOf(data).Ok? && ListOf(OrderOf(data).value, "container_definitions").Ok? ==>
      var cs := ListOf(OrderOf(data).value, "container_definitions").value;
      var os := ListOf(OrderOf(data).value, "objects");
      r.Raise? <==> ChoiceRaises(cs) || os.Raise? || exists k :: 0 <= k < |os.value| && ObjectRecord(os.value[k]).Raise?
    ensures r.Ok? ==> OrderOf(data).Ok? && ListOf(OrderOf(data).value, "container_definitions").Ok?
    ensures r.Ok? ==> ListOf(OrderOf(data).value, "objects").Ok?
    ensures r.Ok? ==> ChosenIs(ListOf(OrderOf(data).value, "container_definitions").value, r.value.chosen)
    ensures r.Ok? ==> var os := ListOf(OrderOf(data).value, "objects").value;
      |r.value.objs| == |os| && forall t :: 0 <= t < |os| ==> ObjectRecord(os[t]) == Ok(r.value.objs[t])
  {
    var order := OrderOf(data);
    if order.Raise? {
      return Raise(order.exc);
    }
    var containers := ListOf(order.value, "container_definitions");
    if containers.Raise? {
      return Raise(containers.exc);
    }
    var cs := containers.value;
    var chosen := ChooseContainer(cs);
    if chosen.Raise? {
      return Raise(chosen.exc);
    }
    var os := ListOf(order.value, "objects");
    if os.Raise? {
      return Raise(os.exc);
    }
    var objs := ReadRecords(os.value);
    if objs.Raise? {
      return Raise(objs.exc);
    }
    r := Ok(Parsed(chosen.value, objs.value));
  }

  /**
   * The container search of `parse_order`: the first container whose `use` is truthy, else
   * the first container, else none; it raises exactly as `ChoiceRaises` says.
   */
  method ChooseContainer(cs: seq<Json>) returns (r: Py<Option<ContainerDim>>)
    ensures r.Raise? <==> ChoiceRaises(cs)
    ensures r.Ok? ==> ChosenIs(cs, r.value)
  {
    var chosen: Option<ContainerDim> := None;
    var found: Option<nat> := None;
    for i := 0 to |cs|
      invariant forall j :: 0 <= j < i ==> Uses(cs[j]) == Ok(false)
    {
      var u := Uses(cs[i]);
      if u.Raise? {
        return Raise(u.exc);
      }
      if u.value {
        var dims := DimsOf(cs[i]);
        if dims.Raise? {
          return Raise(dims.exc);
        }
        chosen, found := Some(dims.value), Some(i);
        break;
      }
    }
    if found.None? && cs != [] {
      var dims := DimsOf(cs[0]);
      if dims.Raise? {
        return Raise(dims.exc);
      }
      chosen := Some(dims.value);
    }
    ChoiceFacts(cs, found, chosen);
    r := Ok(chosen);
  }

  /** The object loop of `parse_order`: one record per object in list order, or the first exception. */
  method ReadRecords(os: seq<Json>) returns (r: Py<seq<ObjektArgs>>)
    ensures r.Raise? <==> exists k :: 0 <= k < |os| && ObjectRecord(os[k]).Raise?
    ensures r.Ok? ==> |r.value| == |os| && forall t :: 0 <= t < |os| ==> ObjectRecord(os[t]) == Ok(r.value[t])
  {
    var objs: seq<ObjektArgs> := [];
    for i := 0 to |os|
      invariant |objs| == i
      invariant forall t :: 0 <= t < i ==> ObjectRecord(os[t]) == Ok(objs[t])
    {
      var rec := ObjectRecord(os[i]);
      if rec.Raise? {
        return Raise(rec.exc);
      }
      objs := objs + [rec.value];
    }
    r := Ok(objs);
  }

  /** What the container search leaves when it does not raise, stated by its outcomes. */
  lemma ChoiceFacts(cs: seq<Json>, found: Option<nat>, chosen: Option<ContainerDim>)
    requires found.Some? ==> FirstInUse(cs, found.value) && chosen.Some? && DimsOf(cs[found.value]) == Ok(chosen.value)
    requires found.None? ==> forall j :: 0 <= j < |cs| ==> Uses(cs[j]) == Ok(false)
    requires found.None? && cs == [] ==> chosen.None?
    requires found.None? && cs != [] ==> chosen.Some? && DimsOf(cs[0]) == Ok(chosen.value)
    ensures !ChoiceRaises(cs) && ChosenIs(cs, chosen)
  {
    if found.Some? {
      var k := found.value;
      forall k' | FirstInUse(cs, k') ensures k' == k {
        FirstInUseIsUnique(cs, k, k');
      }
      forall l | 0 <= l < |cs| && (forall j :: 0 <= j < l ==> Uses(cs[j]) == Ok(false))
        ensures !(Uses(cs[l]).Raise? || (Uses(cs[l]) == Ok(true) && DimsOf(cs[l]).Raise?))
      {
        if l < k {
        }
      }
      assert Uses(cs[k]) != Ok(false);
    } else {
      forall k | 0 <= k < |cs| ensures !FirstInUse(cs, k) {
        assert Uses(cs[k]) == Ok(false);
      }
    }
  }
}
