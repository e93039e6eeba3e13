/**
 * `OrderParser` of backend/src/order_parser.py: reads an order file whose root holds a
 * single `container` (its `width`, `length` and `max_weight`) and the `objects`, each one
 * package with a `name`, a `gewicht_kg`, a `form` string and `abmessungen`. The fields are
 * assigned once by the constructor, so the parser is a value here.
 */
module SrcOrderParser {
  import opened Wrappers
  import opened PyJson
  import opened PackerItems
  import Solids
  import Decimal
  import AlgorithmOrderParser

  datatype OrderParser = OrderParser(rawData: Json, containerData: Json, objectDefinitions: seq<Definition<Json>>)

  /** `key` occurs in `s` at some position. */
  predicate IsSubstring(key: string, s: string)
    decreases |s|
  {
    (|key| <= |s| && s[..|key|] == key) || (s != [] && IsSubstring(key, s[1..]))
  }

  lemma {:induction false} SubstringFits(key: string, s: string)
    requires IsSubstring(key, s)
    decreases |s|
    ensures |key| <= |s|
  {
    if !(|key| <= |s| && s[..|key|] == key) {
      SubstringFits(key, s[1..]);
    }
  }

  /**
   * Python's `key in j`: a key of a dict, an element of a list, a substring of a string;
   * TypeError for a value that is not a container.
   */
  function Contains(j: Json, key: string): (r: Py<bool>)
    ensures r.Raise? <==> !(j.JObj? || j.JArr? || j.JStr?)
    ensures j.JObj? ==> r == Ok(key in j.fields)
  {
    match j
    case JObj(fields) => Ok(key in fields)
    case JArr(items) => Ok(JStr(key) in items)
    case JStr(s) => Ok(IsSubstring(key, s))
    case _ => Raise(TypeError)
  }

  /** A container holding a non-empty key is not empty. */
  lemma ContainsMakesTruthy(j: Json, key: string)
    requires key != ""
    ensures Contains(j, key) == Ok(true) ==> Truthy(j)
  {
    if j.JStr? && Contains(j, key) == Ok(true) {
      SubstringFits(key, j.s);
    }
  }

  /**
   * `_load_json_data`: the decoded file when it has both `container` and `objects`
   * (`None` otherwise, and for a file that is missing or undecodable). The membership
   * test itself raises TypeError on a document that is not a container.
   */
  function LoadJsonData(data: Option<Json>): (r: Py<Option<Json>>)
    ensures r.Raise? <==> data.Some? && !(data.value.JObj? || data.value.JArr? || data.value.JStr?)
    ensures data.Some? && data.value.JObj? ==>
      r == Ok(if "container" in data.value.fields && "objects" in data.value.fields then data else None)
    ensures r.Ok? && r.value.Some? ==> data.Some? && r.value.value == data.value && Truthy(data.value)
  {
    if data.None? then Ok(None)
    else
      match Contains(data.value, "container")
      case Raise(e) => Raise(e)
      case Ok(false) => Ok(None)
      case Ok(true) =>
        ContainsMakesTruthy(data.value, "container");
        if Contains(data.value, "objects") == Ok(true) then Ok(data) else Ok(None)
  }

  /** `float(v) if v is not None else 0.0` for `gewicht_kg`. */
  function Weight(v: Json): Py<real> {
    if v == JNull then Ok(0.0) else Float(v)
  }

  /** `float(max_weight) if max_weight is not None else None`. */
  function MaxWeight(v: Json): Py<Option<real>> {
    if v == JNull then Ok(None)
    else
      var w :- Float(v);
      Ok(Some(w))
  }

  /**
   * `get_container_dimensions`: `(float(width), float(length), max_weight)` of the
   * container; every KeyError, TypeError or ValueError, and a falsy container, give `None`.
   */
  function ContainerDimensions(c: Json): (r: Option<AlgorithmOrderParser.Dims>)
    ensures r.Some? ==> c.JObj? && "width" in c.fields && "length" in c.fields
    ensures r.Some? ==> Float(c.fields["width"]) == Ok(r.value.areaW) && Float(c.fields["length"]) == Ok(r.value.areaH)
    ensures r.Some? ==> MaxWeight(Field(c.fields, "max_weight", JNull)) == Ok(r.value.maxWeight)
  {
    if !Truthy(c) then None
    else
      match (Subscript(c, "width"), Subscript(c, "length"))
      case (Ok(wv), Ok(lv)) =>
        (match (Float(wv), Float(lv), MaxWeight(Field(c.fields, "max_weight", JNull)))
         case (Ok(w), Ok(l), Ok(m)) => Some(AlgorithmOrderParser.Dims(w, l, m))
         case _ => None)
      case _ => None
  }

  function GetContainerDimensions(p: OrderParser): Option<AlgorithmOrderParser.Dims> {
    ContainerDimensions(p.containerData)
  }

  /**
   * Both readers read a container's dimensions alike: this one's container with
   * `max_weight` gives what the other reader's final step gives for a definition whose
   * `inner_dimensions` is that container and whose `max_weight_kg` is that `max_weight`.
   */
  lemma ContainerDimensionsAgree(c: Json)
    requires c.JObj?
    ensures var d := JObj(map["inner_dimensions" := c, "max_weight_kg" := Field(c.fields, "max_weight", JNull)]);
      AlgorithmOrderParser.FinalDims(d) == Ok(ContainerDimensions(c))
  {
    var d := JObj(map["inner_dimensions" := c, "max_weight_kg" := Field(c.fields, "max_weight", JNull)]);
    assert Field(d.fields, "max_weight_kg", JNull) == Field(c.fields, "max_weight", JNull);
  }

  /** The form names the reader accepts, after `.lower()`. */
  predicate IsBoxForm(form: string) {
    form == "quader" || form == "rectangle"
  }

  predicate IsCylinderForm(form: string) {
    form == "zylinder" || form == "cylinder"
  }

  /**
   * The geometry for a lower-cased form: a box reads `breite` as width and `laenge` as
   * length from `abmessungen`, a cylinder its `radius`; `Ok(None)` skips the object
   * (unknown form, a null or missing value, or a caught conversion error), and
   * `.get` on `abmessungen` that is not a dict raises AttributeError.
   */
  function Shape(form: string, abmessungen: Json): (r: Py<Option<Geometry>>)
    ensures r.Raise? <==> (IsBoxForm(form) || IsCylinderForm(form)) && !abmessungen.JObj?
    ensures r.Raise? ==> r.exc == AttributeError
    ensures r.Ok? && r.value.Some? ==> GeometryConsistent(r.value.value)
  {
    if IsBoxForm(form) then
      if !abmessungen.JObj? then Raise(AttributeError)
      else
        var wv, hv := Field(abmessungen.fields, "breite", JNull), Field(abmessungen.fields, "laenge", JNull);
        if wv == JNull || hv == JNull then Ok(None)
        else
          (match (Float(wv), Float(hv))
           case (Ok(w), Ok(h)) => Ok(Some(RectangleGeometry(w, h)))
           case _ => Ok(None))
    else if IsCylinderForm(form) then
      if !abmessungen.JObj? then Raise(AttributeError)
      else
        var rv := Field(abmessungen.fields, "radius", JNull);
        if rv == JNull then Ok(None)
        else
          (match Float(rv)
           case Ok(r) => Ok(Some(CircleGeometry(r)))
           case Raise(_) => Ok(None))
    else Ok(None)
  }

  /** The identifier of the object at index `i`: its `name`, else `"Item_<i>"`. */
  function OriginalId(fields: map<string, Json>, i: nat): Json {
    Field(fields, "name", JStr("Item_" + Decimal.NatToString(i)))
  }

  /**
   * The body of the `enumerate` loop for the object at index `i`: quantity always 1, the
   * name doubling as the id. A failing `float()` of the weight is caught and skips the
   * object; `.get` on an object that is not a dict and `.lower()` on a `form` that is not
   * a string raise AttributeError, which the loop does not catch.
   */
  function ReadObject(obj: Json, i: nat): (r: Py<Option<Item<Json>>>)
    ensures r.Raise? ==> r.exc == AttributeError
    ensures !obj.JObj? ==> r.Raise?
  {
    if !obj.JObj? then Raise(AttributeError)
    else
      var fields := obj.fields;
      var id := OriginalId(fields, i);
      match Weight(Field(fields, "gewicht_kg", JNull))
      case Raise(_) => Ok(None)
      case Ok(weight) =>
        var form :- Lower(Field(fields, "form", JStr("")));
        var shape :- Shape(form, Field(fields, "abmessungen", JObj(map[])));
        match shape
        case Some(g) => Ok(Some(WithGeometry(id, id, 1, weight, g)))
        case None => Ok(None)
  }

  /** A value the reader converts: present, not null, and accepted by `float()`. */
  predicate Convertible(v: Json) {
    v != JNull && Float(v).Ok?
  }

  /** A lower-cased form and dimensions the packer handles. */
  predicate PackableShape(form: string, abmessungen: Json) {
    abmessungen.JObj? &&
    ((IsBoxForm(form) && Convertible(Field(abmessungen.fields, "breite", JNull)) &&
      Convertible(Field(abmessungen.fields, "laenge", JNull))) ||
     (IsCylinderForm(form) && Convertible(Field(abmessungen.fields, "radius", JNull))))
  }

  /**
   * An object is accepted exactly when it is a dict with a convertible (or absent) weight,
   * a string `form` naming a box or a cylinder in any letter case, and convertible
   * dimensions for that form.
   */
  lemma ReadObjectOutcomes(obj: Json, i: nat)
    ensures IsAccepted(ReadObject(obj, i)) <==>
      obj.JObj? && Weight(Field(obj.fields, "gewicht_kg", JNull)).Ok? &&
      Field(obj.fields, "form", JStr("")).JStr? &&
      PackableShape(LowerString(Field(obj.fields, "form", JStr("")).s), Field(obj.fields, "abmessungen", JObj(map[])))
    ensures ReadObject(obj, i).Raise? <==>
      !obj.JObj? ||
      (Weight(Field(obj.fields, "gewicht_kg", JNull)).Ok? &&
       (!Field(obj.fields, "form", JStr("")).JStr? ||
        var form := LowerString(Field(obj.fields, "form", JStr("")).s);
        (IsBoxForm(form) || IsCylinderForm(form)) && !Field(obj.fields, "abmessungen", JObj(map[])).JObj?))
  {
  }

  /**
   * An accepted object is one package with consistent geometry, identified and named by
   * its `name`, or by `"Item_<i>"` without one, and weighing 0 without `gewicht_kg`.
   */
  lemma AcceptedItemFacts(obj: Json, i: nat)
    requires IsAccepted(ReadObject(obj, i))
    ensures ReadObject(obj, i).value.value.anzahl == 1
    ensures ConsistentGeometry(ReadObject(obj, i).value.value)
    ensures obj.JObj? && ReadObject(obj, i).value.value.originalJsonId == ReadObject(obj, i).value.value.name
    ensures "name" !in obj.fields ==> ReadObject(obj, i).value.value.name == JStr("Item_" + Decimal.NatToString(i))
    ensures "gewicht_kg" !in obj.fields ==> ReadObject(obj, i).value.value.weight == 0.0
  {
    var fields := obj.fields;
    var id := OriginalId(fields, i);
    var weight := Weight(Field(fields, "gewicht_kg", JNull)).value;
    var form := Lower(Field(fields, "form", JStr(""))).value;
    var g := Shape(form, Field(fields, "abmessungen", JObj(map[]))).value.value;
    assert ReadObject(obj, i).value.value == WithGeometry(id, id, 1, weight, g);
  }

  /** The letter case of `form` does not matter: lower-casing it first reads the same. */
  lemma ReadObjectIgnoresFormCase(fields: map<string, Json>, i: nat, form: string)
    requires "form" in fields && fields["form"] == JStr(form)
    ensures ReadObject(JObj(fields), i) == ReadObject(JObj(fields["form" := JStr(LowerString(form))]), i)
  {
    LowerStringIdempotent(form);
    var fields' := fields["form" := JStr(LowerString(form))];
    assert Field(fields', "gewicht_kg", JNull) == Field(fields, "gewicht_kg", JNull);
    assert Field(fields', "abmessungen", JObj(map[])) == Field(fields, "abmessungen", JObj(map[]));
    assert OriginalId(fields', i) == OriginalId(fields, i);
  }

  /** `raw_data.get("objects", [])` as the loop sees it; `Ok([])` when it is falsy. */
  function ObjectsOf(raw: Json): Py<seq<Json>> {
    var o :- Get(raw, "objects", JArr([]));
    if !Truthy(o) then Ok([]) else Elements(o, AttributeError)
  }

  lemma AcceptedItemsWellFormed(objs: seq<Json>)
    ensures forall t :: 0 <= t < |Accepted(objs, ReadObject, |objs|)| ==>
      Accepted(objs, ReadObject, |objs|)[t].anzahl == 1 && ConsistentGeometry(Accepted(objs, ReadObject, |objs|)[t])
  {
    var items := Accepted(objs, ReadObject, |objs|);
    var pos := AcceptedIsSubsequence(objs, ReadObject, |objs|);
    forall t | 0 <= t < |items| ensures items[t].anzahl == 1 && ConsistentGeometry(items[t]) {
      AcceptedItemFacts(objs[pos[t]], pos[t]);
    }
  }

  /**
   * `_create_object_definitions`: one definition per accepted object, in list order,
   * numbered from 0; each is a single package with consistent geometry.
   */
  method CreateObjectDefinitions(raw: Json) returns (r: Py<seq<Definition<Json>>>)
    ensures ObjectsOf(raw).Raise? ==> r == Raise(ObjectsOf(raw).exc)
    ensures ObjectsOf(raw).Ok? ==> (r.Raise? <==> Raises(ObjectsOf(raw).value, ReadObject))
    ensures ObjectsOf(raw).Ok? && r.Raise? ==> r.exc == AttributeError
    ensures r.Ok? ==> ObjectsOf(raw).Ok? && r.value == Numbered(Accepted(ObjectsOf(raw).value, ReadObject, |ObjectsOf(raw).value|))
    ensures r.Ok? ==> forall t :: 0 <= t < |r.value| ==>
      r.value[t].sequentialTypeId == t && r.value[t].item.anzahl == 1 && ConsistentGeometry(r.value[t].item)
  {
    var o := Get(raw, "objects", JArr([]));
    if o.Raise? {
      return Raise(o.exc);
    }
    if !Truthy(o.value) {
      return Ok([]);
    }
    var es := Elements(o.value, AttributeError);
    if es.Raise? {
      return Raise(es.exc);
    }
    var objs := es.value;
    r := CollectDefinitions(objs, ReadObject);
    if r.Ok? {
      AcceptedItemsWellFormed(objs);
    }
  }

  /**
   * `OrderParser(json_filepath)` on the decoded file (`None` when it is missing or not
   * valid JSON): ValueError without both root keys or with a falsy `container`. A
   * document that is not a dict makes the membership test raise TypeError, or, as a list
   * or string that holds both keys, makes `.get` raise AttributeError. With both
   * keys and a truthy container, the parser is built exactly when reading the objects
   * raises nothing.
   */
  method Load(data: Option<Json>) returns (r: Py<OrderParser>)
    ensures data.None? ==> r == Raise(ValueError)
    ensures data.Some? && !(data.value.JObj? || data.value.JArr? || data.value.JStr?) ==> r == Raise(TypeError)
    ensures data.Some? && (data.value.JArr? || data.value.JStr?) ==>
      r == Raise(if Contains(data.value, "container") == Ok(true) && Contains(data.value, "objects") == Ok(true)
                 then AttributeError else ValueError)
    ensures data.Some? && data.value.JObj? && ("container" !in data.value.fields || "objects" !in data.value.fields) ==>
      r == Raise(ValueError)
    ensures data.Some? && data.value.JObj? && "container" in data.value.fields && !Truthy(data.value.fields["container"]) ==>
      r == Raise(ValueError)
    ensures data.Some? && data.value.JObj? && "container" in data.value.fields && "objects" in data.value.fields &&
            Truthy(data.value.fields["container"]) ==>
      (ObjectsOf(data.value).Raise? ==> r == Raise(ObjectsOf(data.value).exc)) &&
      (ObjectsOf(data.value).Ok? ==> (r.Ok? <==> !Raises(ObjectsOf(data.value).value, ReadObject)) && (r.Raise? ==> r.exc == AttributeError))
    ensures r.Ok? ==> data.Some? && data.value.JObj? && "container" in data.value.fields && "objects" in data.value.fields
    ensures r.Ok? ==> r.value.rawData == data.value && r.value.containerData == data.value.fields["container"]
    ensures r.Ok? ==> Truthy(r.value.containerData)
    ensures r.Ok? ==> ObjectsOf(r.value.rawData).Ok?
    ensures r.Ok? ==> r.value.objectDefinitions == Numbered(Accepted(ObjectsOf(r.value.rawData).value, ReadObject, |ObjectsOf(r.value.rawData).value|))
  {
    var loaded := LoadJsonData(data);
    if loaded.Raise? {
      return Raise(loaded.exc);
    }
    if loaded.value.None? {
      return Raise(ValueError);
    }
    var raw := loaded.value.value;
    var container := Get(raw, "container", JNull);
    if container.Raise? {
      return Raise(container.exc);
    }
    if !Truthy(container.value) {
      return Raise(ValueError);
    }
    var defs := CreateObjectDefinitions(raw);
    if defs.Raise? {
      return Raise(defs.exc);
    }
    r := Ok(OrderParser(raw, container.value, defs.value));
  }

  /** `get_type_description_map`: each number holds its last definition's description; with the parser's numbering, one entry per definition under its number. */
  method GetTypeDescriptionMap(p: OrderParser) returns (m: map<nat, TypeDescription>)
    ensures IsTypeMapOf(m, p.objectDefinitions)
    ensures (forall t :: 0 <= t < |p.objectDefinitions| ==> p.objectDefinitions[t].sequentialTypeId == t) ==>
      (forall key: nat :: key in m <==> key < |p.objectDefinitions|) &&
      (forall t :: 0 <= t < |p.objectDefinitions| ==> m[t] == Describe(p.objectDefinitions[t]))
  {
    m := TypeDescriptionMap(p.objectDefinitions);
    if forall t :: 0 <= t < |p.objectDefinitions| ==> p.objectDefinitions[t].sequentialTypeId == t {
      SequentialTypeMap(m, p.objectDefinitions);
    }
  }
}
