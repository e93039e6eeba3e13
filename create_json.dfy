/**
 * `generateOrderJSON` of Frontend_Eingabe/src/createJSON.js: the order document the input
 * form produces, as the decoded JSON value the backend readers receive. JavaScript values
 * of the form are `Option<Json>` (`None` for `undefined`, whose keys `JSON.stringify`
 * drops); numeric article fields are numbers or `undefined`.
 */
module CreateJson {
  import opened Wrappers
  import opened PyJson
  import AlgorithmOrderParser
  import PackerItems
  import Solids
  import Decimal

  datatype Article = Article(
    name: Option<Json>, amount: Option<int>, weight: Option<Json>, shape: Option<Json>, usesPallet: Option<Json>,
    length: Option<real>, width: Option<real>, height: Option<real>,
    palletLength: Option<real>, palletWidth: Option<real>, palletHeight: Option<real>, diameter: Option<real>)

  /** `selectedRegion.value`: the region's weight limits in tonnes and its name. */
  datatype RegionData = RegionData(twentyFoot: Option<real>, fourtyFoot: Option<real>, region: Option<Json>)

  /** JavaScript truthiness: `undefined`, `null`, `false`, `0` and `""` are false; arrays and objects are true. */
  predicate JsTruthy(v: Option<Json>) {
    match v
    case None => false
    case Some(j) =>
      match j
      case JNull => false
      case JBool(b) => b
      case JInt(i) => i != 0
      case JReal(r) => r != 0.0
      case JStr(s) => s != ""
      case _ => true
  }

  /** An object literal entry whose value may be `undefined`. */
  function Put(m: map<string, Json>, key: string, v: Option<Json>): (r: map<string, Json>)
    ensures v.Some? ==> r == m[key := v.value]
    ensures v.None? ==> r == m
  {
    if v.Some? then m[key := v.value] else m
  }

  function Num(v: Option<real>): Option<Json> {
    if v.Some? then Some(JReal(v.value)) else None
  }

  /** `(v || 0)` on a number. */
  function OrZero(v: Option<real>): real {
    if v.None? || v.value == 0.0 then 0.0 else v.value
  }

  /** One of the four `allContainerOptions`. */
  datatype ContainerOption = ContainerOption(
    typeName: string, length: int, width: int, height: int, doorWidth: int, doorHeight: int, twentyFoot: bool)

  const Options: seq<ContainerOption> := [
    ContainerOption("20-fuß", 5867, 2330, 2350, 2286, 2261, true),
    ContainerOption("40-fuß", 11998, 2330, 2350, 2286, 2261, false),
    ContainerOption("40-fuß-hc", 11998, 2330, 2655, 2286, 2566, false),
    ContainerOption("40-fuß-hw", 11998, 2330, 2350, 2286, 2261, false)
  ]

  /** `maxWeightFromRegion * 1000`, where `null * 1000` is 0. */
  function MaxWeightKg(o: ContainerOption, region: RegionData): real {
    var w := if o.twentyFoot then region.twentyFoot else region.fourtyFoot;
    if w.Some? then w.value * 1000.0 else 0.0
  }

  /** The definition the `map` builds for a selected option. */
  function DefinitionJson(o: ContainerOption, region: RegionData): Json {
    JObj(map[
      "type" := JStr(o.typeName),
      "inner_dimensions" := JObj(map["length" := JInt(o.length), "width" := JInt(o.width), "height" := JInt(o.height)]),
      "door_dimensions" := JObj(map["width" := JInt(o.doorWidth), "height" := JInt(o.doorHeight)]),
      "max_weight_kg" := JReal(MaxWeightKg(o, region)),
      "tare_weight_kg" := JNull,
      "volume_m3" := JNull,
      "use" := JBool(true),
      "numbers" := JNull])
  }

  /** The positions of the selected options, in order. */
  function SelectedFrom(sel: seq<bool>, k: nat): (ks: seq<nat>)
    decreases |sel| - k
  {
    if k >= |sel| then [] else (if sel[k] then [k] else []) + SelectedFrom(sel, k + 1)
  }

  lemma {:induction false} SelectedFromFacts(sel: seq<bool>, k: nat)
    decreases |sel| - k
    ensures forall t :: 0 <= t < |SelectedFrom(sel, k)| ==> k <= SelectedFrom(sel, k)[t] < |sel| && sel[SelectedFrom(sel, k)[t]]
    ensures forall t, u :: 0 <= t < u < |SelectedFrom(sel, k)| ==> SelectedFrom(sel, k)[t] < SelectedFrom(sel, k)[u]
    ensures forall j :: k <= j < |sel| && sel[j] ==> j in SelectedFrom(sel, k)
  {
    if k < |sel| {
      SelectedFromFacts(sel, k + 1);
    }
  }

  /** `allContainerOptions.filter(c => c.ref.value).map(...)`. */
  function ContainerDefinitions(flags: seq<Option<Json>>, region: RegionData): seq<Json>
    requires |flags| == |Options|
  {
    var ks := SelectedFrom(seq(|flags|, k requires 0 <= k < |flags| => JsTruthy(flags[k])), 0);
    seq(|ks|, t requires 0 <= t < |ks| => if ks[t] < |Options| then DefinitionJson(Options[ks[t]], region) else JNull)
  }

  /**
   * The definitions are those of the selected options (`ks`), in the fixed order 20, 40,
   * 40-hc, 40-hw.
   */
  lemma ContainerDefinitionsOrder(flags: seq<Option<Json>>, region: RegionData) returns (ks: seq<nat>)
    requires |flags| == |Options|
    ensures |ks| == |ContainerDefinitions(flags, region)|
    ensures forall t :: 0 <= t < |ks| ==>
      ks[t] < |Options| && JsTruthy(flags[ks[t]]) && ContainerDefinitions(flags, region)[t] == DefinitionJson(Options[ks[t]], region)
    ensures forall t, u :: 0 <= t < u < |ks| ==> ks[t] < ks[u]
    ensures forall k :: 0 <= k < |Options| && JsTruthy(flags[k]) ==> k in ks
  {
    var sel := seq(|flags|, k requires 0 <= k < |flags| => JsTruthy(flags[k]));
    ks := SelectedFrom(sel, 0);
    SelectedFromFacts(sel, 0);
  }

  /** Each definition is in use, has the option's type, and the region's weight times 1000 as its limit. */
  lemma DefinitionJsonFacts(o: ContainerOption, region: RegionData)
    ensures var d := DefinitionJson(o, region);
      d.JObj? && Field(d.fields, "use", JNull) == JBool(true) && Field(d.fields, "type", JNull) == JStr(o.typeName) &&
      Field(d.fields, "max_weight_kg", JNull) == JReal(MaxWeightKg(o, region))
  {
  }

  /** `article.amount || 1` as the `length` of `Array.from`: 1 when falsy, none when negative. */
  function Count(a: Article): nat {
    if a.amount.None? || a.amount.value == 0 then 1
    else if a.amount.value < 0 then 0
    else a.amount.value
  }

  function ObjectId(idx: nat, i: nat): int {
    idx * 1000 + 1000 + i
  }

  /** The `form` of a copy: pallet rectangle, rectangle, cylinder, or none for any other shape. */
  function FormOf(a: Article): Option<Json> {
    if a.shape == Some(JStr("Zylinder")) && JsTruthy(a.usesPallet) then
      Some(JObj(Put(Put(map["type" := JStr("rectangle"), "height" := JReal(OrZero(a.height) + OrZero(a.palletHeight))],
                        "length", Num(a.palletLength)), "width", Num(a.palletWidth))))
    else if a.shape == Some(JStr("Rechteck")) then
      Some(JObj(Put(Put(Put(map["type" := JStr("rectangle")], "length", Num(a.length)), "width", Num(a.width)), "height", Num(a.height))))
    else if a.shape == Some(JStr("Zylinder")) then
      var radius := if a.diameter.Some? && a.diameter.value != 0.0 then JReal(a.diameter.value / 2.0) else JNull;
      Some(JObj(Put(map["type" := JStr("cylinder"), "radius" := radius], "height", Num(a.height))))
    else None
  }

  const Constraints: Json := JObj(map[
    "allow_rotation" := JBool(false), "is_stackable" := JBool(true), "max_stack_weight_kg" := JNull,
    "loading_priority" := JNull, "temperature_range" := JObj(map["min" := JNull, "max" := JNull])])

  const Placement: Json := JObj(map[
    "container_type" := JNull, "container_id" := JStr(""),
    "position" := JObj(map["x" := JNull, "y" := JNull, "z" := JNull]),
    "rotation" := JObj(map["x_axis" := JNull, "y_axis" := JNull, "z_axis" := JNull])])

  /** Copy `i` of the article at index `idx`. */
  function ObjectJson(a: Article, idx: nat, i: nat): Json {
    var m := map["id" := JInt(ObjectId(idx, i)), "category" := JStr(""), "quantity" := JInt(1),
                 "constraints" := Constraints, "placement" := Placement];
    JObj(Put(Put(Put(m, "product_name", a.name), "weight_kg", a.weight), "form", FormOf(a)))
  }

  /**
   * `xs.flatMap((x, idx) => Array.from({length: count(x)}, (_, i) => mk(x, idx, i)))`, with
   * the elements of `xs` numbered from `idx`.
   */
  function FlatCopies<A, B>(xs: seq<A>, idx: nat, count: A -> nat, mk: (A, nat, nat) -> B): seq<B>
    decreases |xs|
  {
    if xs == [] then []
    else seq(count(xs[0]), i requires 0 <= i < count(xs[0]) => mk(xs[0], idx, i)) + FlatCopies(xs[1..], idx + 1, count, mk)
  }

  function TotalOf<A>(xs: seq<A>, count: A -> nat): nat
    decreases |xs|
  {
    if xs == [] then 0 else count(xs[0]) + TotalOf(xs[1..], count)
  }

  /**
   * Element `t` of the flattened list is copy `cs[t] < count` of element `ks[t]`; there are
   * `sum(count)` of them, ordered by element and then by copy.
   */
  ghost predicate IsLayout<A, B>(xs: seq<A>, idx: nat, count: A -> nat, mk: (A, nat, nat) -> B, ks: seq<nat>, cs: seq<nat>) {
    |FlatCopies(xs, idx, count, mk)| == TotalOf(xs, count) == |ks| == |cs| &&
    (forall t :: 0 <= t < |ks| ==>
      ks[t] < |xs| && cs[t] < count(xs[ks[t]]) && FlatCopies(xs, idx, count, mk)[t] == mk(xs[ks[t]], idx + ks[t], cs[t])) &&
    CopyOrdered(ks, cs)
  }

  /** The flattened list has a layout. */
  lemma {:induction false} FlatCopiesLayout<A, B>(xs: seq<A>, idx: nat, count: A -> nat, mk: (A, nat, nat) -> B)
    returns (ks: seq<nat>, cs: seq<nat>)
    decreases |xs|
    ensures IsLayout(xs, idx, count, mk, ks, cs)
  {
    if xs == [] {
      ks, cs := [], [];
    } else {
      var ks', cs' := FlatCopiesLayout(xs[1..], idx + 1, count, mk);
      var n := count(xs[0]);
      ks := ElementsShifted(n, ks');
      cs := CopiesNumbered(n, cs');
      FlatCopiesStep(xs, idx, count, mk, ks', cs', ks, cs);
    }
  }

  /** The copies of the first element come first, then the rest with their positions shifted by one element. */
  lemma FlatCopiesStep<A, B>(xs: seq<A>, idx: nat, count: A -> nat, mk: (A, nat, nat) -> B, ks': seq<nat>, cs': seq<nat>,
                             ks: seq<nat>, cs: seq<nat>)
    requires xs != [] && IsLayout(xs[1..], idx + 1, count, mk, ks', cs')
    requires ks == ElementsShifted(count(xs[0]), ks') && cs == CopiesNumbered(count(xs[0]), cs')
    ensures IsLayout(xs, idx, count, mk, ks, cs)
  {
    var n := count(xs[0]);
    var head := seq(n, i requires 0 <= i < n => mk(xs[0], idx, i));
    var tail := FlatCopies(xs[1..], idx + 1, count, mk);
    assert FlatCopies(xs, idx, count, mk) == head + tail;
    ElementsStep(xs, idx, count, mk, ks', cs', ks, cs, head + tail);
    CopyOrderStep(n, ks', cs');
  }

  /** Each element of `head + tail` is the copy the shifted positions name. */
  lemma ElementsStep<A, B>(xs: seq<A>, idx: nat, count: A -> nat, mk: (A, nat, nat) -> B, ks': seq<nat>, cs': seq<nat>,
                           ks: seq<nat>, cs: seq<nat>, full: seq<B>)
    requires xs != [] && IsLayout(xs[1..], idx + 1, count, mk, ks', cs')
    requires ks == ElementsShifted(count(xs[0]), ks') && cs == CopiesNumbered(count(xs[0]), cs')
    requires full == seq(count(xs[0]), i requires 0 <= i < count(xs[0]) => mk(xs[0], idx, i)) + FlatCopies(xs[1..], idx + 1, count, mk)
    ensures forall t :: 0 <= t < |ks| ==> ks[t] < |xs| && cs[t] < count(xs[ks[t]]) && full[t] == mk(xs[ks[t]], idx + ks[t], cs[t])
  {
    var n := count(xs[0]);
    forall t | 0 <= t < |ks| ensures ks[t] < |xs| && cs[t] < count(xs[ks[t]]) && full[t] == mk(xs[ks[t]], idx + ks[t], cs[t]) {
      if t < n {
        assert ks[t] == 0 && cs[t] == t;
      } else {
        var u := t - n;
        assert ks[t] == ks'[u] + 1 && cs[t] == cs'[u];
        assert xs[1..][ks'[u]] == xs[ks[t]];
        assert full[t] == FlatCopies(xs[1..], idx + 1, count, mk)[u];
      }
    }
  }

  /** Element positions after `n` copies of a new element 0 are put in front. */
  function ElementsShifted(n: nat, ks': seq<nat>): (ks: seq<nat>)
    ensures |ks| == n + |ks'|
    ensures forall t :: 0 <= t < n ==> ks[t] == 0
    ensures forall t :: n <= t < |ks| ==> ks[t] == ks'[t - n] + 1
  {
    seq(n, _ => 0) + seq(|ks'|, t requires 0 <= t < |ks'| => ks'[t] + 1)
  }

  /** Copy numbers after copies `0 .. n-1` of a new element are put in front. */
  function CopiesNumbered(n: nat, cs': seq<nat>): (cs: seq<nat>)
    ensures |cs| == n + |cs'|
    ensures forall t :: 0 <= t < n ==> cs[t] == t
    ensures forall t :: n <= t < |cs| ==> cs[t] == cs'[t - n]
  {
    seq(n, i => i) + cs'
  }

  /** Ordered by element and then by copy. */
  ghost predicate CopyOrdered(ks: seq<nat>, cs: seq<nat>)
    requires |ks| == |cs|
  {
    forall t, u :: 0 <= t < u < |ks| ==> ks[t] < ks[u] || (ks[t] == ks[u] && cs[t] < cs[u])
  }

  /** Putting `n` copies of a new element 0 in front keeps the positions ordered. */
  lemma CopyOrderStep(n: nat, ks': seq<nat>, cs': seq<nat>)
    requires |ks'| == |cs'| && CopyOrdered(ks', cs')
    ensures CopyOrdered(ElementsShifted(n, ks'), CopiesNumbered(n, cs'))
  {
    var ks := ElementsShifted(n, ks');
    var cs := CopiesNumbered(n, cs');
    forall t, u | 0 <= t < u < |ks| ensures ks[t] < ks[u] || (ks[t] == ks[u] && cs[t] < cs[u]) {
      if n <= t {
        assert ks[t] == ks'[t - n] + 1 && ks[u] == ks'[u - n] + 1 && cs[t] == cs'[t - n] && cs[u] == cs'[u - n];
      } else if n <= u {
        assert ks[u] == ks'[u - n] + 1;
      }
    }
  }

  /** `articles.flatMap(...)` from the article at index `idx` on. */
  function ObjectsFrom(articles: seq<Article>, idx: nat): seq<Json> {
    FlatCopies(articles, idx, Count, ObjectJson)
  }

  /** The `id` of a generated object. */
  function IdOf(j: Json): int {
    if j.JObj? && "id" in j.fields && j.fields["id"].JInt? then j.fields["id"].i else -1
  }

  lemma IdOfObjectJson(a: Article, idx: nat, i: nat)
    ensures IdOf(ObjectJson(a, idx, i)) == idx * 1000 + 1000 + i
  {
  }

  /**
   * There are `sum(amount || 1)` objects, and with at most 1000 copies per article the ids
   * `idx * 1000 + 1000 + i` strictly increase through the list, so they are distinct.
   */
  lemma IdsIncrease(articles: seq<Article>)
    requires forall k :: 0 <= k < |articles| ==> Count(articles[k]) <= 1000
    ensures |ObjectsFrom(articles, 0)| == TotalOf(articles, Count)
    ensures forall t :: 0 <= t < |ObjectsFrom(articles, 0)| ==>
      1000 <= IdOf(ObjectsFrom(articles, 0)[t]) < 1000 * (1 + |articles|)
    ensures forall t, u :: 0 <= t < u < |ObjectsFrom(articles, 0)| ==>
      IdOf(ObjectsFrom(articles, 0)[t]) < IdOf(ObjectsFrom(articles, 0)[u])
  {
    var objs := ObjectsFrom(articles, 0);
    var ks, cs := FlatCopiesLayout(articles, 0, Count, ObjectJson);
    forall t | 0 <= t < |objs| ensures IdOf(objs[t]) == ks[t] * 1000 + 1000 + cs[t] {
      IdOfObjectJson(articles[ks[t]], ks[t], cs[t]);
    }
    forall t, u | 0 <= t < u < |objs| ensures IdOf(objs[t]) < IdOf(objs[u]) {
      assert cs[t] < 1000;
    }
  }

  /** `new Date().toISOString()` is the parameter `now`. */
  function GenerateOrderJson(selectedCountry: Json, region: RegionData, articles: seq<Article>,
                             c20: Option<Json>, c40: Option<Json>, c40hc: Option<Json>, c40hw: Option<Json>,
                             now: string): Json
  {
    JObj(map["order" := JObj(map[
      "order_id" := JStr(""),
      "delivery_country" := selectedCountry,
      "delivery_region" := (if JsTruthy(region.region) then region.region.value else JStr("")),
      "created_at" := JStr(now),
      "updated_at" := JStr(now),
      "container_definitions" := JArr(ContainerDefinitions([c20, c40, c40hc, c40hw], region)),
      "objects" := JArr(ObjectsFrom(articles, 0)),
      "loading_plan" := LoadingPlanTemplate])])
  }

  const LoadingPlanTemplate: Json := JObj(map["containers" := JArr([JObj(map[
    "sequence" := JInt(1), "instance_id" := JStr(""), "container_id" := JStr(""), "type" := JStr(""),
    "total_weight_kg" := JNull, "efficiency_percent" := JNull,
    "placed_objects" := JArr([JObj(map[
      "id" := JNull, "stack_level" := JNull,
      "position" := JObj(map["x" := JNull, "y" := JNull, "z" := JNull]),
      "rotation" := JObj(map["x_axis" := JNull, "y_axis" := JNull, "z_axis" := JNull])])])])])])

  /** The order keeps one timestamp for both fields and an empty region for a falsy one. */
  lemma OrderHeader(selectedCountry: Json, region: RegionData, articles: seq<Article>,
                    c20: Option<Json>, c40: Option<Json>, c40hc: Option<Json>, c40hw: Option<Json>, now: string)
    ensures var order := GenerateOrderJson(selectedCountry, region, articles, c20, c40, c40hc, c40hw, now).fields["order"];
      order.JObj? && order.fields["created_at"] == order.fields["updated_at"] &&
      (JsTruthy(region.region) ==> order.fields["delivery_region"] == region.region.value) &&
      (!JsTruthy(region.region) ==> order.fields["delivery_region"] == JStr(""))
  {
  }

  /** The weight the reader takes from `weight_kg`. */
  predicate WeightReadable(a: Article) {
    a.weight.None? || a.weight == Some(JNull) || Float(a.weight.value).Ok?
  }

  function WeightRead(a: Article): real
    requires WeightReadable(a)
  {
    if a.weight.None? || a.weight == Some(JNull) then 0.0 else Float(a.weight.value).value
  }

  /** The name the reader gives a copy: `product_name`, else `"Item <id>"`. */
  function NameRead(a: Article, idx: nat, i: nat): Json {
    if a.name.Some? then a.name.value else JStr("Item " + Decimal.IntToString(ObjectId(idx, i)))
  }

  /** The fields of a generated object the reader consults before the form. */
  lemma GeneratedFields(a: Article, idx: nat, i: nat)
    ensures var f := ObjectJson(a, idx, i).fields;
      Field(f, "id", JInt(-1)) == JInt(ObjectId(idx, i)) && Field(f, "quantity", JInt(0)) == JInt(1) &&
      Field(f, "weight_kg", JNull) == (if a.weight.Some? then a.weight.value else JNull) &&
      Field(f, "product_name", JStr("Item " + Decimal.IntToString(ObjectId(idx, i)))) == NameRead(a, idx, i) &&
      Field(f, "form", JObj(map[])) == (if FormOf(a).Some? then FormOf(a).value else JObj(map[]))
  {
    var m := map["id" := JInt(ObjectId(idx, i)), "category" := JStr(""), "quantity" := JInt(1),
                 "constraints" := Constraints, "placement" := Placement];
    var named := Put(m, "product_name", a.name);
    var weighed := Put(named, "weight_kg", a.weight);
    var f := Put(weighed, "form", FormOf(a));
    assert ObjectJson(a, idx, i).fields == f;
    assert "weight_kg" !in m by {
      assert "weight_kg"[0] != "placement"[0];
    }
    assert |"form"| != |"weight_kg"| && |"form"| != |"product_name"| && |"weight_kg"| != |"product_name"|;
    assert |"form"| != |"id"| && |"weight_kg"| != |"id"| && |"product_name"| != |"id"|;
    assert |"form"| != |"quantity"| && |"weight_kg"| != |"quantity"| && |"product_name"| != |"quantity"|;
    assert Field(f, "id", JInt(-1)) == JInt(ObjectId(idx, i));
    assert Field(f, "quantity", JInt(0)) == JInt(1);
    assert Field(f, "weight_kg", JNull) == (if a.weight.Some? then a.weight.value else JNull);
  }

  /** The reader's verdict on a generated object is decided by the form alone. */
  lemma ReadGenerated(a: Article, idx: nat, i: nat)
    ensures var form := if FormOf(a).Some? then FormOf(a).value else JObj(map[]);
      form.JObj? &&
      AlgorithmOrderParser.ReadObject(ObjectJson(a, idx, i)) ==
        if !WeightReadable(a) then Ok(None)
        else
          match AlgorithmOrderParser.Shape(form.fields)
          case Some(g) => Ok(Some(PackerItems.WithGeometry(ObjectId(idx, i), NameRead(a, idx, i), 1, WeightRead(a), g)))
          case None => Ok(None)
  {
    GeneratedFields(a, idx, i);
    var v := if a.weight.Some? then a.weight.value else JNull;
    assert AlgorithmOrderParser.Weight(v).Ok? <==> WeightReadable(a);
    assert WeightReadable(a) ==> AlgorithmOrderParser.Weight(v) == Ok(WeightRead(a));
  }

  /** A generated object never crashes the reader: it is a dict and so is its form. */
  lemma GeneratedObjectNeverRaises(a: Article, idx: nat, i: nat)
    ensures AlgorithmOrderParser.ReadObject(ObjectJson(a, idx, i)).Ok?
  {
    ReadGenerated(a, idx, i);
  }

  /** A `Rechteck` article with length and width reads back as a rectangle `width x length`. */
  lemma RechteckReadsBack(a: Article, idx: nat, i: nat)
    requires a.shape == Some(JStr("Rechteck")) && a.length.Some? && a.width.Some? && WeightReadable(a)
    ensures AlgorithmOrderParser.ReadObject(ObjectJson(a, idx, i)) ==
      Ok(Some(PackerItems.WithGeometry(ObjectId(idx, i), NameRead(a, idx, i), 1, WeightRead(a),
                                       PackerItems.RectangleGeometry(a.width.value, a.length.value))))
  {
    ReadGenerated(a, idx, i);
    var sized := map["type" := JStr("rectangle"), "length" := JReal(a.length.value), "width" := JReal(a.width.value)];
    var form := Put(sized, "height", Num(a.height));
    assert FormOf(a) == Some(JObj(form));
    assert (if FormOf(a).Some? then FormOf(a).value else JObj(map[])) == JObj(form);
    assert Field(form, "type", JNull) == JStr("rectangle") && Field(form, "width", JNull) == JReal(a.width.value) by {
      assert "type" != "height" && "width" != "height";
    }
    assert Field(form, "length", JNull) == JReal(a.length.value) by {
      assert "length" != "height" by {
        assert "length"[0] != "height"[0];
      }
    }
    AlgorithmOrderParser.RectangleShape(form);
  }

  /** A `Zylinder` on a pallet reads back as a rectangle of the pallet's width and length. */
  lemma PalletReadsBack(a: Article, idx: nat, i: nat)
    requires a.shape == Some(JStr("Zylinder")) && JsTruthy(a.usesPallet)
    requires a.palletLength.Some? && a.palletWidth.Some? && WeightReadable(a)
    ensures AlgorithmOrderParser.ReadObject(ObjectJson(a, idx, i)) ==
      Ok(Some(PackerItems.WithGeometry(ObjectId(idx, i), NameRead(a, idx, i), 1, WeightRead(a),
                                       PackerItems.RectangleGeometry(a.palletWidth.value, a.palletLength.value))))
  {
    ReadGenerated(a, idx, i);
    var form := FormOf(a).value.fields;
    assert Field(form, "type", JNull) == JStr("rectangle");
    assert Field(form, "width", JNull) == JReal(a.palletWidth.value) && Field(form, "length", JNull) == JReal(a.palletLength.value);
    AlgorithmOrderParser.RectangleShape(form);
  }

  /** A `Zylinder` without pallet and with a non-zero diameter reads back as a circle of half that diameter. */
  lemma CylinderReadsBack(a: Article, idx: nat, i: nat)
    requires a.shape == Some(JStr("Zylinder")) && !JsTruthy(a.usesPallet)
    requires a.diameter.Some? && a.diameter.value != 0.0 && WeightReadable(a)
    ensures AlgorithmOrderParser.ReadObject(ObjectJson(a, idx, i)) ==
      Ok(Some(PackerItems.WithGeometry(ObjectId(idx, i), NameRead(a, idx, i), 1, WeightRead(a),
                                       PackerItems.CircleGeometry(a.diameter.value / 2.0))))
    ensures PackerItems.CircleGeometry(a.diameter.value / 2.0).wBb == a.diameter.value
  {
    ReadGenerated(a, idx, i);
    CylinderFormShape(a);
    assert a.diameter.value / 2.0 * 2.0 == a.diameter.value;
  }

  /** The form of a cylinder without pallet is a `cylinder` of half the diameter. */
  lemma CylinderFormShape(a: Article)
    requires a.shape == Some(JStr("Zylinder")) && !JsTruthy(a.usesPallet)
    requires a.diameter.Some? && a.diameter.value != 0.0
    ensures FormOf(a).Some? && FormOf(a).value.JObj?
    ensures AlgorithmOrderParser.Shape(FormOf(a).value.fields) == Some(PackerItems.CircleGeometry(a.diameter.value / 2.0))
  {
    var form := Put(map["type" := JStr("cylinder"), "radius" := JReal(a.diameter.value / 2.0)], "height", Num(a.height));
    assert FormOf(a) == Some(JObj(form));
    assert Field(form, "type", JNull) == JStr("cylinder") && Field(form, "radius", JNull) == JReal(a.diameter.value / 2.0) by {
      assert "type" != "height" && "radius" != "height";
    }
    AlgorithmOrderParser.CylinderShape(form);
  }

  /** Any other shape, or a cylinder without pallet or diameter, has nothing the reader can pack: it is skipped. */
  lemma UnpackableArticleSkipped(a: Article, idx: nat, i: nat)
    requires (a.shape != Some(JStr("Rechteck")) && a.shape != Some(JStr("Zylinder"))) ||
             (a.shape == Some(JStr("Zylinder")) && !JsTruthy(a.usesPallet) && (a.diameter.None? || a.diameter.value == 0.0))
    ensures AlgorithmOrderParser.ReadObject(ObjectJson(a, idx, i)) == Ok(None)
  {
    if a.shape == Some(JStr("Zylinder")) {
      RadiuslessCylinderSkipped(a, idx, i);
    } else {
      FormlessArticleSkipped(a, idx, i);
    }
  }

  /** A cylinder without pallet gets `radius` null when it has no diameter or a zero one. */
  lemma RadiuslessCylinderSkipped(a: Article, idx: nat, i: nat)
    requires a.shape == Some(JStr("Zylinder")) && !JsTruthy(a.usesPallet) && (a.diameter.None? || a.diameter.value == 0.0)
    ensures AlgorithmOrderParser.ReadObject(ObjectJson(a, idx, i)) == Ok(None)
  {
    ReadGenerated(a, idx, i);
    var form := Put(map["type" := JStr("cylinder"), "radius" := JNull], "height", Num(a.height));
    assert FormOf(a) == Some(JObj(form));
    assert (if FormOf(a).Some? then FormOf(a).value else JObj(map[])) == JObj(form);
    assert Field(form, "type", JNull) == JStr("cylinder") && Field(form, "radius", JNull) == JNull by {
      assert "type" != "height" && "radius" != "height";
    }
  }

  /** Any shape other than the two gets no `form`, which the reader reads as an empty dict. */
  lemma FormlessArticleSkipped(a: Article, idx: nat, i: nat)
    requires a.shape != Some(JStr("Rechteck")) && a.shape != Some(JStr("Zylinder"))
    ensures AlgorithmOrderParser.ReadObject(ObjectJson(a, idx, i)) == Ok(None)
  {
    ReadGenerated(a, idx, i);
    assert FormOf(a).None?;
    assert Field(map[], "type", JNull) == JNull;
  }


  /** The `objects` list of a generated order is what the reader iterates over. */
  lemma OrderObjects(selectedCountry: Json, region: RegionData, articles: seq<Article>,
                     c20: Option<Json>, c40: Option<Json>, c40hc: Option<Json>, c40hw: Option<Json>, now: string)
    ensures var order := GenerateOrderJson(selectedCountry, region, articles, c20, c40, c40hc, c40hw, now).fields["order"];
      AlgorithmOrderParser.ObjectsOf(order) == Ok(ObjectsFrom(articles, 0))
  {
    var order := GenerateOrderJson(selectedCountry, region, articles, c20, c40, c40hc, c40hw, now).fields["order"];
    assert order.JObj? && order.fields["objects"] == JArr(ObjectsFrom(articles, 0));
  }

  /** The reader of backend/Algorithm/order_parser.py reads every generated order without an uncaught exception. */
  lemma GeneratedOrderReadsWithoutRaising(selectedCountry: Json, region: RegionData, articles: seq<Article>,
                                          c20: Option<Json>, c40: Option<Json>, c40hc: Option<Json>, c40hw: Option<Json>,
                                          now: string)
    ensures var order := GenerateOrderJson(selectedCountry, region, articles, c20, c40, c40hc, c40hw, now).fields["order"];
      AlgorithmOrderParser.ObjectsOf(order).Ok? &&
      !PackerItems.Raises(AlgorithmOrderParser.ObjectsOf(order).value, AlgorithmOrderParser.ReadAt)
  {
    var objs := ObjectsFrom(articles, 0);
    OrderObjects(selectedCountry, region, articles, c20, c40, c40hc, c40hw, now);
    var ks, cs := FlatCopiesLayout(articles, 0, Count, ObjectJson);
    forall t | 0 <= t < |objs| ensures AlgorithmOrderParser.ReadAt(objs[t], t).Ok? {
      GeneratedObjectNeverRaises(articles[ks[t]], ks[t], cs[t]);
    }
  }
}
