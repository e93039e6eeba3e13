/**
 * `generate_packing_list_pdf` of backend_connector/app.py: the plain-text packing list it
 * writes into an in-memory buffer, as the sequence of its lines (each written followed
 * by a newline). The order line and a rule come first, then per container a header, a
 * rule, one line per object of the order whose `id` is among the container's placed ids
 * (in the order of the order's object list), and a blank line. Nothing is caught: the
 * first exception ends the function, and the result is that exception.
 */
module AppListing {
  import opened Wrappers
  import opened PyJson

  /** A line of the text, written followed by a newline. */
  datatype Line =
    | OrderLine(orderId: Json)
    | OrderRule
    | Blank
    | ContainerLine(sequence: Json, instanceId: Json, kind: Json)
    | ContainerRule
    | ObjectLine(id: Json, productName: Json, quantity: Json)

  /** The text of a line, the f-strings rendering each value with `str`. */
  function Text(l: Line): string {
    match l
    case OrderLine(orderId) => "LADEPLAN FUER BESTELLUNG: " + Str(orderId)
    case OrderRule => "==========================================="
    case Blank => ""
    case ContainerLine(sequence, instanceId, kind) =>
      "CONTAINER #" + Str(sequence) + ": " + Str(instanceId) + " (" + Str(kind) + ")"
    case ContainerRule => "-------------------------------------------"
    case ObjectLine(id, productName, quantity) =>
      "  - ID " + Str(id) + ": " + Str(productName) + " (Anzahl: " + Str(quantity) + ")"
  }

  /** `CONTAINER #{container['sequence']}: {container['instance_id']} ({container['type']})`. */
  function HeaderLine(container: Json): (r: Py<Line>)
    ensures r.Ok? <==> container.JObj? && "sequence" in container.fields &&
                       "instance_id" in container.fields && "type" in container.fields
  {
    var sequence :- Subscript(container, "sequence");
    var instance :- Subscript(container, "instance_id");
    var kind :- Subscript(container, "type");
    Ok(ContainerLine(sequence, instance, kind))
  }

  /** `[p["id"] for p in ps]`: the first element without an `id` raises. */
  function IdsOf(ps: seq<Json>): (r: Py<seq<Json>>)
    decreases |ps|
  {
    if ps == [] then Ok([])
    else
      match IdsOf(ps[..|ps| - 1])
      case Raise(e) => Raise(e)
      case Ok(front) =>
        match Subscript(ps[|ps| - 1], "id")
        case Raise(e) => Raise(e)
        case Ok(id) => Ok(front + [id])
  }

  /** The ids are the placed objects' ids, one per object in the same order, and the comprehension fails exactly when one object has none. */
  lemma {:induction false} IdsOfValues(ps: seq<Json>)
    decreases |ps|
    ensures IdsOf(ps).Ok? <==> forall i :: 0 <= i < |ps| ==> Subscript(ps[i], "id").Ok?
    ensures IdsOf(ps).Ok? ==>
      |IdsOf(ps).value| == |ps| && forall i :: 0 <= i < |ps| ==> IdsOf(ps).value[i] == Subscript(ps[i], "id").value
  {
    if ps != [] {
      var front := ps[..|ps| - 1];
      IdsOfValues(front);
      assert forall i :: 0 <= i < |front| ==> front[i] == ps[i];
    }
  }

  /** `placed_ids = [p["id"] for p in container["placed_objects"]]`. */
  function PlacedIds(container: Json): Py<seq<Json>> {
    var placed :- Subscript(container, "placed_objects");
    var ps :- Elements(placed, TypeError);
    IdsOf(ps)
  }

  /** `x in xs` on a list: some element is `==` to `x`. */
  predicate Member(x: Json, xs: seq<Json>) {
    exists i :: 0 <= i < |xs| && PyEq(x, xs[i])
  }

  /** The object has an `id`, and it is among `ids`. */
  predicate IsPlaced(obj: Json, ids: seq<Json>) {
    Subscript(obj, "id").Ok? && Member(Subscript(obj, "id").value, ids)
  }

  /** The line written for a listed object. */
  function ListedLine(fields: map<string, Json>): Line
    requires "id" in fields && "product_name" in fields && "quantity" in fields
  {
    ObjectLine(fields["id"], fields["product_name"], fields["quantity"])
  }

  /** The lines `r` holds written after `lines`, or what `r` raises. */
  function After(lines: seq<Line>, r: Py<seq<Line>>): Py<seq<Line>> {
    match r
    case Raise(e) => Raise(e)
    case Ok(ls) => Ok(lines + ls)
  }

  /** One pass of the object loop: the object's line if its `id` is placed, nothing otherwise. */
  function ObjectEntry(obj: Json, ids: seq<Json>): (r: Py<seq<Line>>)
    ensures r.Ok? <==> obj.JObj? && "id" in obj.fields &&
                       (IsPlaced(obj, ids) ==> "product_name" in obj.fields && "quantity" in obj.fields)
    ensures r.Ok? && IsPlaced(obj, ids) ==> r.value == [ListedLine(obj.fields)]
    ensures r.Ok? && !IsPlaced(obj, ids) ==> r.value == []
  {
    var id :- Subscript(obj, "id");
    if !Member(id, ids) then Ok([])
    else
      var name :- Subscript(obj, "product_name");
      var quantity :- Subscript(obj, "quantity");
      Ok([ObjectLine(id, name, quantity)])
  }

  /** The object loop over `objs`: the lines of the placed objects in list order. */
  function ObjectLines(objs: seq<Json>, ids: seq<Json>): Py<seq<Line>>
    decreases |objs|
  {
    if objs == [] then Ok([])
    else
      match ObjectLines(objs[..|objs| - 1], ids)
      case Raise(e) => Raise(e)
      case Ok(front) =>
        match ObjectEntry(objs[|objs| - 1], ids)
        case Raise(e) => Raise(e)
        case Ok(mine) => Ok(front + mine)
  }

  /** The object loop runs through exactly when every object's pass does. */
  lemma {:induction false} ObjectLinesDefined(objs: seq<Json>, ids: seq<Json>)
    decreases |objs|
    ensures ObjectLines(objs, ids).Ok? <==> forall k :: 0 <= k < |objs| ==> ObjectEntry(objs[k], ids).Ok?
  {
    if objs != [] {
      var front := objs[..|objs| - 1];
      ObjectLinesDefined(front, ids);
      assert forall k :: 0 <= k < |front| ==> front[k] == objs[k];
    }
  }

  /**
   * The object lines are exactly those of the placed objects, in the order of the object
   * list and not of the placement: `pos[t]` is the object the `t`-th line is about.
   */
  lemma ObjectLinesAreFilter(objs: seq<Json>, ids: seq<Json>) returns (pos: seq<nat>)
    requires ObjectLines(objs, ids).Ok?
    ensures |pos| == |ObjectLines(objs, ids).value|
    ensures forall t :: 0 <= t < |pos| ==>
      pos[t] < |objs| && IsPlaced(objs[pos[t]], ids) && objs[pos[t]].JObj? &&
      "product_name" in objs[pos[t]].fields && "quantity" in objs[pos[t]].fields &&
      ObjectLines(objs, ids).value[t] == ListedLine(objs[pos[t]].fields)
    ensures forall t, u :: 0 <= t < u < |pos| ==> pos[t] < pos[u]
    ensures forall k :: 0 <= k < |objs| && IsPlaced(objs[k], ids) ==> k in pos
  {
    assert objs[..|objs|] == objs;
    pos := FilterPrefix(objs, ids, |objs|);
  }

  /** The lines of `objs[t]` with `t` in `pos`, in order, hold exactly the placed ones among `objs[..n]`. */
  ghost predicate IsFilter(objs: seq<Json>, ids: seq<Json>, n: nat, ls: seq<Line>, pos: seq<nat>) {
    |pos| == |ls| &&
    (forall t :: 0 <= t < |pos| ==>
      pos[t] < n && pos[t] < |objs| && IsPlaced(objs[pos[t]], ids) && objs[pos[t]].JObj? &&
      "product_name" in objs[pos[t]].fields && "quantity" in objs[pos[t]].fields &&
      ls[t] == ListedLine(objs[pos[t]].fields)) &&
    (forall t, u :: 0 <= t < u < |pos| ==> pos[t] < pos[u]) &&
    (forall k :: 0 <= k < n && k < |objs| && IsPlaced(objs[k], ids) ==> k in pos)
  }

  lemma {:induction false} FilterPrefix(objs: seq<Json>, ids: seq<Json>, n: nat) returns (pos: seq<nat>)
    requires n <= |objs| && ObjectLines(objs[..n], ids).Ok?
    ensures IsFilter(objs, ids, n, ObjectLines(objs[..n], ids).value, pos)
  {
    if n == 0 {
      pos := [];
    } else {
      assert objs[..n][..n - 1] == objs[..n - 1];
      var prev := FilterPrefix(objs, ids, n - 1);
      var ls := ObjectLines(objs[..n - 1], ids).value;
      var e := ObjectEntry(objs[n - 1], ids).value;
      assert ObjectLines(objs[..n], ids).value == ls + e;
      pos := FilterStep(objs, ids, n, ls, e, prev);
    }
  }

  lemma FilterStep(objs: seq<Json>, ids: seq<Json>, n: nat, ls: seq<Line>, e: seq<Line>, prev: seq<nat>) returns (pos: seq<nat>)
    requires 0 < n <= |objs| && IsFilter(objs, ids, n - 1, ls, prev)
    requires ObjectEntry(objs[n - 1], ids) == Ok(e)
    ensures IsFilter(objs, ids, n, ls + e, pos)
  {
    if IsPlaced(objs[n - 1], ids) {
      pos := prev + [n - 1];
    } else {
      pos := prev;
    }
  }

  /** One pass of the container loop: header, rule, the object lines, a blank line. */
  function ContainerBlock(order: Json, container: Json): Py<seq<Line>> {
    var header :- HeaderLine(container);
    var ids :- PlacedIds(container);
    var objectsJson :- Get(order, "objects", JArr([]));
    var objs :- Elements(objectsJson, TypeError);
    var objectLines :- ObjectLines(objs, ids);
    Ok([header, ContainerRule] + objectLines + [Blank])
  }

  /** A container's block starts with its header and the rule and ends with a blank line. */
  lemma ContainerBlockShape(order: Json, container: Json)
    requires ContainerBlock(order, container).Ok?
    ensures var b := ContainerBlock(order, container).value;
      |b| >= 3 && Ok(b[0]) == HeaderLine(container) && b[1] == ContainerRule && b[|b| - 1] == Blank
  {
  }

  /** The blocks of `cs` in turn. */
  function ContainersLines(order: Json, cs: seq<Json>): Py<seq<Line>>
    decreases |cs|
  {
    if cs == [] then Ok([])
    else
      match ContainersLines(order, cs[..|cs| - 1])
      case Raise(e) => Raise(e)
      case Ok(front) =>
        match ContainerBlock(order, cs[|cs| - 1])
        case Raise(e) => Raise(e)
        case Ok(block) => Ok(front + block)
  }

  /** One pass of the container loop extends the lines by the container's block, or ends the loop with what the block raises. */
  lemma ContainersStep(order: Json, cs: seq<Json>, i: nat, lines: seq<Line>, block: Py<seq<Line>>)
    requires i < |cs| && ContainersLines(order, cs[..i]).Ok?
    requires block == After(lines + ContainersLines(order, cs[..i]).value, ContainerBlock(order, cs[i]))
    ensures block.Raise? ==> After(lines, ContainersLines(order, cs)) == Raise(block.exc)
    ensures block.Ok? ==> ContainersLines(order, cs[..i + 1]).Ok? && block.value == lines + ContainersLines(order, cs[..i + 1]).value
  {
    ghost var own := ContainerBlock(order, cs[i]);
    ContainerAppended(order, cs, i, own);
    if own.Ok? {
      assert block.value == lines + (ContainersLines(order, cs[..i]).value + own.value);
    }
  }

  /** The container's own block decides the step: its exception ends the listing, its lines are appended. */
  lemma ContainerAppended(order: Json, cs: seq<Json>, i: nat, own: Py<seq<Line>>)
    requires i < |cs| && ContainersLines(order, cs[..i]).Ok?
    requires own == ContainerBlock(order, cs[i])
    ensures own.Raise? ==> ContainersLines(order, cs) == Raise(own.exc)
    ensures own.Ok? ==> ContainersLines(order, cs[..i + 1]) == Ok(ContainersLines(order, cs[..i]).value + own.value)
  {
    assert cs[..i + 1][..i] == cs[..i];
    if own.Raise? {
      ContainersPrefixRaises(order, cs, i + 1);
    }
  }

  lemma {:induction false} ContainersPrefixRaises(order: Json, cs: seq<Json>, i: nat)
    requires i <= |cs| && ContainersLines(order, cs[..i]).Raise?
    decreases |cs|
    ensures ContainersLines(order, cs) == ContainersLines(order, cs[..i])
  {
    if i < |cs| {
      assert cs[..|cs| - 1][..i] == cs[..i];
      ContainersPrefixRaises(order, cs[..|cs| - 1], i);
    } else {
      assert cs[..i] == cs;
    }
  }

  /** What the order reading yields before the container loop. */
  datatype OrderInput = OrderInput(order: Json, orderId: Json, containers: seq<Json>)

  /** `order_id` (default "Unbekannt") and the containers of `loading_plan` (default none). */
  function ReadOrder(data: Json): Py<OrderInput> {
    match Get(data, "order", JObj(map[]))
    case Raise(e) => Raise(e)
    case Ok(order) =>
      match Get(order, "order_id", JStr("Unbekannt"))
      case Raise(e) => Raise(e)
      case Ok(orderId) =>
        match Get(Field(order.fields, "loading_plan", JObj(map[])), "containers", JArr([]))
        case Raise(e) => Raise(e)
        case Ok(containersJson) =>
          match Elements(containersJson, TypeError)
          case Raise(e) => Raise(e)
          case Ok(cs) => Ok(OrderInput(order, orderId, cs))
  }

  /** The lines of the text, or the exception that ends the function. */
  function PackingList(data: Json): Py<seq<Line>> {
    match ReadOrder(data)
    case Raise(e) => Raise(e)
    case Ok(input) =>
      match ContainersLines(input.order, input.containers)
      case Raise(e) => Raise(e)
      case Ok(body) => Ok([OrderLine(input.orderId), OrderRule, Blank] + body)
  }

  /** The text opens with the order line, whose id defaults to "Unbekannt", the rule and a blank line. */
  lemma PackingListHead(data: Json)
    requires PackingList(data).Ok?
    ensures data.JObj?
    ensures var ls := PackingList(data).value;
      |ls| >= 3 && ls[1] == OrderRule && ls[2] == Blank &&
      ("order" !in data.fields ==> ls[0] == OrderLine(JStr("Unbekannt"))) &&
      ("order" in data.fields ==>
        (data.fields["order"].JObj? &&
         ls[0] == OrderLine(Field(data.fields["order"].fields, "order_id", JStr("Unbekannt")))))
  {
  }

  /** Without containers the text is the three opening lines alone, and the object list is never read. */
  lemma NoContainersNoBlocks(data: Json)
    requires ReadOrder(data).Ok? && ReadOrder(data).value.containers == []
    ensures PackingList(data) == Ok([OrderLine(ReadOrder(data).value.orderId), OrderRule, Blank])
  {
    var input := ReadOrder(data).value;
    var head := [OrderLine(input.orderId), OrderRule, Blank];
    assert ContainersLines(input.order, input.containers) == Ok([]);
    assert head + [] == head;
  }

  /**
   * The placed ids only select: a container with no placed objects still reads every
   * object's `id`, and writes no object line.
   */
  lemma EmptyContainerReadsIds(objs: seq<Json>)
    ensures ObjectLines(objs, []).Ok? <==> forall k :: 0 <= k < |objs| ==> objs[k].JObj? && "id" in objs[k].fields
    ensures ObjectLines(objs, []).Ok? ==> ObjectLines(objs, []).value == []
  {
    ObjectLinesDefined(objs, []);
    if ObjectLines(objs, []).Ok? {
      var pos := ObjectLinesAreFilter(objs, []);
      assert |pos| == 0;
    }
  }

  /** `[p["id"] for p in ps]` as a loop. */
  method CollectIds(ps: seq<Json>) returns (r: Py<seq<Json>>)
    ensures r == IdsOf(ps)
  {
    var ids: seq<Json> := [];
    for i := 0 to |ps|
      invariant IdsOf(ps[..i]) == Ok(ids)
    {
      assert ps[..i + 1][..i] == ps[..i];
      var id := Subscript(ps[i], "id");
      if id.Raise? {
        IdsPrefixRaises(ps, i + 1);
        return Raise(id.exc);
      }
      ids := ids + [id.value];
    }
    assert ps[..|ps|] == ps;
    r := Ok(ids);
  }

  lemma {:induction false} IdsPrefixRaises(ps: seq<Json>, i: nat)
    requires i <= |ps| && IdsOf(ps[..i]).Raise?
    decreases |ps|
    ensures IdsOf(ps) == IdsOf(ps[..i])
  {
    if i < |ps| {
      assert ps[..|ps| - 1][..i] == ps[..i];
      IdsPrefixRaises(ps[..|ps| - 1], i);
    } else {
      assert ps[..i] == ps;
    }
  }

  /** `obj["id"] in placed_ids`, scanning the list. */
  method IsMember(x: Json, xs: seq<Json>) returns (found: bool)
    ensures found <==> Member(x, xs)
  {
    found := false;
    var i := 0;
    while i < |xs| && !found
      invariant 0 <= i <= |xs|
      invariant found <==> exists j :: 0 <= j < i && PyEq(x, xs[j])
    {
      found := PyEq(x, xs[i]);
      i := i + 1;
    }
  }

  /** The object loop, writing after `lines`. */
  method ListObjects(objs: seq<Json>, ids: seq<Json>, lines: seq<Line>) returns (r: Py<seq<Line>>)
    ensures r == After(lines, ObjectLines(objs, ids))
  {
    var out := lines;
    for i := 0 to |objs|
      invariant ObjectLines(objs[..i], ids).Ok?
      invariant out == lines + ObjectLines(objs[..i], ids).value
    {
      ObjectStep(objs, ids, i);
      var obj := objs[i];
      var id := Subscript(obj, "id");
      if id.Raise? {
        return Raise(id.exc);
      }
      var placed := IsMember(id.value, ids);
      if placed {
        var name := Subscript(obj, "product_name");
        if name.Raise? {
          return Raise(name.exc);
        }
        var quantity := Subscript(obj, "quantity");
        if quantity.Raise? {
          return Raise(quantity.exc);
        }
        out := out + [ObjectLine(id.value, name.value, quantity.value)];
      }
    }
    assert objs[..|objs|] == objs;
    r := Ok(out);
  }

  /** The pass over `objs[i]` ends the loop with its exception, or extends the lines so far by its own. */
  lemma ObjectStep(objs: seq<Json>, ids: seq<Json>, i: nat)
    requires i < |objs| && ObjectLines(objs[..i], ids).Ok?
    ensures var entry := ObjectEntry(objs[i], ids);
      (entry.Raise? ==> ObjectLines(objs, ids) == Raise(entry.exc)) &&
      (entry.Ok? ==> ObjectLines(objs[..i + 1], ids) == Ok(ObjectLines(objs[..i], ids).value + entry.value))
  {
    assert objs[..i + 1][..i] == objs[..i];
    if ObjectEntry(objs[i], ids).Raise? {
      ObjectsPrefixRaises(objs, ids, i + 1);
    }
  }

  lemma {:induction false} ObjectsPrefixRaises(objs: seq<Json>, ids: seq<Json>, i: nat)
    requires i <= |objs| && ObjectLines(objs[..i], ids).Raise?
    decreases |objs|
    ensures ObjectLines(objs, ids) == ObjectLines(objs[..i], ids)
  {
    if i < |objs| {
      assert objs[..|objs| - 1][..i] == objs[..i];
      ObjectsPrefixRaises(objs[..|objs| - 1], ids, i);
    } else {
      assert objs[..i] == objs;
    }
  }

  /** One pass of the container loop, writing after `lines`. */
  method ListContainer(order: Json, container: Json, lines: seq<Line>) returns (r: Py<seq<Line>>)
    ensures r == After(lines, ContainerBlock(order, container))
  {
    var header := HeaderLine(container);
    if header.Raise? {
      return Raise(header.exc);
    }
    var out := lines + [header.value, ContainerRule];
    var placed := Subscript(container, "placed_objects");
    if placed.Raise? {
      return Raise(placed.exc);
    }
    var ps := Elements(placed.value, TypeError);
    if ps.Raise? {
      return Raise(ps.exc);
    }
    var ids := CollectIds(ps.value);
    if ids.Raise? {
      return Raise(ids.exc);
    }
    var objectsJson := Get(order, "objects", JArr([]));
    if objectsJson.Raise? {
      return Raise(objectsJson.exc);
    }
    var objs := Elements(objectsJson.value, TypeError);
    if objs.Raise? {
      return Raise(objs.exc);
    }
    r := ListObjects(objs.value, ids.value, out);
    if r.Ok? {
      r := Ok(r.value + [Blank]);
      assert r.value == lines + ([header.value, ContainerRule] + ObjectLines(objs.value, ids.value).value + [Blank]);
    }
  }

  /** The container loop, writing after `lines`. */
  method ListContainers(order: Json, cs: seq<Json>, lines: seq<Line>) returns (r: Py<seq<Line>>)
    ensures r == After(lines, ContainersLines(order, cs))
  {
    var out := lines;
    for i := 0 to |cs|
      invariant ContainersLines(order, cs[..i]).Ok?
      invariant out == lines + ContainersLines(order, cs[..i]).value
    {
      var block := ListContainer(order, cs[i], out);
      ContainersStep(order, cs, i, lines, block);
      if block.Raise? {
        return Raise(block.exc);
      }
      out := block.value;
    }
    assert cs[..|cs|] == cs;
    r := Ok(out);
  }

  /** `generate_packing_list_pdf`: the lines of the buffer, or the exception raised. */
  method GeneratePackingList(data: Json) returns (r: Py<seq<Line>>)
    ensures r == PackingList(data)
  {
    var input := ReadOrder(data);
    if input.Raise? {
      return Raise(input.exc);
    }
    var head := [OrderLine(input.value.orderId), OrderRule, Blank];
    r := ListContainers(input.value.order, input.value.containers, head);
  }
}
