/**
 * `generate_packing_list_pdf` of backend_connector/pdf_generator.py as the sequence of text
 * lines it writes with `pdf.cell`: the order line, then per container a header, and either
 * the "no content" line or a pre-order walk of the stacks. Placed objects whose
 * `stack_level` is None, 0 or 1 are bases; the others hang under the object whose `id`
 * equals their `stack_level`. A shared counter numbers every visited object. Any exception
 * makes the whole function return None; Python's recursion limit is the parameter
 * `maxLevels`, the number of nested `print_stack_recursively` calls that still fit.
 */
module PdfListing {
  import opened Wrappers
  import opened PyJson
  import Decimal

  type Fields = map<string, Json>

  /** `parent_id is None or parent_id in [0, 1]`. */
  predicate IsBase(o: Fields) {
    var p := Field(o, "stack_level", JNull);
    p == JNull || NumValue(p) == Some(0.0) || NumValue(p) == Some(1.0)
  }

  /** The base test is Python's `parent_id is None or parent_id in [0, 1]`. */
  lemma IsBaseIsMembership(o: Fields)
    ensures var p := Field(o, "stack_level", JNull);
      IsBase(o) <==> p == JNull || PyEq(p, JInt(0)) || PyEq(p, JInt(1))
  {
  }

  /** The key `stack_map` files a non-base object under. */
  function ParentKey(o: Fields): Option<Key> {
    KeyOf(Field(o, "stack_level", JNull))
  }

  /** The partition loop does not raise: every placed object is a dict, and a non-base one has a hashable `stack_level`. */
  predicate PartitionOk(ps: seq<Json>) {
    forall i :: 0 <= i < |ps| ==> ps[i].JObj? && (IsBase(ps[i].fields) || ParentKey(ps[i].fields).Some?)
  }

  /** The bases, in list order. */
  function Bases(ps: seq<Json>): seq<Fields>
    decreases |ps|
  {
    if ps == [] then []
    else
      var last := ps[|ps| - 1];
      Bases(ps[..|ps| - 1]) + (if last.JObj? && IsBase(last.fields) then [last.fields] else [])
  }

  /** The non-base objects whose `stack_level` is the key `k`, in list order. */
  function Children(ps: seq<Json>, k: Key): seq<Fields>
    decreases |ps|
  {
    if ps == [] then []
    else
      var last := ps[|ps| - 1];
      Children(ps[..|ps| - 1], k) +
        (if last.JObj? && !IsBase(last.fields) && ParentKey(last.fields) == Some(k) then [last.fields] else [])
  }

  /** `stack_map` as the loop leaves it: created on first use, appended to after that. */
  function StackMap(ps: seq<Json>): map<Key, seq<Fields>>
    decreases |ps|
  {
    if ps == [] then map[]
    else
      var m := StackMap(ps[..|ps| - 1]);
      var last := ps[|ps| - 1];
      if last.JObj? && !IsBase(last.fields) && ParentKey(last.fields).Some? then
        var k := ParentKey(last.fields).value;
        m[k := (if k in m then m[k] else []) + [last.fields]]
      else m
  }

  /** `stack_map` has a key exactly for the parents that have children, and holds those children in list order. */
  lemma {:induction false} StackMapGroups(ps: seq<Json>)
    decreases |ps|
    ensures forall k :: k in StackMap(ps) <==> Children(ps, k) != []
    ensures forall k :: k in StackMap(ps) ==> StackMap(ps)[k] == Children(ps, k)
  {
    if ps != [] {
      StackMapGroups(ps[..|ps| - 1]);
    }
  }

  /** Every placed object is a base or a child of its `stack_level`, never both. */
  lemma {:induction false} PartitionIsComplete(ps: seq<Json>)
    requires PartitionOk(ps)
    decreases |ps|
    ensures forall i :: 0 <= i < |ps| ==>
      (ps[i].fields in Bases(ps) && IsBase(ps[i].fields)) ||
      (ps[i].fields in Children(ps, ParentKey(ps[i].fields).value) && !IsBase(ps[i].fields))
  {
    if ps != [] {
      var pre := ps[..|ps| - 1];
      PartitionIsComplete(pre);
      forall i | 0 <= i < |ps|
        ensures (ps[i].fields in Bases(ps) && IsBase(ps[i].fields)) ||
          (ps[i].fields in Children(ps, ParentKey(ps[i].fields).value) && !IsBase(ps[i].fields))
      {
        if i < |ps| - 1 {
          assert ps[i] == pre[i];
        }
      }
    }
  }

  /** `not base_items and not stack_map` holds exactly for an empty list of placed objects. */
  lemma EmptyPartition(ps: seq<Json>)
    requires PartitionOk(ps)
    ensures Bases(ps) == [] && StackMap(ps) == map[] <==> ps == []
  {
    if ps != [] {
      var last := ps[|ps| - 1];
      if !IsBase(last.fields) {
        var k := ParentKey(last.fields).value;
        assert k in StackMap(ps);
      }
    }
  }

  datatype Partitioned = Partitioned(bases: seq<Fields>, stacks: map<Key, seq<Fields>>)

  /** The loop building `base_items` and `stack_map`. */
  method Partition(ps: seq<Json>) returns (r: Option<Partitioned>)
    ensures r.Some? <==> PartitionOk(ps)
    ensures r.Some? ==> r.value.bases == Bases(ps) && r.value.stacks == StackMap(ps)
  {
    var bases: seq<Fields> := [];
    var stacks: map<Key, seq<Fields>> := map[];
    for i := 0 to |ps|
      invariant PartitionOk(ps[..i])
      invariant bases == Bases(ps[..i]) && stacks == StackMap(ps[..i])
    {
      assert ps[..i + 1][..i] == ps[..i];
      var obj := ps[i];
      if !obj.JObj? {
        return None;
      }
      if IsBase(obj.fields) {
        bases := bases + [obj.fields];
      } else {
        var key := ParentKey(obj.fields);
        if key.None? {
          return None;
        }
        var k := key.value;
        if k !in stacks {
          stacks := stacks[k := []];
        }
        stacks := stacks[k := stacks[k] + [obj.fields]];
      }
    }
    assert ps[..|ps|] == ps;
    r := Some(Partitioned(bases, stacks));
  }

  /** The `id` of an object, None when missing. */
  function IdOf(o: Fields): Json {
    Field(o, "id", JNull)
  }

  /** The key `objects_map` files an object under; None when `obj.get('id')` or hashing the id raises. */
  function IdKey(o: Json): Option<Key> {
    if o.JObj? then KeyOf(IdOf(o.fields)) else None
  }

  /** `{obj.get('id'): obj for obj in all_objects}`: later objects replace earlier ones with an equal id. */
  function ObjectsMapOf(objs: seq<Json>): Option<map<Key, Fields>>
    decreases |objs|
  {
    if objs == [] then Some(map[])
    else
      match ObjectsMapOf(objs[..|objs| - 1])
      case None => None
      case Some(m) =>
        var last := objs[|objs| - 1];
        if IdKey(last).None? then None else Some(m[IdKey(last).value := last.fields])
  }

  /** The map is built exactly when every object is a dict with a hashable `id`. */
  lemma {:induction false} ObjectsMapDefined(objs: seq<Json>)
    decreases |objs|
    ensures ObjectsMapOf(objs).Some? <==> forall j :: 0 <= j < |objs| ==> IdKey(objs[j]).Some?
  {
    if objs != [] {
      var pre := objs[..|objs| - 1];
      ObjectsMapDefined(pre);
      assert forall j :: 0 <= j < |pre| ==> pre[j] == objs[j];
    }
  }

  /** `objs[j]` is the last object with key `k`. */
  predicate LastWithKey(objs: seq<Json>, j: nat, k: Key) {
    j < |objs| && IdKey(objs[j]) == Some(k) && forall j' :: j < j' < |objs| ==> IdKey(objs[j']) != Some(k)
  }

  /** The map has one key per id. */
  lemma {:induction false} ObjectsMapKeys(objs: seq<Json>)
    requires ObjectsMapOf(objs).Some?
    decreases |objs|
    ensures forall k :: k in ObjectsMapOf(objs).value <==> exists j :: 0 <= j < |objs| && IdKey(objs[j]) == Some(k)
  {
    if objs != [] {
      var pre := objs[..|objs| - 1];
      ObjectsMapKeys(pre);
      var n := |objs| - 1;
      var m0 := ObjectsMapOf(pre).value;
      var kl := IdKey(objs[n]).value;
      var m := m0[kl := objs[n].fields];
      assert ObjectsMapOf(objs).value == m;
      forall k ensures k in m <==> exists j :: 0 <= j < |objs| && IdKey(objs[j]) == Some(k) {
        if k == kl {
          assert IdKey(objs[n]) == Some(k);
        } else {
          if exists j :: 0 <= j < |objs| && IdKey(objs[j]) == Some(k) {
            var j :| 0 <= j < |objs| && IdKey(objs[j]) == Some(k);
            assert j < n && pre[j] == objs[j];
          }
          if k in m0 {
            var j :| 0 <= j < |pre| && IdKey(pre[j]) == Some(k);
            assert objs[j] == pre[j];
          }
        }
      }
    }
  }

  /** Each key holds the last object with that id. */
  lemma {:induction false} ObjectsMapLastWins(objs: seq<Json>)
    requires ObjectsMapOf(objs).Some?
    decreases |objs|
    ensures forall k :: k in ObjectsMapOf(objs).value ==>
      exists j: nat :: LastWithKey(objs, j, k) && ObjectsMapOf(objs).value[k] == objs[j].fields
  {
    if objs != [] {
      var pre := objs[..|objs| - 1];
      ObjectsMapLastWins(pre);
      var m, m0 := ObjectsMapOf(objs).value, ObjectsMapOf(pre).value;
      var n := |objs| - 1;
      var kl := IdKey(objs[n]).value;
      forall k | k in m
        ensures exists j: nat :: LastWithKey(objs, j, k) && m[k] == objs[j].fields
      {
        if k == kl {
          assert LastWithKey(objs, n, k);
        } else {
          var j: nat :| LastWithKey(pre, j, k) && m0[k] == pre[j].fields;
          LastWithKeyExtends(objs, j, k);
        }
      }
    }
  }

  lemma LastWithKeyExtends(objs: seq<Json>, j: nat, k: Key)
    requires objs != [] && LastWithKey(objs[..|objs| - 1], j, k) && IdKey(objs[|objs| - 1]) != Some(k)
    ensures LastWithKey(objs, j, k) && objs[j] == objs[..|objs| - 1][j]
  {
    var pre := objs[..|objs| - 1];
    forall j' | j < j' < |objs| ensures IdKey(objs[j']) != Some(k) {
      if j' < |pre| {
        assert pre[j'] == objs[j'];
      }
    }
  }

  /** The lookup tables of one container's walk. */
  datatype Ctx = Ctx(objects: map<Key, Fields>, stacks: map<Key, seq<Fields>>, maxLevels: nat)

  /** `"    " * level`. */
  function Indent(level: nat): (s: string)
    ensures |s| == 4 * level
    ensures forall i :: 0 <= i < |s| ==> s[i] == ' '
  {
    if level == 0 then "" else "    " + Indent(level - 1)
  }

  /** A line of the document, one `pdf.cell` row. */
  datatype Line =
    | OrderLine(orderId: Json)
    | ContainerLine(container: Fields)
    | TitleLine
    | NoContentLine
    | ItemLine(level: nat, number: nat, id: Json, details: Fields)
    | StackHeaderLine(level: nat)

  /** The text of a line; an object's line joins its three cells, with `number` the value of `step_counter[0]`. */
  function Text(l: Line): string {
    match l
    case OrderLine(orderId) => "Bestellung: " + Str(orderId)
    case ContainerLine(f) =>
      "Container #" + Str(Field(f, "sequence", JStr("N/A"))) + ": " + Str(Field(f, "instance_id", JStr("N/A"))) +
      " (" + Str(Field(f, "type", JStr("N/A"))) + ")"
    case TitleLine => "Hierarchische Ladereihenfolge:"
    case NoContentLine => "  - Kein Inhalt für diesen Container geplant."
    case ItemLine(level, number, id, details) =>
      Indent(level) + Decimal.NatToString(number) + ". ID " + Str(id) + ": " +
      Str(Field(details, "product_name", JStr("Unbekanntes Produkt"))) +
      " (Anzahl: " + Str(Field(details, "quantity", JStr("N/A"))) + ")"
    case StackHeaderLine(level) => Indent(level) + "    Darauf stapeln:"
  }

  /** The line `if full_obj_details:` writes for an object, numbered `number`. */
  function ItemLines(c: Ctx, number: nat, obj: Fields, level: nat): seq<Line> {
    match KeyOf(IdOf(obj))
    case None => []
    case Some(k) => if k in c.objects && c.objects[k] != map[] then [ItemLine(level, number, IdOf(obj), c.objects[k])] else []
  }

  /**
   * The bold cell `pdf.cell(pdf.get_string_width(obj_name), …)` raises unless the product
   * name of an object `objects_map` has is a string; a missing one is "Unbekanntes Produkt".
   */
  predicate NameWritable(c: Ctx, obj: Fields) {
    match KeyOf(IdOf(obj))
    case None => true
    case Some(k) =>
      k in c.objects && c.objects[k] != map[] ==> Field(c.objects[k], "product_name", JStr("Unbekanntes Produkt")).JStr?
  }

  /** An object whose details carry a product name that is not a string makes its visit raise. */
  lemma NonStringNameFails(c: Ctx, obj: Fields, level: nat, n: nat)
    requires level < c.maxLevels && KeyOf(IdOf(obj)).Some?
    requires var k := KeyOf(IdOf(obj)).value;
      k in c.objects && "product_name" in c.objects[k] && !c.objects[k]["product_name"].JStr?
    ensures Visit(c, obj, level, n).None?
  {
  }

  /** What a walk writes and where the counter stands after it. */
  datatype Walk = Walk(lines: seq<Line>, counter: nat)

  /** `print_stack_recursively(obj, level)` with the counter at `n`; None when it raises. */
  function Visit(c: Ctx, obj: Fields, level: nat, n: nat): Option<Walk>
    decreases c.maxLevels - level, 1, 0
  {
    if level >= c.maxLevels then None
    else
      match KeyOf(IdOf(obj))
      case None => None
      case Some(k) =>
        if !NameWritable(c, obj) then None
        else
        var item := ItemLines(c, n + 1, obj, level);
        if k in c.stacks then
          match VisitAll(c, c.stacks[k], level + 1, n + 1)
          case None => None
          case Some(w) => Some(Walk(item + [StackHeaderLine(level)] + w.lines, w.counter))
        else Some(Walk(item, n + 1))
  }

  /** The walks from each of `objs` in turn at the same level, threading the counter. */
  function VisitAll(c: Ctx, objs: seq<Fields>, level: nat, n: nat): Option<Walk>
    decreases c.maxLevels + 1 - level, 0, |objs|
  {
    if objs == [] then Some(Walk([], n))
    else if level > c.maxLevels then None
    else
      match VisitAll(c, objs[..|objs| - 1], level, n)
      case None => None
      case Some(w) =>
        match Visit(c, objs[|objs| - 1], level, w.counter)
        case None => None
        case Some(w') => Some(Walk(w.lines + w'.lines, w'.counter))
  }

  lemma {:induction false} VisitAllPrefixFails(c: Ctx, objs: seq<Fields>, i: nat, level: nat, n: nat)
    requires i <= |objs| && VisitAll(c, objs[..i], level, n).None?
    decreases |objs|
    ensures VisitAll(c, objs, level, n).None?
  {
    if i < |objs| {
      assert objs[..|objs| - 1][..i] == objs[..i];
      VisitAllPrefixFails(c, objs[..|objs| - 1], i, level, n);
    } else {
      assert objs[..i] == objs;
    }
  }

  /** One more object of `objs` extends the walks by that object's walk. */
  lemma VisitAllStep(c: Ctx, objs: seq<Fields>, i: nat, level: nat, n: nat)
    requires i < |objs| && level <= c.maxLevels
    requires VisitAll(c, objs[..i], level, n).Some?
    ensures var w := VisitAll(c, objs[..i], level, n).value;
      VisitAll(c, objs[..i + 1], level, n) ==
        match Visit(c, objs[i], level, w.counter)
        case None => None
        case Some(v) => Some(Walk(w.lines + v.lines, v.counter))
  {
    assert objs[..i + 1][..i] == objs[..i];
  }

  /** `print_stack_recursively`, writing after `lines` with `step_counter[0] == counter`. */
  method PrintStackRecursively(c: Ctx, obj: Fields, level: nat, lines: seq<Line>, counter: nat)
    returns (ok: bool, lines': seq<Line>, counter': nat)
    decreases c.maxLevels - level, 1
    ensures ok <==> Visit(c, obj, level, counter).Some?
    ensures ok ==> lines' == lines + Visit(c, obj, level, counter).value.lines
    ensures ok ==> counter' == Visit(c, obj, level, counter).value.counter
  {
    if level >= c.maxLevels {
      return false, lines, counter;
    }
    counter' := counter + 1;
    var objId := IdOf(obj);
    var key := KeyOf(objId);
    if key.None? {
      return false, lines, counter';
    }
    var k := key.value;
    var details := if k in c.objects then c.objects[k] else map[];
    if details != map[] && !Field(details, "product_name", JStr("Unbekanntes Produkt")).JStr? {
      return false, lines, counter';
    }
    var item := if details != map[] then [ItemLine(level, counter', objId, details)] else [];
    lines' := lines + item;
    ok := true;
    if k in c.stacks {
      lines' := lines' + [StackHeaderLine(level)];
      ghost var before := lines';
      ok, lines', counter' := PrintChildren(c, c.stacks[k], level + 1, lines', counter');
      if ok {
        assert lines' == lines + (item + [StackHeaderLine(level)] + VisitAll(c, c.stacks[k], level + 1, counter + 1).value.lines);
      }
    }
  }

  /**
   * `print_stack_recursively` on each of `objs` in turn at `level`: the loop over a
   * parent's `stack_map` entry one level deeper, and the loop over `base_items` at level 0.
   */
  method PrintChildren(c: Ctx, children: seq<Fields>, level: nat, lines: seq<Line>, counter: nat)
    returns (ok: bool, lines': seq<Line>, counter': nat)
    requires level <= c.maxLevels
    decreases c.maxLevels + 1 - level, 0
    ensures ok <==> VisitAll(c, children, level, counter).Some?
    ensures ok ==> lines' == lines + VisitAll(c, children, level, counter).value.lines
    ensures ok ==> counter' == VisitAll(c, children, level, counter).value.counter
  {
    lines', counter' := lines, counter;
    for i := 0 to |children|
      invariant VisitAll(c, children[..i], level, counter).Some?
      invariant lines' == lines + VisitAll(c, children[..i], level, counter).value.lines
      invariant counter' == VisitAll(c, children[..i], level, counter).value.counter
    {
      VisitAllStep(c, children, i, level, counter);
      var childOk;
      childOk, lines', counter' := PrintStackRecursively(c, children[i], level, lines', counter');
      if !childOk {
        VisitAllPrefixFails(c, children, i + 1, level, counter);
        return false, lines', counter';
      }
    }
    assert children[..|children|] == children;
    ok := true;
  }

  /** The objects one walk visits, in visiting order, with their levels; None when it raises. */
  function Pre(c: Ctx, obj: Fields, level: nat): Option<seq<(Fields, nat)>>
    decreases c.maxLevels - level, 1, 0
  {
    if level >= c.maxLevels || KeyOf(IdOf(obj)).None? || !NameWritable(c, obj) then None
    else
      var k := KeyOf(IdOf(obj)).value;
      if k in c.stacks then
        match PreAll(c, c.stacks[k], level + 1)
        case None => None
        case Some(p) => Some([(obj, level)] + p)
      else Some([(obj, level)])
  }

  function PreAll(c: Ctx, objs: seq<Fields>, level: nat): Option<seq<(Fields, nat)>>
    decreases c.maxLevels + 1 - level, 0, |objs|
  {
    if objs == [] then Some([])
    else if level > c.maxLevels then None
    else
      match PreAll(c, objs[..|objs| - 1], level)
      case None => None
      case Some(p) =>
        match Pre(c, objs[|objs| - 1], level)
        case None => None
        case Some(q) => Some(p + q)
  }

  /** The lines of one visited object, numbered `number`: its item line if `objects_map` has it, then the stack header if it has children. */
  function NodeLines(c: Ctx, number: nat, v: (Fields, nat)): seq<Line> {
    var (obj, level) := v;
    var k := KeyOf(IdOf(obj));
    ItemLines(c, number, obj, level) + (if k.Some? && k.value in c.stacks then [StackHeaderLine(level)] else [])
  }

  /** The lines `f` gives for each of `vs`, the `t`-th with the number `n + t + 1`. */
  function LinesOf<V>(f: (nat, V) -> seq<Line>, vs: seq<V>, n: nat): seq<Line>
    decreases |vs|
  {
    if vs == [] then [] else LinesOf(f, vs[..|vs| - 1], n) + f(n + |vs|, vs[|vs| - 1])
  }

  lemma {:induction false} LinesOfAppend<V>(f: (nat, V) -> seq<Line>, us: seq<V>, vs: seq<V>, n: nat)
    decreases |vs|
    ensures LinesOf(f, us + vs, n) == LinesOf(f, us, n) + LinesOf(f, vs, n + |us|)
  {
    if vs == [] {
      assert us + vs == us;
    } else {
      var vs' := vs[..|vs| - 1];
      assert (us + vs)[..|us + vs| - 1] == us + vs';
      LinesOfAppend(f, us, vs', n);
    }
  }

  function NodeLinesOf(c: Ctx): (nat, (Fields, nat)) -> seq<Line> {
    (number: nat, v: (Fields, nat)) => NodeLines(c, number, v)
  }

  /** The lines of the visits `vs` of a walk with the counter starting at `n`. */
  function WalkLines(c: Ctx, vs: seq<(Fields, nat)>, n: nat): seq<Line> {
    LinesOf(NodeLinesOf(c), vs, n)
  }

  /**
   * The counter advances once per visited object, whether or not a line is written for it,
   * and the `t`-th visited object in pre-order is written with the number `n + t + 1`.
   */
  lemma {:induction false} VisitIsNumberedPreorder(c: Ctx, obj: Fields, level: nat, n: nat)
    decreases c.maxLevels - level, 1, 0
    ensures Visit(c, obj, level, n).Some? <==> Pre(c, obj, level).Some?
    ensures Visit(c, obj, level, n).Some? ==>
      Visit(c, obj, level, n).value == Walk(WalkLines(c, Pre(c, obj, level).value, n), n + |Pre(c, obj, level).value|)
  {
    if level < c.maxLevels && KeyOf(IdOf(obj)).Some? && NameWritable(c, obj) {
      var k := KeyOf(IdOf(obj)).value;
      if k in c.stacks {
        VisitAllIsNumberedPreorder(c, c.stacks[k], level + 1, n + 1);
        if Pre(c, obj, level).Some? {
          var q := PreAll(c, c.stacks[k], level + 1).value;
          assert Pre(c, obj, level).value == [(obj, level)] + q;
          NumberStep(c, obj, level, n, k, q);
        }
      } else {
        NumberStep(c, obj, level, n, k, []);
      }
    }
  }

  /** The lines of a visit followed by those of its children's visits. */
  lemma NumberStep(c: Ctx, obj: Fields, level: nat, n: nat, k: Key, q: seq<(Fields, nat)>)
    requires KeyOf(IdOf(obj)) == Some(k)
    requires k !in c.stacks ==> q == []
    ensures WalkLines(c, [(obj, level)] + q, n) ==
      ItemLines(c, n + 1, obj, level) + (if k in c.stacks then [StackHeaderLine(level)] else []) + WalkLines(c, q, n + 1)
  {
    var f := NodeLinesOf(c);
    assert [(obj, level)][..0] == [];
    assert LinesOf(f, [(obj, level)], n) == LinesOf(f, [], n) + f(n + 1, (obj, level));
    LinesOfAppend(f, [(obj, level)], q, n);
  }

  lemma {:induction false} VisitAllIsNumberedPreorder(c: Ctx, objs: seq<Fields>, level: nat, n: nat)
    decreases c.maxLevels + 1 - level, 0, |objs|
    ensures VisitAll(c, objs, level, n).Some? <==> PreAll(c, objs, level).Some?
    ensures VisitAll(c, objs, level, n).Some? ==>
      VisitAll(c, objs, level, n).value == Walk(WalkLines(c, PreAll(c, objs, level).value, n), n + |PreAll(c, objs, level).value|)
  {
    if objs != [] && level <= c.maxLevels {
      var front := objs[..|objs| - 1];
      VisitAllIsNumberedPreorder(c, front, level, n);
      if VisitAll(c, front, level, n).Some? {
        var w := VisitAll(c, front, level, n).value;
        VisitIsNumberedPreorder(c, objs[|objs| - 1], level, w.counter);
        if PreAll(c, objs, level).Some? {
          var p1, p2 := PreAll(c, front, level).value, Pre(c, objs[|objs| - 1], level).value;
          var w' := Visit(c, objs[|objs| - 1], level, w.counter).value;
          assert w == Walk(WalkLines(c, p1, n), n + |p1|);
          assert w' == Walk(WalkLines(c, p2, n + |p1|), n + |p1| + |p2|);
          assert PreAll(c, objs, level).value == p1 + p2;
          LinesOfAppend(NodeLinesOf(c), p1, p2, n);
          assert VisitAll(c, objs, level, n).value == Walk(w.lines + w'.lines, w'.counter);
        }
      }
    }
  }

  /** Visit `v` is a child of visit `u`: it hangs in `stack_map` under `u`'s id, one level deeper. */
  predicate ChildOf(c: Ctx, v: (Fields, nat), u: (Fields, nat)) {
    var k := KeyOf(IdOf(u.0));
    v.1 == u.1 + 1 && k.Some? && k.value in c.stacks && v.0 in c.stacks[k.value]
  }

  /** The visits `p` start at `obj`, and each later one is a child of the earlier visit `parent[t]`. */
  predicate RootedAt(c: Ctx, p: seq<(Fields, nat)>, parent: seq<nat>, obj: Fields, level: nat) {
    |parent| == |p| && p != [] && p[0] == (obj, level) &&
    forall t :: 0 < t < |p| ==> parent[t] < t && ChildOf(c, p[t], p[parent[t]])
  }

  /** Each of the visits `p` is one of `objs` at `level`, or a child of the earlier visit `parent[t]`. */
  predicate GrownFrom(c: Ctx, p: seq<(Fields, nat)>, parent: seq<nat>, objs: seq<Fields>, level: nat) {
    |parent| == |p| &&
    forall t :: 0 <= t < |p| ==> (p[t].1 == level && p[t].0 in objs) || (parent[t] < t && ChildOf(c, p[t], p[parent[t]]))
  }

  /**
   * A walk starts at its object, and every later object it visits is a child of an object
   * visited before it (the one at `parent[t]`): nothing whose `stack_level` names an
   * unvisited object is listed.
   */
  lemma {:induction false} VisitReachesOnlyChildren(c: Ctx, obj: Fields, level: nat) returns (parent: seq<nat>)
    requires Pre(c, obj, level).Some?
    decreases c.maxLevels - level, 1, 0
    ensures RootedAt(c, Pre(c, obj, level).value, parent, obj, level)
  {
    var k := KeyOf(IdOf(obj)).value;
    if k in c.stacks {
      var q := PreAll(c, c.stacks[k], level + 1).value;
      var pq := VisitAllReachesOnlyChildren(c, c.stacks[k], level + 1);
      assert Pre(c, obj, level).value == [(obj, level)] + q;
      parent := RootStep(c, obj, level, k, q, pq);
    } else {
      parent := [0];
    }
  }

  lemma RootStep(c: Ctx, obj: Fields, level: nat, k: Key, q: seq<(Fields, nat)>, pq: seq<nat>) returns (parent: seq<nat>)
    requires KeyOf(IdOf(obj)) == Some(k) && k in c.stacks
    requires GrownFrom(c, q, pq, c.stacks[k], level + 1)
    ensures RootedAt(c, [(obj, level)] + q, parent, obj, level)
  {
    var p := [(obj, level)] + q;
    parent := [0] + seq(|q|, u requires 0 <= u < |q| => if pq[u] < u && ChildOf(c, q[u], q[pq[u]]) then pq[u] + 1 else 0);
    forall t | 0 < t < |p| ensures parent[t] < t && ChildOf(c, p[t], p[parent[t]]) {
      var u := t - 1;
      assert p[t] == q[u];
      if pq[u] < u && ChildOf(c, q[u], q[pq[u]]) {
        assert parent[t] == pq[u] + 1;
        assert p[pq[u] + 1] == q[pq[u]];
      } else {
        assert parent[t] == 0 && p[0] == (obj, level);
        assert q[u].1 == level + 1 && q[u].0 in c.stacks[k];
      }
    }
  }

  /** Every object visited by the walks from `objs` is one of `objs` at `level`, or a child of an earlier visit. */
  lemma {:induction false} VisitAllReachesOnlyChildren(c: Ctx, objs: seq<Fields>, level: nat) returns (parent: seq<nat>)
    requires PreAll(c, objs, level).Some?
    decreases c.maxLevels + 1 - level, 0, |objs|
    ensures GrownFrom(c, PreAll(c, objs, level).value, parent, objs, level)
  {
    if objs == [] {
      parent := [];
    } else {
      var front := objs[..|objs| - 1];
      var p1 := PreAll(c, front, level).value;
      var p2 := Pre(c, objs[|objs| - 1], level).value;
      assert PreAll(c, objs, level).value == p1 + p2;
      var r1 := VisitAllReachesOnlyChildren(c, front, level);
      var r2 := VisitReachesOnlyChildren(c, objs[|objs| - 1], level);
      parent := GrowStep(c, objs, level, p1, r1, p2, r2);
    }
  }

  lemma GrowStep(c: Ctx, objs: seq<Fields>, level: nat, p1: seq<(Fields, nat)>, r1: seq<nat>, p2: seq<(Fields, nat)>, r2: seq<nat>)
    returns (parent: seq<nat>)
    requires objs != []
    requires GrownFrom(c, p1, r1, objs[..|objs| - 1], level)
    requires RootedAt(c, p2, r2, objs[|objs| - 1], level)
    ensures GrownFrom(c, p1 + p2, parent, objs, level)
  {
    var p := p1 + p2;
    var front := objs[..|objs| - 1];
    parent := r1 + seq(|p2|, t requires 0 <= t < |p2| => r2[t] + |p1|);
    forall t | 0 <= t < |p|
      ensures (p[t].1 == level && p[t].0 in objs) || (parent[t] < t && ChildOf(c, p[t], p[parent[t]]))
    {
      if t < |p1| {
        assert p[t] == p1[t] && parent[t] == r1[t];
        if p1[t].1 == level && p1[t].0 in front {
          var i :| 0 <= i < |front| && front[i] == p1[t].0;
          assert objs[i] == front[i];
        } else {
          assert p[r1[t]] == p1[r1[t]];
        }
      } else if t == |p1| {
        assert p[t] == p2[0];
      } else {
        var u := t - |p1|;
        assert p[t] == p2[u] && parent[t] == r2[u] + |p1|;
        assert p[r2[u] + |p1|] == p2[r2[u]];
      }
    }
  }

  lemma {:induction false} VisitAllFailsOnMember(c: Ctx, objs: seq<Fields>, i: nat, level: nat, n: nat)
    requires i < |objs| && forall m :: Visit(c, objs[i], level, m).None?
    decreases |objs|
    ensures VisitAll(c, objs, level, n).None?
  {
    if level <= c.maxLevels {
      var front := objs[..|objs| - 1];
      if i < |objs| - 1 {
        assert front[i] == objs[i];
        VisitAllFailsOnMember(c, front, i, level, n);
      }
    }
  }

  /**
   * An object stacked on itself (its `stack_level` equals its own `id`) sends the walk
   * round the cycle until the recursion limit: the whole listing fails.
   */
  lemma {:induction false} SelfStackedObjectFails(c: Ctx, obj: Fields, level: nat, n: nat)
    requires KeyOf(IdOf(obj)).Some? && KeyOf(IdOf(obj)).value in c.stacks
    requires obj in c.stacks[KeyOf(IdOf(obj)).value]
    decreases c.maxLevels - level
    ensures Visit(c, obj, level, n).None?
  {
    if level < c.maxLevels {
      var k := KeyOf(IdOf(obj)).value;
      var i :| 0 <= i < |c.stacks[k]| && c.stacks[k][i] == obj;
      var deeper := level + 1;
      forall m ensures Visit(c, obj, deeper, m).None? {
        SelfStackedObjectFails(c, obj, deeper, m);
      }
      VisitAllFailsOnMember(c, c.stacks[k], i, level + 1, n + 1);
    }
  }

  /** `container.get("placed_objects", [])` as the loop iterates it; None when that raises. */
  function PlacedOf(container: Json): (r: Option<seq<Json>>)
    ensures r.Some? ==> container.JObj?
  {
    if !container.JObj? then None
    else
      match Elements(Field(container.fields, "placed_objects", JArr([])), AttributeError)
      case Raise(_) => None
      case Ok(ps) => Some(ps)
  }

  /** What follows a container's two header lines: the "no content" line, or the walks from the bases with the counter starting at 0. */
  function ContainerBody(ps: seq<Json>, objects: map<Key, Fields>, maxLevels: nat): Option<seq<Line>> {
    if !PartitionOk(ps) then None
    else if ps == [] then Some([NoContentLine])
    else
      match VisitAll(Ctx(objects, StackMap(ps), maxLevels), Bases(ps), 0, 0)
      case None => None
      case Some(w) => Some(w.lines)
  }

  /** The lines for one container; None when anything raises. */
  function ContainerLines(container: Json, objects: map<Key, Fields>, maxLevels: nat): Option<seq<Line>> {
    match PlacedOf(container)
    case None => None
    case Some(ps) =>
      match ContainerBody(ps, objects, maxLevels)
      case None => None
      case Some(body) => Some([ContainerLine(container.fields), TitleLine] + body)
  }

  /** The lines for the containers in turn. */
  function ContainersLines(cs: seq<Json>, objects: map<Key, Fields>, maxLevels: nat): Option<seq<Line>>
    decreases |cs|
  {
    if cs == [] then Some([])
    else
      match ContainersLines(cs[..|cs| - 1], objects, maxLevels)
      case None => None
      case Some(ls) =>
        match ContainerLines(cs[|cs| - 1], objects, maxLevels)
        case None => None
        case Some(ls') => Some(ls + ls')
  }

  lemma {:induction false} ContainersPrefixFails(cs: seq<Json>, i: nat, objects: map<Key, Fields>, maxLevels: nat)
    requires i <= |cs| && ContainersLines(cs[..i], objects, maxLevels).None?
    decreases |cs|
    ensures ContainersLines(cs, objects, maxLevels).None?
  {
    if i < |cs| {
      assert cs[..|cs| - 1][..i] == cs[..i];
      ContainersPrefixFails(cs[..|cs| - 1], i, objects, maxLevels);
    } else {
      assert cs[..i] == cs;
    }
  }

  /** One more container either ends the listing with None or appends its block. */
  lemma ContainersStep(cs: seq<Json>, i: nat, objects: map<Key, Fields>, maxLevels: nat, block: Option<seq<Line>>)
    requires i < |cs| && ContainersLines(cs[..i], objects, maxLevels).Some?
    requires block == ContainerLines(cs[i], objects, maxLevels)
    ensures block.None? ==> ContainersLines(cs, objects, maxLevels).None?
    ensures block.Some? ==>
      ContainersLines(cs[..i + 1], objects, maxLevels) == Some(ContainersLines(cs[..i], objects, maxLevels).value + block.value)
  {
    assert cs[..i + 1][..i] == cs[..i];
    if block.None? {
      ContainersPrefixFails(cs, i + 1, objects, maxLevels);
    }
  }

  /** What the function reads before the container loop. */
  datatype OrderInput = OrderInput(orderId: Json, objects: seq<Json>, containers: seq<Json>)

  /** The `order_id` (default "Unbekannt"), the object list and the container list; None when one of the `.get` calls or iterations raises. */
  function ReadOrder(data: Json): Option<OrderInput> {
    match Get(data, "order", JObj(map[]))
    case Raise(_) => None
    case Ok(order) =>
      match Get(order, "order_id", JStr("Unbekannt"))
      case Raise(_) => None
      case Ok(orderId) =>
        match Elements(Field(order.fields, "objects", JArr([])), AttributeError)
        case Raise(_) => None
        case Ok(all) =>
          match Get(Field(order.fields, "loading_plan", JObj(map[])), "containers", JArr([]))
          case Raise(_) => None
          case Ok(cj) =>
            match Elements(cj, AttributeError)
            case Raise(_) => None
            case Ok(cs) => Some(OrderInput(orderId, all, cs))
  }

  /** The whole document's lines; None when `generate_packing_list_pdf` returns None. */
  function PackingList(data: Json, maxLevels: nat): Option<seq<Line>> {
    match ReadOrder(data)
    case None => None
    case Some(input) =>
      match ObjectsMapOf(input.objects)
      case None => None
      case Some(objects) =>
        match ContainersLines(input.containers, objects, maxLevels)
        case None => None
        case Some(ls) => Some([OrderLine(input.orderId)] + ls)
  }

  /** `{obj.get('id'): obj for obj in all_objects}`. */
  method BuildObjectsMap(objs: seq<Json>) returns (r: Option<map<Key, Fields>>)
    ensures r == ObjectsMapOf(objs)
  {
    var m: map<Key, Fields> := map[];
    for i := 0 to |objs|
      invariant ObjectsMapOf(objs[..i]) == Some(m)
    {
      assert objs[..i + 1][..i] == objs[..i];
      var obj := objs[i];
      var key := if obj.JObj? then KeyOf(IdOf(obj.fields)) else None;
      if key.None? {
        ObjectsMapPrefixFails(objs, i + 1);
        return None;
      }
      m := m[key.value := obj.fields];
    }
    assert objs[..|objs|] == objs;
    r := Some(m);
  }

  lemma {:induction false} ObjectsMapPrefixFails(objs: seq<Json>, i: nat)
    requires i <= |objs| && ObjectsMapOf(objs[..i]).None?
    decreases |objs|
    ensures ObjectsMapOf(objs).None?
  {
    if i < |objs| {
      assert objs[..|objs| - 1][..i] == objs[..i];
      ObjectsMapPrefixFails(objs[..|objs| - 1], i);
    } else {
      assert objs[..i] == objs;
    }
  }

  /** The partition, then the "no content" line or the walks. */
  method ListBody(ps: seq<Json>, objects: map<Key, Fields>, maxLevels: nat, lines: seq<Line>) returns (ok: bool, lines': seq<Line>)
    ensures ok <==> ContainerBody(ps, objects, maxLevels).Some?
    ensures ok ==> lines' == lines + ContainerBody(ps, objects, maxLevels).value
  {
    var part := Partition(ps);
    if part.None? {
      return false, lines;
    }
    EmptyPartition(ps);
    if part.value.bases == [] && part.value.stacks == map[] {
      return true, lines + [NoContentLine];
    }
    var counter;
    ok, lines', counter := PrintChildren(Ctx(objects, part.value.stacks, maxLevels), part.value.bases, 0, lines, 0);
  }

  /** One pass of the container loop: the header cells, then the body. */
  method ListContainer(container: Json, objects: map<Key, Fields>, maxLevels: nat, lines: seq<Line>)
    returns (ok: bool, lines': seq<Line>)
    ensures ok <==> ContainerLines(container, objects, maxLevels).Some?
    ensures ok ==> lines' == lines + ContainerLines(container, objects, maxLevels).value
  {
    if !container.JObj? {
      return false, lines;
    }
    lines' := lines + [ContainerLine(container.fields), TitleLine];
    var placed := Elements(Field(container.fields, "placed_objects", JArr([])), AttributeError);
    if placed.Raise? {
      return false, lines';
    }
    ghost var head := lines';
    ok, lines' := ListBody(placed.value, objects, maxLevels, lines');
    if ok {
      assert lines' == lines + ([ContainerLine(container.fields), TitleLine] + ContainerBody(placed.value, objects, maxLevels).value);
    }
  }

  /** The container loop. */
  method ListContainers(cs: seq<Json>, objects: map<Key, Fields>, maxLevels: nat, lines: seq<Line>)
    returns (ok: bool, lines': seq<Line>)
    ensures ok <==> ContainersLines(cs, objects, maxLevels).Some?
    ensures ok ==> lines' == lines + ContainersLines(cs, objects, maxLevels).value
  {
    lines' := lines;
    for i := 0 to |cs|
      invariant ContainersLines(cs[..i], objects, maxLevels).Some?
      invariant lines' == lines + ContainersLines(cs[..i], objects, maxLevels).value
    {
      var containerOk, next := ListContainer(cs[i], objects, maxLevels, lines');
      ContainersAdvance(cs, i, objects, maxLevels, lines, lines', containerOk, next);
      if !containerOk {
        return false, next;
      }
      lines' := next;
    }
    assert cs[..|cs|] == cs;
    ok := true;
  }

  /** One pass of the container loop, in terms of the lines written so far. */
  lemma ContainersAdvance(cs: seq<Json>, i: nat, objects: map<Key, Fields>, maxLevels: nat,
                          lines: seq<Line>, sofar: seq<Line>, containerOk: bool, next: seq<Line>)
    requires i < |cs| && ContainersLines(cs[..i], objects, maxLevels).Some?
    requires sofar == lines + ContainersLines(cs[..i], objects, maxLevels).value
    requires containerOk <==> ContainerLines(cs[i], objects, maxLevels).Some?
    requires containerOk ==> next == sofar + ContainerLines(cs[i], objects, maxLevels).value
    ensures !containerOk ==> ContainersLines(cs, objects, maxLevels).None?
    ensures containerOk ==>
      ContainersLines(cs[..i + 1], objects, maxLevels).Some? && next == lines + ContainersLines(cs[..i + 1], objects, maxLevels).value
  {
    var before := ContainersLines(cs[..i], objects, maxLevels).value;
    var block := ContainerLines(cs[i], objects, maxLevels);
    ContainersStep(cs, i, objects, maxLevels, block);
    if containerOk {
      assert ContainersLines(cs[..i + 1], objects, maxLevels).value == before + block.value;
      assert next == lines + (before + block.value);
    }
  }

  /** `generate_packing_list_pdf`: the lines written, or None for the `except` branch. */
  method GeneratePackingListPdf(data: Json, maxLevels: nat) returns (r: Option<seq<Line>>)
    ensures r == PackingList(data, maxLevels)
  {
    var input := ReadOrder(data);
    if input.None? {
      return None;
    }
    var objects := BuildObjectsMap(input.value.objects);
    if objects.None? {
      return None;
    }
    var ok, lines := ListContainers(input.value.containers, objects.value, maxLevels, [OrderLine(input.value.orderId)]);
    r := if ok then Some(lines) else None;
  }

  /** A container's lines start with its header; one without placed objects gets only the header and the "no content" line. */
  lemma ContainerLinesShape(container: Json, objects: map<Key, Fields>, maxLevels: nat)
    requires ContainerLines(container, objects, maxLevels).Some?
    ensures var ls := ContainerLines(container, objects, maxLevels).value;
      |ls| >= 2 && ls[0] == ContainerLine(container.fields) && ls[1] == TitleLine
    ensures Elements(Field(container.fields, "placed_objects", JArr([])), AttributeError) == Ok([]) ==>
      ContainerLines(container, objects, maxLevels).value == [ContainerLine(container.fields), TitleLine, NoContentLine]
  {
  }
}
