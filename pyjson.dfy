/**
 * Decoded JSON documents as Python sees them after `json.load`, and the handful of
 * Python operations the order readers and list generators apply to them: `dict.get`,
 * `d[key]`, truthiness, `float()`, `int()`, `str.lower()`, `str()` and `==`.
 * Operations that raise return `Raise(exc)`; `try ... except (KeyError, TypeError,
 * ValueError)` catches exactly the exceptions for which `Caught` holds.
 */
module PyJson {
  import opened Wrappers
  import Decimal

  datatype Json =
    | JNull
    | JBool(b: bool)
    | JInt(i: int)
    | JReal(r: real)
    | JStr(s: string)
    | JArr(items: seq<Json>)
    | JObj(fields: map<string, Json>)

  datatype Exc = KeyError | TypeError | ValueError | AttributeError | ZeroDivisionError | RecursionError

  /** The result of a Python expression that may raise. */
  datatype Py<+T> = Ok(value: T) | Raise(exc: Exc) {
    predicate IsFailure() {
      Raise?
    }

    function PropagateFailure<U>(): Py<U>
      requires Raise?
    {
      Raise(exc)
    }

    function Extract(): T
      requires Ok?
    {
      value
    }
  }

  /** The exceptions named in the readers' `except (KeyError, TypeError, ValueError)`. */
  predicate Caught(e: Exc) {
    e == KeyError || e == TypeError || e == ValueError
  }

  /** Python truthiness: None, False, zero and empty containers are false. */
  predicate Truthy(j: Json) {
    match j
    case JNull => false
    case JBool(b) => b
    case JInt(i) => i != 0
    case JReal(r) => r != 0.0
    case JStr(s) => s != ""
    case JArr(items) => items != []
    case JObj(fields) => fields != map[]
  }

  /** `j.get(key, default)`: only a dict has `get`. */
  function Get(j: Json, key: string, default: Json): (r: Py<Json>)
    ensures r.Raise? <==> !j.JObj?
    ensures r.Raise? ==> r.exc == AttributeError
    ensures j.JObj? && key in j.fields ==> r == Ok(j.fields[key])
    ensures j.JObj? && key !in j.fields ==> r == Ok(default)
  {
    match j
    case JObj(fields) => Ok(if key in fields then fields[key] else default)
    case _ => Raise(AttributeError)
  }

  /** `fields.get(key, default)` on a dict's fields. */
  function Field(fields: map<string, Json>, key: string, default: Json): (v: Json)
    ensures key in fields ==> v == fields[key]
    ensures key !in fields ==> v == default
  {
    if key in fields then fields[key] else default
  }

  /**
   * The elements a `for` loop hands to its body when the body's first step on each
   * element is `element.get(...)` or `element[key]`: a list yields its items; a
   * non-empty string yields one-character strings and a non-empty dict its keys, and on a
   * string that first step raises `strExc` (AttributeError for `.get`, TypeError for
   * `[key]`); other values are not iterable (TypeError).
   */
  function Elements(j: Json, strExc: Exc): (r: Py<seq<Json>>)
    ensures j.JArr? ==> r == Ok(j.items)
    ensures r.Ok? <==> j.JArr? || j == JStr("") || j == JObj(map[])
    ensures r.Ok? && Truthy(j) ==> r.value != []
    ensures r.Raise? ==> r.exc == (if j.JStr? || j.JObj? then strExc else TypeError)
  {
    match j
    case JArr(items) => Ok(items)
    case JStr(s) => if s == "" then Ok([]) else Raise(strExc)
    case JObj(f) => if f == map[] then Ok([]) else Raise(strExc)
    case _ => Raise(TypeError)
  }

  /** `j[key]` with a string key: KeyError on a dict without it, TypeError on anything else. */
  function Subscript(j: Json, key: string): (r: Py<Json>)
    ensures r.Ok? <==> j.JObj? && key in j.fields
    ensures r.Ok? ==> r.value == j.fields[key]
    ensures r.Raise? ==> r.exc == (if j.JObj? then KeyError else TypeError)
  {
    match j
    case JObj(fields) => if key in fields then Ok(fields[key]) else Raise(KeyError)
    case _ => Raise(TypeError)
  }

  /** `float(j)`: numbers and booleans convert, decimal strings are parsed. */
  function Float(j: Json): Py<real> {
    match j
    case JBool(b) => Ok(if b then 1.0 else 0.0)
    case JInt(i) => Ok(i as real)
    case JReal(r) => Ok(r)
    case JStr(s) =>
      (match Decimal.ParseReal(s)
       case Some(v) => Ok(v)
       case None => Raise(ValueError))
    case _ => Raise(TypeError)
  }

  /** Python's `int(r)` on a float: truncation toward zero. */
  function Truncate(r: real): (i: int)
    ensures r >= 0.0 ==> i as real <= r < i as real + 1.0
    ensures r < 0.0 ==> i as real - 1.0 < r <= i as real
  {
    if r >= 0.0 then r.Floor else -((-r).Floor)
  }

  /** `int(j)`: floats truncate, strings must be an optional sign and digits. */
  function Int(j: Json): Py<int> {
    match j
    case JBool(b) => Ok(if b then 1 else 0)
    case JInt(i) => Ok(i)
    case JReal(r) => Ok(Truncate(r))
    case JStr(s) =>
      (match Decimal.ParseInt(s)
       case Some(v) => Ok(v)
       case None => Raise(ValueError))
    case _ => Raise(TypeError)
  }

  function LowerChar(c: char): char {
    if 'A' <= c <= 'Z' then (c as int + 32) as char else c
  }

  function LowerString(s: string): (r: string)
    ensures |r| == |s|
    ensures forall i :: 0 <= i < |s| ==> r[i] == LowerChar(s[i])
  {
    if s == [] then [] else [LowerChar(s[0])] + LowerString(s[1..])
  }

  /** Lower-casing twice is lower-casing once. */
  lemma {:induction false} LowerStringIdempotent(s: string)
    ensures LowerString(LowerString(s)) == LowerString(s)
  {
    if s != [] {
      LowerStringIdempotent(s[1..]);
    }
  }

  /** `j.lower()`: only a string has `lower`. */
  function Lower(j: Json): (r: Py<string>)
    ensures r.Ok? <==> j.JStr?
    ensures r.Raise? ==> r.exc == AttributeError
  {
    match j
    case JStr(s) => Ok(LowerString(s))
    case _ => Raise(AttributeError)
  }

  /** `str(j)` as an f-string renders it. */
  function Str(j: Json): string {
    match j
    case JNull => "None"
    case JBool(b) => if b then "True" else "False"
    case JInt(i) => Decimal.IntToString(i)
    case JReal(r) =>
      if r == r.Floor as real && -10000000000000000.0 < r < 10000000000000000.0
      then Decimal.IntToString(r.Floor) + ".0"
      else "<float>"
    case JStr(s) => s
    case JArr(_) => "[...]"
    case JObj(_) => "{...}"
  }

  /** The numeric value of a bool, int or float, which is what Python's `==` compares. */
  function NumValue(j: Json): Option<real> {
    match j
    case JBool(b) => Some(if b then 1.0 else 0.0)
    case JInt(i) => Some(i as real)
    case JReal(r) => Some(r)
    case _ => None
  }

  /**
   * Python's `==`: numbers by value across bool/int/float; lists of the same length with
   * equal items in order; dicts with the same keys and equal values; everything else
   * structurally.
   */
  predicate PyEq(a: Json, b: Json)
    decreases a
  {
    if NumValue(a).Some? || NumValue(b).Some? then NumValue(a) == NumValue(b)
    else
      match a
      case JArr(xs) => b.JArr? && |xs| == |b.items| && forall k :: 0 <= k < |xs| ==> PyEq(xs[k], b.items[k])
      case JObj(f) => b.JObj? && f.Keys == b.fields.Keys && forall key :: key in f ==> PyEq(f[key], b.fields[key])
      case _ => a == b
  }

  lemma {:induction false} PyEqReflexive(a: Json)
    decreases a
    ensures PyEq(a, a)
  {
    match a
    case JArr(xs) =>
      forall k | 0 <= k < |xs| ensures PyEq(xs[k], xs[k]) {
        PyEqReflexive(xs[k]);
      }
    case JObj(f) =>
      forall key | key in f ensures PyEq(f[key], f[key]) {
        PyEqReflexive(f[key]);
      }
    case _ =>
  }

  lemma {:induction false} PyEqSymmetric(a: Json, b: Json)
    requires PyEq(a, b)
    decreases a
    ensures PyEq(b, a)
  {
    if NumValue(a).None? && NumValue(b).None? {
      match a
      case JArr(xs) =>
        forall k | 0 <= k < |xs| ensures PyEq(b.items[k], xs[k]) {
          PyEqSymmetric(xs[k], b.items[k]);
        }
      case JObj(f) =>
        forall key | key in b.fields ensures PyEq(b.fields[key], f[key]) {
          PyEqSymmetric(f[key], b.fields[key]);
        }
      case _ =>
    }
  }

  lemma {:induction false} PyEqTransitive(a: Json, b: Json, c: Json)
    requires PyEq(a, b) && PyEq(b, c)
    decreases a
    ensures PyEq(a, c)
  {
    if NumValue(a).None? && NumValue(b).None? && NumValue(c).None? {
      match a
      case JArr(xs) =>
        forall k | 0 <= k < |xs| ensures PyEq(xs[k], c.items[k]) {
          PyEqTransitive(xs[k], b.items[k], c.items[k]);
        }
      case JObj(f) =>
        forall key | key in f ensures PyEq(f[key], c.fields[key]) {
          PyEqTransitive(f[key], b.fields[key], c.fields[key]);
        }
      case _ =>
    }
  }

  /** `==` on decoded JSON is an equivalence: reflexive, symmetric and transitive. */
  lemma PyEqIsEquivalence()
    ensures forall a :: PyEq(a, a)
    ensures forall a, b :: PyEq(a, b) ==> PyEq(b, a)
    ensures forall a, b, c :: PyEq(a, b) && PyEq(b, c) ==> PyEq(a, c)
  {
    forall a ensures PyEq(a, a) {
      PyEqReflexive(a);
    }
    forall a, b | PyEq(a, b) ensures PyEq(b, a) {
      PyEqSymmetric(a, b);
    }
    forall a, b, c | PyEq(a, b) && PyEq(b, c) ensures PyEq(a, c) {
      PyEqTransitive(a, b, c);
    }
  }

  /** `[1] == [1.0]`: lists compare their items with `==`, not as written. */
  lemma NestedNumbersEqual()
    ensures PyEq(JArr([JInt(1)]), JArr([JReal(1.0)]))
    ensures PyEq(JObj(map["a" := JBool(true)]), JObj(map["a" := JInt(1)]))
    ensures !PyEq(JArr([JInt(1)]), JArr([JInt(1), JInt(1)]))
  {
    assert PyEq(JBool(true), JInt(1));
  }

  /** Values usable as dict keys; lists and dicts raise TypeError when hashed. */
  predicate Hashable(j: Json) {
    !j.JArr? && !j.JObj?
  }

  /** A dict key as Python's dicts tell keys apart: numbers by value across bool/int/float, strings, None. */
  datatype Key = KNone | KNum(n: real) | KStr(s: string)

  /** The key a value stands for in a dict; `None` for a list or dict, whose hashing raises TypeError. */
  function KeyOf(j: Json): (k: Option<Key>)
    ensures k.Some? <==> Hashable(j)
  {
    match j
    case JNull => Some(KNone)
    case JBool(b) => Some(KNum(if b then 1.0 else 0.0))
    case JInt(i) => Some(KNum(i as real))
    case JReal(r) => Some(KNum(r))
    case JStr(s) => Some(KStr(s))
    case _ => None
  }

  /** Two hashable values find the same dict entry exactly when Python's `==` holds between them. */
  lemma KeyOfIsPyEq(a: Json, b: Json)
    requires Hashable(a) && Hashable(b)
    ensures KeyOf(a) == KeyOf(b) <==> PyEq(a, b)
  {
  }
}
