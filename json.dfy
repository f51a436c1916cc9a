/**
 * Parsed JSON values as the crawler's Python code sees them after
 * `json.loads`, and the few Python operations it applies to them:
 * truthiness, `len`, `dict.get`, subscripting by a string key and
 * iterating. An operation Python refuses becomes a raised `Fault`.
 */
module Json {

  /** A parsed JSON document; objects are dicts with unique keys. */
  datatype Value =
    | Null
    | Bool(b: bool)
    | Num(n: real)
    | Str(s: string)
    | Arr(elems: seq<Value>)
    | Obj(fields: map<string, Value>)

  /** The Python exceptions the extraction code can raise. */
  datatype Fault = KeyError(key: string) | TypeError | AttributeError

  /** A Python evaluation: a value, or an exception that propagates. */
  datatype Outcome<+T> = Ok(value: T) | Raise(fault: Fault) {
    predicate IsFailure() { Raise? }

    function PropagateFailure<U>(): Outcome<U>
      requires Raise?
    {
      Raise(fault)
    }

    function Extract(): T
      requires Ok?
    {
      value
    }
  }

  /** Python's truth value of a JSON value. */
  predicate Truthy(v: Value)
  {
    match v
    case Null => false
    case Bool(b) => b
    case Num(n) => n != 0.0
    case Str(s) => s != ""
    case Arr(xs) => xs != []
    case Obj(m) => m != map[]
  }

  /** `len(v)`: defined on strings, lists and dicts, a TypeError otherwise. */
  function Len(v: Value): Outcome<nat>
  {
    match v
    case Str(s) => Ok(|s|)
    case Arr(xs) => Ok(|xs|)
    case Obj(m) => Ok(|m|)
    case _ => Raise(TypeError)
  }

  /** A sized value is truthy exactly when its length is positive. */
  lemma TruthyLen(v: Value)
    requires Len(v).Ok?
    ensures Truthy(v) <==> Len(v).value > 0
  {
    if v.Obj? && |v.fields| > 0 {
      var k :| k in v.fields;
      assert v.fields != map[];
    }
  }

  /** `d.get(key)` on a dict: the value, or None when the key is absent. */
  function Get(d: map<string, Value>, key: string): (r: Value)
    ensures key in d ==> r == d[key]
    ensures key !in d ==> r == Null
  {
    if key in d then d[key] else Null
  }

  predicate HasKey(v: Value, key: string)
  {
    v.Obj? && key in v.fields
  }

  /** `v[key]` for a string key: only a dict that holds the key answers. */
  function Subscript(v: Value, key: string): (r: Outcome<Value>)
    ensures r.Ok? <==> HasKey(v, key)
    ensures r.Ok? ==> r.value == v.fields[key]
    ensures v.Obj? && key !in v.fields ==> r == Raise(KeyError(key))
    ensures !v.Obj? ==> r == Raise(TypeError)
  {
    match v
    case Obj(m) => if key in m then Ok(m[key]) else Raise(KeyError(key))
    case _ => Raise(TypeError)
  }

  /**
   * The elements of `v` as seen by a loop that subscripts each of them by
   * a string key. A list yields its elements. An empty dict or string
   * yields nothing. A non-empty dict or string yields strings, so the
   * first subscript raises a TypeError, and that is raised here. Numbers,
   * booleans and None are not iterable: TypeError.
   */
  function ElementsForLookup(v: Value): (r: Outcome<seq<Value>>)
    ensures r.Ok? <==> v.Arr? || v == Obj(map[]) || v == Str("")
    ensures v.Arr? ==> r == Ok(v.elems)
    ensures r.Raise? ==> r.fault == TypeError
  {
    match v
    case Arr(xs) => Ok(xs)
    case Obj(m) => if m == map[] then Ok([]) else Raise(TypeError)
    case Str(s) => if s == "" then Ok([]) else Raise(TypeError)
    case _ => Raise(TypeError)
  }
}
