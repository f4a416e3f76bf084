/** JavaScript values as the client sees them after JSON.parse, and the few
    operations on them the core relies on: truthiness, property reads,
    strict equality and object spread. */
module Values {

  datatype Option<+T> = None | Some(value: T)

  /** A parsed JSON value. Numbers are integers in this model. */
  datatype Json =
    | JNull
    | JBool(b: bool)
    | JNum(n: int)
    | JStr(s: string)
    | JArr(items: seq<Json>)
    | JObj(fields: map<string, Json>)

  /** JavaScript truthiness: null, false, 0 and "" are falsy; arrays and
      objects are always truthy. */
  predicate Truthy(v: Json)
  {
    match v
    case JNull => false
    case JBool(b) => b
    case JNum(n) => n != 0
    case JStr(s) => s != ""
    case JArr(_) => true
    case JObj(_) => true
  }

  /** The outcome of evaluating `v.key`: `undefined`, a value, or the
      TypeError thrown when `v` is null. */
  datatype Access = Undefined | Value(v: Json) | TypeError

  /** Reading a named property. Only objects carry the property names this
      client reads; on any other non-null value the read yields undefined. */
  function Get(v: Json, key: string): (r: Access)
    ensures r.TypeError? <==> v.JNull?
    ensures r.Value? <==> v.JObj? && key in v.fields
    ensures r.Value? ==> r.v == v.fields[key]
  {
    match v
    case JNull => TypeError
    case JObj(m) => if key in m then Value(m[key]) else Undefined
    case _ => Undefined
  }

  /** `a === b`. Primitives compare by value; two arrays or objects are never
      the same reference here, since every one comes from its own parse or
      literal. */
  predicate StrictEquals(a: Json, b: Json)
  {
    match (a, b)
    case (JNull, JNull) => true
    case (JBool(x), JBool(y)) => x == y
    case (JNum(x), JNum(y)) => x == y
    case (JStr(x), JStr(y)) => x == y
    case _ => false
  }

  /** `===` on the results of two property reads that did not throw:
      `undefined === undefined` holds. */
  predicate SameValue(a: Access, b: Access)
  {
    match (a, b)
    case (Undefined, Undefined) => true
    case (Value(x), Value(y)) => StrictEquals(x, y)
    case _ => false
  }

  lemma SameValueSymmetric(a: Access, b: Access)
    ensures SameValue(a, b) == SameValue(b, a)
  {
  }

  lemma SameValueTransitive(a: Access, b: Access, c: Access)
    requires SameValue(a, b) && SameValue(b, c)
    ensures SameValue(a, c)
  {
  }

  /** The own fields `{...v}` copies. Strings and arrays would contribute
      index keys; they never occur as slides, so they contribute nothing
      here. */
  function Spread(v: Json): (m: map<string, Json>)
    ensures v.JObj? ==> m == v.fields
  {
    if v.JObj? then v.fields else map[]
  }
}
