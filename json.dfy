/**
 * JSON values as `JSON.parse` produces them, and the few JavaScript value
 * operations the core applies to them: property access (which throws on
 * `null` and `undefined`), optional chaining, `??` and truthiness.
 * `JSON.parse` and `JSON.stringify` themselves are never defined here: each
 * module that needs them takes them as function parameters.
 */
module Json {
  import opened Wrappers

  /** Numbers are exact reals: no NaN, no infinities, no rounding. */
  datatype Json =
    | JNull
    | JBool(b: bool)
    | JNum(n: real)
    | JStr(s: string)
    | JArr(items: seq<Json>)
    | JObj(fields: map<string, Json>)

  /** A JavaScript value reached from parsed JSON: a JSON value or `undefined`. */
  datatype Val = Undefined | Def(j: Json)

  const EmptyObject: Json := JObj(map[])

  /**
   * `v.key`: `None` when the access throws a TypeError (`v` is null or
   * undefined); a missing key, or a key on a non-object, reads `undefined`.
   */
  function Get(v: Val, key: string): (r: Option<Val>)
    ensures r.None? <==> v == Undefined || v == Def(JNull)
    ensures v.Def? && v.j.JObj? && key in v.j.fields ==> r == Some(Def(v.j.fields[key]))
    ensures v.Def? && v.j.JObj? && key !in v.j.fields ==> r == Some(Undefined)
  {
    match v
    case Undefined => None
    case Def(JNull) => None
    case Def(JObj(m)) => Some(if key in m then Def(m[key]) else Undefined)
    case Def(_) => Some(Undefined)
  }

  /** `v?.key`: never throws; null and undefined give undefined. */
  function OptGet(v: Val, key: string): (r: Val)
    ensures Get(v, key).Some? ==> r == Get(v, key).value
    ensures Get(v, key).None? ==> r == Undefined
  {
    match Get(v, key)
    case None => Undefined
    case Some(x) => x
  }

  /**
   * `v?.[0]`: the first element of an array, the property "0" of an object,
   * the first character of a string, otherwise undefined.
   */
  function OptFirst(v: Val): (r: Val)
    ensures v.Def? && v.j.JArr? && v.j.items != [] ==> r == Def(v.j.items[0])
    ensures v == Undefined || v == Def(JNull) ==> r == Undefined
  {
    match v
    case Def(JArr(items)) => if items != [] then Def(items[0]) else Undefined
    case Def(JObj(m)) => if "0" in m then Def(m["0"]) else Undefined
    case Def(JStr(s)) => if s != [] then Def(JStr([s[0]])) else Undefined
    case _ => Undefined
  }

  /** `v ?? fallback`. */
  function OrElse(v: Val, fallback: Json): (r: Json)
    ensures v == Undefined || v == Def(JNull) ==> r == fallback
    ensures v.Def? && v.j != JNull ==> r == v.j
  {
    if v == Undefined || v == Def(JNull) then fallback else v.j
  }

  /** JavaScript truthiness of a JSON-reachable value (NaN is not modelled). */
  predicate Truthy(v: Val) {
    match v
    case Undefined => false
    case Def(JNull) => false
    case Def(JBool(b)) => b
    case Def(JNum(n)) => n != 0.0
    case Def(JStr(s)) => s != []
    case Def(_) => true
  }

  /** `typeof v === "string"`, with its value. */
  function AsString(v: Val): (r: Option<string>)
    ensures r.Some? <==> v.Def? && v.j.JStr?
    ensures r.Some? ==> v == Def(JStr(r.value))
  {
    if v.Def? && v.j.JStr? then Some(v.j.s) else None
  }

  /**
   * Whether `parse` (`JSON.parse`) reads back what `stringify`
   * (`JSON.stringify`) wrote for `j`, and the text is non-empty.
   */
  predicate RoundTrips(parse: string -> Option<Json>, stringify: Json -> string, j: Json) {
    stringify(j) != [] && parse(stringify(j)) == Some(j)
  }
}
