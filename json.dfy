/** The JSON-shaped objects that flow between the services and the stores, with JavaScript truthiness. */
module Json {
  import opened Wrappers

  /** A scalar JSON value; nested objects are not needed by the core. */
  datatype Json = JNull | JBool(b: bool) | JNum(n: real) | JStr(s: string)

  /** A plain object; a key that is absent reads as `undefined`. */
  type Obj = map<string, Json>

  /** JavaScript truthiness: `null`, `false`, `0` and `""` are falsy (NaN is not modelled). */
  predicate Truthy(v: Json) {
    match v
    case JNull => false
    case JBool(b) => b
    case JNum(n) => n != 0.0
    case JStr(s) => s != []
  }

  /** `o.k || fallback` */
  function FieldOr(o: Obj, k: string, fallback: Json): (v: Json)
    ensures k in o && Truthy(o[k]) ==> v == o[k]
    ensures !(k in o && Truthy(o[k])) ==> v == fallback
  {
    if k in o && Truthy(o[k]) then o[k] else fallback
  }

  /** `!!s` for a request field that may be missing: present and not the empty string. */
  predicate Given(s: Option<string>) {
    s.Some? && s.value != []
  }

  /** `o._id === id` */
  predicate HasId(o: Obj, id: string) {
    "_id" in o && o["_id"] == JStr(id)
  }
}
