/** JSON values as they arrive in decoded request bodies, and JavaScript truthiness. */
module JsonValue {

  datatype Option<T> = None | Some(value: T)

  /** A primitive JSON value. Numbers are integers; arrays and objects as field values are not modelled. */
  datatype Json = JNull | JBool(b: bool) | JNum(n: int) | JStr(s: string)

  /** A decoded JSON object: a request body, or a record the client keeps in its state. */
  type JsonObject = map<string, Json>

  /** JavaScript truthiness: null, false, 0 and "" are falsy, everything else is truthy. */
  predicate Truthy(v: Json) {
    match v
    case JNull => false
    case JBool(b) => b
    case JNum(n) => n != 0
    case JStr(s) => s != ""
  }

  /** Truthiness of a property read `o.key`: an absent property is `undefined`, which is falsy. */
  predicate Present(o: JsonObject, key: string) {
    key in o && Truthy(o[key])
  }

  /** The property `o.key`, with None standing for `undefined`. */
  function Get(o: JsonObject, key: string): (v: Option<Json>)
    ensures v.Some? <==> key in o
    ensures v.Some? ==> v.value == o[key]
  {
    if key in o then Some(o[key]) else None
  }

  /** `!!x` for a value that may be `undefined`. */
  predicate TruthyOpt(v: Option<Json>) {
    v.Some? && Truthy(v.value)
  }
}
