/** JSON-like values as they travel through the request and response pipeline. */
module Json {

  /**
   * A JSON value. `undefined` has no representation: an absent key is the
   * absence of the key in a `JObject` map (or `None` where a single value may
   * be missing).
   */
  datatype Value =
    | JNull
    | JBool(b: bool)
    | JNumber(n: real)
    | JString(s: string)
    | JArray(items: seq<Value>)
    | JObject(fields: map<string, Value>)

  /** JavaScript truthiness: `null`, `false`, `0` and `""` are falsy, everything else is truthy. */
  predicate Truthy(v: Value) {
    match v
    case JNull => false
    case JBool(b) => b
    case JNumber(n) => n != 0.0
    case JString(s) => s != []
    case JArray(_) => true
    case JObject(_) => true
  }

  /** The type name a schema library reports when a value has the wrong type. */
  function TypeName(v: Value): string {
    match v
    case JNull => "null"
    case JBool(_) => "boolean"
    case JNumber(_) => "number"
    case JString(_) => "string"
    case JArray(_) => "array"
    case JObject(_) => "object"
  }

  /** `Number.isInteger` on a finite number. */
  predicate IsInteger(n: real) {
    n.Floor as real == n
  }
}
