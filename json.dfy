/**
 * JSON documents as `json.loads` returns them. Parsing itself is not modelled:
 * operations that parse take the decoder as a parameter of type
 * `string -> Option<JsonValue>` (`None` where `json.loads` raises).
 * Numbers are integers; floating-point values are not modelled.
 */
module Json {
  import opened Wrappers

  datatype JsonValue =
    | JNull
    | JBool(b: bool)
    | JNumber(n: int)
    | JString(s: string)
    | JArray(items: seq<JsonValue>)
    | JObject(fields: map<string, JsonValue>)
  {
    /** Python truthiness of the decoded value. */
    predicate Truthy() {
      match this
      case JNull => false
      case JBool(b) => b
      case JNumber(n) => n != 0
      case JString(s) => s != ""
      case JArray(items) => items != []
      case JObject(fields) => fields != map[]
    }
  }

  /** `obj.get(key)` */
  function Field(fields: map<string, JsonValue>, key: string): Option<JsonValue> {
    if key in fields then Some(fields[key]) else None
  }
}
