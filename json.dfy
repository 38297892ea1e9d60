/** Decoded JSON values as the Python side sees them after `response.json()`,
    and the truthiness tests the orchestration code applies to them. */
module Json {

  datatype Option<+T> = None | Some(value: T)

  /** A JSON value. Numbers are kept as reals, so 0 and 0.0 are both falsy. */
  datatype Json =
    | JNull
    | JBool(b: bool)
    | JNum(n: real)
    | JStr(s: string)
    | JArr(items: seq<Json>)
    | JObj(fields: map<string, Json>)

  /** Python truthiness (`if x:` / `not x`) of a decoded JSON value. */
  predicate Truthy(j: Json) {
    match j
    case JNull => false
    case JBool(b) => b
    case JNum(n) => n != 0.0
    case JStr(s) => s != ""
    case JArr(items) => items != []
    case JObj(fields) => fields != map[]
  }

  /** `d.get(key)`: the value stored under `key`, or None (JSON null). */
  function Get(d: map<string, Json>, key: string): Json {
    if key in d then d[key] else JNull
  }

  /** An error dict as the device helpers build it: `{"error": str(e)}`. */
  function ErrorDict(message: string): map<string, Json> {
    map["error" := JStr(message)]
  }
}
