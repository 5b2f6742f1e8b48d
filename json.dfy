/** JSON-like values, as the configuration file and the tokenizer options
    carry them once Python's json module has read them. */
module JsonValues {

  /** A value as `json.load` returns it: None, bool, number, str, list or dict. */
  datatype Json =
    | JNull
    | JBool(b: bool)
    | JNum(n: real)
    | JStr(s: string)
    | JArr(items: seq<Json>)
    | JObj(fields: map<string, Json>)

  /** Python truthiness of a JSON value (`if value:`). */
  predicate Truthy(j: Json) {
    match j
    case JNull => false
    case JBool(b) => b
    case JNum(n) => n != 0.0
    case JStr(s) => s != ""
    case JArr(a) => a != []
    case JObj(m) => m != map[]
  }

  /** `d.get(key, default)` on a Python dict. */
  function Get(m: map<string, Json>, key: string, default: Json): (r: Json)
    ensures key in m ==> r == m[key]
    ensures key !in m ==> r == default
  {
    if key in m then m[key] else default
  }

  /** Whether Python can hash the value (lists and dicts cannot be hashed). */
  predicate Hashable(j: Json) {
    !j.JArr? && !j.JObj?
  }
}
