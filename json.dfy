/** The values that the ride records hold: what `json.load` produces, plus the
    distinction Python makes between `int` and `float`. */
module JsonValues {

  datatype Json =
    | JNone
    | JBool(b: bool)
    | JInt(i: int)
    | JFloat(r: real)
    | JStr(s: string)
    | JList(items: seq<Json>)
    | JDict(fields: map<string, Json>)

  /** A Python `dict` with string keys. */
  type Dict = map<string, Json>

  /** Python truthiness: `None`, `False`, zero and empty containers are false. */
  predicate Truthy(j: Json)
  {
    match j
    case JNone => false
    case JBool(b) => b
    case JInt(i) => i != 0
    case JFloat(r) => r != 0.0
    case JStr(s) => s != []
    case JList(xs) => xs != []
    case JDict(m) => m != map[]
  }

  /** `dict.get(key)`: the value, or `None` when the key is absent. */
  function DictGet(d: Dict, key: string): (r: Json)
    ensures key !in d ==> r == JNone
    ensures key in d ==> r == d[key]
  {
    if key in d then d[key] else JNone
  }
}
