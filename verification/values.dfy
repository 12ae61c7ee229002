/**
 Dynamically typed values as the pipeline sees them after `json.loads`:
 the JSON value shapes, Python's truthiness on them, and `dict.get` with a
 default. Also the small Option/Result wrappers the other modules share.
 */
module Values {

  datatype Option<T> = None | Some(value: T)

  datatype Result<T, E> = Ok(value: T) | Err(error: E)

  /** A parsed JSON value. Numbers are integers only; fractions are not modelled. */
  datatype Json =
    | JNull
    | JBool(b: bool)
    | JInt(i: int)
    | JStr(s: string)
    | JList(items: seq<Json>)
    | JObject(fields: map<string, Json>)

  /** Python's `bool(v)`: `None`, `False`, `0`, `""`, `[]` and `{}` are falsy. */
  predicate Truthy(v: Json) {
    match v
    case JNull => false
    case JBool(b) => b
    case JInt(i) => i != 0
    case JStr(s) => s != ""
    case JList(items) => items != []
    case JObject(fields) => fields != map[]
  }

  /** `d.get(key, default)`: the default is used only when the key is missing,
      never when it is present with a null value. */
  function Get(d: map<string, Json>, key: string, default: Json): (v: Json)
    ensures key in d ==> v == d[key]
    ensures key !in d ==> v == default
  {
    if key in d then d[key] else default
  }

  /** `d.get(key)`: a missing key reads as null. */
  function GetOrNull(d: map<string, Json>, key: string): (v: Json)
    ensures v == JNull <==> key !in d || d[key] == JNull
    ensures key in d ==> v == d[key]
    ensures key !in d ==> v == JNull
  {
    Get(d, key, JNull)
  }
}
