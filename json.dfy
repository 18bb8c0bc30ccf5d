/** Decoded JSON as the two programs see it: Python's json.loads results
    and Go's encoding/json values. Decoding itself is not modelled; callers
    receive a decoder as a parameter. */
module Json {
  /** A JSON value. Numbers are integers only (see README, "Left out"). */
  datatype Value =
    | Null
    | Bool(b: bool)
    | Num(n: int)
    | Str(s: string)
    | Arr(items: seq<Value>)
    | Obj(fields: map<string, Value>)

  /** A decoded JSON object: a Python dict or a Go map[string]interface{}. */
  type Object = map<string, Value>

  /** Python's dict.get(key, default). */
  function Get(o: Object, key: string, default: Value): (v: Value)
    ensures key in o ==> v == o[key]
    ensures key !in o ==> v == default
  {
    if key in o then o[key] else default
  }
}
