/**
 * The dynamic values the argonaut package handles: what `encoding/json` decodes into
 * an `interface{}` (nil, bool, float64, string, []interface{}, map[string]interface{})
 * plus the Go `int64` the collection stores under "id".
 */
module Json {

  datatype Json =
    | JNull
    | JBool(b: bool)
    | JNumber(n: real)               // every decoded JSON number is a float64
    | JString(s: string)
    | JArray(elems: seq<Json>)
    | JObject(fields: map<string, Json>)
    | JInt(i: int)                   // an int64 written by the program, never decoded

  /** A decoded JSON object, Go's `map[string]interface{}`. */
  type Object = map<string, Json>

  /** Go's `int64(f)` conversion of a float64: the fraction is dropped, toward zero. */
  function Truncate(f: real): (n: int)
    ensures f >= 0.0 ==> n as real <= f < n as real + 1.0
    ensures f < 0.0 ==> n as real - 1.0 < f <= n as real
  {
    if f >= 0.0 then f.Floor else -((-f).Floor)
  }
}
