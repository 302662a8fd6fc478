/**
 * Decoded JSON values, as encoding/json hands them to an `interface{}`.
 * The tokenizer and number decoding are not modelled: a number is kept
 * as its literal text. encoding/json turns every number into a float64,
 * so `3` and `3.0` become the same value and large integers are rounded;
 * the model keeps them apart.
 */
module Json {
  import opened Wrappers

  datatype Value =
    | Null
    | Bool(b: bool)
    | Num(literal: string)
    | Str(s: string)
    | Arr(items: seq<Value>)
    | Obj(fields: map<string, Value>)

  /** Go's `m[k]` on a `map[string]interface{}`: nil (Null) when the key is absent. */
  function Get(m: map<string, Value>, k: string): (v: Value)
    ensures k in m ==> v == m[k]
    ensures k !in m ==> v == Null
  {
    if k in m then m[k] else Null
  }

  /**
   * Unmarshalling one decoded value into a fresh `map[string]interface{}`:
   * an object fills the map, `null` sets the map to nil (every lookup then
   * yields nil), and any other value is a type error.
   */
  function AsRecord(v: Value): (r: Option<map<string, Value>>)
    ensures r.Some? <==> v.Obj? || v.Null?
    ensures v.Obj? ==> r == Some(v.fields)
    ensures v.Null? ==> r == Some(map[])
  {
    match v
    case Obj(fields) => Some(fields)
    case Null => Some(map[])
    case _ => None
  }
}
