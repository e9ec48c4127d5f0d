/** Shared value types: optional values, the JSON values the scripts exchange
    over MQTT, and raw bytes. */
module Values {

  datatype Option<T> = None | Some(value: T)

  /** A JSON document as the Python `json`/`ujson` modules decode it. Integers
      and floats stay distinct (`5` decodes to an int, `5.0` to a float). */
  datatype Json =
    | JNull
    | JBool(b: bool)
    | JInt(i: int)
    | JNum(x: real)
    | JStr(s: string)
    | JArray(items: seq<Json>)
    | JObject(fields: map<string, Json>)

  /** What a JSON decoder made of a payload: a document, or a text it could
      not parse. */
  datatype Decoded = NotJson | Doc(value: Json)

  /** The numeric value Python compares when a JSON value meets `<` or `<=`:
      ints, floats and bools (bool is a subclass of int). Anything else makes
      the comparison raise TypeError. */
  function AsNumber(v: Json): (r: Option<real>)
    ensures r.Some? <==> (v.JInt? || v.JNum? || v.JBool?)
  {
    match v
    case JInt(i) => Some(i as real)
    case JNum(x) => Some(x)
    case JBool(b) => Some(if b then 1.0 else 0.0)
    case _ => None
  }

  newtype byte = x: int | 0 <= x < 256

  type Bytes = seq<byte>
}
