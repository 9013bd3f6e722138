/** An abstract JSON document, the shape of `serde_json::Value`. Numbers are integers: the only
    number the model reads is a timestamp in whole seconds. */
module Json {

  datatype Value =
    | Null
    | Bool(b: bool)
    | Number(n: int)
    | String(s: string)
    | Array(items: seq<Value>)
    | Object(fields: map<string, Value>)

  /** `value[key]`: the field of an object; `Null` for a missing key or for a value that is not an
      object. */
  function Get(v: Value, key: string): Value {
    if v.Object? && key in v.fields then v.fields[key] else Null
  }
}
