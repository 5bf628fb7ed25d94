/** The part of a `serde_json::Value` that the loader inspects. */
module Json {

  datatype Value =
    | Null
    | Bool(b: bool)
    | Number(n: int)
    | String(s: string)
    | Array(elements: seq<Value>)
    | Object(members: seq<(string, Value)>)
}
