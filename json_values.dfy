/** Parsed JSON values as the HTTP servers see a request body or an error context: objects
    keep their properties in enumeration order. */
module JsonValues {
  import opened Wrappers

  datatype Json =
    | JNull
    | JBool(b: bool)
    | JNumber(n: int)
    | JString(s: string)
    | JArray(items: seq<Json>)
    | JObject(fields: seq<(string, Json)>)

  /** `typeof v === 'object' && v !== null`: what `for..in` walks into. */
  predicate IsContainer(v: Json) {
    v.JArray? || v.JObject?
  }

  /** An object's property names, in order. */
  function Keys(fields: seq<(string, Json)>): (keys: seq<string>)
    ensures |keys| == |fields|
  {
    seq(|fields|, i requires 0 <= i < |fields| => fields[i].0)
  }

  /** The value reached by following `path` from `v`: each step is an array index or the
      position of an object property. */
  function At(v: Json, path: seq<nat>): Option<Json>
    decreases |path|
  {
    if path == [] then Some(v)
    else match v
      case JArray(items) => if path[0] < |items| then At(items[path[0]], path[1..]) else None
      case JObject(fields) => if path[0] < |fields| then At(fields[path[0]].1, path[1..]) else None
      case _ => None
  }
}
