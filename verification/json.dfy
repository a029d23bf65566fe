/** The values `json.loads` produces. The parser itself is not modelled: the
    pipeline receives it as a partial function from text to a value. */
module Json {
  import opened Options

  /** A decoded JSON document. Numbers are kept abstract, as their literal
      text: the script does no arithmetic on them, and the payload carries
      whatever value was parsed. An object is a Python dict, so a repeated
      key keeps its last value. */
  datatype Value =
    | Null
    | Boolean(b: bool)
    | Number(literal: string)
    | Str(s: string)
    | Array(elems: seq<Value>)
    | Object(fields: map<string, Value>)

  /** `d.get(k)`: the value under `k`, or None when the key is absent. */
  function Lookup(d: map<string, Value>, k: string): (r: Option<Value>)
    ensures r.Some? <==> k in d
    ensures r.Some? ==> r.value == d[k]
  {
    if k in d then Some(d[k]) else None
  }

  /** `d.get(k, default)`: the default is used only when the key is absent,
      never when it is present with an empty or null value. */
  function LookupOr(d: map<string, Value>, k: string, default: Value): (r: Value)
    ensures k in d ==> r == d[k]
    ensures k !in d ==> r == default
  {
    match Lookup(d, k)
    case Some(v) => v
    case None => default
  }
}
