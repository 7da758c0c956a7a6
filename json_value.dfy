/** A value produced by Python's `json.loads`: objects become dicts (a later
    duplicate key overwrites an earlier one, so a map is enough), arrays become
    lists.  Numbers are kept as their literal text, since nothing modelled
    does arithmetic on them. */
module Json {
  datatype Json =
    | JNull
    | JBool(b: bool)
    | JNumber(literal: string)
    | JString(s: string)
    | JArray(items: seq<Json>)
    | JObject(fields: map<string, Json>)
}
