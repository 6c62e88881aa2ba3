/**
 * The shape of a parsed JSON document, as far as the write endpoint looks at it.
 * Numbers, booleans and null behave alike there (none of them has keys, a length
 * or a slice), so they share one constructor.
 */
module Json {
  datatype Json =
    | JObject(fields: map<string, Json>)
    | JArray(items: seq<Json>)
    | JString(text: string)
    | JScalar
}
