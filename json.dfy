/**
 * Decoded JSON values: what `json.load` hands to the store and what
 * `json.dump` receives from it. The text encoding itself is outside the model.
 */
module JsonValue {

  datatype Json =
    | JNull
    | JBool(b: bool)
    | JNumber(n: real)
    | JString(s: string)
    | JArray(items: seq<Json>)
    | JObject(fields: map<string, Json>)
}
