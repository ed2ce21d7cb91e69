/** The values of JSON columns. */
module JsonValues {

  datatype Json =
    | JNull | JBool(flag: bool) | JNumber(number: real) | JString(text: string)
    | JArray(items: seq<Json>) | JObject(fields: map<string, Json>)
}
