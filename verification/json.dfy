/** JSON values as they travel in query parameters, request bodies and responses. */
module JsonValues {

  datatype Json =
    | JNull
    | JBool(b: bool)
    | JInt(i: int)
    | JString(s: string)
    | JArray(items: seq<Json>)
    | JObject(fields: map<string, Json>)

  /** A Python `dict` of JSON values, used for parameters and bodies. */
  type Object = map<string, Json>
}
