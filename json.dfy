/**
 * An already-parsed JSON value, as the platform's JSON deserialiser hands
 * it back: dictionaries, arrays, strings, numbers, booleans and null.
 */
module Json {
  import opened Optional

  datatype Json =
    | JNull
    | JBool(b: bool)
    | JNumber(n: real)
    | JString(s: string)
    | JArray(items: seq<Json>)
    | JObject(fields: map<string, Json>)

  /**
   * The conditional cast `dictionary[key] as? String`: the string stored
   * under `key`, or `None` when the key is missing or holds a non-string.
   */
  function StringField(fields: map<string, Json>, key: string): (r: Option<string>)
    ensures r.Some? <==> key in fields && fields[key].JString?
    ensures r.Some? ==> fields[key] == JString(r.value)
  {
    if key in fields then
      match fields[key]
      case JString(s) => Some(s)
      case _ => None
    else None
  }
}
