/** The JSON values the client builds: request bodies, message dictionaries and function schemas.
    Objects are maps, so the insertion order of Python's dictionaries is not represented. */
module Json {
  import opened Wrappers

  datatype Json =
    | JNull
    | JBool(b: bool)
    | JInt(i: int)
    | JString(s: string)
    | JArray(items: seq<Json>)
    | JObject(fields: map<string, Json>)

  /** An optional text as it appears in a dictionary: `None` becomes `null`. */
  function OptString(o: Option<string>): (j: Json)
    ensures j == JNull <==> o.None?
  {
    match o
    case Some(s) => JString(s)
    case None => JNull
  }
}
