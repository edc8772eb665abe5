/**
 * A JSON document as a tree of values: what `JSONEncoder`/`JSONDecoder` and Python's `json`
 * module exchange once the bytes are parsed. Numbers are modelled as integers.
 */
module Json {

  datatype Json =
    | JNull
    | JBool(b: bool)
    | JNumber(n: int)
    | JString(s: string)
    | JArray(items: seq<Json>)
    | JObject(fields: map<string, Json>)
}
