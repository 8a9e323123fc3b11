/** The values a JSON parser hands back to the script (Python's json.loads). */
module Json {

  /** One parsed JSON value. An object keeps its members in the order the
      resulting Python dict iterates them (insertion order, distinct keys).
      A number keeps only its literal text: the script never computes with it. */
  datatype JsonValue =
    | JNull
    | JBool(b: bool)
    | JNumber(literal: string)
    | JString(s: string)
    | JList(items: seq<JsonValue>)
    | JDict(entries: seq<(string, JsonValue)>)
}
