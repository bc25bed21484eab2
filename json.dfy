/** The parsed JSON tree that the record processor works on, and the small
    wrapper types shared by the other modules. */
module Json {

  datatype Option<+T> = None | Some(value: T)

  /** One key/value pair of an insertion-ordered map (a JSON object, or one
      of the processor's ordered maps). */
  datatype Entry<+V> = Entry(key: string, value: V)

  /** A parsed JSON value. Integral numbers are kept exactly; any other number
      is kept as the text that its boxed Java form prints (`JNumber`), since
      floating point is not modelled. Objects keep their members in document
      order, as the parser's insertion-ordered map does. */
  datatype JsonValue =
    | JNull
    | JBool(b: bool)
    | JInt(i: int)
    | JNumber(text: string)
    | JString(s: string)
    | JArray(elems: seq<JsonValue>)
    | JObject(members: seq<Entry<JsonValue>>)

  /** A scalar is anything that is neither a list nor a map. */
  predicate IsScalar(v: JsonValue)
  {
    !v.JArray? && !v.JObject?
  }
}
