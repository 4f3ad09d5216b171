/**
 * JSON values as JSON.parse produces them, and the text codec
 * (JSON.stringify / JSON.parse) as an abstract pair of functions.
 */
module JsonValue {
  import opened Wrappers
  import Text

  /** An object is a map: JSON.parse keeps one binding per key. */
  datatype Json =
    | JNull
    | JBool(b: bool)
    | JNum(n: real)
    | JStr(s: string)
    | JArr(items: seq<Json>)
    | JObj(fields: map<string, Json>)

  /** The value bound to `key` when `j` is an object that has it (`undefined` otherwise). */
  function Field(j: Json, key: string): (r: Option<Json>)
    ensures r.Some? <==> j.JObj? && key in j.fields
  {
    if j.JObj? && key in j.fields then Some(j.fields[key]) else None
  }

  /** JSON.stringify and JSON.parse; `decode` answers None where JSON.parse throws. */
  datatype Codec = Codec(encode: Json -> string, decode: string -> Option<Json>)

  /** What JSON.stringify output is safe to put in an event-stream frame:
      never empty, no white space at either end, no blank line inside,
      and never the sentinel text `[DONE]` (which is not JSON). */
  predicate FrameSafe(e: string) {
    && |e| > 0
    && !Text.IsJsSpace(e[0])
    && !Text.IsJsSpace(e[|e| - 1])
    && Text.NoBoundary(e)
    && e != "[DONE]"
  }

  /** What the model relies on of JSON.stringify / JSON.parse for one value it frames: parsing the
      text of `j` gives `j` back, and that text is safe to put in an event-stream frame. It is asked
      of the values actually framed, never of every JSON value (a number is any real, and no text
      encoding tells all of them apart). */
  predicate CodecLaw(c: Codec, j: Json) {
    && c.decode(c.encode(j)) == Some(j)
    && FrameSafe(c.encode(j))
  }
}
