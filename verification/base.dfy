/** Values shared by every part of the worker model: an option type, JSON values,
    HTTP responses as the worker sees them, and the few string tests the worker
    applies to URLs. */
module Base {

  datatype Option<+T> = None | Some(value: T)

  /** A JSON value as `JSON.parse` produces it. Numbers are kept as reals: the
      worker only ever tests them for truthiness, so IEEE rounding is irrelevant. */
  datatype Json =
    | JNull
    | JBool(b: bool)
    | JNum(n: real)
    | JStr(s: string)
    | JArr(items: seq<Json>)
    | JObj(fields: map<string, Json>)

  /** A response body. Bodies the worker only forwards are text; a body built
      from `JSON.stringify(v)` is kept as the value `v` it serialises, and
      `NoBody` is the null body of `new Response(undefined)`. */
  datatype Body = NoBody | Text(text: string) | Serialized(value: Json)

  /** Header names are stored lower-case, as the Fetch Standard's Headers
      object normalises them. */
  datatype Response = Response(status: int, headers: map<string, string>, body: Body)

  /** The Fetch Standard's `ok` getter: the status is in the range 200 to 299. */
  predicate IsOkStatus(status: int) {
    200 <= status <= 299
  }

  /** The content type the Fetch Standard gives a response whose body was
      extracted from a string and whose init named no Content-Type. */
  const DefaultTextType: string := "text/plain;charset=UTF-8"

  /** `new Response(text, { status })` with no explicit headers. */
  function TextResponse(status: int, text: string): Response {
    Response(status, map["content-type" := DefaultTextType], Text(text))
  }

  /** `new Response(JSON.stringify(v))`: status 200 and a string body. */
  function SerializedResponse(v: Json): Response {
    Response(200, map["content-type" := DefaultTextType], Serialized(v))
  }

  predicate StartsWith(s: string, prefix: string) {
    |prefix| <= |s| && s[..|prefix|] == prefix
  }

  predicate EndsWith(s: string, suffix: string) {
    |suffix| <= |s| && s[|s| - |suffix|..] == suffix
  }

  /** `part` occurs in `s` starting at index `i`. */
  predicate OccursAt(s: string, part: string, i: int) {
    0 <= i && i + |part| <= |s| && s[i..i + |part|] == part
  }

  /** JavaScript's `String.prototype.includes`. */
  predicate Includes(s: string, part: string) {
    exists i | 0 <= i <= |s| - |part| :: OccursAt(s, part, i)
  }

  /** JavaScript truthiness of a property read; `None` is `undefined`. */
  predicate Truthy(v: Option<Json>) {
    match v
    case None => false
    case Some(j) =>
      match j
      case JNull => false
      case JBool(b) => b
      case JNum(n) => n != 0.0
      case JStr(s) => s != ""
      case JArr(_) => true
      case JObj(_) => true
  }

  /** Property read `d.name` on an object's fields; `None` is `undefined`. */
  function Field(d: map<string, Json>, name: string): Option<Json> {
    if name in d then Some(d[name]) else None
  }

  /** Property read `v.name` on a parsed JSON value. Only objects carry named
      properties that the worker reads. */
  function Property(v: Json, name: string): Option<Json> {
    if v.JObj? then Field(v.fields, name) else None
  }
}
