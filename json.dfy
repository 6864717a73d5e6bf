/**
 * Parsed JSON values as Ruby's JSON.parse returns them, the two Ruby
 * operations the provider applies to them (`parsed[key]` and `.to_i`),
 * and the abstract reply of one HTTP request.
 */
module Json {
  import opened Wrappers
  import opened RubyString

  /** A parsed JSON value. Numbers are integers: fractions and exponents are not modelled. */
  datatype Json =
    | JNull
    | JBool(b: bool)
    | JInt(n: int)
    | JStr(s: string)
    | JArray(items: seq<Json>)
    | JObject(fields: map<string, Json>)

  /** A JSON object, as sent in a request body. */
  type Object = map<string, Json>

  /** A response body after JSON.parse: a value, or the ParserError it raised. */
  datatype Body = Parsed(value: Json) | Malformed

  /** What one `http.request` gives back: a status code and a body, or the exception it raised. */
  datatype Reply = Response(status: int, body: Body) | Raised(message: string)

  /**
   * Ruby's `parsed[key]` with a String key. A Hash gives the value or nil; a
   * String gives the key itself when it occurs in it, else nil; nil, true,
   * false, an Integer or an Array raise (None).
   */
  function Index(j: Json, key: string): (r: Option<Json>)
    ensures r.None? <==> !(j.JObject? || j.JStr?)
    ensures j.JObject? && key in j.fields ==> r == Some(j.fields[key])
    ensures j.JObject? && key !in j.fields ==> r == Some(JNull)
    ensures j.JStr? ==> (r == Some(JStr(key)) <==> Includes(j.s, key))
    ensures j.JStr? && !Includes(j.s, key) ==> r == Some(JNull)
  {
    match j
    case JObject(m) => Some(if key in m then m[key] else JNull)
    case JStr(s) => Some(if Includes(s, key) then JStr(key) else JNull)
    case _ => None
  }

  /**
   * Ruby's `.to_i` on a parsed value: an Integer is itself, a String is read
   * by String#to_i, nil is 0; true, false, an Array or a Hash raise
   * NoMethodError (None).
   */
  function ToInteger(j: Json): (r: Option<int>)
    ensures r.None? <==> (j.JBool? || j.JArray? || j.JObject?)
    ensures j.JNull? ==> r == Some(0)
    ensures j.JInt? ==> r == Some(j.n)
    ensures j.JStr? ==> r == Some(ToI(j.s))
  {
    match j
    case JInt(n) => Some(n)
    case JStr(s) => Some(ToI(s))
    case JNull => Some(0)
    case _ => None
  }
}
