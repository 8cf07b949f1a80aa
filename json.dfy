/**
 * Decoded JSON values (RFC 8259) and the few JavaScript operations the core
 * applies to them: truthiness (ECMA-262 section 7.1.2, ToBoolean) and reading
 * a named property.  `JSON.parse` itself is a parameter of type `Decoder`.
 */
module Json {
  import opened Wrappers

  /** A value `JSON.parse` can return.  Numbers are reals: JSON has no NaN. */
  datatype Json =
    | JNull
    | JBool(b: bool)
    | JNumber(n: real)
    | JString(s: string)
    | JArray(items: seq<Json>)
    | JObject(fields: map<string, Json>)

  /** The outcome of one `JSON.parse(text)` call: a value, or the message of
      the SyntaxError it throws. */
  datatype Decoded = Parsed(value: Json) | SyntaxError(message: string)

  /** `JSON.parse`, left uninterpreted: any total function from text to outcome. */
  type Decoder = string -> Decoded

  /** ToBoolean of a property value; `None` is `undefined`. */
  predicate Truthy(v: Option<Json>) {
    match v
    case None => false
    case Some(JNull) => false
    case Some(JBool(b)) => b
    case Some(JNumber(n)) => n != 0.0
    case Some(JString(s)) => s != ""
    case Some(JArray(_)) => true
    case Some(JObject(_)) => true
  }

  /** `v[key]` for a value that is not null: an object's own member, and
      `undefined` for every other kind of value. */
  function Field(v: Json, key: string): Option<Json> {
    if v.JObject? && key in v.fields then Some(v.fields[key]) else None
  }

  /** The message V8 gives the TypeError thrown by reading `key` of null. */
  function NullRead(key: string): string {
    NullReadPrefix + key + "')"
  }

  const NullReadPrefix: string := "Cannot read properties of null (reading '"

  /** `v` is an object whose `version` member is strictly equal to `n`. */
  predicate HasVersion(v: Json, n: real) {
    Field(v, "version") == Some(JNumber(n))
  }
}
