/** The dynamically typed values a command-line flag can hold, with the two
    JavaScript coercions the flag handling relies on. */
module JsValue {
  import opened Wrappers
  import opened JsString

  /** A flag value.  Numbers are integers here (see `ToString`). */
  datatype Value = Undefined | Null | Bool(b: bool) | Num(n: int) | Str(s: string)

  /** JavaScript truthiness: `undefined`, `null`, `false`, `0` and `""` are falsy. */
  predicate Truthy(v: Value) {
    match v
    case Undefined => false
    case Null => false
    case Bool(b) => b
    case Num(n) => n != 0
    case Str(s) => s != ""
  }

  /** `String(v)`, as a template literal or `parseInt` applies it. */
  function ToString(v: Value): string {
    match v
    case Undefined => "undefined"
    case Null => "null"
    case Bool(b) => if b then "true" else "false"
    case Num(n) => IntToString(n)
    case Str(s) => s
  }

  /** `parseInt(v, 10)`: the value is first turned into a string. */
  function ParseIntValue(v: Value): Option<int> {
    ParseInt(ToString(v))
  }

  /** `parseInt` reads every number back, reads a string exactly when it has a
      leading digit, and gives NaN for `undefined`, `null` and the booleans. */
  lemma ParseIntValueMeaning(v: Value)
    ensures ParseIntValue(v).Some? <==> v.Num? || (v.Str? && HasLeadingDigit(v.s))
    ensures v.Num? ==> ParseIntValue(v) == Some(v.n)
  {
    match v
    case Num(n) =>
      ParseIntOfRendering(n, "");
      assert IntToString(n) + "" == IntToString(n);
    case Str(s) =>
    case Undefined =>
      NoLeadingDigit("undefined");
    case Null =>
      NoLeadingDigit("null");
    case Bool(b) =>
      NoLeadingDigit(if b then "true" else "false");
  }

  /** A word that starts with a letter has no leading digit. */
  lemma NoLeadingDigit(w: string)
    requires |w| > 0 && 'a' <= w[0] <= 'z'
    ensures !HasLeadingDigit(w)
  {
    assert SkipSpace(w, 0) == 0;
  }
}
