/** `toNumber` and `toBoolean`, the coercions applied to flag values before
    rendering. */
module Conversion {
  import opened Wrappers
  import opened JsString
  import opened JsValue

  /** `toNumber`: a falsy input gives `undefined`; otherwise `parseInt(input, 10)`,
      with NaN also giving `undefined`.  The declared parameter type is
      `string | null`, but callers pass raw flag values, so any value is
      accepted. */
  function ToNumber(input: Value): (r: Option<int>)
    ensures r.Some? <==> Truthy(input) && (input.Num? || (input.Str? && HasLeadingDigit(input.s)))
    ensures r.Some? && input.Num? ==> r.value == input.n
  {
    ParseIntValueMeaning(input);
    if !Truthy(input) then None else ParseIntValue(input)
  }

  /** `toBoolean`: an undefined input gives the fallback; any other input is
      true exactly when it is the string `'true'` or the boolean `true`. */
  function ToBoolean(input: Value, fb: bool): (r: bool)
    ensures input.Undefined? ==> r == fb
    ensures !input.Undefined? ==> (r <==> input == Str("true") || input == Bool(true))
  {
    if input.Undefined? then fb
    else if input == Str("false") then false
    else if input == Str("true") then true
    else input == Bool(true)
  }

  /** `null` and the empty string give `undefined`. */
  lemma ToNumberOfNothing()
    ensures ToNumber(Null) == None && ToNumber(Str("")) == None
  {
    assert !Truthy(Str(""));
  }

  /** A string without a leading digit (after whitespace and a sign), such as
      `'abc'`, gives `undefined`. */
  lemma ToNumberWithoutDigits(s: string)
    requires !HasLeadingDigit(s)
    ensures ToNumber(Str(s)).None?
  {
  }

  /** The rendering of any integer, `0` and negatives included, reads back as
      that integer, and whatever follows the digits is ignored. */
  lemma ToNumberOfRendering(n: int, tail: string)
    requires tail == "" || !IsDigit(tail[0])
    ensures ToNumber(Str(IntToString(n) + tail)) == Some(n)
  {
    ParseIntOfRendering(n, tail);
    var s := IntToString(n) + tail;
    assert |s| > 0 by {
      if n < 0 {
        assert |IntToString(n)| == 1 + |NatToString(-n)|;
      }
    }
  }

  /** The unit tests' examples: `'42'`, `'0'` and `'-10'` read as numbers. */
  lemma ToNumberOf42()
    ensures ToNumber(Str("42")) == Some(42)
  {
    assert NatToString(42) == NatToString(4) + [DigitChar(2)];
    ToNumberOfDecimal(42, "42");
  }

  lemma ToNumberOf0()
    ensures ToNumber(Str("0")) == Some(0)
  {
    ToNumberOfDecimal(0, "0");
  }

  lemma ToNumberOfMinus10()
    ensures ToNumber(Str("-10")) == Some(-10)
  {
    assert NatToString(10) == NatToString(1) + [DigitChar(0)];
    ToNumberOfDecimal(-10, "-10");
  }

  /** A string that is exactly the rendering of `n` reads as `n`. */
  lemma ToNumberOfDecimal(n: int, s: string)
    requires s == IntToString(n)
    ensures ToNumber(Str(s)) == Some(n)
  {
    ToNumberOfRendering(n, "");
    assert s + "" == s;
  }

  /** The unit tests' `'abc'` gives `undefined`. */
  lemma ToNumberOfLetters()
    ensures ToNumber(Str("abc")) == None
  {
    NoLeadingDigit("abc");
  }

  /** A number flag: `0` is falsy and gives `undefined`; any other number is
      returned as it is. */
  lemma ToNumberOfNumber(n: int)
    ensures ToNumber(Num(n)) == if n == 0 then None else Some(n)
  {
  }

  /** `'true'` and `'false'` decide whatever the fallback is, and so does any
      defined value: only an undefined input consults the fallback. */
  lemma ToBooleanIgnoresFallback(input: Value)
    requires !input.Undefined?
    ensures ToBoolean(input, true) == ToBoolean(input, false)
    ensures ToBoolean(Str("true"), false) && !ToBoolean(Str("false"), true)
    ensures !ToBoolean(Null, true)
  {
  }
}
