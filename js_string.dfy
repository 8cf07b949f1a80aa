/**
 * The ECMAScript string built-ins the core relies on, as defined by ECMA-262:
 * `String.prototype.trim` (section 22.1.3.32), `String.prototype.split` with a
 * one-character separator (section 22.1.3.23), `String.prototype.endsWith`,
 * the decimal rendering `Number::toString` gives an integer, and
 * `parseInt(string, 10)` (section 19.2.5).
 */
module JsString {
  import opened Wrappers

  /** WhiteSpace (section 12.2) and LineTerminator (section 12.3) code points:
      the set that `trim` removes and `parseInt` skips. */
  predicate IsWhiteSpace(c: char) {
    || c == '\U{9}' || c == '\U{B}' || c == '\U{C}' || c == ' ' || c == '\U{A0}' || c == '\U{FEFF}'
    || c == '\U{1680}' || ('\U{2000}' <= c <= '\U{200A}') || c == '\U{202F}' || c == '\U{205F}' || c == '\U{3000}'
    || c == '\n' || c == '\r' || c == '\U{2028}' || c == '\U{2029}'
  }

  predicate AllWhiteSpace(s: string) {
    forall i :: 0 <= i < |s| ==> IsWhiteSpace(s[i])
  }

  /** The index of the first character at or after `i` that is not
      whitespace, or `|s|` when there is none. */
  function SkipSpace(s: string, i: nat): (n: nat)
    requires i <= |s|
    ensures i <= n <= |s|
    ensures forall j :: i <= j < n ==> IsWhiteSpace(s[j])
    ensures n == |s| || !IsWhiteSpace(s[n])
    decreases |s| - i
  {
    if i == |s| || !IsWhiteSpace(s[i]) then i else SkipSpace(s, i + 1)
  }

  /** The index just after the last character before `j` that is not
      whitespace, or 0 when there is none. */
  function BackSpace(s: string, j: nat): (n: nat)
    requires j <= |s|
    ensures n <= j
    ensures forall k :: n <= k < j ==> IsWhiteSpace(s[k])
    ensures n == 0 || !IsWhiteSpace(s[n - 1])
  {
    if j == 0 || !IsWhiteSpace(s[j - 1]) then j else BackSpace(s, j - 1)
  }

  /** Drops the longest whitespace prefix (what `parseInt` skips). */
  function TrimStart(s: string): string {
    s[SkipSpace(s, 0)..]
  }

  /** `s.trim()`: empty exactly when `s` is all whitespace; otherwise it is
      the run of `s` from its first to its last character that is not
      whitespace, so it neither starts nor ends with whitespace. */
  function Trim(s: string): (r: string)
    ensures r == [] <==> AllWhiteSpace(s)
    ensures r != [] ==> !IsWhiteSpace(r[0]) && !IsWhiteSpace(r[|r| - 1])
    ensures r != [] ==> r == s[SkipSpace(s, 0)..BackSpace(s, |s|)]
  {
    var i := SkipSpace(s, 0);
    if i == |s| then []
    else
      var j := BackSpace(s, |s|);
      assert !IsWhiteSpace(s[i]);
      s[i..j]
  }

  /** A text that neither starts nor ends with whitespace is followed by
      `rest`: trimming keeps `a` whole at the front. */
  lemma TrimKeepsFront(a: string, rest: string)
    requires a != [] && !IsWhiteSpace(a[0]) && !IsWhiteSpace(a[|a| - 1])
    ensures var t := Trim(a + rest); |a| <= |t| && t[..|a|] == a
    ensures var t := Trim(a + rest); |t| > |a| ==> rest != [] && t == a + rest[..|t| - |a|]
  {
    var s := a + rest;
    assert s[0] == a[0];
    assert s[|a| - 1] == a[|a| - 1];
    assert SkipSpace(s, 0) == 0;
    var j := BackSpace(s, |s|);
    var t := Trim(s);
    assert t == s[0..j];
    assert t[..|a|] == a;
    if |t| > |a| {
      assert t == a + rest[..|t| - |a|];
    }
  }

  lemma WhiteSpaceConcat(a: string, b: string)
    requires AllWhiteSpace(a) && AllWhiteSpace(b)
    ensures AllWhiteSpace(a + b)
  {
    forall i | 0 <= i < |a + b| ensures IsWhiteSpace((a + b)[i]) {
      if i < |a| {
        assert (a + b)[i] == a[i];
      } else {
        assert (a + b)[i] == b[i - |a|];
      }
    }
  }

  /** The pieces of `s` between occurrences of `sep`, as `s.split(sep)` gives them. */
  function Join(parts: seq<string>, sep: char): string
    requires |parts| >= 1
  {
    if |parts| == 1 then parts[0] else parts[0] + [sep] + Join(parts[1..], sep)
  }

  /** `s.split(sep)`: never empty, no piece holds `sep`, and joining the pieces
      with `sep` gives back `s`. */
  function Split(s: string, sep: char): (r: seq<string>)
    ensures |r| >= 1
    ensures forall i :: 0 <= i < |r| ==> sep !in r[i]
    ensures Join(r, sep) == s
    decreases |s|
  {
    if |s| == 0 then [""]
    else
      var rest := Split(s[1..], sep);
      if s[0] == sep then
        assert ([""] + rest)[1..] == rest;
        assert s == [sep] + s[1..];
        [""] + rest
      else
        var r := [[s[0]] + rest[0]] + rest[1..];
        assert s == [s[0]] + s[1..];
        assert |rest| > 1 ==> r[1..] == rest[1..] && Join(rest, sep) == rest[0] + [sep] + Join(rest[1..], sep);
        r
  }

  /** A text without `sep` is one piece. */
  lemma {:induction false} SplitWithoutSeparator(s: string, sep: char)
    requires sep !in s
    ensures Split(s, sep) == [s]
    decreases |s|
  {
    if |s| > 0 {
      assert sep !in s[1..] by {
        forall i | 0 <= i < |s| - 1 ensures s[1..][i] != sep {
          assert s[1..][i] == s[i + 1];
        }
      }
      SplitWithoutSeparator(s[1..], sep);
      assert s == [s[0]] + s[1..];
    }
  }

  /** The first piece is everything before the first separator, whatever follows it. */
  lemma {:induction false} SplitHead(a: string, b: string, sep: char)
    requires sep !in a
    ensures Split(a + [sep] + b, sep)[0] == a
    decreases |a|
  {
    var s := a + [sep] + b;
    if |a| > 0 {
      assert s[1..] == a[1..] + [sep] + b;
      assert sep !in a[1..] by {
        forall i | 0 <= i < |a| - 1 ensures a[1..][i] != sep {
          assert a[1..][i] == a[i + 1];
        }
      }
      SplitHead(a[1..], b, sep);
      assert [a[0]] + a[1..] == a;
    }
  }

  /** When `s` does not end with the separator, the last piece is not empty and
      ends with the last character of `s`. */
  lemma {:induction false} SplitLast(s: string, sep: char)
    requires |s| > 0 && s[|s| - 1] != sep
    ensures var r := Split(s, sep); var last := r[|r| - 1];
      |last| > 0 && last[|last| - 1] == s[|s| - 1]
    decreases |s|
  {
    var tail := s[1..];
    var rest := Split(tail, sep);
    var r := Split(s, sep);
    if |s| == 1 {
      assert rest == [""];
      assert r == [[s[0]] + rest[0]] + rest[1..];
      assert r[0] == [s[0]];
    } else {
      SplitLast(tail, sep);
      var last := rest[|rest| - 1];
      assert tail[|tail| - 1] == s[|s| - 1];
      if s[0] == sep {
        assert r == [""] + rest;
        assert r[|r| - 1] == last;
      } else if |rest| > 1 {
        assert r == [[s[0]] + rest[0]] + rest[1..];
        assert r[|r| - 1] == last;
      } else {
        assert r == [[s[0]] + last];
      }
    }
  }

  function EndsWith(s: string, suffix: string): bool {
    |suffix| <= |s| && s[|s| - |suffix|..] == suffix
  }

  predicate IsDigit(c: char) {
    '0' <= c <= '9'
  }

  predicate AllDigits(s: string) {
    forall i :: 0 <= i < |s| ==> IsDigit(s[i])
  }

  function DigitValue(c: char): nat
    requires IsDigit(c)
  {
    (c as int) - ('0' as int)
  }

  function DigitChar(d: nat): (c: char)
    requires d < 10
    ensures IsDigit(c) && DigitValue(c) == d
  {
    (('0' as int) + d) as char
  }

  /** The index of the first character at or after `i` that is not a
      decimal digit, or `|s|`. */
  function SkipDigits(s: string, i: nat): (n: nat)
    requires i <= |s|
    ensures i <= n <= |s|
    ensures forall j :: i <= j < n ==> IsDigit(s[j])
    ensures n == |s| || !IsDigit(s[n])
    decreases |s| - i
  {
    if i == |s| || !IsDigit(s[i]) then i else SkipDigits(s, i + 1)
  }

  /** A run of digits from `i` to `m` that is not followed by a digit is the
      one `SkipDigits` finds. */
  lemma SkipDigitsAt(s: string, i: nat, m: nat)
    requires i <= m <= |s|
    requires forall j :: i <= j < m ==> IsDigit(s[j])
    requires m == |s| || !IsDigit(s[m])
    ensures SkipDigits(s, i) == m
  {
    var n := SkipDigits(s, i);
    assert n == |s| || !IsDigit(s[n]);
  }

  /** The mathematical value of a digit string read in base 10. */
  function DigitsValue(d: string): nat
    requires AllDigits(d)
    decreases |d|
  {
    if d == "" then 0 else DigitsValue(d[..|d| - 1]) * 10 + DigitValue(d[|d| - 1])
  }

  /** The decimal digits of `n` with no leading zero; their value is `n`. */
  function NatToString(n: nat): (r: string)
    ensures |r| > 0 && AllDigits(r)
    ensures DigitsValue(r) == n
    ensures r[0] != '0' || n == 0
  {
    if n < 10 then [DigitChar(n)]
    else
      var r := NatToString(n / 10) + [DigitChar(n % 10)];
      assert r[..|r| - 1] == NatToString(n / 10);
      r
  }

  /** How JavaScript renders an integer-valued number: optional `-`, then digits. */
  function IntToString(n: int): string {
    if n < 0 then "-" + NatToString(-n) else NatToString(n)
  }

  /** `parseInt(s, 10)`, ECMA-262 section 19.2.5, with `None` standing for NaN:
      skip leading whitespace, read an optional sign, then the longest run of
      decimal digits; no digits gives NaN. */
  function ParseInt(s: string): (r: Option<int>)
    ensures r.Some? <==> HasLeadingDigit(s)
  {
    var i := SkipSpace(s, 0);
    var negative := i < |s| && s[i] == '-';
    var j := if i < |s| && (s[i] == '-' || s[i] == '+') then i + 1 else i;
    var n := SkipDigits(s, j);
    var value: int := DigitsValue(s[j..n]);
    if n == j then None else Some(if negative then -value else value)
  }

  /** After leading whitespace, `s` has a digit, or a sign followed by a digit. */
  predicate HasLeadingDigit(s: string) {
    var i := SkipSpace(s, 0);
    || (i < |s| && IsDigit(s[i]))
    || (i + 1 < |s| && (s[i] == '+' || s[i] == '-') && IsDigit(s[i + 1]))
  }

  /** `parseInt` reads back the rendering of any integer and ignores whatever
      follows the digits, provided it does not start with another digit. */
  lemma ParseIntOfRendering(n: int, tail: string)
    requires tail == "" || !IsDigit(tail[0])
    ensures ParseInt(IntToString(n) + tail) == Some(n)
  {
    if n < 0 {
      ParseIntOfNegativeRendering(n, tail);
    } else {
      ParseIntOfDigits(NatToString(n), tail);
    }
  }

  /** The negative half of `ParseIntOfRendering`. */
  lemma ParseIntOfNegativeRendering(n: int, tail: string)
    requires n < 0
    requires tail == "" || !IsDigit(tail[0])
    ensures ParseInt(IntToString(n) + tail).Some? && ParseInt(IntToString(n) + tail).value == n
  {
    var d := NatToString(-n);
    var s := IntToString(n) + tail;
    assert s == ['-'] + (d + tail);
    forall k | 1 <= k < 1 + |d| ensures IsDigit(s[k]) {
      assert s[k] == d[k - 1];
    }
    assert 1 + |d| == |s| || s[1 + |d|] == tail[0];
    ParseIntOfNegative(s, 1 + |d|);
    assert s[1..1 + |d|] == d;
  }

  /** Digits followed by a tail that does not start with a digit: `parseInt`
      reads the digits' value. */
  lemma ParseIntOfDigits(d: string, tail: string)
    requires |d| > 0 && AllDigits(d)
    requires tail == "" || !IsDigit(tail[0])
    ensures ParseInt(d + tail).Some? && ParseInt(d + tail).value == DigitsValue(d)
  {
    var s := d + tail;
    assert SkipDigits(s, 0) == |d| by {
      forall k | 0 <= k < |d| ensures IsDigit(s[k]) {
        assert s[k] == d[k];
      }
      SkipDigitsAt(s, 0, |d|);
    }
    assert s[0] == d[0];
    assert SkipSpace(s, 0) == 0;
    assert s[0..|d|] == d;
  }

  /** A minus sign, a run of digits up to `m`, then no digit: `parseInt`
      reads the negated value of the run. */
  lemma ParseIntOfNegative(s: string, m: nat)
    requires 1 < m <= |s| && s[0] == '-'
    requires forall k :: 1 <= k < m ==> IsDigit(s[k])
    requires m == |s| || !IsDigit(s[m])
    ensures ParseInt(s).Some? && ParseInt(s).value == -(DigitsValue(s[1..m]) as int)
  {
    SkipDigitsAt(s, 1, m);
    assert SkipSpace(s, 0) == 0;
  }
}
