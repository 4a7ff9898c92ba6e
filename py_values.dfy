/**
 * The few Python value semantics the spider relies on: the truthiness of a
 * decoded JSON scalar, `str()` of such a scalar, and `str.replace` with a
 * one-character pattern.
 */
module PyValues {
  import opened Wrappers

  /** A JSON scalar as `json.loads` hands it over: null, a boolean, an integer or a string. */
  datatype Scalar = JNull | JBool(b: bool) | JInt(i: int) | JStr(s: string)

  /** Python's `bool(v)`: `None`, `False`, `0` and `""` are falsy, everything else is truthy. */
  predicate Truthy(v: Scalar) {
    match v
    case JNull => false
    case JBool(b) => b
    case JInt(i) => i != 0
    case JStr(s) => s != ""
  }

  /** The falsy scalars are exactly `None`, `False`, `0` and the empty string. */
  lemma FalsyScalars(v: Scalar)
    ensures !Truthy(v) <==> v == JNull || v == JBool(false) || v == JInt(0) || v == JStr("")
  {
  }

  predicate IsDigit(c: char) {
    '0' <= c <= '9'
  }

  predicate AllDigits(s: string) {
    forall k :: 0 <= k < |s| ==> IsDigit(s[k])
  }

  function DigitChar(d: nat): (c: char)
    requires d < 10
    ensures IsDigit(c) && (c as int) - ('0' as int) == d
  {
    ((d + '0' as int) as char)
  }

  /** The decimal digits of `n`, most significant first, with no leading zero. */
  function NatToString(n: nat): (r: string)
    ensures |r| >= 1
    ensures AllDigits(r)
    ensures r[0] == '0' ==> n == 0
    decreases n
  {
    if n < 10 then [DigitChar(n)] else NatToString(n / 10) + [DigitChar(n % 10)]
  }

  /** The number that a string of decimal digits denotes. */
  function DigitsValue(s: string): nat
    requires AllDigits(s)
    decreases |s|
  {
    if s == [] then 0
    else DigitsValue(s[..|s| - 1]) * 10 + ((s[|s| - 1] as int) - ('0' as int))
  }

  lemma {:induction false} NatToStringRoundTrip(n: nat)
    ensures DigitsValue(NatToString(n)) == n
    decreases n
  {
    if n >= 10 {
      var s := NatToString(n);
      assert s[..|s| - 1] == NatToString(n / 10);
      NatToStringRoundTrip(n / 10);
    }
  }

  /** Python's `str(i)` for an integer: an optional minus sign, then the decimal digits. */
  function IntToString(i: int): (r: string)
    ensures |r| >= 1
    ensures r[0] == '-' <==> i < 0
    ensures forall k :: 0 < k < |r| ==> IsDigit(r[k])
    ensures r[0] == '0' ==> i == 0
    ensures i < 0 ==> |r| >= 2 && r[1] != '0'
  {
    if i < 0 then
      var digits := NatToString(-i);
      assert ("-" + digits)[1..] == digits;
      "-" + digits
    else NatToString(i)
  }

  /** Reads back what `IntToString` writes: an optional minus sign followed by at least one digit. */
  function ParseInt(s: string): Option<int> {
    if |s| >= 2 && s[0] == '-' && AllDigits(s[1..]) then Some(0 - DigitsValue(s[1..]) as int)
    else if |s| >= 1 && AllDigits(s) then Some(DigitsValue(s))
    else None
  }

  lemma IntToStringRoundTrip(i: int)
    ensures ParseInt(IntToString(i)) == Some(i)
  {
    if i < 0 {
      var s := IntToString(i);
      assert s[1..] == NatToString(-i);
      NatToStringRoundTrip(-i);
    } else {
      NatToStringRoundTrip(i);
    }
  }

  /** Python's `str(v)` of a decoded JSON scalar. */
  function Str(v: Scalar): (r: string)
    ensures v.JNull? ==> r == "None"
    ensures v.JBool? ==> r == if v.b then "True" else "False"
    ensures v.JInt? ==> r == IntToString(v.i) && ParseInt(r) == Some(v.i)
    ensures v.JStr? ==> r == v.s
  {
    match v
    case JNull => "None"
    case JBool(b) => if b then "True" else "False"
    case JInt(i) => IntToStringRoundTrip(i); IntToString(i)
    case JStr(s) => s
  }

  /** `str(v)` of anything but a string has neither a space nor a slash in it. */
  lemma StrOfNonStringIsPlain(v: Scalar)
    requires !v.JStr?
    ensures ' ' !in Str(v) && '/' !in Str(v)
  {
  }

  /**
   * Python's `s.replace(target, replacement)` for one-character strings:
   * every occurrence of `target` becomes `replacement`, position by position.
   */
  function ReplaceChar(s: string, target: char, replacement: char): (r: string)
    ensures |r| == |s|
    ensures forall k :: 0 <= k < |s| ==> r[k] == if s[k] == target then replacement else s[k]
    decreases |s|
  {
    if s == [] then []
    else [if s[0] == target then replacement else s[0]] + ReplaceChar(s[1..], target, replacement)
  }

  /** After the replacement no `target` is left (unless it is its own replacement). */
  lemma ReplaceCharRemovesTarget(s: string, target: char, replacement: char)
    requires target != replacement
    ensures target !in ReplaceChar(s, target, replacement)
  {
  }

  /** Replacing twice is replacing once. */
  lemma ReplaceCharIdempotent(s: string, target: char, replacement: char)
    ensures ReplaceChar(ReplaceChar(s, target, replacement), target, replacement)
         == ReplaceChar(s, target, replacement)
  {
  }

  /** A string is left unchanged exactly when it holds no `target` to replace. */
  lemma ReplaceCharFixpoint(s: string, target: char, replacement: char)
    requires target != replacement
    ensures ReplaceChar(s, target, replacement) == s <==> target !in s
  {
  }

  /** Replacement works piecewise over a concatenation. */
  lemma ReplaceCharConcat(a: string, b: string, target: char, replacement: char)
    ensures ReplaceChar(a + b, target, replacement)
         == ReplaceChar(a, target, replacement) + ReplaceChar(b, target, replacement)
  {
  }
}
