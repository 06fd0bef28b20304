/** JavaScript numbers as mathematical reals plus the three non-finite IEEE-754 values,
    and the `Math` and comparison operations the survey core applies to them. */
module JsNumber {
  import opened JsText

  datatype JsNum = Finite(value: real) | NaN | PosInf | NegInf {
    /** `Number.isFinite`. */
    predicate IsFinite() { Finite? }
  }

  function Min(a: real, b: real): real { if a <= b then a else b }
  function Max(a: real, b: real): real { if a >= b then a else b }

  /** `Math.round`: the nearest integer, halves rounded towards +infinity. */
  function Round(x: real): (r: int)
    ensures r as real - 0.5 <= x < r as real + 0.5
  {
    (x + 0.5).Floor
  }

  /** `x < t` for a finite `x`: false whenever `t` is NaN. */
  predicate LessThan(x: real, t: JsNum) {
    match t
    case Finite(v) => x < v
    case PosInf => true
    case NegInf => false
    case NaN => false
  }

  /** `x >= t` for a finite `x`: false whenever `t` is NaN. */
  predicate AtLeast(x: real, t: JsNum) {
    match t
    case Finite(v) => x >= v
    case PosInf => false
    case NegInf => true
    case NaN => false
  }

  predicate IsDigit(c: char) { '0' <= c <= '9' }

  predicate IsDigits(s: string) {
    s != [] && forall k :: 0 <= k < |s| ==> IsDigit(s[k])
  }

  function DigitValue(c: char): nat
    requires IsDigit(c)
  {
    c as int - '0' as int
  }

  function DigitsValue(s: string): nat
    requires forall k :: 0 <= k < |s| ==> IsDigit(s[k])
  {
    if s == [] then 0 else DigitsValue(s[..|s| - 1]) * 10 + DigitValue(s[|s| - 1])
  }

  /** `Number(s)` for a string `s`: surrounding whitespace is ignored, a blank string is 0,
      a decimal integer with an optional `+` or `-` sign is its value, and every other string is taken to be
      NaN (the other numeric literals are not part of this model). */
  function StringToNumber(s: string): (r: JsNum)
    ensures r.Finite? ==> forall k :: 0 <= k < |s| ==> IsWhitespace(s[k]) || s[k] == '-' || s[k] == '+' || IsDigit(s[k])
    decreases |s|
  {
    if s != [] && IsWhitespace(s[0]) then StringToNumber(s[1..])
    else if s != [] && IsWhitespace(s[|s| - 1]) then StringToNumber(s[..|s| - 1])
    else if s == [] then Finite(0.0)
    else if IsDigits(s) then Finite(DigitsValue(s) as real)
    else if |s| > 1 && s[0] == '-' && IsDigits(s[1..]) then Finite(-(DigitsValue(s[1..]) as real))
    else if |s| > 1 && s[0] == '+' && IsDigits(s[1..]) then Finite(DigitsValue(s[1..]) as real)
    else NaN
  }

  /** An unsigned digit string is its decimal value, a leading `+` keeps that value and a
      leading `-` negates it. */
  lemma StringToNumberSigned(d: string)
    requires IsDigits(d)
    ensures StringToNumber(d) == Finite(DigitsValue(d) as real)
    ensures StringToNumber(['+'] + d) == StringToNumber(d)
    ensures StringToNumber(['-'] + d) == Finite(-(DigitsValue(d) as real))
  {
    assert (['+'] + d)[1..] == d;
    assert (['-'] + d)[1..] == d;
  }
}
