/** `Number(text)` and `String(n)` as the count input uses them, for
    integer texts: `Number` ignores surrounding whitespace, reads the empty
    text as 0, accepts an optional sign before decimal digits, and gives
    `NaN` (here `None`) for anything else. */
module JsNumber {
  import opened Optional
  import opened Text

  predicate IsDigit(c: char)
  {
    '0' <= c <= '9'
  }

  predicate AllDigits(s: string)
  {
    forall i :: 0 <= i < |s| ==> IsDigit(s[i])
  }

  function DigitValue(c: char): (d: nat)
    requires IsDigit(c)
    ensures d < 10
  {
    c as int - '0' as int
  }

  function DigitChar(d: nat): (c: char)
    requires d < 10
    ensures IsDigit(c) && DigitValue(c) == d
  {
    ('0' as int + d) as char
  }

  /** The value of a string of decimal digits, most significant first. */
  function DigitsValue(s: string): (v: nat)
    requires AllDigits(s)
  {
    if s == [] then 0 else DigitsValue(s[..|s| - 1]) * 10 + DigitValue(s[|s| - 1])
  }

  /** `Number(text)` on integer texts. Blank text is 0; `NaN` comes only from
      a text that is not all digits; a negative value needs a leading minus
      sign, and a leading minus sign never gives a positive value. */
  function ParseNumber(text: string): (r: Option<int>)
    ensures Trim(text) == [] ==> r == Some(0)
    ensures r.None? ==> !AllDigits(Trim(text))
    ensures r.Some? && r.value < 0 ==> Trim(text) != [] && Trim(text)[0] == '-'
    ensures r.Some? && Trim(text) != [] && Trim(text)[0] == '-' ==> r.value <= 0
  {
    ParseTrimmed(Trim(text))
  }

  /** The converse of `ParseNumber`'s contract: `NaN` is exactly what a text
      gets that is neither blank, nor a run of digits, nor a sign followed by
      a run of digits (`"1a"`, `"--1"`, `"5 5"` and `"+"` all read as `NaN`). */
  lemma ParseRejects(text: string)
    ensures ParseNumber(text).Some? <==>
              (Trim(text) == [] || AllDigits(Trim(text)) ||
               (|Trim(text)| > 1 && (Trim(text)[0] == '+' || Trim(text)[0] == '-') && AllDigits(Trim(text)[1..])))
  {
  }

  /** `Number` of a text that has already been trimmed. */
  function ParseTrimmed(t: string): (r: Option<int>)
  {
    if t == [] then Some(0)
    else if t[0] == '+' && |t| > 1 && AllDigits(t[1..]) then Some(DigitsValue(t[1..]))
    else if t[0] == '-' && |t| > 1 && AllDigits(t[1..]) then (var v: int := DigitsValue(t[1..]); Some(-v))
    else if AllDigits(t) then Some(DigitsValue(t))
    else None
  }

  /** `String(n)` for a non-negative integer: its decimal digits, no leading zero. */
  function NatToString(n: nat): (s: string)
    ensures |s| >= 1 && AllDigits(s)
    ensures |s| > 1 ==> s[0] != '0'
  {
    if n < 10 then [DigitChar(n)] else NatToString(n / 10) + [DigitChar(n % 10)]
  }

  lemma {:induction false} DigitsValueOfString(n: nat)
    ensures DigitsValue(NatToString(n)) == n
  {
    if n >= 10 {
      var s := NatToString(n);
      assert s[..|s| - 1] == NatToString(n / 10);
      DigitsValueOfString(n / 10);
    }
  }

  /** Text without whitespace at either end is its own trim. */
  lemma TrimUnpadded(s: string)
    requires s != [] && !IsWhitespace(s[0]) && !IsWhitespace(s[|s| - 1])
    ensures Trim(s) == s
  {
  }

  /** A non-empty run of digits reads as its decimal value. */
  lemma ParseDigits(s: string)
    requires s != [] && AllDigits(s)
    ensures ParseNumber(s) == Some(DigitsValue(s))
  {
    assert IsDigit(s[0]) && IsDigit(s[|s| - 1]);
    TrimUnpadded(s);
  }

  /** A sign in front of the digits gives the value with that sign. */
  lemma ParsePlusDigits(s: string)
    requires s != [] && AllDigits(s)
    ensures ParseNumber(['+'] + s) == Some(DigitsValue(s))
  {
    var t := ['+'] + s;
    assert IsDigit(s[|s| - 1]);
    assert t[1..] == s && t[|t| - 1] == s[|s| - 1];
    TrimUnpadded(t);
  }

  lemma ParseMinusDigits(s: string)
    requires s != [] && AllDigits(s)
    ensures ParseNumber(['-'] + s) == Some(-(DigitsValue(s) as int))
  {
    var t := ['-'] + s;
    assert IsDigit(s[|s| - 1]);
    assert t[1..] == s && t[|t| - 1] == s[|s| - 1];
    TrimUnpadded(t);
  }

  /** `Number(String(n)) == n`: the text the input shows for a count reads back as that count. */
  lemma ParseNatToString(n: nat)
    ensures ParseNumber(NatToString(n)) == Some(n)
  {
    ParseDigits(NatToString(n));
    DigitsValueOfString(n);
  }
}
