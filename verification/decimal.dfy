/** The part of Python's `float(text)` the NEO data relies on: optional
    surrounding whitespace, an optional sign, and a decimal numeral with an
    optional fractional part. Text outside that grammar is what makes `float`
    raise `ValueError`; here it yields `None`. Values are exact reals, not
    binary floating point. */
module Decimal {
  import opened Wrappers

  predicate IsDigit(c: char) {
    '0' <= c <= '9'
  }

  /** The ASCII white space `float` skips around a numeral. */
  predicate IsSpace(c: char) {
    c == ' ' || c == '\t' || c == '\n' || c == '\r' || c == '\U{0B}' || c == '\U{0C}'
  }

  predicate AllDigits(s: string) {
    forall i :: 0 <= i < |s| ==> IsDigit(s[i])
  }

  function DigitValue(c: char): (d: nat)
    requires IsDigit(c)
    ensures d < 10
  {
    (c as int - '0' as int) as nat
  }

  function DigitChar(d: nat): (c: char)
    requires d < 10
    ensures IsDigit(c) && DigitValue(c) == d
  {
    ('0' as int + d) as char
  }

  /** The number a string of decimal digits denotes, most significant first. */
  function DigitsValue(s: string): nat
    requires AllDigits(s)
  {
    if |s| == 0 then 0 else DigitsValue(s[..|s| - 1]) * 10 + DigitValue(s[|s| - 1])
  }

  function Pow10(k: nat): (p: nat)
    ensures p >= 1
  {
    if k == 0 then 1 else 10 * Pow10(k - 1)
  }

  function StripLeft(s: string): (t: string)
    ensures |t| <= |s| && t == s[|s| - |t|..]
    ensures |t| > 0 ==> !IsSpace(t[0])
  {
    if |s| > 0 && IsSpace(s[0]) then StripLeft(s[1..]) else s
  }

  function StripRight(s: string): (t: string)
    ensures |t| <= |s| && t == s[..|t|]
    ensures |t| > 0 ==> !IsSpace(t[|t| - 1])
  {
    if |s| > 0 && IsSpace(s[|s| - 1]) then StripRight(s[..|s| - 1]) else s
  }

  /** Index of the first `.` in `s`, or `|s|` when there is none. */
  function DotIndex(s: string): (i: nat)
    ensures i <= |s|
    ensures forall j :: 0 <= j < i ==> s[j] != '.'
    ensures i < |s| ==> s[i] == '.'
  {
    if |s| == 0 then 0 else if s[0] == '.' then 0 else 1 + DotIndex(s[1..])
  }

  /** The value of the numeral `whole.frac`. */
  function NumeralValue(whole: string, frac: string): real
    requires AllDigits(whole) && AllDigits(frac)
  {
    DigitsValue(whole) as real + DigitsValue(frac) as real / Pow10(|frac|) as real
  }

  /** An unsigned numeral `digits[.digits]` with at least one digit overall. */
  function ParseUnsigned(s: string): (r: Option<real>)
    ensures r.Some? ==> r.value >= 0.0
    ensures r.Some? ==> |s| > 0 && (IsDigit(s[0]) || s[0] == '.')
    ensures r.Some? ==> HasDigit(s)
  {
    var i := DotIndex(s);
    var whole := s[..i];
    var frac := if i < |s| then s[i + 1..] else "";
    if AllDigits(whole) && AllDigits(frac) && |whole| + |frac| > 0 then
      assert if |whole| > 0 then IsDigit(s[0]) else IsDigit(s[i + 1]);
      Some(NumeralValue(whole, frac))
    else
      None
  }

  predicate HasDigit(s: string) {
    exists i :: 0 <= i < |s| && IsDigit(s[i])
  }

  /** `float(s)` for decimal text: `Some(x)` when Python returns `x`, `None`
      when Python raises `ValueError`. Text without a digit never reads, and
      white space around the numeral does not change its value. */
  function ParseFloat(s: string): (r: Option<real>)
    ensures r.Some? ==> HasDigit(s)
  {
    StrippedDigits(s);
    ParseSigned(StripRight(StripLeft(s)))
  }

  /** A numeral with an optional leading sign. */
  function ParseSigned(t: string): (r: Option<real>)
    ensures r.Some? ==> HasDigit(t)
  {
    if |t| > 0 && t[0] == '-' then
      match ParseUnsigned(t[1..])
      case Some(x) => Some(-x)
      case None => None
    else if |t| > 0 && t[0] == '+' then ParseUnsigned(t[1..])
    else ParseUnsigned(t)
  }

  /** A digit left after stripping was a digit of the original text. */
  lemma StrippedDigits(s: string)
    ensures HasDigit(StripRight(StripLeft(s))) ==> HasDigit(s)
  {
    var l := StripLeft(s);
    var t := StripRight(l);
    if HasDigit(t) {
      var i :| 0 <= i < |t| && IsDigit(t[i]);
      assert t[i] == l[i];
      assert l[i] == s[|s| - |l| + i];
    }
  }

  /** White space around a numeral does not change what it reads as:
      stripping is idempotent. */
  lemma ParseFloatIgnoresSpace(s: string)
    ensures ParseFloat(StripRight(StripLeft(s))) == ParseFloat(s)
  {
    var l := StripLeft(s);
    var t := StripRight(l);
    if |t| > 0 {
      assert t[0] == l[0];
      StrippedIsFixed(t);
    }
    assert StripRight(StripLeft(t)) == t;
  }

  lemma StrippedIsFixed(t: string)
    requires |t| > 0 && !IsSpace(t[0]) && !IsSpace(t[|t| - 1])
    ensures StripRight(StripLeft(t)) == t
  {
    assert StripLeft(t) == t;
  }

  /** The shortest decimal numeral of a natural number. */
  function NatText(n: nat): (s: string)
    ensures |s| > 0 && AllDigits(s)
  {
    if n < 10 then [DigitChar(n)] else NatText(n / 10) + [DigitChar(n % 10)]
  }

  lemma {:induction false} NatTextValue(n: nat)
    ensures DigitsValue(NatText(n)) == n
  {
    var s := NatText(n);
    if n < 10 {
      assert s[..|s| - 1] == [];
    } else {
      NatTextValue(n / 10);
      assert s[..|s| - 1] == NatText(n / 10);
    }
  }

  /** A run of digits has no white space to strip and no `.`. */
  lemma NoSpaceOrDotInDigits(s: string)
    requires AllDigits(s)
    ensures StripLeft(s) == s && StripRight(s) == s
    ensures DotIndex(s) == |s|
  {
    NoSpaceLeft(s);
    NoSpaceRight(s);
    NoDot(s);
  }

  lemma NoSpaceLeft(s: string)
    requires AllDigits(s)
    ensures StripLeft(s) == s
  {
    if |s| > 0 {
      assert !IsSpace(s[0]);
    }
  }

  lemma NoSpaceRight(s: string)
    requires AllDigits(s)
    ensures StripRight(s) == s
  {
    if |s| > 0 {
      assert !IsSpace(s[|s| - 1]);
    }
  }

  lemma {:induction false} NoDot(s: string)
    requires AllDigits(s)
    ensures DotIndex(s) == |s|
  {
    if |s| > 0 {
      assert s[0] != '.';
      assert AllDigits(s[1..]) by {
        forall i | 0 <= i < |s[1..]| ensures IsDigit(s[1..][i]) {
          assert s[1..][i] == s[i + 1];
        }
      }
      NoDot(s[1..]);
    }
  }

  /** A bare run of digits is read as the whole number it denotes. */
  lemma ParseUnsignedDigits(s: string)
    requires |s| > 0 && AllDigits(s)
    ensures ParseUnsigned(s) == Some(DigitsValue(s) as real)
  {
    NoSpaceOrDotInDigits(s);
    assert s[..DotIndex(s)] == s;
    assert NumeralValue(s, "") == DigitsValue(s) as real by {
      assert DigitsValue("") == 0 && Pow10(0) == 1;
    }
  }

  /** Reading back the numeral of a natural number gives that number. */
  lemma NatTextRoundTrip(n: nat)
    ensures ParseFloat(NatText(n)) == Some(n as real)
  {
    var s := NatText(n);
    NoSpaceOrDotInDigits(s);
    assert StripRight(StripLeft(s)) == s;
    assert IsDigit(s[0]);
    ParseUnsignedDigits(s);
    NatTextValue(n);
  }

  /** A leading minus sign negates the value. */
  lemma NegativeNatTextRoundTrip(n: nat)
    ensures ParseFloat("-" + NatText(n)) == Some(-(n as real))
  {
    var s := NatText(n);
    var t := "-" + s;
    assert t[1..] == s;
    assert StripLeft(t) == t by {
      assert !IsSpace(t[0]);
    }
    assert StripRight(t) == t by {
      assert t[|t| - 1] == s[|s| - 1];
      assert !IsSpace(t[|t| - 1]);
    }
    ParseUnsignedDigits(s);
    NatTextValue(n);
  }

  /** Text with no digit at all, such as the empty CSV cell, never parses. */
  lemma NoDigitsNoNumber(s: string)
    requires forall i :: 0 <= i < |s| ==> !IsDigit(s[i])
    ensures ParseFloat(s) == None
  {
  }

}
