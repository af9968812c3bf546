/** The two conversions the prior-stream header relies on: printing a
    non-negative int in decimal (what `out << k` writes) and reading it back
    with C's atol (skip white space, an optional sign, then the longest run
    of digits; no digits gives 0). Integers are unbounded, so atol's
    behaviour on overflow is not modelled. */
module Decimal {

  predicate IsDigit(ch: char)
  {
    '0' <= ch <= '9'
  }

  predicate AllDigits(s: string)
  {
    forall i :: 0 <= i < |s| ==> IsDigit(s[i])
  }

  /** The white-space characters C's isspace recognises. */
  predicate IsSpace(ch: char)
  {
    ch == ' ' || ch == '\t' || ch == '\n' || ch == '\r' || ch == '\U{0B}' || ch == '\U{0C}'
  }

  function DigitChar(d: nat): (ch: char)
    requires d < 10
    ensures IsDigit(ch)
  {
    ('0' as int + d) as char
  }

  function DigitValue(ch: char): (d: nat)
    requires IsDigit(ch)
    ensures d < 10 && DigitChar(d) == ch
  {
    ch as int - '0' as int
  }

  /** The decimal numeral of k, most significant digit first, no sign and no
      leading zeros. */
  function Format(k: nat): (s: string)
    ensures s != [] && AllDigits(s)
    ensures k > 0 ==> s[0] != '0'
    ensures k < 10 ==> |s| == 1
  {
    if k < 10 then [DigitChar(k)] else Format(k / 10) + [DigitChar(k % 10)]
  }

  /** The value of a string of decimal digits. */
  function DigitsValue(s: string): nat
    requires AllDigits(s)
  {
    if s == [] then 0 else DigitsValue(s[..|s| - 1]) * 10 + DigitValue(s[|s| - 1])
  }

  /** The longest prefix of s made of digits. */
  function LeadingDigits(s: string): (d: string)
    ensures |d| <= |s| && d == s[..|d|] && AllDigits(d)
    ensures |d| < |s| ==> !IsDigit(s[|d|])
  {
    if s == [] || !IsDigit(s[0]) then [] else [s[0]] + LeadingDigits(s[1..])
  }

  /** C's atol on s, on unbounded integers. */
  function Atol(s: string): int
  {
    if s == [] then 0
    else if IsSpace(s[0]) then Atol(s[1..])
    else if s[0] == '-' then 0 - DigitsValue(LeadingDigits(s[1..])) as int
    else if s[0] == '+' then DigitsValue(LeadingDigits(s[1..]))
    else DigitsValue(LeadingDigits(s))
  }

  lemma {:induction false} DigitsValueOfFormat(k: nat)
    ensures DigitsValue(Format(k)) == k
  {
    if k >= 10 {
      DigitsValueOfFormat(k / 10);
      var s := Format(k);
      assert s[..|s| - 1] == Format(k / 10);
    }
  }

  /** Reading back what was printed gives the number printed. */
  lemma AtolOfFormat(k: nat)
    ensures Atol(Format(k)) == k
  {
    var s := Format(k);
    assert !IsSpace(s[0]) && s[0] != '-' && s[0] != '+';
    assert LeadingDigits(s) == s;
    DigitsValueOfFormat(k);
  }
}
