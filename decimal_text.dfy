/**
 * The text of a withdrawal amount. A validated amount is a Decimal quantized to
 * two places, held here as integer cents; its string form, `str(amount)`, is the
 * plain notation: an optional '-', the integer part without leading zeros ("0"
 * when it is zero), a '.', and exactly two fractional digits ("30.00", "0.05").
 * ParseCents is its inverse.
 */
module DecimalText {
  import opened Wrappers

  predicate IsDigit(c: char) {
    '0' <= c <= '9'
  }

  predicate AllDigits(s: string) {
    forall i :: 0 <= i < |s| ==> IsDigit(s[i])
  }

  function DigitChar(d: nat): (c: char)
    requires d < 10
    ensures IsDigit(c) && DigitValue(c) == d
  {
    (d + '0' as int) as char
  }

  function DigitValue(c: char): nat
    requires IsDigit(c)
  {
    c as int - '0' as int
  }

  /** Decimal digits of n, most significant first, no leading zeros. */
  function NatText(n: nat): (s: string)
    ensures |s| >= 1 && AllDigits(s)
    ensures |s| > 1 ==> s[0] != '0'
    decreases n
  {
    if n < 10 then [DigitChar(n)] else NatText(n / 10) + [DigitChar(n % 10)]
  }

  /** The number a digit string denotes. */
  function DigitsValue(s: string): nat
    requires AllDigits(s)
    decreases |s|
  {
    if s == [] then 0 else DigitsValue(s[..|s| - 1]) * 10 + DigitValue(s[|s| - 1])
  }

  lemma {:induction false} NatTextRoundTrip(n: nat)
    ensures DigitsValue(NatText(n)) == n
    decreases n
  {
    if n >= 10 {
      var s := NatText(n);
      assert s[..|s| - 1] == NatText(n / 10);
      NatTextRoundTrip(n / 10);
    }
  }

  /** `str(d)` for a Decimal d with exponent -2 whose value is c / 100. */
  function CentsText(c: int): (s: string)
    ensures |s| >= 4 && s[|s| - 3] == '.'
    ensures AllDigits(s[|s| - 2..])
    ensures (c < 0) == (s[0] == '-')
    ensures var k := if c < 0 then 1 else 0;
            AllDigits(s[k..|s| - 3]) && (|s| - 3 - k > 1 ==> s[k] != '0')
  {
    if c < 0 then "-" + UnsignedText(-c) else UnsignedText(c)
  }

  function UnsignedText(m: nat): (s: string)
    ensures |s| >= 4 && s[|s| - 3] == '.' && IsDigit(s[0])
    ensures AllDigits(s[..|s| - 3]) && AllDigits(s[|s| - 2..])
    ensures |s| - 3 > 1 ==> s[0] != '0'
  {
    NatText(m / 100) + "." + [DigitChar(m % 100 / 10), DigitChar(m % 10)]
  }

  /** Reads a plain two-place decimal back into cents; None for any other text. */
  function ParseCents(s: string): (r: Option<int>)
    ensures r.Some? && s != [] && s[0] == '-' ==> r.value <= 0
  {
    if |s| > 0 && s[0] == '-' then
      match ParseUnsigned(s[1..])
      case Some(v) => Some(-v)
      case None => None
    else ParseUnsigned(s)
  }

  function ParseUnsigned(s: string): (r: Option<int>)
    ensures r.Some? ==> r.value >= 0 && |s| >= 4 && s[|s| - 3] == '.'
  {
    if |s| >= 4 && s[|s| - 3] == '.' && AllDigits(s[..|s| - 3]) && AllDigits(s[|s| - 2..]) then
      Some(DigitsValue(s[..|s| - 3]) * 100 + DigitsValue(s[|s| - 2..]))
    else None
  }

  lemma TwoDigitsValue(d1: nat, d0: nat)
    requires d1 < 10 && d0 < 10
    ensures DigitsValue([DigitChar(d1), DigitChar(d0)]) == d1 * 10 + d0
  {
    var two := [DigitChar(d1), DigitChar(d0)];
    assert two[..1] == [DigitChar(d1)] && two[..1][..0] == [];
    assert DigitsValue(two[..1]) == DigitsValue([]) * 10 + d1;
    assert DigitsValue(two) == DigitsValue(two[..1]) * 10 + d0;
  }

  lemma UnsignedTextRoundTrip(m: nat)
    ensures ParseUnsigned(UnsignedText(m)) == Some(m)
  {
    var u := UnsignedText(m);
    assert u[..|u| - 3] == NatText(m / 100);
    assert u[|u| - 2..] == [DigitChar(m % 100 / 10), DigitChar(m % 10)];
    NatTextRoundTrip(m / 100);
    TwoDigitsValue(m % 100 / 10, m % 10);
  }

  /** Parsing the string form of an amount gives the amount back. */
  lemma CentsTextRoundTrip(c: int)
    ensures ParseCents(CentsText(c)) == Some(c)
  {
    if c < 0 {
      UnsignedTextRoundTrip(-c);
      assert CentsText(c)[1..] == UnsignedText(-c);
    } else {
      UnsignedTextRoundTrip(c);
    }
  }

  /** Distinct amounts have distinct string forms. */
  lemma CentsTextInjective(c: int, d: int)
    ensures CentsText(c) == CentsText(d) <==> c == d
  {
    if CentsText(c) == CentsText(d) {
      CentsTextRoundTrip(c);
      CentsTextRoundTrip(d);
    }
  }
}
