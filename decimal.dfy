/** Decimal notation of natural numbers: Python's `str(n)` for a non-negative
    int, the `'{0:02}'` zero-padded format, and the inverse reading of a digit
    string, which serves as the partner the renderings are proved against. */
module Decimal {

  predicate IsDigit(c: char) {
    '0' <= c <= '9'
  }

  predicate AllDigits(s: string) {
    forall i :: 0 <= i < |s| ==> IsDigit(s[i])
  }

  function DigitChar(d: nat): (c: char)
    requires d < 10
    ensures IsDigit(c) && c as int - '0' as int == d
  {
    ('0' as int + d) as char
  }

  function DigitValue(c: char): nat
    requires IsDigit(c)
  {
    c as int - '0' as int
  }

  /** The value of a string of decimal digits, most significant first. */
  function ParseDecimal(s: string): nat
    requires AllDigits(s)
  {
    if s == [] then 0 else 10 * ParseDecimal(s[..|s| - 1]) + DigitValue(s[|s| - 1])
  }

  /** Python's `str(n)` for `n >= 0`: shortest decimal form, no leading zero. */
  function NatToString(n: nat): (r: string)
    ensures |r| >= 1 && AllDigits(r)
    ensures |r| > 1 ==> r[0] != '0'
    ensures (n < 10) == (|r| == 1)
    decreases n
  {
    if n < 10 then [DigitChar(n)] else NatToString(n / 10) + [DigitChar(n % 10)]
  }

  /** Reading back `str(n)` gives `n`. */
  lemma {:induction false} ParseNatToString(n: nat)
    ensures ParseDecimal(NatToString(n)) == n
    decreases n
  {
    if n >= 10 {
      var s := NatToString(n);
      assert s[..|s| - 1] == NatToString(n / 10);
      ParseNatToString(n / 10);
    }
  }

  /** A leading zero does not change the value that is read. */
  lemma {:induction false} ParseLeadingZero(s: string)
    requires AllDigits(s)
    ensures AllDigits("0" + s) && ParseDecimal("0" + s) == ParseDecimal(s)
    decreases |s|
  {
    if s != [] {
      var t := "0" + s;
      assert t[..|t| - 1] == "0" + s[..|s| - 1];
      ParseLeadingZero(s[..|s| - 1]);
    }
  }

  /** Python's `'{0:02}'.format(n)` for `n >= 0`: at least two digits, padded
      on the left with `0`; it reads back as `n`, and for `n < 100` it is
      exactly two digits. */
  function ZeroPad2(n: nat): (r: string)
    ensures AllDigits(r) && ParseDecimal(r) == n
    ensures |r| == if n < 10 then 2 else |NatToString(n)|
    ensures n < 100 ==> |r| == 2
  {
    ParseNatToString(n);
    if n < 10 then
      ParseLeadingZero(NatToString(n));
      "0" + NatToString(n)
    else
      assert n < 100 ==> NatToString(n) == NatToString(n / 10) + [DigitChar(n % 10)];
      NatToString(n)
  }
}
