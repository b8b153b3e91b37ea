/** Decimal rendering of a non-negative integer, as `String.valueOf(int)` produces it
    for the page numbers of a repository listing, and its inverse. */
module Decimal {

  predicate IsDigit(c: char) {
    '0' <= c <= '9'
  }

  function DigitChar(d: nat): (c: char)
    requires d < 10
    ensures IsDigit(c)
  {
    ('0' as int + d) as char
  }

  function DigitValue(c: char): nat {
    if IsDigit(c) then c as int - '0' as int else 0
  }

  /** A non-empty string of decimal digits without a leading zero (other than "0"
      itself): the form `String.valueOf` gives a non-negative int. */
  predicate IsCanonical(s: string) {
    && |s| >= 1
    && (forall i :: 0 <= i < |s| ==> IsDigit(s[i]))
    && (s[0] == '0' ==> |s| == 1)
  }

  /** Digits of `n`, most significant first. */
  function DecimalString(n: nat): (s: string)
    ensures IsCanonical(s)
    decreases n
  {
    if n < 10 then [DigitChar(n)]
    else DecimalString(n / 10) + [DigitChar(n % 10)]
  }

  /** Value of a string of decimal digits, most significant first. */
  function ParseDecimal(s: string): nat {
    if s == [] then 0
    else ParseDecimal(s[..|s| - 1]) * 10 + DigitValue(s[|s| - 1])
  }

  /** Reading back the decimal string of `n` gives `n`. */
  lemma {:induction false} ParseDecimalString(n: nat)
    ensures ParseDecimal(DecimalString(n)) == n
    decreases n
  {
    var s := DecimalString(n);
    if n < 10 {
      assert s[..|s| - 1] == [];
    } else {
      assert s[..|s| - 1] == DecimalString(n / 10);
      ParseDecimalString(n / 10);
    }
  }

  /** Digits that do not start with zero denote a positive number. */
  lemma {:induction false} LeadingNonZeroPositive(s: string)
    requires |s| >= 1 && s[0] != '0'
    requires forall i :: 0 <= i < |s| ==> IsDigit(s[i])
    ensures ParseDecimal(s) >= 1
    decreases |s|
  {
    if |s| == 1 {
      assert s[..0] == [];
    } else {
      LeadingNonZeroPositive(s[..|s| - 1]);
    }
  }

  /** Every canonical decimal string is the decimal string of its value: the page
      parameter is exactly the rendering of one number. */
  lemma {:induction false} CanonicalRoundTrip(s: string)
    requires IsCanonical(s)
    ensures DecimalString(ParseDecimal(s)) == s
    decreases |s|
  {
    var init, last := s[..|s| - 1], s[|s| - 1];
    var d := DigitValue(last);
    assert DigitChar(d) == last;
    if |s| == 1 {
      assert init == [];
      assert [last] == s;
    } else {
      assert IsCanonical(init) by {
        assert init[0] == s[0];
      }
      LeadingNonZeroPositive(init);
      CanonicalRoundTrip(init);
      var n := ParseDecimal(s);
      assert n == ParseDecimal(init) * 10 + d;
      assert n / 10 == ParseDecimal(init) && n % 10 == d;
      assert s == init + [last];
    }
  }

  /** Different numbers have different decimal strings. */
  lemma DecimalStringInjective(m: nat, n: nat)
    requires DecimalString(m) == DecimalString(n)
    ensures m == n
  {
    ParseDecimalString(m);
    ParseDecimalString(n);
  }
}
