/** `Number.prototype.toString()` on an integral chat id, as used for the
    allow-list lookup: decimal digits, a leading `-` for negative ids, no
    leading zeros, no padding.  `ParseInt` reads back exactly the strings
    `DecimalString` produces, so the two are each other's inverse on
    canonical decimal strings.
 */
module Decimal {

  predicate IsDigit(ch: char) {
    '0' <= ch <= '9'
  }

  predicate AllDigits(s: string) {
    forall i :: 0 <= i < |s| ==> IsDigit(s[i])
  }

  function DigitChar(d: nat): (ch: char)
    requires d < 10
    ensures IsDigit(ch)
  {
    (d + '0' as int) as char
  }

  function DigitValue(ch: char): (d: nat)
    requires IsDigit(ch)
    ensures d < 10 && DigitChar(d) == ch
  {
    ch as int - '0' as int
  }

  /** A non-negative decimal numeral with no superfluous leading zero. */
  predicate CanonicalNat(s: string) {
    |s| > 0 && AllDigits(s) && (s[0] == '0' ==> |s| == 1)
  }

  /** A canonical numeral, optionally negated; there is no "-0". */
  predicate CanonicalInt(s: string) {
    CanonicalNat(s) || (|s| >= 2 && s[0] == '-' && CanonicalNat(s[1..]) && s[1] != '0')
  }

  function NatString(n: nat): string
    decreases n
  {
    if n < 10 then [DigitChar(n)] else NatString(n / 10) + [DigitChar(n % 10)]
  }

  /** The text `n.toString()` yields for an integral number `n`. */
  function DecimalString(n: int): string {
    if n < 0 then "-" + NatString(-n) else NatString(n)
  }

  function ParseNat(s: string): nat
    requires AllDigits(s)
    decreases |s|
  {
    if |s| == 0 then 0 else 10 * ParseNat(s[..|s| - 1]) + DigitValue(s[|s| - 1])
  }

  function ParseInt(s: string): int
    requires CanonicalInt(s)
  {
    if s[0] == '-' then -(ParseNat(s[1..]) as int) else ParseNat(s)
  }

  lemma {:induction false} ParseNatPositive(s: string)
    requires |s| > 0 && AllDigits(s) && s[0] != '0'
    ensures ParseNat(s) > 0
    decreases |s|
  {
    if |s| > 1 {
      ParseNatPositive(s[..|s| - 1]);
    }
  }

  lemma {:induction false} NatStringRoundTrip(n: nat)
    ensures CanonicalNat(NatString(n))
    ensures ParseNat(NatString(n)) == n
    decreases n
  {
    if n >= 10 {
      var front := NatString(n / 10);
      NatStringRoundTrip(n / 10);
      var s := front + [DigitChar(n % 10)];
      assert s[..|s| - 1] == front;
      assert front[0] != '0';
    }
  }

  lemma {:induction false} NatStringOfParse(s: string)
    requires CanonicalNat(s)
    ensures NatString(ParseNat(s)) == s
    decreases |s|
  {
    if |s| > 1 {
      var front := s[..|s| - 1];
      assert CanonicalNat(front);
      ParseNatPositive(front);
      NatStringOfParse(front);
      var v := ParseNat(s);
      assert v / 10 == ParseNat(front) && v % 10 == DigitValue(s[|s| - 1]);
      assert front + [s[|s| - 1]] == s;
    }
  }

  /** Every id prints as a canonical numeral that reads back as the id. */
  lemma DecimalRoundTrip(n: int)
    ensures CanonicalInt(DecimalString(n))
    ensures ParseInt(DecimalString(n)) == n
  {
    if n < 0 {
      NatStringRoundTrip(-n);
      var t := NatString(-n);
      assert DecimalString(n)[1..] == t;
      assert t[0] != '0';
    } else {
      NatStringRoundTrip(n);
    }
  }

  /** Every canonical numeral is what `DecimalString` prints for its value. */
  lemma DecimalOfParse(s: string)
    requires CanonicalInt(s)
    ensures DecimalString(ParseInt(s)) == s
  {
    if s[0] == '-' {
      ParseNatPositive(s[1..]);
      NatStringOfParse(s[1..]);
      assert "-" + s[1..] == s;
    } else {
      NatStringOfParse(s);
    }
  }

  /** Distinct ids print differently. */
  lemma DecimalStringInjective(a: int, b: int)
    requires DecimalString(a) == DecimalString(b)
    ensures a == b
  {
    DecimalRoundTrip(a);
    DecimalRoundTrip(b);
  }
}
