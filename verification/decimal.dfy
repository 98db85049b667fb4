/** Base-10 rendering of machine integers, as produced by `itoa(n, buf, 10)` and
    the `%d` conversion of `sprintf`: an optional minus sign followed by the
    digits of the magnitude, without leading zeros. `ParseInt` is the reading
    direction, used to state that the rendering loses nothing. */
module Decimal {
  import opened Wrappers

  predicate IsDigit(c: char) {
    '0' <= c <= '9'
  }

  predicate AllDigits(s: string) {
    forall i :: 0 <= i < |s| ==> IsDigit(s[i])
  }

  function DigitChar(d: nat): (c: char)
    requires d < 10
    ensures IsDigit(c)
  {
    (('0' as int) + d) as char
  }

  function DigitValue(c: char): (d: nat)
    requires IsDigit(c)
    ensures d < 10
  {
    (c as int) - ('0' as int)
  }

  /** The digits of a natural number, most significant first. */
  function NatString(n: nat): (s: string)
    ensures |s| >= 1
    ensures AllDigits(s)
    ensures |s| > 1 ==> s[0] != '0'
    ensures s[0] == '0' <==> n == 0
  {
    if n < 10 then [DigitChar(n)] else NatString(n / 10) + [DigitChar(n % 10)]
  }

  /** The decimal text of an integer: a minus sign exactly for negative
      values, then at least one digit with no leading zero; zero is `0`
      alone, and there is no `-0`. None of the separators of
      the messages built from it occurs in it. */
  function IntString(n: int): (s: string)
    ensures |s| >= 1
    ensures s[0] == '-' <==> n < 0
    ensures var d := if n < 0 then s[1..] else s;
      |d| >= 1 && AllDigits(d) && (d[0] == '0' <==> n == 0) && (|d| > 1 ==> d[0] != '0')
    ensures ':' !in s && ',' !in s && '}' !in s
  {
    if n < 0 then "-" + NatString(-n) else NatString(n)
  }

  /** The value of a run of digits, most significant first. */
  function DigitsValue(s: string): nat
    requires AllDigits(s)
  {
    if |s| == 0 then 0 else DigitsValue(s[..|s| - 1]) * 10 + DigitValue(s[|s| - 1])
  }

  /** Reads an optional minus sign and at least one digit, and nothing else. */
  function ParseInt(s: string): (r: Option<int>)
    ensures r.Some? ==> |s| >= 1
  {
    if |s| >= 2 && s[0] == '-' && AllDigits(s[1..]) then Some(-(DigitsValue(s[1..]) as int))
    else if |s| >= 1 && AllDigits(s) then Some(DigitsValue(s) as int)
    else None
  }

  lemma {:induction false} NatStringValue(n: nat)
    ensures DigitsValue(NatString(n)) == n
  {
    if n >= 10 {
      var s := NatString(n);
      assert s[..|s| - 1] == NatString(n / 10);
      NatStringValue(n / 10);
    }
  }

  /** Reading back the rendered text of any integer yields that integer. */
  lemma IntStringRoundTrip(n: int)
    ensures ParseInt(IntString(n)) == Some(n)
  {
    if n < 0 {
      var d := NatString(-n);
      var s := "-" + d;
      assert s[0] == '-' && s[1..] == d;
      NatStringValue(-n);
      assert DigitsValue(s[1..]) == -n;
    } else {
      var s := NatString(n);
      assert IsDigit(s[0]);
      NatStringValue(n);
    }
  }

  /** Distinct integers have distinct decimal texts. */
  lemma IntStringInjective(a: int, b: int)
    ensures IntString(a) == IntString(b) <==> a == b
  {
    IntStringRoundTrip(a);
    IntStringRoundTrip(b);
  }
}
