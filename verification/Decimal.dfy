// Decimal numerals, as the editors write and read port numbers.
module Decimal {

  predicate IsDigit(c: char) {
    '0' <= c <= '9'
  }

  predicate IsNumeral(s: string) {
    s != "" && forall k :: 0 <= k < |s| ==> IsDigit(s[k])
  }

  function DigitChar(n: nat): (c: char)
    requires n < 10
    ensures IsDigit(c)
  {
    '0' + n as char
  }

  function Print(n: nat): string {
    if n < 10 then [DigitChar(n)] else Print(n / 10) + [DigitChar(n % 10)]
  }

  function DigitValue(c: char): nat
    requires IsDigit(c)
  {
    (c - '0') as nat
  }

  function Parse(s: string): nat
    requires IsNumeral(s)
  {
    if |s| == 1 then DigitValue(s[0]) else 10 * Parse(s[..|s| - 1]) + DigitValue(s[|s| - 1])
  }

  lemma {:induction false} PrintIsNumeral(n: nat)
    ensures IsNumeral(Print(n))
  {
    if n >= 10 {
      PrintIsNumeral(n / 10);
    }
  }

  lemma {:induction false} ParsePrint(n: nat)
    ensures IsNumeral(Print(n)) && Parse(Print(n)) == n
  {
    PrintIsNumeral(n);
    if n >= 10 {
      ParsePrint(n / 10);
      assert Print(n)[..|Print(n)| - 1] == Print(n / 10);
    }
  }

  /* Place values. */

  function Power(k: nat): (p: nat)
    ensures p > 0
  {
    if k == 0 then 1 else 10 * Power(k - 1)
  }

  // A numeral written behind another moves that one up by as many places as it has digits.
  lemma {:induction false} ParseIsPositional(a: string, b: string)
    requires IsNumeral(a) && IsNumeral(b)
    ensures IsNumeral(a + b) && Parse(a + b) == Parse(a) * Power(|b|) + Parse(b)
  {
    var init, d := b[..|b| - 1], b[|b| - 1];
    assert (a + b)[..|a + b| - 1] == a + init;
    if |b| == 1 {
      assert a + init == a && Power(1) == 10 * Power(0);
    } else {
      ParseIsPositional(a, init);
      TenTimes(Parse(a), Power(|init|));
    }
  }

  lemma TenTimes(a: nat, p: nat)
    ensures 10 * (a * p) == a * (10 * p)
  {
  }

  lemma DigitsAreValues(c: char)
    requires IsDigit(c)
    ensures IsNumeral([c]) && Parse([c]) == c as int - '0' as int
  {
  }

  // A printed number starts with 0 only if it is 0.
  lemma {:induction false} NoLeadingZero(n: nat)
    ensures Print(n) != "" && (Print(n)[0] == '0' <==> n == 0) && (n == 0 ==> Print(n) == "0")
  {
    if n >= 10 {
      NoLeadingZero(n / 10);
    }
  }
}
