/**
 * Python's `str(n)` for an integer `n`: the decimal digits, with a leading
 * `-` for a negative number. Both request URLs and chart URLs embed a station
 * id this way, so the model needs to know that the rendering loses nothing.
 */
module Decimal {

  predicate IsDigit(c: char) {
    '0' <= c <= '9'
  }

  function DigitChar(d: nat): (c: char)
    requires d < 10
    ensures IsDigit(c) && DigitValue(c) == d
  {
    ('0' as int + d) as char
  }

  /** The decimal digits of `n`, most significant first, without leading zeros. */
  function Digits(n: nat): (s: string)
    ensures |s| > 0
    ensures forall i | 0 <= i < |s| :: IsDigit(s[i])
    decreases n
  {
    if n < 10 then [DigitChar(n)] else Digits(n / 10) + [DigitChar(n % 10)]
  }

  /** Reads a string of decimal digits back as a number: the partner of `Digits`. */
  function ParseDigits(s: string): nat
    requires forall i | 0 <= i < |s| :: IsDigit(s[i])
  {
    if s == [] then 0
    else ParseDigits(s[..|s| - 1]) * 10 + DigitValue(s[|s| - 1])
  }

  function DigitValue(c: char): (d: nat)
    requires IsDigit(c)
    ensures d < 10
  {
    (c as int) - ('0' as int)
  }

  lemma {:induction false} ParseDigitsOfDigits(n: nat)
    ensures ParseDigits(Digits(n)) == n
    decreases n
  {
    var s := Digits(n);
    if n >= 10 {
      ParseDigitsOfDigits(n / 10);
      assert s[..|s| - 1] == Digits(n / 10);
    }
  }

  /** `str(i)` for a Python `int`. */
  function IntString(i: int): (s: string)
    ensures |s| > 0
  {
    if i < 0 then "-" + Digits(-i) else Digits(i)
  }

  /** The rendering starts with `-` exactly for a negative number. */
  lemma SignOfIntString(i: int)
    ensures IntString(i)[0] == '-' <==> i < 0
  {
    if i >= 0 {
      assert IsDigit(Digits(i)[0]);
    }
  }

  /** Distinct integers render as distinct strings. */
  lemma IntStringInjective(i: int, j: int)
    requires IntString(i) == IntString(j)
    ensures i == j
  {
    SignOfIntString(i);
    SignOfIntString(j);
    if i < 0 && j < 0 {
      assert Digits(-i) == IntString(i)[1..] == IntString(j)[1..] == Digits(-j);
      ParseDigitsOfDigits(-i);
      ParseDigitsOfDigits(-j);
    } else if i >= 0 && j >= 0 {
      ParseDigitsOfDigits(i);
      ParseDigitsOfDigits(j);
    }
  }

  /** Cancelling a common prefix: `p + str(i) == p + str(j)` identifies the id. */
  lemma PrefixedIntStringInjective(p: string, i: int, j: int)
    requires p + IntString(i) == p + IntString(j)
    ensures i == j
  {
    assert IntString(i) == (p + IntString(i))[|p|..];
    assert IntString(j) == (p + IntString(j))[|p|..];
    IntStringInjective(i, j);
  }
}
