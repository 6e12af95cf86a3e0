/**
 * Base-10 text of integers: what `Number.prototype.toString()` yields for an
 * integer-valued number of magnitude at most 2^53 (the `max_len` part of a
 * split request, and the raw length and character count the page shows),
 * together with the reading of such text back into a number, which is the
 * partner the round trips use. Above 2^53 JavaScript prints only the shortest
 * digits that round-trip, followed by zeros; that range is not modelled here.
 */
module Decimal {
  import opened Wrappers

  predicate IsDigit(c: char) {
    '0' <= c <= '9'
  }

  predicate AllDigits(s: string) {
    forall i :: 0 <= i < |s| ==> IsDigit(s[i])
  }

  function DigitValue(c: char): (d: nat)
    requires IsDigit(c)
    ensures d < 10
  {
    (c as int) - ('0' as int)
  }

  function DigitChar(d: nat): (c: char)
    requires d < 10
    ensures IsDigit(c) && DigitValue(c) == d
  {
    (('0' as int) + d) as char
  }

  /** A numeral for a natural number: digits only, no leading zero except "0" itself. */
  predicate IsNaturalNumeral(s: string) {
    |s| > 0 && AllDigits(s) && (s[0] == '0' ==> s == "0")
  }

  /** What `toString()` can yield for an integer: a natural numeral, or '-' and a non-zero one. */
  predicate IsIntegerNumeral(s: string) {
    IsNaturalNumeral(s) || (|s| > 1 && s[0] == '-' && IsNaturalNumeral(s[1..]) && s[1..] != "0")
  }

  /** The digits of a natural number, most significant first. */
  function NaturalString(n: nat): (s: string)
    ensures IsNaturalNumeral(s)
    ensures s[0] == '0' <==> n == 0
    decreases n
  {
    if n < 10 then [DigitChar(n)] else NaturalString(n / 10) + [DigitChar(n % 10)]
  }

  /** `n.toString()` for |n| <= 2^53: no padding, no grouping, a minus sign for negative numbers. */
  function IntegerString(n: int): (s: string)
    ensures IsIntegerNumeral(s)
    ensures ParseInteger(s) == Some(n)
  {
    IntegerRoundTrip(n);
    if n < 0 then "-" + NaturalString(-n) else NaturalString(n)
  }

  /** The value of a string of digits. */
  function DigitsValue(s: string): nat
    requires AllDigits(s)
    decreases |s|
  {
    if s == [] then 0 else DigitsValue(s[..|s| - 1]) * 10 + DigitValue(s[|s| - 1])
  }

  /** Reads an optionally negative base-10 integer; `None` for anything else. */
  function ParseInteger(s: string): Option<int> {
    if |s| > 1 && s[0] == '-' && AllDigits(s[1..]) then Some(0 - DigitsValue(s[1..]) as int)
    else if |s| > 0 && AllDigits(s) then Some(DigitsValue(s))
    else None
  }

  lemma {:induction false} NaturalStringValue(n: nat)
    ensures DigitsValue(NaturalString(n)) == n
    decreases n
  {
    if n >= 10 {
      var prefix := NaturalString(n / 10);
      NaturalStringValue(n / 10);
      assert (prefix + [DigitChar(n % 10)])[..|prefix|] == prefix;
    }
  }

  /** Reading back the text of any integer gives that integer. */
  lemma IntegerRoundTrip(n: int)
    ensures ParseInteger(if n < 0 then "-" + NaturalString(-n) else NaturalString(n)) == Some(n)
  {
    if n < 0 {
      var s := "-" + NaturalString(-n);
      assert s[1..] == NaturalString(-n);
      NaturalStringValue(-n);
    } else {
      NaturalStringValue(n);
    }
  }

  lemma {:induction false} NumeralValue(s: string)
    requires IsNaturalNumeral(s)
    ensures NaturalString(DigitsValue(s)) == s
    decreases |s|
  {
    if |s| == 1 {
      assert DigitChar(DigitValue(s[0])) == s[0];
    } else {
      var prefix := s[..|s| - 1];
      assert IsNaturalNumeral(prefix) by {
        assert prefix[0] == s[0];
        assert s[0] != '0';
      }
      NumeralValue(prefix);
      var v := DigitsValue(prefix);
      assert v != 0 by {
        assert NaturalString(v)[0] == s[0];
      }
      assert DigitChar(DigitValue(s[|s| - 1])) == s[|s| - 1];
      assert s == prefix + [s[|s| - 1]];
    }
  }

  /** Every text `toString()` can yield is yielded by exactly one integer: the one it reads as. */
  lemma NumeralRoundTrip(s: string)
    requires IsIntegerNumeral(s)
    ensures ParseInteger(s).Some? && IntegerString(ParseInteger(s).value) == s
  {
    if s[0] == '-' {
      NumeralValue(s[1..]);
      assert s == "-" + s[1..];
    } else {
      NumeralValue(s);
    }
  }

  /** Different integers have different texts. */
  lemma IntegerStringInjective(a: int, b: int)
    requires a != b
    ensures IntegerString(a) != IntegerString(b)
  {
  }
}
