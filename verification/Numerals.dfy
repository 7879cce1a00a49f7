/** Numbers as text: decimal and lowercase hexadecimal digits without leading
    zeros, as the standard formatting writes them. */
module Numerals {
  predicate IsHex(c: char)
  {
    '0' <= c <= '9' || 'a' <= c <= 'f'
  }

  function Digit(n: nat): (c: char)
    requires n < 16
    ensures IsHex(c)
  {
    "0123456789abcdef"[n]
  }

  function Numeral(n: nat, base: nat): (s: string)
    requires 2 <= base <= 16
    ensures s != "" && forall i :: 0 <= i < |s| ==> IsHex(s[i])
  {
    if n < base then [Digit(n)] else Numeral(n / base, base) + [Digit(n % base)]
  }

  function DigitValue(c: char): (n: int)
  {
    if c <= '9' then c as int - '0' as int else c as int - 'a' as int + 10
  }

  function Value(s: string, base: nat): (n: int)
  {
    if s == "" then 0 else base * Value(s[..|s| - 1], base) + DigitValue(s[|s| - 1])
  }

  lemma DigitReads(n: nat)
    requires n < 16
    ensures DigitValue(Digit(n)) == n
  {
  }

  lemma ValueSnoc(s: string, c: char, base: nat)
    ensures Value(s + [c], base) == base * Value(s, base) + DigitValue(c)
  {
    assert (s + [c])[..|s|] == s;
  }

  lemma Division(n: nat, base: nat)
    requires base > 0
    ensures n == base * (n / base) + n % base
  {
  }

  /** The text of a number reads back as that number. */
  lemma {:induction false} NumeralRoundTrip(n: nat, base: nat)
    requires 2 <= base <= 16
    ensures Value(Numeral(n, base), base) == n
  {
    if n < base {
      ValueSnoc("", Digit(n), base);
      DigitReads(n);
      assert [Digit(n)] == "" + [Digit(n)] && base * Value("", base) == 0;
    } else {
      NumeralRoundTrip(n / base, base);
      ValueSnoc(Numeral(n / base, base), Digit(n % base), base);
      DigitReads(n % base);
      Division(n, base);
    }
  }

  lemma NumeralInjective(a: nat, b: nat, base: nat)
    requires 2 <= base <= 16 && Numeral(a, base) == Numeral(b, base)
    ensures a == b
  {
    NumeralRoundTrip(a, base);
    NumeralRoundTrip(b, base);
  }
}
