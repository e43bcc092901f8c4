/** Unsigned numerals without padding, as `printf` writes them for `%d` of a
    non-negative int and for `%x` (lower-case digits), and the reading of a
    digit string back into a number. */
module Numerals {
  const DIGITS: string := "0123456789abcdef"

  /** The character of digit d. */
  function Digit(d: nat): char
    requires d < 16
  {
    DIGITS[d]
  }

  /** The value of a digit character; 0 for anything else. */
  function DigitValue(ch: char): nat
  {
    if '0' <= ch <= '9' then (ch - '0') as nat
    else if 'a' <= ch <= 'f' then (ch - 'a') as nat + 10
    else 0
  }

  /** ch is one of the first `base` lower-case digits. */
  predicate IsDigit(ch: char, base: nat)
    requires base <= 16
  {
    ch in DIGITS[..base]
  }

  lemma DigitValueOfDigit(d: nat)
    requires d < 16
    ensures DigitValue(Digit(d)) == d
  {
    assert DIGITS == ['0', '1', '2', '3', '4', '5', '6', '7', '8', '9', 'a', 'b', 'c', 'd', 'e', 'f'];
  }

  /** One step of writing n in the base: the quotient is a smaller positive
      number and the remainder a digit. */
  lemma DivStep(n: nat, base: nat)
    requires 2 <= base <= n
    ensures 0 < n / base < n && n % base < base
    ensures n == (n / base) * base + n % base
  {
  }

  lemma DigitIsDigit(d: nat, base: nat)
    requires d < base <= 16
    ensures IsDigit(Digit(d), base) && DigitValue(Digit(d)) == d
    ensures d > 0 ==> Digit(d) != '0'
  {
    assert DIGITS[..base][d] == DIGITS[d];
    DigitValueOfDigit(d);
  }

  /** The digits of n in the given base, most significant first, with no
      leading zeros ("0" for zero). */
  function Numeral(n: nat, base: nat): (s: string)
    requires 2 <= base <= 16
    ensures |s| >= 1
    ensures forall i :: 0 <= i < |s| ==> IsDigit(s[i], base)
    ensures n > 0 ==> s[0] != '0'
    ensures |s| > 1 ==> s[0] != '0'
    decreases n
  {
    if n < base then
      DigitIsDigit(n, base);
      [Digit(n)]
    else
      DivStep(n, base);
      DigitIsDigit(n % base, base);
      Numeral(n / base, base) + [Digit(n % base)]
  }

  /** A digit string read as a big-endian numeral in the given base. */
  function ParseNumeral(s: string, base: nat): nat
    decreases |s|
  {
    if s == [] then 0 else ParseNumeral(s[..|s| - 1], base) * base + DigitValue(s[|s| - 1])
  }

  /** Reading a numeral back gives the number it was written from. */
  lemma {:induction false} NumeralRoundTrip(n: nat, base: nat)
    requires 2 <= base <= 16
    ensures ParseNumeral(Numeral(n, base), base) == n
    decreases n
  {
    if n < base {
      DigitValueOfDigit(n);
      assert Numeral(n, base)[..0] == [];
    } else {
      var s := Numeral(n, base);
      DivStep(n, base);
      NumeralRoundTrip(n / base, base);
      DigitValueOfDigit(n % base);
      assert s[..|s| - 1] == Numeral(n / base, base);
    }
  }

  /** Two numerals in the same base are equal exactly when their numbers are. */
  lemma NumeralInjective(m: nat, n: nat, base: nat)
    requires 2 <= base <= 16
    ensures Numeral(m, base) == Numeral(n, base) <==> m == n
  {
    NumeralRoundTrip(m, base);
    NumeralRoundTrip(n, base);
  }
}
