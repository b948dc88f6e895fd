// Decimal text for the integers that `format!` prints in src/main.rs:
// `{}` (shortest decimal, a leading `-` for negative values) and `{:02}`
// (zero-padded to a width of at least two), together with the parser that
// reads such text back.

module Decimal {

  predicate IsDigit(c: char) {
    '0' <= c <= '9'
  }

  predicate AllDigits(s: string) {
    forall i :: 0 <= i < |s| ==> IsDigit(s[i])
  }

  function DigitChar(d: nat): (c: char)
    requires d < 10
    ensures IsDigit(c)
  {
    (48 + d) as char
  }

  function DigitValue(c: char): (d: nat)
    requires IsDigit(c)
    ensures d < 10 && DigitChar(d) == c
  {
    c as int - 48
  }

  /** The number a string of decimal digits denotes (most significant first). */
  function Value(s: string): nat
    requires AllDigits(s)
  {
    if s == [] then 0 else Value(s[..|s| - 1]) * 10 + DigitValue(s[|s| - 1])
  }

  /** `{}` on an unsigned value: the shortest decimal text, with no leading
      zero except for 0 itself. */
  function Digits(n: nat): (s: string)
    ensures |s| >= 1 && AllDigits(s)
    ensures |s| > 1 ==> s[0] != '0'
    ensures (|s| == 1) == (n < 10)
    ensures 10 <= n < 100 ==> |s| == 2
  {
    if n < 10 then [DigitChar(n)] else Digits(n / 10) + [DigitChar(n % 10)]
  }

  /** Reading the digits back yields the number. */
  lemma {:induction false} ValueOfDigits(n: nat)
    ensures Value(Digits(n)) == n
  {
    if n >= 10 {
      var s := Digits(n);
      ValueOfDigits(n / 10);
      assert s[..|s| - 1] == Digits(n / 10);
    }
  }

  /** `{:02}`: a leading `0` is added to a single digit; wider values are
      printed as they are. */
  function Pad2(n: nat): (s: string)
    ensures AllDigits(s) && Value(s) == n
    ensures |s| == if n < 10 then 2 else |Digits(n)|
    ensures n < 100 ==> |s| == 2
    ensures n < 10 ==> s[0] == '0'
    ensures n >= 10 ==> s == Digits(n)
  {
    ValueOfDigits(n);
    if n < 10 then
      assert Value(['0']) == 0;
      ['0'] + Digits(n)
    else
      Digits(n)
  }

  /** Text accepted as a signed integer: digits, optionally after a `-`. */
  predicate IsIntegerText(s: string) {
    (|s| > 0 && AllDigits(s)) || (|s| > 1 && s[0] == '-' && AllDigits(s[1..]))
  }

  function ParseInteger(s: string): int
    requires IsIntegerText(s)
  {
    if s[0] == '-' then -(Value(s[1..]) as int) else Value(s)
  }

  /** The digits of an integer text, without its sign. */
  function Magnitude(s: string): string
    requires IsIntegerText(s)
  {
    if s[0] == '-' then s[1..] else s
  }

  /** Integer text as `{}` prints it: no padding, so no leading zero unless
      the value is 0, and a `-` only before a non-zero magnitude. */
  predicate IsShortestIntegerText(s: string) {
    IsIntegerText(s) &&
    (|Magnitude(s)| > 1 ==> Magnitude(s)[0] != '0') &&
    (s[0] == '-' ==> Magnitude(s) != "0")
  }

  /** `{}` on a signed value (the year of a chrono date is an `i32`): the
      shortest text for `n`, with a `-` exactly when `n` is negative. */
  function FormatInteger(n: int): (s: string)
    ensures IsIntegerText(s) && ParseInteger(s) == n
    ensures (|s| > 0 && s[0] == '-') == (n < 0)
    ensures IsShortestIntegerText(s)
  {
    if n < 0 then
      ValueOfDigits(-n);
      assert ("-" + Digits(-n))[1..] == Digits(-n);
      "-" + Digits(-n)
    else
      ValueOfDigits(n);
      Digits(n)
  }

  /** A digit string whose first digit is not `0` denotes a positive number. */
  lemma {:induction false} LeadingDigitPositive(t: string)
    requires |t| >= 1 && AllDigits(t) && t[0] != '0'
    ensures Value(t) >= 1
  {
    if |t| > 1 {
      LeadingDigitPositive(t[..|t| - 1]);
    }
  }

  /** Euclidean division by ten recovers the quotient and the last digit. */
  lemma DivModTen(q: nat, d: nat)
    requires d < 10
    ensures (q * 10 + d) / 10 == q && (q * 10 + d) % 10 == d
  {
  }

  /** `Digits(n)` is the only digit string without a leading zero that
      denotes `n`. */
  lemma {:induction false} DigitsUnique(t: string, n: nat)
    requires |t| >= 1 && AllDigits(t) && (|t| > 1 ==> t[0] != '0')
    requires Value(t) == n
    ensures t == Digits(n)
  {
    var last := t[|t| - 1];
    if |t| == 1 {
      assert Value(t) == DigitValue(last);
    } else {
      var front := t[..|t| - 1];
      var q, d := Value(front), DigitValue(last);
      assert n == q * 10 + d;
      LeadingDigitPositive(front);
      DivModTen(q, d);
      DigitsUnique(front, q);
      assert Digits(n) == Digits(q) + [DigitChar(d)];
      assert t == front + [last];
    }
  }

  /** `FormatInteger(n)` is the only shortest integer text for `n`, so a
      zero-padded year such as `02024` is not what `{}` prints. */
  lemma FormatIntegerUnique(t: string, n: int)
    requires IsShortestIntegerText(t) && ParseInteger(t) == n
    ensures t == FormatInteger(n)
  {
    if t[0] == '-' {
      DigitsUnique(t[1..], -n);
      assert t == "-" + t[1..];
    } else {
      DigitsUnique(t, n);
    }
  }
}
