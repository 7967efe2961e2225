/** Numbers in decimal: how a format string prints them, and a reader that shares nothing with the printer. */
module Decimals {

  predicate IsDigit(c: char) {
    '0' <= c <= '9'
  }

  predicate AllDigits(s: string) {
    forall c :: c in s ==> IsDigit(c)
  }

  function Digit(d: nat): char
    requires d < 10
  {
    '0' + d as char
  }

  /** A number in decimal, as a format string prints it. */
  function Decimal(n: nat): string {
    if n < 10 then [Digit(n)] else Decimal(n / 10) + [Digit(n % 10)]
  }

  /** The number that digits stand for, the most significant one first, behind digits that stand for `high`. */
  function ReadDigits(s: string, high: nat): nat
    requires AllDigits(s)
  {
    if s == "" then high
    else
      assert IsDigit(s[0]);
      ReadDigits(s[1..], 10 * high + (s[0] as int - '0' as int))
  }

  /** The decimal numeral of a number: digits alone, without a leading zero, that stand for it. */
  ghost predicate IsNumeral(s: string, n: nat) {
    && s != ""
    && AllDigits(s)
    && (|s| > 1 ==> s[0] != '0')
    && ReadDigits(s, 0) == n
  }

  /** Reading one more digit at the end. */
  lemma {:induction false} ReadLast(s: string, c: char, high: nat)
    requires AllDigits(s) && IsDigit(c)
    ensures ReadDigits(s + [c], high) == 10 * ReadDigits(s, high) + (c as int - '0' as int)
  {
    if s == "" {
      assert [c][1..] == "";
    } else {
      assert s[0] in s;
      assert (s + [c])[1..] == s[1..] + [c];
      ReadLast(s[1..], c, 10 * high + (s[0] as int - '0' as int));
    }
  }

  /** What is printed is the numeral of the number. */
  lemma {:induction false} DecimalIsNumeral(n: nat)
    ensures IsNumeral(Decimal(n), n)
    ensures n > 0 ==> Decimal(n)[0] != '0'
  {
    if n < 10 {
      assert Decimal(n)[1..] == "";
    } else {
      DecimalIsNumeral(n / 10);
      ReadLast(Decimal(n / 10), Digit(n % 10), 0);
    }
  }

  /** A number has one numeral only. */
  lemma {:induction false} OneNumeral(s: string, n: nat)
    requires IsNumeral(s, n)
    ensures s == Decimal(n)
    decreases |s|
  {
    var (front, c) := (s[..|s| - 1], s[|s| - 1]);
    assert s == front + [c];
    ReadLast(front, c, 0);
    if front == "" {
      assert [c][1..] == "";
      assert ReadDigits(s, 0) == c as int - '0' as int;
    } else {
      assert front[0] == s[0];
      OneNumeral(front, ReadDigits(front, 0));
      NoLeadingZero(front);
    }
  }

  lemma {:induction false} AtLeast(s: string, high: nat)
    requires AllDigits(s)
    ensures ReadDigits(s, high) >= high
  {
    if s != "" {
      assert s[0] in s;
      AtLeast(s[1..], 10 * high + (s[0] as int - '0' as int));
    }
  }

  lemma NoLeadingZero(s: string)
    requires s != "" && s[0] != '0' && AllDigits(s)
    ensures ReadDigits(s, 0) > 0
  {
    assert s[0] in s;
    AtLeast(s[1..], s[0] as int - '0' as int);
  }
}
