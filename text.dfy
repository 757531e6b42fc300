/** Decimal formatting of non-negative integers, as Python's `str(n)` produces it
    inside the f-strings of the modelled error messages. */
module Text {

  predicate IsDigit(c: char) {
    '0' <= c <= '9'
  }

  predicate AllDigits(s: string) {
    forall k :: 0 <= k < |s| ==> IsDigit(s[k])
  }

  /** The character of a single decimal digit. */
  function Digit(d: nat): (c: char)
    requires d < 10
  {
    ('0' as int + d) as char
  }

  function DigitValue(c: char): nat
    requires IsDigit(c)
  {
    c as int - '0' as int
  }

  /** `str(n)`: at least one digit, and no leading zero unless n is zero. */
  function NatToString(n: nat): (s: string)
    ensures |s| >= 1 && AllDigits(s)
    ensures (s[0] == '0') == (n == 0)
    ensures s[0] == '0' ==> |s| == 1
  {
    if n < 10 then [Digit(n)] else NatToString(n / 10) + [Digit(n % 10)]
  }

  /** The number a string of decimal digits denotes. */
  function DecimalValue(s: string): nat
    requires AllDigits(s)
  {
    if s == [] then 0 else 10 * DecimalValue(s[..|s| - 1]) + DigitValue(s[|s| - 1])
  }

  /** Reading back what `NatToString` wrote gives the number again. */
  lemma {:induction false} DecimalRoundTrip(n: nat)
    ensures DecimalValue(NatToString(n)) == n
  {
    if n >= 10 {
      var s := NatToString(n / 10);
      DecimalRoundTrip(n / 10);
      assert (s + [Digit(n % 10)])[..|s|] == s;
    }
  }

  /** Two numbers that print alike are equal. */
  lemma NatToStringInjective(a: nat, b: nat)
    requires NatToString(a) == NatToString(b)
    ensures a == b
  {
    DecimalRoundTrip(a);
    DecimalRoundTrip(b);
  }

  /** A run of digits followed by text that starts with a non-digit splits in
      exactly one way. */
  lemma {:induction false} DigitsThenDelimiter(x: string, u: string, y: string, v: string)
    requires AllDigits(x) && AllDigits(y)
    requires |u| > 0 && !IsDigit(u[0]) && |v| > 0 && !IsDigit(v[0])
    requires x + u == y + v
    ensures x == y && u == v
  {
    // Where the shorter digit run ends, both sides must hold the same character.
    var m := if |x| <= |y| then |x| else |y|;
    assert (x + u)[m] == (y + v)[m];
    assert x == (x + u)[..|x|];
    assert y == (y + v)[..|y|];
    assert u == (x + u)[|x|..];
    assert v == (y + v)[|y|..];
  }

  /** A number written after a fixed text can be read back, along with what
      follows it, provided that does not begin with a digit. */
  lemma {:induction false} NumberReadBack(lead: string, n1: nat, rest1: string, n2: nat, rest2: string)
    requires |rest1| > 0 && !IsDigit(rest1[0]) && |rest2| > 0 && !IsDigit(rest2[0])
    requires lead + NatToString(n1) + rest1 == lead + NatToString(n2) + rest2
    ensures n1 == n2 && rest1 == rest2
  {
    var r1, r2 := NatToString(n1) + rest1, NatToString(n2) + rest2;
    assert lead + NatToString(n1) + rest1 == lead + r1;
    assert lead + NatToString(n2) + rest2 == lead + r2;
    assert (lead + r1)[|lead|..] == r1 && (lead + r2)[|lead|..] == r2;
    DigitsThenDelimiter(NatToString(n1), rest1, NatToString(n2), rest2);
    NatToStringInjective(n1, n2);
  }

  /** Two numbers written between fixed texts can be read back: a message
      `lead + n1 + (mid + m1 + end)` determines both numbers, provided the text
      after each number does not begin with a digit. */
  lemma TwoNumbersReadBack(lead: string, mid: string, end: string, n1: nat, m1: nat, n2: nat, m2: nat)
    requires |mid| > 0 && !IsDigit(mid[0]) && |end| > 0 && !IsDigit(end[0])
    requires lead + NatToString(n1) + (mid + NatToString(m1) + end) == lead + NatToString(n2) + (mid + NatToString(m2) + end)
    ensures n1 == n2 && m1 == m2
  {
    var rest1, rest2 := mid + NatToString(m1) + end, mid + NatToString(m2) + end;
    assert rest1[0] == mid[0] && rest2[0] == mid[0];
    NumberReadBack(lead, n1, rest1, n2, rest2);
    NumberReadBack(mid, m1, end, m2, end);
  }
}
