/** Decimal numbers as the compiler prints them. */
module Decimal {

  predicate IsDigit(c: char) {
    '0' <= c <= '9'
  }

  function Digit(c: char): nat
    requires IsDigit(c)
  {
    c as int - '0' as int
  }

  function Digits(n: nat): (s: string)
    ensures s != "" && forall i :: 0 <= i < |s| ==> IsDigit(s[i])
  {
    var last := [('0' as int + n % 10) as char];
    if n < 10 then last else Digits(n / 10) + last
  }

  function Text(i: int): string {
    if i < 0 then "-" + Digits(-i) else Digits(i)
  }

  function Value(s: string): nat
    requires forall i :: 0 <= i < |s| ==> IsDigit(s[i])
  {
    if s == "" then 0 else 10 * Value(s[..|s| - 1]) + Digit(s[|s| - 1])
  }

  /** Printing loses nothing, and prints no leading zero. */
  lemma {:induction false} DigitsReadBack(n: nat)
    ensures Value(Digits(n)) == n && (Digits(n)[0] == '0' ==> n == 0 && |Digits(n)| == 1)
  {
    var s, last := Digits(n), ('0' as int + n % 10) as char;
    if n >= 10 {
      DigitsReadBack(n / 10);
      assert s[..|s| - 1] == Digits(n / 10) && s[|s| - 1] == last;
    } else {
      assert s[..0] == "";
    }
  }

  /** An integer reads back from its text: a sign for a negative one, and then its digits. */
  lemma TextReadsBack(i: int)
    ensures var s := Text(i);
      if i < 0 then s[0] == '-' && s[1..] == Digits(-i) && i + Value(Digits(-i)) == 0 else s == Digits(i) && Value(Digits(i)) == i
  {
    DigitsReadBack(if i < 0 then -i else i);
  }
}
