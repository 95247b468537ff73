/** Decimal numerals as Go's `%d` prints them and `strconv.Atoi` reads them. */
module Decimal {

  /** The largest value of Go's 64-bit `int`. */
  const MAX_INT: int := 0x7FFF_FFFF_FFFF_FFFF

  predicate IsDigit(c: char) {
    '0' <= c <= '9'
  }

  function DigitValue(c: char): nat
    requires IsDigit(c)
  {
    c as int - '0' as int
  }

  function Digit(d: nat): (c: char)
    requires d < 10
    ensures IsDigit(c) && DigitValue(c) == d
  {
    "0123456789"[d]
  }

  predicate AllDigits(s: string) {
    forall i :: 0 <= i < |s| ==> IsDigit(s[i])
  }

  function Print(n: nat): (s: string)
    ensures s != "" && AllDigits(s)
  {
    if n < 10 then [Digit(n)] else Print(n / 10) + [Digit(n % 10)]
  }

  function Value(s: string): nat
    requires AllDigits(s)
  {
    if s == "" then 0 else 10 * Value(s[..|s| - 1]) + DigitValue(s[|s| - 1])
  }

  /** Out-of-range numerals read as the largest `int`, as the ignored error leaves them. */
  function Atoi(s: string): (n: nat)
    requires AllDigits(s)
    ensures n <= MAX_INT
  {
    if Value(s) <= MAX_INT then Value(s) else MAX_INT
  }

  lemma {:induction false} ValueOfPrint(n: nat)
    ensures Value(Print(n)) == n
  {
    if n >= 10 {
      ValueOfPrint(n / 10);
      assert Print(n)[..|Print(n)| - 1] == Print(n / 10);
    } else {
      assert Print(n)[..0] == "";
    }
  }

  /** `%d` of a signed value. */
  function PrintInt(n: int): (s: string)
    ensures s != ""
  {
    if n < 0 then "-" + Print(-n) else Print(n)
  }

  /** The length of the longest run of digits that starts `s`. */
  function Run(s: string): (n: nat)
    ensures n <= |s| && AllDigits(s[..n])
    ensures n < |s| ==> !IsDigit(s[n])
  {
    if s == "" || !IsDigit(s[0]) then 0
    else
      var n := Run(s[1..]);
      assert s[..n + 1] == [s[0]] + s[1..][..n];
      n + 1
  }

  /** A numeral followed by something else is delimited by the digits themselves. */
  lemma RunDelimits(digits: string, rest: string)
    requires AllDigits(digits) && (rest != "" ==> !IsDigit(rest[0]))
    ensures Run(digits + rest) == |digits|
  {
    var s := digits + rest;
    assert forall i :: 0 <= i < |digits| ==> s[i] == digits[i];
    assert rest != "" ==> s[|digits|] == rest[0];
    assert forall i :: 0 <= i < Run(s) ==> s[..Run(s)][i] == s[i];
  }

  /** A numeral followed by anything but a digit can be read back. */
  lemma PrintInjective(a: nat, b: nat, s: string, t: string)
    requires s != "" ==> !IsDigit(s[0])
    requires t != "" ==> !IsDigit(t[0])
    requires Print(a) + s == Print(b) + t
    ensures a == b && s == t
  {
    RunDelimits(Print(a), s);
    RunDelimits(Print(b), t);
    var u := Print(a) + s;
    assert u[..|Print(a)|] == Print(a) && u[|Print(a)|..] == s;
    assert u[..|Print(b)|] == Print(b) && u[|Print(b)|..] == t;
    ValueOfPrint(a);
    ValueOfPrint(b);
  }

  lemma SignShows(n: int, s: string)
    ensures n < 0 <==> (PrintInt(n) + s)[0] == '-'
    ensures n < 0 ==> (PrintInt(n) + s)[1..] == Print(-n) + s
    ensures n >= 0 ==> PrintInt(n) == Print(n)
  {
    hide Print;
    if n >= 0 {
      assert IsDigit(Print(n)[0]);
      assert (Print(n) + s)[0] == Print(n)[0];
    } else {
      assert "-" + Print(-n) + s == "-" + (Print(-n) + s);
    }
  }

  lemma PrintIntInjective(a: int, b: int, s: string, t: string)
    requires s != "" ==> !IsDigit(s[0])
    requires t != "" ==> !IsDigit(t[0])
    requires PrintInt(a) + s == PrintInt(b) + t
    ensures a == b && s == t
  {
    hide PrintInt, Print;
    SignShows(a, s);
    SignShows(b, t);
    if a < 0 {
      PrintInjective(-a, -b, s, t);
    } else {
      PrintInjective(a, b, s, t);
    }
  }
}
