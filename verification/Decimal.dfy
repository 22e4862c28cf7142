/** Decimal numerals: printing, reading back, and the characters they use. */
module Decimal {

  predicate IsDigit(c: char) {
    '0' <= c <= '9'
  }

  predicate AllDigits(s: string) {
    forall i :: 0 <= i < |s| ==> IsDigit(s[i])
  }

  function Digit(d: nat): (c: char)
    requires d < 10
    ensures IsDigit(c) && DigitValue(c) == d
  {
    ['0', '1', '2', '3', '4', '5', '6', '7', '8', '9'][d]
  }

  function DigitValue(c: char): (d: nat)
    requires IsDigit(c)
    ensures d < 10
  {
    c as int - '0' as int
  }

  function Show(n: nat): (s: string)
    ensures s != "" && AllDigits(s)
    ensures n > 0 ==> s[0] != '0'
    ensures Value(s) == n
  {
    if n < 10 then
      var s := [Digit(n)];
      assert s[..0] == "";
      s
    else
      var s := Show(n / 10) + [Digit(n % 10)];
      assert s[..|s| - 1] == Show(n / 10);
      s
  }

  function Value(s: string): nat
    requires AllDigits(s)
  {
    if s == "" then 0 else 10 * Value(s[..|s| - 1]) + DigitValue(s[|s| - 1])
  }

  lemma ShowInjective(m: nat, n: nat)
    requires Show(m) == Show(n)
    ensures m == n
  {
    assert Value(Show(m)) == Value(Show(n));
  }

  function ShowInt(i: int): (s: string)
    ensures s != "" && forall k :: 0 <= k < |s| ==> IsDigit(s[k]) || s[k] == '-'
  {
    if i < 0 then "-" + Show(-i) else Show(i)
  }

  lemma ShowIntInjective(i: int, j: int)
    requires ShowInt(i) == ShowInt(j)
    ensures i == j
  {
    assert i < 0 ==> ShowInt(i)[1..] == Show(-i);
    assert j < 0 ==> ShowInt(j)[1..] == Show(-j);
    assert i >= 0 ==> IsDigit(ShowInt(i)[0]);
    assert j >= 0 ==> IsDigit(ShowInt(j)[0]);
    if i < 0 && j < 0 {
      ShowInjective(-i, -j);
    } else if i >= 0 && j >= 0 {
      ShowInjective(i, j);
    }
  }
}
