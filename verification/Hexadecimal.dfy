/** Hexadecimal numerals: digits in either case, printed in lower case. */
module Hexadecimal {
  import opened Common

  function HexDigit(d: nat): (c: char)
    requires d < 16
    ensures HexValue(c) == Some(d)
    ensures '0' <= c <= '9' || 'a' <= c <= 'f'
  {
    if d < 10 then '0' + d as char else 'a' + (d - 10) as char
  }

  /** The value of a hexadecimal digit in either case. */
  function HexValue(c: char): (d: Option<nat>)
    ensures d.Some? ==> d.value < 16
  {
    if '0' <= c <= '9' then Some(c as nat - '0' as nat)
    else if 'a' <= c <= 'f' then Some(c as nat - 'a' as nat + 10)
    else if 'A' <= c <= 'F' then Some(c as nat - 'A' as nat + 10)
    else None
  }

  predicate AllHex(s: string) {
    forall i :: 0 <= i < |s| ==> HexValue(s[i]).Some?
  }

  /** A number in as many digits as it needs. */
  function Hex(n: nat): (s: string)
    ensures s != "" && AllHex(s) && HexNumber(s) == n
  {
    if n < 16 then
      var s := [HexDigit(n)];
      assert s[..0] == "";
      s
    else
      var s := Hex(n / 16) + [HexDigit(n % 16)];
      assert s[..|s| - 1] == Hex(n / 16);
      s
  }

  function HexNumber(s: string): nat
    requires AllHex(s)
  {
    if s == "" then 0 else 16 * HexNumber(s[..|s| - 1]) + HexValue(s[|s| - 1]).value
  }

  lemma HexInjective(m: nat, n: nat)
    requires Hex(m) == Hex(n)
    ensures m == n
  {
    assert HexNumber(Hex(m)) == HexNumber(Hex(n));
  }
}
