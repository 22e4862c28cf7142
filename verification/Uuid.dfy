/** Identifiers of 128 bits and their text: 32 hexadecimal digits, usually hyphenated. */
module Uuids {
  import opened Common
  import opened Hexadecimal

  /** The sixteen bytes of an identifier, four bits at a time. */
  type Nibbles = d: seq<nat> | |d| == 32 && forall i :: 0 <= i < |d| ==> d[i] < 16
    witness seq(32, _ => 0)

  datatype Uuid = Uuid(nibbles: Nibbles)

  function Digits(u: Uuid): (s: string)
    ensures |s| == 32 && forall i :: 0 <= i < 32 ==> HexValue(s[i]) == Some(u.nibbles[i])
  {
    seq(32, i requires 0 <= i < 32 => HexDigit(u.nibbles[i]))
  }

  /** The hyphenated lower-case form. */
  function Show(u: Uuid): (s: string)
    ensures |s| == 36
  {
    var d := Digits(u);
    d[..8] + "-" + d[8..12] + "-" + d[12..16] + "-" + d[16..20] + "-" + d[20..]
  }

  /** A simple form of 32 digits, or a hyphenated one that may be in braces or a URN. */
  function Parse(s: string): Option<Uuid> {
    if |s| == 32 then ParseDigits(s)
    else if |s| == 36 then ParseHyphenated(s)
    else if |s| == 38 && s[0] == '{' && s[37] == '}' then ParseHyphenated(s[1..37])
    else if |s| == 45 && s[..9] == "urn:uuid:" then ParseHyphenated(s[9..])
    else None
  }

  function ParseHyphenated(s: string): Option<Uuid>
    requires |s| == 36
  {
    if s[8] == s[13] == s[18] == s[23] == '-' then
      ParseDigits(s[..8] + s[9..13] + s[14..18] + s[19..23] + s[24..])
    else None
  }

  function ParseDigits(s: string): Option<Uuid>
    requires |s| == 32
  {
    if AllHex(s) then Some(Uuid(seq(32, i requires 0 <= i < 32 => HexValue(s[i]).value))) else None
  }

  lemma ParseDigitsOf(u: Uuid)
    ensures ParseDigits(Digits(u)) == Some(u)
  {
    var parsed := seq(32, i requires 0 <= i < 32 => HexValue(Digits(u)[i]).value);
    assert parsed == u.nibbles;
  }

  lemma ParseShow(u: Uuid)
    ensures Parse(Show(u)) == Some(u)
  {
    var s, d := Show(u), Digits(u);
    assert s[..8] == d[..8] && s[9..13] == d[8..12] && s[14..18] == d[12..16]
      && s[19..23] == d[16..20] && s[24..] == d[20..];
    assert s[..8] + s[9..13] + s[14..18] + s[19..23] + s[24..] == d;
    ParseDigitsOf(u);
  }

  lemma ShowInjective(u: Uuid, v: Uuid)
    requires Show(u) == Show(v)
    ensures u == v
  {
    ParseShow(u);
    ParseShow(v);
  }

  lemma ShowChars(u: Uuid)
    ensures forall i :: 0 <= i < 36 ==> HexValue(Show(u)[i]).Some? || Show(u)[i] == '-'
  {
    forall i | 0 <= i < 36 ensures HexValue(Show(u)[i]).Some? || Show(u)[i] == '-' {
    }
  }
}
