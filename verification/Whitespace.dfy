/** White space as Rust's text functions see it: trimming, and the words of a line. */
module Whitespace {
  import opened Common

  predicate IsSpace(c: char) {
    || '\t' <= c <= '\r' || c == ' ' || c == '\U{0085}' || c == '\U{00A0}' || c == '\U{1680}'
    || '\U{2000}' <= c <= '\U{200A}' || c == '\U{2028}' || c == '\U{2029}' || c == '\U{202F}'
    || c == '\U{205F}' || c == '\U{3000}'
  }

  predicate NoSpace(s: string) {
    forall i :: 0 <= i < |s| ==> !IsSpace(s[i])
  }

  predicate IsWord(s: string) {
    s != "" && NoSpace(s)
  }

  /** The maximal runs of characters that are not white space. */
  function Words(s: string): (words: seq<string>)
    ensures forall i :: 0 <= i < |words| ==> IsWord(words[i])
    ensures s != "" && !IsSpace(s[|s| - 1]) ==> words != []
  {
    if s == "" then []
    else
      var front, last := s[..|s| - 1], s[|s| - 1];
      var words := Words(front);
      if IsSpace(last) then words
      else if front == "" || IsSpace(front[|front| - 1]) then words + [[last]]
      else words[..|words| - 1] + [words[|words| - 1] + [last]]
  }

  predicate AtGap(s: string) {
    s == "" || IsSpace(s[|s| - 1])
  }

  lemma WordsStep(s: string, c: char)
    ensures Words(s + [c]) ==
      if IsSpace(c) then Words(s)
      else if AtGap(s) then Words(s) + [[c]]
      else Words(s)[..|Words(s)| - 1] + [Words(s)[|Words(s)| - 1] + [c]]
  {
    assert (s + [c])[..|s|] == s;
  }

  lemma {:induction false} WordsSnoc(s: string, w: string)
    requires AtGap(s) && IsWord(w)
    ensures Words(s + w) == Words(s) + [w]
  {
    var front, last := w[..|w| - 1], w[|w| - 1];
    assert w == front + [last];
    ConcatAssoc(s, front, [last]);
    WordsStep(s + front, last);
    if front == "" {
      ConcatEmpty(s);
    } else {
      WordsSnoc(s, front);
      assert (s + front)[|s + front| - 1] == front[|front| - 1];
    }
  }

  lemma WordsGap(s: string)
    ensures Words(s + " ") == Words(s) && AtGap(s + " ")
  {
    assert (s + " ")[..|s|] == s;
  }

  function TrimStart(s: string): (t: string)
    ensures |t| <= |s| && (t != "" ==> !IsSpace(t[0]))
  {
    if s != "" && IsSpace(s[0]) then TrimStart(s[1..]) else s
  }

  function TrimEnd(s: string): (t: string)
    ensures |t| <= |s| && t == s[..|t|]
  {
    if s != "" && IsSpace(s[|s| - 1]) then TrimEnd(s[..|s| - 1]) else s
  }

  function Trim(s: string): string {
    TrimEnd(TrimStart(s))
  }
}
