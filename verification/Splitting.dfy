/** Splitting text at a separator. */
module Splitting {
  import opened Common

  /** The parts between separators. */
  function Split(s: string, sep: char): (parts: seq<string>)
    ensures parts != []
  {
    if s == "" then [""]
    else
      var parts, last := Split(s[..|s| - 1], sep), s[|s| - 1];
      if last == sep then parts + [""] else parts[..|parts| - 1] + [parts[|parts| - 1] + [last]]
  }

  lemma {:induction false} SplitWhole(w: string, sep: char)
    requires sep !in w
    ensures Split(w, sep) == [w]
  {
    if w != "" {
      SplitWhole(w[..|w| - 1], sep);
      assert w == w[..|w| - 1] + [w[|w| - 1]];
    }
  }

  /** The text before and after the first `sep`. */
  function SplitOnce(s: string, sep: char): (r: Option<(string, string)>)
    ensures r.Some? ==> s == r.value.0 + [sep] + r.value.1 && sep !in r.value.0
    ensures r.None? ==> sep !in s
  {
    if s == "" then None
    else if s[0] == sep then Some(("", s[1..]))
    else
      match SplitOnce(s[1..], sep)
      case None => None
      case Some((k, v)) => Some(([s[0]] + k, v))
  }

  lemma {:induction false} SplitOnceAt(k: string, sep: char, v: string)
    requires sep !in k
    ensures SplitOnce(k + ([sep] + v), sep) == Some((k, v))
  {
    if k == "" {
      assert k + ([sep] + v) == [sep] + v;
    } else {
      assert (k + ([sep] + v))[1..] == k[1..] + ([sep] + v);
      SplitOnceAt(k[1..], sep, v);
      assert k == [k[0]] + k[1..];
    }
  }
}
