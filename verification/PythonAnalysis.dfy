/**
 The heuristic that reads which variables a Python cell binds and which it mentions,
 line by line and without a parser.

 Every variable it calls defined it also calls used. So two Python cells that bind the
 same name always depend on each other, and a notebook that can be ordered has one
 Python cell per name.
 */
module PythonAnalysis {
  import opened Common
  import opened Whitespace

  const KEYWORDS: set<string> := {
    "False", "None", "True", "and", "as", "assert", "async", "await", "break", "class", "continue", "def", "del",
    "elif", "else", "except", "finally", "for", "from", "global", "if", "import", "in", "is", "lambda", "nonlocal",
    "not", "or", "pass", "raise", "return", "try", "while", "with", "yield"}

  /** The words that open a binding line. */
  const BINDERS: seq<string> := ["for ", "def ", "class ", "import "]

  predicate StartsIdent(c: char) {
    'a' <= c <= 'z' || 'A' <= c <= 'Z' || c == '_'
  }

  predicate InIdent(c: char) {
    StartsIdent(c) || '0' <= c <= '9'
  }

  // ---- Identifiers ---------------------------------------------------------------------------

  /** The end of the run of identifier characters from `i` on. */
  function IdentEnd(s: string, i: nat): (e: nat)
    requires i <= |s|
    ensures i <= e <= |s| && (forall k :: i <= k < e ==> InIdent(s[k])) && (e < |s| ==> !InIdent(s[e]))
    decreases |s| - i
  {
    if i < |s| && InIdent(s[i]) then IdentEnd(s, i + 1) else i
  }

  function FirstIdent(text: string): (r: Option<string>)
    ensures r.Some? ==> |r.value| <= |text|
  {
    var s := TrimStart(text);
    if s == "" || !StartsIdent(s[0]) then None else Some(s[..IdentEnd(s, 0)])
  }

  predicate IsAugmenting(c: char) {
    c == '+' || c == '-' || c == '*' || c == '/' || c == '%' || c == '|' || c == '&'
  }

  /** The name a line assigns to: `name =`, or `name` with an augmented assignment. */
  function AssignmentTarget(line: string): Option<string> {
    match FirstIdent(line)
    case None => None
    case Some(name) =>
      var rest := TrimStart(line[|name|..]);
      var assigns :=
        if rest != "" && rest[0] == '=' then !(|rest| > 1 && rest[1] == '=')
        else |rest| > 1 && IsAugmenting(rest[0]) && rest[1] == '=';
      if assigns then Some(name) else None
  }

  /** The identifiers of a line from position `i` on, without those after a dot. */
  function IdentifiersFrom(line: string, i: nat): seq<string>
    requires i <= |line|
    decreases |line| - i
  {
    if i == |line| then []
    else if StartsIdent(line[i]) then
      var e := IdentEnd(line, i + 1);
      (if i > 0 && line[i - 1] == '.' then [] else [line[i..e]]) + IdentifiersFrom(line, e)
    else IdentifiersFrom(line, i + 1)
  }

  method Identifiers(line: string) returns (out: seq<string>)
    ensures out == IdentifiersFrom(line, 0)
  {
    out := [];
    var i := 0;
    ConcatEmpty(IdentifiersFrom(line, 0));
    while i < |line|
      invariant 0 <= i <= |line|
      invariant out + IdentifiersFrom(line, i) == IdentifiersFrom(line, 0)
    {
      if StartsIdent(line[i]) {
        var start := i;
        while i < |line| && InIdent(line[i])
          invariant start <= i <= |line| && (i == start || IdentEnd(line, i) == IdentEnd(line, start + 1))
        {
          i := i + 1;
        }
        assert i == IdentEnd(line, start + 1);
        var isAttr := start > 0 && line[start - 1] == '.';
        ConcatAssoc(out, [line[start..i]], IdentifiersFrom(line, i));
        ConcatEmpty(IdentifiersFrom(line, i));
        if !isAttr {
          out := out + [line[start..i]];
        }
      } else {
        i := i + 1;
      }
    }
    ConcatEmpty(out);
  }

  /** No identifier runs up to position `p`: before it stands no identifier character, or digits that start none. */
  predicate Outside(line: string, p: nat)
    requires p <= |line|
  {
    p == 0 || !InIdent(line[p - 1]) || (!StartsIdent(line[p - 1]) && Outside(line, p - 1))
  }

  /** An identifier starts at `p`, and not after a dot. */
  predicate BeginsAt(line: string, p: nat) {
    && p < |line| && StartsIdent(line[p]) && Outside(line, p)
    && (p > 0 ==> line[p - 1] != '.')
  }

  lemma {:induction false} InsideIsNotOutside(line: string, i: nat, p: nat)
    requires i < p <= |line| && StartsIdent(line[i]) && forall k :: i <= k < p ==> InIdent(line[k])
    ensures !Outside(line, p)
  {
    if i + 1 < p {
      InsideIsNotOutside(line, i, p - 1);
    }
  }

  /** Every identifier that begins somewhere is found. */
  lemma {:induction false} IdentifierFound(line: string, i: nat, p: nat)
    requires i <= p && BeginsAt(line, p)
    ensures line[p..IdentEnd(line, p)] in IdentifiersFrom(line, i)
    decreases p - i
  {
    if i < p {
      if StartsIdent(line[i]) {
        var e := IdentEnd(line, i + 1);
        if p < e {
          InsideIsNotOutside(line, i, p);
        }
        IdentifierFound(line, e, p);
      } else {
        IdentifierFound(line, i + 1, p);
      }
    }
  }

  /** And whatever is found is an identifier that begins somewhere. */
  lemma {:induction false} FoundIsThere(line: string, i: nat, x: string) returns (p: nat)
    requires i <= |line| && x in IdentifiersFrom(line, i)
    requires Outside(line, i) || (i < |line| && !InIdent(line[i]))
    ensures i <= p && BeginsAt(line, p) && x == line[p..IdentEnd(line, p)]
    decreases |line| - i
  {
    if StartsIdent(line[i]) {
      var e := IdentEnd(line, i + 1);
      if !(i > 0 && line[i - 1] == '.') && x == line[i..e] {
        p := i;
      } else {
        p := FoundIsThere(line, e, x);
      }
    } else {
      p := FoundIsThere(line, i + 1, x);
    }
  }

  // ---- One line ----------------------------------------------------------------------------------

  function BoundAfter(trimmed: string, binder: string): seq<string> {
    if binder <= trimmed then
      match FirstIdent(trimmed[|binder|..]) case None => [] case Some(name) => [name]
    else []
  }

  function BoundAfterAny(trimmed: string, binders: seq<string>): seq<string> {
    if binders == [] then []
    else BoundAfterAny(trimmed, binders[..|binders| - 1]) + BoundAfter(trimmed, binders[|binders| - 1])
  }

  /** The names a line without its comment binds, in the order they are looked for. */
  function LineDefines(line: string): seq<string> {
    var trimmed := TrimStart(line);
    (match AssignmentTarget(trimmed) case None => [] case Some(name) => [name]) + BoundAfterAny(trimmed, BINDERS)
  }

  /** The identifiers that are not keywords. */
  function LineUses(identifiers: seq<string>, keywords: set<string>): seq<string> {
    if identifiers == [] then []
    else
      var last := identifiers[|identifiers| - 1];
      LineUses(identifiers[..|identifiers| - 1], keywords) + if last in keywords then [] else [last]
  }

  lemma {:induction false} LineUsesAre(identifiers: seq<string>, keywords: set<string>, x: string)
    ensures x in LineUses(identifiers, keywords) <==> x in identifiers && x !in keywords
  {
    if identifiers != [] {
      LineUsesAre(identifiers[..|identifiers| - 1], keywords, x);
      assert identifiers == identifiers[..|identifiers| - 1] + [identifiers[|identifiers| - 1]];
    }
  }

  lemma IdentAt(line: string, q: nat, s: string)
    requires q <= |line| && s == line[q..] && s != "" && StartsIdent(s[0])
    requires q > 0 ==> Parts(line[q - 1])
    ensures s[..IdentEnd(s, 0)] in IdentifiersFrom(line, 0)
  {
    assert line[q] == s[0];
    IdentifierFound(line, 0, q);
    SuffixIdentEnd(line, q, 0);
  }

  /** Neither in an identifier nor a dot. */
  predicate Parts(c: char) {
    !InIdent(c) && c != '.'
  }

  lemma {:induction false} TrimAt(line: string, p: nat) returns (q: nat)
    requires p <= |line| && (p > 0 ==> Parts(line[p - 1]))
    ensures p <= q <= |line| && TrimStart(line[p..]) == line[q..]
    ensures q > 0 ==> Parts(line[q - 1])
    decreases |line| - p
  {
    q := p;
    if p < |line| && IsSpace(line[p]) {
      assert line[p..][1..] == line[p + 1..];
      q := TrimAt(line, p + 1);
    }
  }

  /** The first identifier after `p` characters that end no identifier is among the line's identifiers. */
  lemma FirstIdentIsFound(line: string, p: nat, name: string)
    requires p <= |line| && (p > 0 ==> Parts(line[p - 1])) && FirstIdent(line[p..]) == Some(name)
    ensures name in IdentifiersFrom(line, 0)
  {
    var q := TrimAt(line, p);
    IdentAt(line, q, TrimStart(line[p..]));
  }

  lemma {:induction false} SuffixIdentEnd(line: string, q: nat, i: nat)
    requires q + i <= |line|
    ensures IdentEnd(line[q..], i) + q == IdentEnd(line, q + i)
    ensures line[q..][..IdentEnd(line[q..], i)] == line[q..IdentEnd(line, q + i)]
    decreases |line| - i
  {
    if q + i < |line| && InIdent(line[q + i]) {
      SuffixIdentEnd(line, q, i + 1);
    }
  }

  lemma BoundNameIsFound(line: string, binder: string, name: string)
    requires binder != "" && IsSpace(binder[|binder| - 1]) && name in BoundAfter(TrimStart(line), binder)
    ensures name in IdentifiersFrom(line, 0)
  {
    var trimmed := TrimStart(line);
    assert line[0..] == line;
    var q := TrimAt(line, 0);
    var p := q + |binder|;
    assert line[p - 1] == trimmed[|binder| - 1] == binder[|binder| - 1];
    assert line[p..] == trimmed[|binder|..];
    FirstIdentIsFound(line, p, name);
  }

  lemma {:induction false} BoundNamesAreFound(line: string, binders: seq<string>, name: string)
    requires forall k :: 0 <= k < |binders| ==> binders[k] != "" && IsSpace(binders[k][|binders[k]| - 1])
    requires name in BoundAfterAny(TrimStart(line), binders)
    ensures name in IdentifiersFrom(line, 0)
  {
    var front, binder := binders[..|binders| - 1], binders[|binders| - 1];
    if name in BoundAfterAny(TrimStart(line), front) {
      BoundNamesAreFound(line, front, name);
    } else {
      BoundNameIsFound(line, binder, name);
    }
  }

  /** Every name a line binds is among its identifiers. */
  lemma LineDefinesAreFound(line: string, name: string)
    requires name in LineDefines(line)
    ensures name in IdentifiersFrom(line, 0)
  {
    var trimmed := TrimStart(line);
    if name in BoundAfterAny(trimmed, BINDERS) {
      BoundNamesAreFound(line, BINDERS, name);
    } else {
      assert line[0..] == line;
      var q := TrimAt(line, 0);
      FirstIdentIsFound(line, q, name);
    }
  }

  // ---- The whole cell ----------------------------------------------------------------------------

  /** The members of a list, each where it first appears. */
  function Distinct(xs: seq<string>): seq<string> {
    if xs == [] then [] else WithNew(Distinct(xs[..|xs| - 1]), xs[|xs| - 1])
  }

  function WithNew(xs: seq<string>, x: string): seq<string> {
    if x in xs then xs else xs + [x]
  }

  lemma {:induction false} DistinctHasAll(xs: seq<string>, x: string)
    ensures x in Distinct(xs) <==> x in xs
  {
    if xs != [] {
      DistinctHasAll(xs[..|xs| - 1], x);
      assert xs == xs[..|xs| - 1] + [xs[|xs| - 1]];
    }
  }

  /** The text of a line before its first `#`. */
  function CodePart(raw: string): string {
    if raw == "" || raw[0] == '#' then "" else [raw[0]] + CodePart(raw[1..])
  }

  function AllDefines(lines: seq<string>): seq<string> {
    if lines == [] then [] else AllDefines(lines[..|lines| - 1]) + LineDefines(CodePart(lines[|lines| - 1]))
  }

  function AllUses(lines: seq<string>, keywords: set<string>): seq<string> {
    if lines == [] then []
    else AllUses(lines[..|lines| - 1], keywords) + LineUses(IdentifiersFrom(CodePart(lines[|lines| - 1]), 0), keywords)
  }

  /** Adds the names not yet listed, in order. */
  method AddNew(list: seq<string>, names: seq<string>, ghost all: seq<string>) returns (r: seq<string>)
    requires list == Distinct(all)
    ensures r == Distinct(all + names)
  {
    r := list;
    assert all + names[..0] == all;
    for k := 0 to |names|
      invariant r == Distinct(all + names[..k])
    {
      var more := all + names[..k + 1];
      assert more[..|more| - 1] == all + names[..k] && more[|more| - 1] == names[k];
      if names[k] !in r {
        r := r + [names[k]];
      }
    }
    assert names[..|names|] == names;
  }

  method UsesOf(identifiers: seq<string>) returns (uses: seq<string>)
    ensures uses == LineUses(identifiers, KEYWORDS)
  {
    uses := [];
    for k := 0 to |identifiers|
      invariant uses == LineUses(identifiers[..k], KEYWORDS)
    {
      assert identifiers[..k + 1][..k] == identifiers[..k];
      if identifiers[k] !in KEYWORDS {
        uses := uses + [identifiers[k]];
      }
    }
    assert identifiers[..|identifiers|] == identifiers;
  }

  /** The variables the lines of a cell bind and mention, each once, in order of appearance. */
  method AnalyzePython(lines: seq<string>) returns (defines: seq<string>, uses: seq<string>)
    ensures defines == Distinct(AllDefines(lines)) && uses == Distinct(AllUses(lines, KEYWORDS))
  {
    defines, uses := [], [];
    for k := 0 to |lines|
      invariant defines == Distinct(AllDefines(lines[..k]))
      invariant uses == Distinct(AllUses(lines[..k], KEYWORDS))
    {
      assert lines[..k + 1][..k] == lines[..k];
      var line := CodePart(lines[k]);
      defines := AddNew(defines, LineDefines(line), AllDefines(lines[..k]));
      var identifiers := Identifiers(line);
      var used := UsesOf(identifiers);
      uses := AddNew(uses, used, AllUses(lines[..k], KEYWORDS));
    }
    assert lines[..|lines|] == lines;
  }

  /** Whatever a cell defines it also uses, unless it is a keyword; this holds for any set of keywords. */
  lemma DefinesAreUses(lines: seq<string>, name: string, keywords: set<string>)
    requires name in Distinct(AllDefines(lines)) && name !in keywords
    ensures name in Distinct(AllUses(lines, keywords))
  {
    DistinctHasAll(AllDefines(lines), name);
    AllDefinesAreUses(lines, name, keywords);
    DistinctHasAll(AllUses(lines, keywords), name);
  }

  lemma {:induction false} AllDefinesAreUses(lines: seq<string>, name: string, keywords: set<string>)
    requires name in AllDefines(lines) && name !in keywords
    ensures name in AllUses(lines, keywords)
  {
    var front, line := lines[..|lines| - 1], CodePart(lines[|lines| - 1]);
    if name in AllDefines(front) {
      AllDefinesAreUses(front, name, keywords);
    } else {
      LineDefinesAreFound(line, name);
      LineUsesAre(IdentifiersFrom(line, 0), keywords, name);
    }
  }

  /** No keyword is ever listed as used. */
  lemma {:induction false} UsesAreNoKeywords(lines: seq<string>, name: string, keywords: set<string>)
    requires name in AllUses(lines, keywords)
    ensures name !in keywords
  {
    var front, line := lines[..|lines| - 1], CodePart(lines[|lines| - 1]);
    if name in AllUses(front, keywords) {
      UsesAreNoKeywords(front, name, keywords);
    } else {
      LineUsesAre(IdentifiersFrom(line, 0), keywords, name);
    }
  }
}
