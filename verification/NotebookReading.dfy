/**
 The run order in terms of what is written in the cells: a cell that binds a
 variable runs before every other cell that reads it, and a change of it runs those
 cells again. Binding and reading are stated here by the cells' fields and text
 alone, whatever the analysis does to find them.
 */
module NotebookReading {
  import opened Common
  import opened Graphs
  import opened NotebookGraph
  import opened PythonAnalysis
  import opened Splitting
  import opened Whitespace
  import opened NotebookPlan
  import Format = NotebookFormat
  import Uuids

  // ---- What a line of Python code binds and mentions ------------------------------------------

  predicate NameStart(c: char) {
    'a' <= c <= 'z' || 'A' <= c <= 'Z' || c == '_'
  }

  predicate NameChar(c: char) {
    NameStart(c) || '0' <= c <= '9'
  }

  predicate IsName(name: string) {
    name != "" && NameStart(name[0]) && forall i :: 0 <= i < |name| ==> NameChar(name[i])
  }

  predicate Blank(s: string) {
    forall i :: 0 <= i < |s| ==> IsSpace(s[i])
  }

  /** `name = …`, or `name += …` and the like. */
  ghost predicate AssignsAs(code: string, name: string, indent: string, gap: string, op: string, rest: string) {
    && code == indent + (name + (gap + (op + ("=" + rest))))
    && Blank(indent) && Blank(gap) && IsName(name)
    && op in {"", "+", "-", "*", "/", "%", "|", "&"} && (op == "" ==> !("=" <= rest))
  }

  /** `for name`, `def name`, `class name` or `import name`. */
  ghost predicate OpensAs(code: string, name: string, indent: string, word: string, gap: string, rest: string) {
    && code == indent + (word + (gap + (name + rest)))
    && Blank(indent) && Blank(gap) && IsName(name) && word in {"for ", "def ", "class ", "import "}
    && (rest == "" || !NameChar(rest[0]))
  }

  ghost predicate LineBinds(code: string, name: string) {
    || (exists indent, gap, op, rest :: AssignsAs(code, name, indent, gap, op, rest))
    || (exists indent, word, gap, rest :: OpensAs(code, name, indent, word, gap, rest))
  }

  /** The name stands in the line, not right after a dot; digits may stand right before it, as in `2x`. */
  ghost predicate MentionsAs(code: string, name: string, before: string, number: string, after: string) {
    && code == before + (number + (name + after)) && IsName(name)
    && (forall i :: 0 <= i < |number| ==> '0' <= number[i] <= '9')
    && (before == "" || !NameChar(before[|before| - 1]))
    && (number == "" && before != "" ==> before[|before| - 1] != '.')
    && (after == "" || !NameChar(after[0]))
  }

  ghost predicate LineMentions(code: string, name: string) {
    exists before, number, after :: MentionsAs(code, name, before, number, after)
  }

  predicate IsKeyword(name: string) {
    name in {
      "False", "None", "True", "and", "as", "assert", "async", "await", "break", "class", "continue", "def", "del",
      "elif", "else", "except", "finally", "for", "from", "global", "if", "import", "in", "is", "lambda", "nonlocal",
      "not", "or", "pass", "raise", "return", "try", "while", "with", "yield"}
  }

  /** The code of one line of a text: from its start up to a `#`, a newline or the end. */
  ghost predicate CodeAt(source: string, a: nat, c: nat) {
    && a <= c <= |source| && (a == 0 || source[a - 1] == '\n')
    && (forall k :: a <= k < c ==> source[k] != '\n' && source[k] != '#')
    && (c == |source| || source[c] == '\n' || source[c] == '#')
  }

  // ---- What a cell binds and reads --------------------------------------------------------------

  ghost predicate Named(v: Option<string>, name: string) {
    if v.Some? && v.value != "" then name == v.value else name == "df"
  }

  /** A query binds its output variable, an input its own, Python code what its lines bind. */
  ghost predicate CellBinds(cell: NotebookCell, name: string) {
    match cell.kind
    case Sql | Nl2sql => Named(cell.outputVar, name)
    case Input => cell.inputVar == Some(name) && name != ""
    case Python => exists a: nat, c: nat :: CodeAt(cell.source, a, c) && LineBinds(cell.source[a..c], name)
    case Chart | BigNumber | Markdown => false
  }

  /** A chart or number reads its input variable, Python code the names in its lines. */
  ghost predicate CellReads(cell: NotebookCell, name: string) {
    match cell.kind
    case Chart | BigNumber => Named(cell.inputVar, name)
    case Python =>
      !IsKeyword(name) && exists a: nat, c: nat :: CodeAt(cell.source, a, c) && LineMentions(cell.source[a..c], name)
    case Sql | Nl2sql | Input | Markdown => false
  }

  // ---- One line ------------------------------------------------------------------------------------

  lemma {:induction false} IdentEndIs(s: string, i: nat, e: nat)
    requires i <= e <= |s| && (forall k :: i <= k < e ==> InIdent(s[k])) && (e < |s| ==> !InIdent(s[e]))
    ensures IdentEnd(s, i) == e
    decreases e - i
  {
    if i < e {
      IdentEndIs(s, i + 1, e);
    }
  }

  lemma {:induction false} TrimStartSkips(blank: string, s: string)
    requires Blank(blank) && (s == "" || !IsSpace(s[0]))
    ensures TrimStart(blank + s) == s
  {
    if blank == "" {
      ConcatEmpty(s);
    } else {
      assert (blank + s)[1..] == blank[1..] + s;
      TrimStartSkips(blank[1..], s);
    }
  }

  lemma NameIsFirst(blank: string, name: string, rest: string)
    requires Blank(blank) && IsName(name) && (rest == "" || !NameChar(rest[0]))
    ensures FirstIdent(blank + (name + rest)) == Some(name)
  {
    var s := name + rest;
    TrimStartSkips(blank, s);
    IdentEndIs(s, 0, |name|);
    assert s[..|name|] == name;
  }

  lemma AssignIsTarget(name: string, gap: string, op: string, rest: string)
    requires Blank(gap) && IsName(name)
    requires op in {"", "+", "-", "*", "/", "%", "|", "&"} && (op == "" ==> !("=" <= rest))
    ensures AssignmentTarget(name + (gap + (op + ("=" + rest)))) == Some(name)
  {
    var tail := op + ("=" + rest);
    var line := name + (gap + tail);
    OpStarts(op, rest);
    hide TrimStart, IdentEnd, FirstIdent;
    assert (gap + tail)[0] == if gap == "" then tail[0] else gap[0];
    assert "" + line == line;
    NameIsFirst("", name, gap + tail);
    assert line[|name|..] == gap + tail;
    TrimStartSkips(gap, tail);
  }

  lemma OpStarts(op: string, rest: string)
    requires op in {"", "+", "-", "*", "/", "%", "|", "&"} && (op == "" ==> !("=" <= rest))
    ensures var tail := op + ("=" + rest);
            && !NameChar(tail[0]) && !IsSpace(tail[0])
            && (tail[0] == '=' ==> !(|tail| > 1 && tail[1] == '='))
            && (tail[0] != '=' ==> |tail| > 1 && IsAugmenting(tail[0]) && tail[1] == '=')
  {
    var tail := op + ("=" + rest);
    if op == "" {
      assert tail == "=" + rest;
    } else {
      assert tail[0] == op[0] && tail[1] == '=';
    }
  }

  lemma AssignIsListed(code: string, name: string, indent: string, gap: string, op: string, rest: string)
    requires AssignsAs(code, name, indent, gap, op, rest)
    ensures name in LineDefines(code)
  {
    TrimStartSkips(indent, name + (gap + (op + ("=" + rest))));
    AssignIsTarget(name, gap, op, rest);
  }

  lemma {:induction false} BinderIsTried(trimmed: string, binders: seq<string>, k: nat, name: string)
    requires k < |binders| && name in BoundAfter(trimmed, binders[k])
    ensures name in BoundAfterAny(trimmed, binders)
  {
    if k < |binders| - 1 {
      BinderIsTried(trimmed, binders[..|binders| - 1], k, name);
    }
  }

  lemma OpenIsListed(code: string, name: string, indent: string, word: string, gap: string, rest: string)
    requires OpensAs(code, name, indent, word, gap, rest)
    ensures name in LineDefines(code)
  {
    var line := word + (gap + (name + rest));
    TrimStartSkips(indent, line);
    NameIsFirst(gap, name, rest);
    assert line[|word|..] == gap + (name + rest);
    assert name in BoundAfter(line, word);
    var k := if word == "for " then 0 else if word == "def " then 1 else if word == "class " then 2 else 3;
    BinderIsTried(line, BINDERS, k, name);
  }

  lemma BoundInLine(code: string, name: string)
    requires LineBinds(code, name)
    ensures name in LineDefines(code)
  {
    if indent, gap, op, rest :| AssignsAs(code, name, indent, gap, op, rest) {
      AssignIsListed(code, name, indent, gap, op, rest);
    } else {
      var indent, word, gap, rest :| OpensAs(code, name, indent, word, gap, rest);
      OpenIsListed(code, name, indent, word, gap, rest);
    }
  }

  lemma {:induction false} TrimStartSplits(s: string) returns (blank: string)
    ensures Blank(blank) && s == blank + TrimStart(s)
  {
    if s != "" && IsSpace(s[0]) {
      var rest := TrimStartSplits(s[1..]);
      blank := [s[0]] + rest;
      ConcatAssoc([s[0]], rest, TrimStart(s));
      assert s == [s[0]] + s[1..];
    } else {
      blank := "";
    }
  }

  lemma FirstIdentSplits(text: string) returns (blank: string, rest: string)
    requires FirstIdent(text).Some?
    ensures var name := FirstIdent(text).value;
            && text == blank + (name + rest) && Blank(blank) && IsName(name) && (rest == "" || !NameChar(rest[0]))
  {
    var s := TrimStart(text);
    blank := TrimStartSplits(text);
    rest := s[IdentEnd(s, 0)..];
    NameSplits(s);
  }

  lemma NameSplits(s: string)
    requires s != "" && StartsIdent(s[0])
    ensures var e := IdentEnd(s, 0);
            s == s[..e] + s[e..] && IsName(s[..e]) && (s[e..] == "" || !NameChar(s[e..][0]))
  {
    var e := IdentEnd(s, 0);
    assert e > 0;
    hide IdentEnd;
    assert s[..e][0] == s[0];
  }

  lemma ListedOpens(code: string, trimmed: string, indent: string, word: string, name: string)
    requires code == indent + trimmed && Blank(indent) && word in {"for ", "def ", "class ", "import "}
    requires name in BoundAfter(trimmed, word)
    ensures LineBinds(code, name)
  {
    var gap, rest := FirstIdentSplits(trimmed[|word|..]);
    assert trimmed == word + trimmed[|word|..];
    assert OpensAs(code, name, indent, word, gap, rest);
  }

  /** What stands after the name of an assignment. */
  lemma TailSplits(tail: string) returns (op: string, after: string)
    requires if tail != "" && tail[0] == '=' then !(|tail| > 1 && tail[1] == '=')
             else |tail| > 1 && IsAugmenting(tail[0]) && tail[1] == '='
    ensures tail == op + ("=" + after)
    ensures op in {"", "+", "-", "*", "/", "%", "|", "&"} && (op == "" ==> !("=" <= after))
  {
    if tail[0] == '=' {
      op, after := "", tail[1..];
      assert tail == "=" + after;
      assert "" + tail == tail;
      assert after != "" ==> after[0] == tail[1];
    } else {
      op, after := [tail[0]], tail[2..];
      assert tail == op + ("=" + after);
    }
  }

  lemma ListedAssigns(code: string, trimmed: string, indent: string, name: string)
    requires code == indent + trimmed && Blank(indent) && (trimmed != "" ==> !IsSpace(trimmed[0]))
    requires AssignmentTarget(trimmed) == Some(name)
    ensures LineBinds(code, name)
  {
    assert TrimStart(trimmed) == trimmed;
    NameSplits(trimmed);
    var rest := trimmed[|name|..];
    var gap := TrimStartSplits(rest);
    var op, after := TailSplits(TrimStart(rest));
    hide AssignmentTarget, TrimStart, IdentEnd, FirstIdent;
    assert trimmed == name + (gap + (op + ("=" + after)));
    assert AssignsAs(code, name, indent, gap, op, after);
  }

  /** A line binds exactly the names listed for it. */
  lemma LineBindsIff(code: string, name: string)
    ensures name in LineDefines(code) <==> LineBinds(code, name)
  {
    if LineBinds(code, name) {
      BoundInLine(code, name);
    }
    var trimmed := TrimStart(code);
    var indent := TrimStartSplits(code);
    if AssignmentTarget(trimmed) == Some(name) {
      ListedAssigns(code, trimmed, indent, name);
    } else if name in LineDefines(code) {
      var word := BinderWas(trimmed, BINDERS, name);
      ListedOpens(code, trimmed, indent, word, name);
    }
  }

  lemma {:induction false} BinderWas(trimmed: string, binders: seq<string>, name: string) returns (word: string)
    requires name in BoundAfterAny(trimmed, binders)
    ensures word in binders && name in BoundAfter(trimmed, word)
  {
    var n := |binders| - 1;
    if name in BoundAfter(trimmed, binders[n]) {
      word := binders[n];
    } else {
      word := BinderWas(trimmed, binders[..n], name);
    }
  }

  lemma {:induction false} OutsideAfterDigits(code: string, d: nat, p: nat)
    requires d <= p <= |code| && (d == 0 || !NameChar(code[d - 1])) && forall k :: d <= k < p ==> '0' <= code[k] <= '9'
    ensures Outside(code, p)
  {
    if d < p {
      OutsideAfterDigits(code, d, p - 1);
    }
  }

  lemma {:induction false} OutsideSplits(code: string, p: nat) returns (d: nat)
    requires p <= |code| && Outside(code, p)
    ensures d <= p && (d == 0 || !NameChar(code[d - 1])) && forall k :: d <= k < p ==> '0' <= code[k] <= '9'
  {
    if p == 0 || !InIdent(code[p - 1]) {
      d := p;
    } else {
      d := OutsideSplits(code, p - 1);
    }
  }

  /** The name stands at `p..e`, after digits from `d` on. */
  ghost predicate Places(code: string, name: string, d: nat, p: nat, e: nat) {
    && d <= p < e <= |code| && code[p..e] == name && IsName(name)
    && (d == 0 || !NameChar(code[d - 1])) && (forall k :: d <= k < p ==> '0' <= code[k] <= '9')
    && (p > 0 ==> code[p - 1] != '.') && (e < |code| ==> !NameChar(code[e]))
  }

  lemma MentionPlaces(code: string, name: string, before: string, number: string, after: string)
    requires MentionsAs(code, name, before, number, after)
    ensures Places(code, name, |before|, |before| + |number|, |before| + |number| + |name|)
  {
    var d, p, e := |before|, |before| + |number|, |before| + |number| + |name|;
    PartsAt(before, number, name, after);
    assert d > 0 ==> code[d - 1] == before[d - 1];
    assert forall k :: d <= k < p ==> code[k] == number[k - d];
    assert e < |code| ==> code[e] == after[0];
  }

  lemma PartsAt<T>(a: seq<T>, b: seq<T>, c: seq<T>, r: seq<T>)
    ensures var s := a + (b + (c + r));
            && s[..|a|] == a && s[|a|..|a| + |b|] == b && s[|a| + |b|..|a| + |b| + |c|] == c
            && s[|a| + |b| + |c|..] == r
  {
  }

  lemma PlacesMention(code: string, name: string, d: nat, p: nat, e: nat)
    requires Places(code, name, d, p, e)
    ensures MentionsAs(code, name, code[..d], code[d..p], code[e..])
  {
    var before, number, after := code[..d], code[d..p], code[e..];
    FourParts(code, d, p, e);
    assert d > 0 ==> before[d - 1] == code[d - 1];
    assert forall i :: 0 <= i < |number| ==> number[i] == code[d + i];
    assert e < |code| ==> after[0] == code[e];
  }

  lemma MentionedInLine(code: string, name: string)
    requires LineMentions(code, name)
    ensures name in IdentifiersFrom(code, 0)
  {
    hide MentionsAs, IdentifiersFrom, Outside;
    var before, number, after :| MentionsAs(code, name, before, number, after);
    var d, p := |before|, |before| + |number|;
    MentionPlaces(code, name, before, number, after);
    OutsideAfterDigits(code, d, p);
    NameRuns(code, p, p + |name|, name);
    IdentifierFound(code, 0, p);
  }

  lemma NameRuns(code: string, p: nat, e: nat, name: string)
    requires p < e <= |code| && code[p..e] == name && IsName(name) && (e < |code| ==> !NameChar(code[e]))
    ensures IdentEnd(code, p) == e
  {
    assert forall k :: p <= k < e ==> code[k] == name[k - p];
    IdentEndIs(code, p, e);
  }

  lemma FourParts<T>(s: seq<T>, d: nat, p: nat, e: nat)
    requires d <= p <= e <= |s|
    ensures s == s[..d] + (s[d..p] + (s[p..e] + s[e..]))
  {
  }

  /** Where an identifier that is found stands. */
  lemma FoundPlaces(code: string, name: string) returns (d: nat, p: nat, e: nat)
    requires name in IdentifiersFrom(code, 0)
    ensures Places(code, name, d, p, e)
  {
    p := FoundIsThere(code, 0, name);
    hide IdentifiersFrom;
    d := OutsideSplits(code, p);
    IdentRuns(code, p);
    e := IdentEnd(code, p);
  }

  lemma ListedIsMentioned(code: string, name: string)
    requires name in IdentifiersFrom(code, 0)
    ensures LineMentions(code, name)
  {
    hide MentionsAs;
    var d, p, e := FoundPlaces(code, name);
    PlacesMention(code, name, d, p, e);
    var before, number, after := code[..d], code[d..p], code[e..];
    assert MentionsAs(code, name, before, number, after);
  }

  lemma IdentRuns(code: string, p: nat)
    requires p < |code| && StartsIdent(code[p])
    ensures IsName(code[p..IdentEnd(code, p)])
  {
  }

  /** The identifiers found in a line are exactly the names it mentions. */
  lemma LineMentionsIff(code: string, name: string)
    ensures name in IdentifiersFrom(code, 0) <==> LineMentions(code, name)
  {
    if LineMentions(code, name) {
      MentionedInLine(code, name);
    }
    if name in IdentifiersFrom(code, 0) {
      ListedIsMentioned(code, name);
    }
  }

  // ---- Lines of a text --------------------------------------------------------------------------

  lemma AssignWithoutReturn(code: string, name: string, indent: string, gap: string, op: string, rest: string)
    requires code != "" && code[|code| - 1] == '\r' && AssignsAs(code, name, indent, gap, op, rest)
    ensures rest != "" && AssignsAs(code[..|code| - 1], name, indent, gap, op, rest[..|rest| - 1])
  {
    assert code[|indent| + |name| + |gap| + |op|] == '=';
    assert code[..|code| - 1] == indent + (name + (gap + (op + ("=" + rest[..|rest| - 1]))));
  }

  lemma OpenWithoutReturn(code: string, name: string, indent: string, word: string, gap: string, rest: string)
    requires code != "" && code[|code| - 1] == '\r' && OpensAs(code, name, indent, word, gap, rest)
    ensures rest != "" && OpensAs(code[..|code| - 1], name, indent, word, gap, rest[..|rest| - 1])
  {
    assert code == indent + (word + gap) + (name + rest);
    NotReturn(code, indent + (word + gap), name, rest);
    assert code[..|code| - 1] == indent + (word + (gap + (name + rest[..|rest| - 1])));
  }

  lemma MentionWithoutReturn(code: string, name: string, before: string, number: string, after: string)
    requires code != "" && code[|code| - 1] == '\r' && MentionsAs(code, name, before, number, after)
    ensures after != "" && MentionsAs(code[..|code| - 1], name, before, number, after[..|after| - 1])
  {
    assert code == before + number + (name + after);
    NotReturn(code, before + number, name, after);
    assert code[..|code| - 1] == before + (number + (name + after[..|after| - 1]));
  }

  /** A carriage return at the end of a line makes no difference. */
  lemma ReturnIsNothing(code: string, name: string)
    requires code != "" && code[|code| - 1] == '\r'
    ensures LineBinds(code, name) ==> LineBinds(code[..|code| - 1], name)
    ensures LineMentions(code, name) ==> LineMentions(code[..|code| - 1], name)
  {
    hide AssignsAs, OpensAs, MentionsAs;
    if indent, gap, op, rest :| AssignsAs(code, name, indent, gap, op, rest) {
      AssignWithoutReturn(code, name, indent, gap, op, rest);
    }
    if indent, word, gap, rest :| OpensAs(code, name, indent, word, gap, rest) {
      OpenWithoutReturn(code, name, indent, word, gap, rest);
    }
    if before, number, after :| MentionsAs(code, name, before, number, after) {
      MentionWithoutReturn(code, name, before, number, after);
    }
  }

  lemma NoEqualsSign(rest: string)
    ensures "=" <= rest + "\r" <==> "=" <= rest
  {
    assert (rest + "\r")[0] == if rest == "" then '\r' else rest[0];
  }

  lemma AssignThenReturn(code: string, name: string, indent: string, gap: string, op: string, rest: string)
    requires AssignsAs(code, name, indent, gap, op, rest)
    ensures AssignsAs(code + "\r", name, indent, gap, op, rest + "\r")
  {
    assert code + "\r" == indent + (name + (gap + (op + ("=" + (rest + "\r")))));
    NoEqualsSign(rest);
  }

  lemma OpenThenReturn(code: string, name: string, indent: string, word: string, gap: string, rest: string)
    requires OpensAs(code, name, indent, word, gap, rest)
    ensures OpensAs(code + "\r", name, indent, word, gap, rest + "\r")
  {
    assert code + "\r" == indent + (word + (gap + (name + (rest + "\r"))));
  }

  lemma MentionThenReturn(code: string, name: string, before: string, number: string, after: string)
    requires MentionsAs(code, name, before, number, after)
    ensures MentionsAs(code + "\r", name, before, number, after + "\r")
  {
    assert code + "\r" == before + (number + (name + (after + "\r")));
  }

  lemma ReturnAddsNothing(code: string, name: string)
    ensures LineBinds(code, name) ==> LineBinds(code + "\r", name)
    ensures LineMentions(code, name) ==> LineMentions(code + "\r", name)
  {
    hide AssignsAs, OpensAs, MentionsAs;
    if indent, gap, op, rest :| AssignsAs(code, name, indent, gap, op, rest) {
      AssignThenReturn(code, name, indent, gap, op, rest);
    }
    if indent, word, gap, rest :| OpensAs(code, name, indent, word, gap, rest) {
      OpenThenReturn(code, name, indent, word, gap, rest);
    }
    if before, number, after :| MentionsAs(code, name, before, number, after) {
      MentionThenReturn(code, name, before, number, after);
    }
  }

  lemma NotReturn(code: string, before: string, name: string, after: string)
    requires code != "" && code[|code| - 1] == '\r' && IsName(name) && code == before + (name + after)
    ensures after != ""
  {
    assert code[|before| + |name| - 1] == name[|name| - 1];
  }

  /** The end of the line that position `c` is on. */
  lemma {:induction false} LineEnd(source: string, c: nat) returns (b: nat)
    requires c <= |source|
    ensures c <= b <= |source| && (forall k :: c <= k < b ==> source[k] != '\n') && (b == |source| || source[b] == '\n')
    decreases |source| - c
  {
    if c == |source| || source[c] == '\n' {
      b := c;
    } else {
      b := LineEnd(source, c + 1);
    }
  }

  /** The part of a text from `a` to `b` is a line of it. */
  ghost predicate LineAt(source: string, a: nat, b: nat) {
    && a <= b <= |source| && (a == 0 || source[a - 1] == '\n')
    && (forall k :: a <= k < b ==> source[k] != '\n') && (b == |source| || source[b] == '\n')
  }

  /** Where in the parts a line of the text stands: the last part is the line that runs to the end. */
  lemma {:induction false} LineIsPart(source: string, a: nat, b: nat) returns (k: nat)
    requires LineAt(source, a, b)
    ensures k < |Split(source, '\n')| && Split(source, '\n')[k] == source[a..b]
    ensures b == |source| <==> k == |Split(source, '\n')| - 1
  {
    if source == "" {
      k := 0;
    } else {
      var n := |source| - 1;
      var front, last := source[..n], source[n];
      SplitStep(source);
      hide Split;
      if b <= n {
        k := LineIsPart(front, a, b);
        PrefixPart(source, n, a, b);
      } else if a <= n {
        k := LineIsPart(front, a, n);
        PrefixPart(source, n, a, n);
        TakeLast(source, a);
      } else {
        k := |Split(source, '\n')| - 1;
        assert source[a..b] == "";
      }
    }
  }

  lemma PrefixPart(s: string, n: nat, a: nat, b: nat)
    requires a <= b <= n <= |s|
    ensures s[..n][a..b] == s[a..b]
  {
  }

  lemma TakeLast(s: string, a: nat)
    requires a < |s|
    ensures s[a..|s| - 1] + [s[|s| - 1]] == s[a..]
  {
  }

  lemma SplitStep(source: string)
    requires source != ""
    ensures var parts, front, last := Split(source, '\n'), Split(source[..|source| - 1], '\n'), source[|source| - 1];
            && (last == '\n' ==> parts == front + [""])
            && (last != '\n' ==> parts == front[..|front| - 1] + [front[|front| - 1] + [last]])
  {
  }

  lemma {:induction false} EndedAt(parts: seq<string>, k: nat)
    requires k < |parts|
    ensures WithoutReturn(parts[k]) in EndedLines(parts)
  {
    if k < |parts| - 1 {
      EndedAt(parts[..|parts| - 1], k);
    }
  }

  lemma LineIsListed(source: string, a: nat, b: nat) returns (line: string)
    requires LineAt(source, a, b) && a < b
    ensures line in LinesOf(source) && (line == source[a..b] || line == WithoutReturn(source[a..b]))
  {
    var k := LineIsPart(source, a, b);
    var parts := Split(source, '\n');
    if b == |source| {
      line := source[a..b];
    } else {
      line := WithoutReturn(source[a..b]);
      EndedAt(parts[..|parts| - 1], k);
    }
  }

  lemma {:induction false} CodePartIs(line: string, c: nat)
    requires c <= |line| && (forall k :: 0 <= k < c ==> line[k] != '#') && (c == |line| || line[c] == '#')
    ensures CodePart(line) == line[..c]
  {
    if c > 0 {
      CodePartIs(line[1..], c - 1);
      assert line[..c] == [line[0]] + line[1..][..c - 1];
    }
  }

  lemma CodePartOf(whole: string, n: nat, line: string)
    requires n <= |whole| && (forall k :: 0 <= k < n ==> whole[k] != '#') && (n == |whole| || whole[n] == '#')
    requires line == whole || line == WithoutReturn(whole)
    ensures CodePart(line) == whole[..n] || (n > 0 && whole[n - 1] == '\r' && CodePart(line) == whole[..n - 1])
  {
    hide CodePart;
    if line == whole {
      CodePartIs(whole, n);
    } else if n == |whole| {
      CodePartIs(line, n - 1);
      assert line[..n - 1] == whole[..n - 1];
    } else {
      assert n < |whole| - 1;
      CodePartIs(line, n);
      assert line[..n] == whole[..n];
    }
  }

  /** The code of a line is that of a line analysed, up to a carriage return at its end. */
  lemma CodeIsListed(source: string, a: nat, c: nat) returns (line: string)
    requires CodeAt(source, a, c) && a < c
    ensures line in LinesOf(source)
    ensures CodePart(line) == source[a..c] ||
      (source[c - 1] == '\r' && CodePart(line) == source[a..c][..c - a - 1])
  {
    hide LinesOf, WithoutReturn, CodePart;
    var b := LineEnd(source, c);
    var whole := source[a..b];
    line := LineIsListed(source, a, b);
    assert whole[..c - a] == source[a..c] && whole[..c - a - 1] == source[a..c][..c - a - 1];
    assert c < b ==> whole[c - a] == '#';
    CodePartOf(whole, c - a, line);
  }

  lemma {:induction false} DefinedSomewhere(lines: seq<string>, line: string, name: string)
    requires line in lines && name in LineDefines(CodePart(line))
    ensures name in AllDefines(lines)
  {
    var n := |lines| - 1;
    if line != lines[n] {
      assert lines == lines[..n] + [lines[n]];
      DefinedSomewhere(lines[..n], line, name);
    }
  }

  lemma {:induction false} UsedSomewhere(lines: seq<string>, line: string, name: string)
    requires line in lines && name in IdentifiersFrom(CodePart(line), 0) && name !in KEYWORDS
    ensures name in AllUses(lines, KEYWORDS)
  {
    var n := |lines| - 1;
    if line != lines[n] {
      assert lines == lines[..n] + [lines[n]];
      UsedSomewhere(lines[..n], line, name);
    } else {
      LineUsesAre(IdentifiersFrom(CodePart(line), 0), KEYWORDS, name);
    }
  }

  lemma {:induction false} PartIsLine(source: string, k: nat) returns (a: nat, b: nat)
    requires k < |Split(source, '\n')|
    ensures LineAt(source, a, b) && Split(source, '\n')[k] == source[a..b]
    ensures b == |source| <==> k == |Split(source, '\n')| - 1
  {
    if source == "" {
      a, b := 0, 0;
    } else {
      var n := |source| - 1;
      var front, parts := Split(source[..n], '\n'), Split(source, '\n');
      SplitStep(source);
      hide Split;
      if k < |front| {
        a, b := PartIsLine(source[..n], k);
        LineGrows(source, a, b);
        if b == n && source[n] != '\n' {
          b := n + 1;
        }
      } else {
        a, b := n + 1, n + 1;
      }
    }
  }

  /** A line stays a line when one more character follows, or takes it up. */
  lemma LineGrows(source: string, a: nat, b: nat)
    requires source != "" && LineAt(source[..|source| - 1], a, b)
    ensures source[..|source| - 1][a..b] == source[a..b]
    ensures b < |source| - 1 || source[|source| - 1] == '\n' ==> LineAt(source, a, b)
    ensures b == |source| - 1 && source[b] != '\n' ==>
      LineAt(source, a, b + 1) && source[a..b] + [source[b]] == source[a..b + 1]
  {
    var front := source[..|source| - 1];
    assert forall k :: 0 <= k < |front| ==> front[k] == source[k];
  }

  lemma {:induction false} EndedWas(parts: seq<string>, line: string) returns (k: nat)
    requires line in EndedLines(parts)
    ensures k < |parts| && line == WithoutReturn(parts[k])
  {
    if line in EndedLines(parts[..|parts| - 1]) {
      k := EndedWas(parts[..|parts| - 1], line);
    } else {
      k := |parts| - 1;
    }
  }

  lemma ListedIsLine(source: string, line: string) returns (a: nat, b: nat)
    requires line in LinesOf(source)
    ensures LineAt(source, a, b) && (line == source[a..b] || line == WithoutReturn(source[a..b]))
  {
    var parts := Split(source, '\n');
    var k: nat;
    if line in EndedLines(parts[..|parts| - 1]) {
      k := EndedWas(parts[..|parts| - 1], line);
    } else {
      k := |parts| - 1;
    }
    a, b := PartIsLine(source, k);
  }

  lemma {:induction false} CodePartCuts(line: string) returns (n: nat)
    ensures n <= |line| && CodePart(line) == line[..n]
    ensures (forall k :: 0 <= k < n ==> line[k] != '#') && (n == |line| || line[n] == '#')
  {
    n := 0;
    if line != "" && line[0] != '#' {
      n := CodePartCuts(line[1..]);
      assert line[..n + 1] == [line[0]] + line[1..][..n];
      n := n + 1;
    }
  }

  /** Each line analysed is the code of a line, up to a carriage return at its end. */
  lemma ListedIsCode(source: string, line: string) returns (a: nat, c: nat)
    requires line in LinesOf(source)
    ensures CodeAt(source, a, c) && (CodePart(line) == source[a..c] || CodePart(line) + "\r" == source[a..c])
  {
    hide LinesOf, CodePart;
    var b: nat;
    a, b := ListedIsLine(source, line);
    var n := CodePartCuts(line);
    if line == source[a..b] || n < |line| {
      c := a + n;
      assert forall k :: 0 <= k < |line| ==> source[a + k] == line[k];
      assert source[a..c] == line[..n];
    } else {
      c := b;
      assert line + "\r" == source[a..b];
      assert forall k :: 0 <= k < |line| ==> source[a + k] == line[k];
    }
  }

  lemma {:induction false} DefinedWas(lines: seq<string>, name: string) returns (line: string)
    requires name in AllDefines(lines)
    ensures line in lines && name in LineDefines(CodePart(line))
  {
    var front := lines[..|lines| - 1];
    if name in AllDefines(front) {
      line := DefinedWas(front, name);
    } else {
      line := lines[|lines| - 1];
    }
  }

  lemma {:induction false} UsedWas(lines: seq<string>, name: string) returns (line: string)
    requires name in AllUses(lines, KEYWORDS)
    ensures line in lines && name in IdentifiersFrom(CodePart(line), 0) && name !in KEYWORDS
  {
    var front := lines[..|lines| - 1];
    if name in AllUses(front, KEYWORDS) {
      line := UsedWas(front, name);
    } else {
      line := lines[|lines| - 1];
      LineUsesAre(IdentifiersFrom(CodePart(line), 0), KEYWORDS, name);
    }
  }

  // ---- One cell ---------------------------------------------------------------------------------------

  lemma SomethingIsThere(code: string, name: string)
    requires LineBinds(code, name) || LineMentions(code, name)
    ensures code != ""
  {
  }

  lemma KeywordsAgree(name: string)
    ensures IsKeyword(name) <==> name in KEYWORDS
  {
  }

  lemma PythonBindsListed(cell: NotebookCell, name: string, a: nat, c: nat)
    requires cell.kind == Format.Python && a <= c <= |cell.source|
    requires CodeAt(cell.source, a, c) && LineBinds(cell.source[a..c], name)
    ensures name in SpecOf(cell).defines
  {
    hide *;
    var source, code := cell.source, cell.source[a..c];
    SomethingIsThere(code, name);
    var line := CodeIsListed(source, a, c);
    if CodePart(line) == code {
      BoundInLine(code, name);
    } else {
      ReturnIsNothing(code, name);
      BoundInLine(code[..|code| - 1], name);
    }
    DefinedSomewhere(LinesOf(source), line, name);
    DistinctHasAll(AllDefines(LinesOf(source)), name);
    SpecOfPython(cell);
  }

  lemma PythonReadsListed(cell: NotebookCell, name: string, a: nat, c: nat)
    requires cell.kind == Format.Python && !IsKeyword(name) && a <= c <= |cell.source|
    requires CodeAt(cell.source, a, c) && LineMentions(cell.source[a..c], name)
    ensures name in SpecOf(cell).uses
  {
    hide *;
    var source, code := cell.source, cell.source[a..c];
    KeywordsAgree(name);
    SomethingIsThere(code, name);
    var line := CodeIsListed(source, a, c);
    if CodePart(line) == code {
      MentionedInLine(code, name);
    } else {
      ReturnIsNothing(code, name);
      MentionedInLine(code[..|code| - 1], name);
    }
    UsedSomewhere(LinesOf(source), line, name);
    DistinctHasAll(AllUses(LinesOf(source), KEYWORDS), name);
    SpecOfPython(cell);
  }

  /** Whatever a cell binds and reads is listed for it. */
  lemma CellIsListed(cell: NotebookCell, name: string)
    ensures CellBinds(cell, name) ==> name in SpecOf(cell).defines
    ensures CellReads(cell, name) ==> name in SpecOf(cell).uses
  {
    if cell.kind == Format.Python {
      if CellBinds(cell, name) {
        var a: nat, c: nat :| CodeAt(cell.source, a, c) && LineBinds(cell.source[a..c], name);
        PythonBindsListed(cell, name, a, c);
      }
      if CellReads(cell, name) {
        var a: nat, c: nat :| CodeAt(cell.source, a, c) && LineMentions(cell.source[a..c], name);
        PythonReadsListed(cell, name, a, c);
      }
    }
  }

  lemma PythonListedIsBound(cell: NotebookCell, name: string)
    requires cell.kind == Format.Python && name in SpecOf(cell).defines
    ensures CellBinds(cell, name)
  {
    hide *;
    SpecOfPython(cell);
    var source := cell.source;
    DistinctHasAll(AllDefines(LinesOf(source)), name);
    var line := DefinedWas(LinesOf(source), name);
    var a, c := ListedIsCode(source, line);
    LineBindsIff(CodePart(line), name);
    ReturnAddsNothing(CodePart(line), name);
    BoundSomewhere(cell, name, a, c);
  }

  lemma PythonListedIsRead(cell: NotebookCell, name: string)
    requires cell.kind == Format.Python && name in SpecOf(cell).uses
    ensures CellReads(cell, name)
  {
    hide *;
    SpecOfPython(cell);
    var source := cell.source;
    DistinctHasAll(AllUses(LinesOf(source), KEYWORDS), name);
    var line := UsedWas(LinesOf(source), name);
    var a, c := ListedIsCode(source, line);
    LineMentionsIff(CodePart(line), name);
    ReturnAddsNothing(CodePart(line), name);
    KeywordsAgree(name);
    ReadSomewhere(cell, name, a, c);
  }

  lemma BoundSomewhere(cell: NotebookCell, name: string, a: nat, c: nat)
    requires cell.kind == Format.Python && CodeAt(cell.source, a, c) && LineBinds(cell.source[a..c], name)
    ensures CellBinds(cell, name)
  {
  }

  lemma ReadSomewhere(cell: NotebookCell, name: string, a: nat, c: nat)
    requires cell.kind == Format.Python && !IsKeyword(name)
    requires CodeAt(cell.source, a, c) && LineMentions(cell.source[a..c], name)
    ensures CellReads(cell, name)
  {
  }

  /** What is listed for a cell is exactly what it binds and what it reads. */
  lemma CellListsIff(cell: NotebookCell, name: string)
    ensures name in SpecOf(cell).defines <==> CellBinds(cell, name)
    ensures name in SpecOf(cell).uses <==> CellReads(cell, name)
  {
    CellIsListed(cell, name);
    if cell.kind == Format.Python {
      if name in SpecOf(cell).defines {
        PythonListedIsBound(cell, name);
      }
      if name in SpecOf(cell).uses {
        PythonListedIsRead(cell, name);
      }
    }
  }

  // ---- The run order ------------------------------------------------------------------------------------

  /** Cell `j` reads something that cell `i` binds. */
  ghost predicate Feeds(cells: seq<NotebookCell>, i: nat, j: nat) {
    i < |cells| && j < |cells| && i != j && exists name :: CellBinds(cells[i], name) && CellReads(cells[j], name)
  }

  ghost predicate IdBefore(ids: seq<Uuids.Uuid>, x: Uuids.Uuid, y: Uuids.Uuid) {
    exists p, q :: 0 <= p < q < |ids| && ids[p] == x && ids[q] == y
  }

  ghost predicate OwnIds(cells: seq<NotebookCell>) {
    forall i, j :: 0 <= i < j < |cells| ==> cells[i].id != cells[j].id
  }

  lemma FeedsIsDependency(cells: seq<NotebookCell>, i: nat, j: nat)
    ensures Feeds(cells, i, j) <==> DependsOn(SpecsOf(cells), i, j)
  {
    hide CellBinds, CellReads, SpecOf;
    var specs := SpecsOf(cells);
    if Feeds(cells, i, j) {
      var name :| CellBinds(cells[i], name) && CellReads(cells[j], name);
      CellListsIff(cells[i], name);
      CellListsIff(cells[j], name);
      assert name in specs[i].defines && name in specs[j].uses;
    }
    if DependsOn(specs, i, j) {
      var name :| name in specs[i].defines && name in specs[j].uses;
      CellListsIff(cells[i], name);
      CellListsIff(cells[j], name);
    }
  }

  lemma SpecIds(cells: seq<NotebookCell>)
    ensures forall i :: 0 <= i < |cells| ==> SpecsOf(cells)[i].id == cells[i].id
    ensures OwnIds(cells) ==> DistinctIds(SpecsOf(cells))
  {
  }

  lemma BeforeIsIdBefore(specs: seq<CellSpec>, order: seq<nat>, i: nat, j: nat)
    requires (forall k :: 0 <= k < |order| ==> order[k] < |specs|) && Before(order, i, j)
    ensures i < |specs| && j < |specs| && IdBefore(Ids(specs, order), specs[i].id, specs[j].id)
  {
    var p, q :| 0 <= p < q < |order| && order[p] == i && order[q] == j;
    assert Ids(specs, order)[p] == specs[i].id && Ids(specs, order)[q] == specs[j].id;
  }

  /** The whole order has every cell, once, and a cell that binds a variable before each other that reads it. */
  lemma RunOrderSays(cells: seq<NotebookCell>, ids: seq<Uuids.Uuid>)
    requires OwnIds(cells) && Planned(SpecsOf(cells), None) == Ordered(ids)
    ensures |ids| == |cells| && forall i :: 0 <= i < |cells| ==> cells[i].id in ids
    ensures forall i: nat, j: nat :: Feeds(cells, i, j) ==> IdBefore(ids, cells[i].id, cells[j].id)
  {
    var specs := SpecsOf(cells);
    var order := Greedy(DepGraph(specs), []);
    SpecIds(cells);
    GreedyCompleteIffAcyclic(DepGraph(specs));
    NodesBound(DepGraph(specs), order);
    forall i | 0 <= i < |cells| ensures cells[i].id in ids {
      assert i in order;
      var p :| 0 <= p < |order| && order[p] == i;
      assert ids[p] == cells[i].id;
    }
    forall i: nat, j: nat | Feeds(cells, i, j) ensures IdBefore(ids, cells[i].id, cells[j].id) {
      FeedsIsDependency(cells, i, j);
      FeederIsBefore(specs, order, i, j);
      BeforeIsIdBefore(specs, order, i, j);
    }
  }

  lemma FeederIsBefore(specs: seq<CellSpec>, order: seq<nat>, i: nat, j: nat)
    requires Topological(DepGraph(specs), order) && DependsOn(specs, i, j)
    ensures Before(order, i, j)
  {
    NodesBound(DepGraph(specs), order);
    assert i in order && j in order;
    var p :| 0 <= p < |order| && order[p] == i;
    var q :| 0 <= q < |order| && order[q] == j;
    assert (order[p], order[q]) in DepGraph(specs).edges;
  }

  /** An order the cells can run in: each once, and after every other cell whose variables it reads. */
  ghost predicate CanRunIn(cells: seq<NotebookCell>, order: seq<nat>) {
    && |order| == |cells| && (forall p :: 0 <= p < |order| ==> order[p] < |cells|)
    && (forall p, q :: 0 <= p < q < |order| ==> order[p] != order[q])
    && forall p, q :: 0 <= p < |order| && 0 <= q < |order| && Feeds(cells, order[p], order[q]) ==> p < q
  }

  /** The first order is smaller where the two first differ. */
  ghost predicate ComesFirst(a: seq<nat>, b: seq<nat>) {
    exists k :: 0 <= k < |a| && k < |b| && a[..k] == b[..k] && a[k] < b[k]
  }

  lemma CanRunInIsTopological(cells: seq<NotebookCell>, order: seq<nat>)
    ensures CanRunIn(cells, order) <==> Topological(DepGraph(SpecsOf(cells)), order)
  {
    hide Feeds, DependsOn, SpecOf;
    forall i: nat, j: nat
      ensures Feeds(cells, i, j) <==> (i, j) in DepGraph(SpecsOf(cells)).edges
    {
      FeedsIsDependency(cells, i, j);
      EdgeIsDependency(SpecsOf(cells), i, j);
    }
  }

  lemma EdgeIsDependency(specs: seq<CellSpec>, i: nat, j: nat)
    ensures (i, j) in DepGraph(specs).edges <==> DependsOn(specs, i, j)
  {
  }

  /**
   A cycle is reported exactly when the cells can run in no order; otherwise they
   run in the order, of all they can run in, that keeps closest to the listed one.
   */
  lemma OrderIsFirstPossible(cells: seq<NotebookCell>, changed: Option<Uuids.Uuid>)
    ensures Planned(SpecsOf(cells), changed) == DependencyCycle <==> !exists order :: CanRunIn(cells, order)
    ensures Planned(SpecsOf(cells), None).Ordered? ==>
      exists order :: && CanRunIn(cells, order)
                      && Planned(SpecsOf(cells), None) == Ordered(Ids(SpecsOf(cells), order))
                      && forall other :: CanRunIn(cells, other) ==> order == other || ComesFirst(order, other)
  {
    hide CanRunIn, SpecsOf;
    var g := DepGraph(SpecsOf(cells));
    var least := Greedy(g, []);
    GreedyCompleteIffAcyclic(g);
    CanRunInIsTopological(cells, least);
    forall other | CanRunIn(cells, other)
      ensures Topological(g, least) && (least == other || ComesFirst(least, other))
    {
      CanRunInIsTopological(cells, other);
      GreedyIsLexLeast(g, other);
    }
  }

  /**
   After a change of a cell, that cell runs again, and with each cell that does every
   other cell that reads what it binds, after it.
   */
  lemma ChangeSays(cells: seq<NotebookCell>, start: nat, ids: seq<Uuids.Uuid>)
    requires OwnIds(cells) && start < |cells| && Planned(SpecsOf(cells), Some(cells[start].id)) == Ordered(ids)
    ensures cells[start].id in ids
    ensures forall i: nat, j: nat :: Feeds(cells, i, j) && cells[i].id in ids ==>
      cells[j].id in ids && IdBefore(ids, cells[i].id, cells[j].id)
  {
    var specs := SpecsOf(cells);
    var again := AgainIs(cells, start, ids);
    SpecIds(cells);
    forall i: nat, j: nat | Feeds(cells, i, j) && cells[i].id in ids
      ensures cells[j].id in ids && IdBefore(ids, cells[i].id, cells[j].id)
    {
      FeedsIsDependency(cells, i, j);
      ReaderRunsAgain(specs, start, again, ids, i, j);
    }
    var p :| 0 <= p < |again| && again[p] == start;
    assert ids[p] == cells[start].id;
  }

  lemma AgainIs(cells: seq<NotebookCell>, start: nat, ids: seq<Uuids.Uuid>) returns (again: seq<nat>)
    requires OwnIds(cells) && start < |cells| && Planned(SpecsOf(cells), Some(cells[start].id)) == Ordered(ids)
    ensures var specs := SpecsOf(cells);
            && DistinctIds(specs) && (forall k :: 0 <= k < |again| ==> again[k] < |specs|)
            && ids == Ids(specs, again) && Forward(DepGraph(specs), again) && start in again
            && (forall i: nat :: i in again <==> Reaches(DepGraph(specs), start, i))
  {
    hide Planned, Reaches, DepGraph, Forward, SpecsOf, OwnIds, DistinctIds;
    SpecIds(cells);
    again := AgainOf(SpecsOf(cells), start, ids);
  }

  lemma AgainOf(specs: seq<CellSpec>, start: nat, ids: seq<Uuids.Uuid>) returns (again: seq<nat>)
    requires DistinctIds(specs) && start < |specs| && Planned(specs, Some(specs[start].id)) == Ordered(ids)
    ensures (forall k :: 0 <= k < |again| ==> again[k] < |specs|)
    ensures ids == Ids(specs, again) && Forward(DepGraph(specs), again) && start in again
    ensures forall i: nat :: i in again <==> Reaches(DepGraph(specs), start, i)
  {
    hide Reaches, Restrict, Greedy, Forward, ReachSet, DistinctIds;
    GreedyCompleteIffAcyclic(DepGraph(specs));
    DownstreamIsExact(specs, start);
    again := Restrict(Greedy(DepGraph(specs), []), ReachSet(DepGraph(specs), start));
    forall k | 0 <= k < |again| ensures again[k] < |specs| {
      assert again[k] in again;
      ReachedIsNode(DepGraph(specs), start);
    }
  }

  lemma ReaderRunsAgain(specs: seq<CellSpec>, start: nat, again: seq<nat>, ids: seq<Uuids.Uuid>, i: nat, j: nat)
    requires DistinctIds(specs) && (forall k :: 0 <= k < |again| ==> again[k] < |specs|) && ids == Ids(specs, again)
    requires Forward(DepGraph(specs), again) && forall k: nat :: k in again <==> Reaches(DepGraph(specs), start, k)
    requires DependsOn(specs, i, j) && specs[i].id in ids
    ensures specs[j].id in ids && IdBefore(ids, specs[i].id, specs[j].id)
  {
    var p := PlaceOfId(specs, again, ids, i);
    assert again[p] in again;
    ReachesStep(DepGraph(specs), start, i, j);
    var q :| 0 <= q < |again| && again[q] == j;
    assert (again[p], again[q]) in DepGraph(specs).edges;
    assert ids[q] == specs[j].id && ids[p] == specs[i].id;
  }

  lemma PlaceOfId(specs: seq<CellSpec>, again: seq<nat>, ids: seq<Uuids.Uuid>, i: nat) returns (p: nat)
    requires DistinctIds(specs) && (forall k :: 0 <= k < |again| ==> again[k] < |specs|) && ids == Ids(specs, again)
    requires i < |specs| && specs[i].id in ids
    ensures p < |again| && again[p] == i
  {
    p :| 0 <= p < |ids| && ids[p] == specs[i].id;
  }

  lemma ReachedIsInside(g: Graph, start: nat, i: nat, closed: set<nat>)
    requires g.Valid() && start < g.n && Reaches(g, start, i) && start in closed && ClosedUnder(g, closed)
    ensures i in closed
  {
    ReachSetLeastClosed(g, start, closed);
    ReachedIsNode(g, start);
  }

  lemma FedStayInside(cells: seq<NotebookCell>, closed: set<nat>)
    requires forall i: nat, j: nat :: i in closed && Feeds(cells, i, j) ==> j in closed
    ensures ClosedUnder(DepGraph(SpecsOf(cells)), closed)
  {
    forall e | e in DepGraph(SpecsOf(cells)).edges && e.0 in closed ensures e.1 in closed {
      FeedsIsDependency(cells, e.0, e.1);
    }
  }

  /** Nothing runs again but what these rules demand. */
  lemma ChangeRunsNoMore(cells: seq<NotebookCell>, start: nat, ids: seq<Uuids.Uuid>, closed: set<nat>)
    requires OwnIds(cells) && start < |cells| && Planned(SpecsOf(cells), Some(cells[start].id)) == Ordered(ids)
    requires start in closed && forall i: nat, j: nat :: i in closed && Feeds(cells, i, j) ==> j in closed
    ensures forall i :: 0 <= i < |cells| && cells[i].id in ids ==> i in closed
  {
    var specs := SpecsOf(cells);
    var again := AgainIs(cells, start, ids);
    hide DepGraph, Feeds, SpecsOf, ClosedUnder, Reaches, Forward, DistinctIds, OwnIds;
    FedStayInside(cells, closed);
    SpecIds(cells);
    forall i | 0 <= i < |cells| && cells[i].id in ids ensures i in closed {
      var p := PlaceOfId(specs, again, ids, i);
      assert again[p] in again;
      ReachedIsInside(DepGraph(specs), start, i, closed);
    }
  }
}
