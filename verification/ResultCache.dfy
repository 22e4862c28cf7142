/**
 The cache of query results. Its key is one string, the database id, the SQL and
 the printed parameters joined by `|`, without lengths; SQL and text parameters may
 hold `|` themselves. The key is nevertheless unambiguous, so a hit is always a
 result stored for the same compiled query.
 */
module ResultCaches {
  import opened Common
  import opened Decimal
  import opened Hexadecimal
  import opened Gql
  import Uuids
  import opened QueryBuilder

  type Uuid = Uuids.Uuid

  // ---- Printing parameters ---------------------------------------------------------------

  /** What Rust's printer decides by tables: which characters appear as they are, and floats. */
  datatype Printer = Printer(printable: char -> bool, float: F64 -> string)

  /** A printed float has none of the characters that structure the output. */
  ghost predicate Sober(p: Printer) {
    forall f :: Sound(p.float(f)) && ')' !in p.float(f)
  }

  /** No quote, backslash or bar. */
  predicate Sound(s: string) {
    forall i :: 0 <= i < |s| ==> s[i] != '"' && s[i] != '\\' && s[i] != '|'
  }

  function EscapeChar(p: Printer, c: char): (s: string)
    ensures s != ""
  {
    if c == '\0' then "\\0"
    else if c == '\t' then "\\t"
    else if c == '\r' then "\\r"
    else if c == '\n' then "\\n"
    else if c == '"' then "\\\""
    else if c == '\\' then "\\\\"
    else if p.printable(c) then [c]
    else "\\u{" + (Hex(c as nat) + "}")
  }

  function Escape(p: Printer, s: string): string {
    if s == "" then "" else EscapeChar(p, s[0]) + Escape(p, s[1..])
  }

  function ShowParam(p: Printer, l: Literal): string {
    match l
    case Int(i) => "Int(" + (ShowInt(i as int) + ")")
    case Float(f) => "Float(" + (p.float(f) + ")")
    case Text(s) => "Text(\"" + (Escape(p, s) + "\")")
    case Bool(b) => if b then "Bool(true)" else "Bool(false)"
    case Null => "Null"
  }

  /** The parameters after the first, and the closing bracket. */
  function ShowMore(p: Printer, params: seq<Literal>): (s: string)
    ensures s != ""
  {
    if params == [] then "]" else ", " + (ShowParam(p, params[0]) + ShowMore(p, params[1..]))
  }

  function ShowParams(p: Printer, params: seq<Literal>): (s: string)
    ensures s != ""
  {
    if params == [] then "[]" else "[" + (ShowParam(p, params[0]) + ShowMore(p, params[1..]))
  }

  function CacheKey(p: Printer, database: Uuid, q: CompiledQuery): string {
    Uuids.Show(database) + ("|" + (q.sql + ("|" + ShowParams(p, q.params))))
  }

  // ---- Equality up to how floats print -----------------------------------------------------

  predicate Alike(p: Printer, a: Literal, b: Literal) {
    a == b || (a.Float? && b.Float? && p.float(a.f) == p.float(b.f))
  }

  predicate AllAlike(p: Printer, a: seq<Literal>, b: seq<Literal>) {
    |a| == |b| && forall i :: 0 <= i < |a| ==> Alike(p, a[i], b[i])
  }

  /** The same database and SQL, and parameters alike. */
  predicate SameQuery(p: Printer, database: Uuid, q: CompiledQuery, database': Uuid, q': CompiledQuery) {
    database == database' && q.sql == q'.sql && AllAlike(p, q.params, q'.params)
  }

  // ---- Printed parameters read back ----------------------------------------------------------

  /** A terminator that occurs in neither part splits in one way. */
  lemma SplitUnique(a: string, b: string, t: char, x: string, y: string)
    requires t !in a && t !in b && a + ([t] + x) == b + ([t] + y)
    ensures a == b && x == y
  {
    var s := a + ([t] + x);
    assert s[|a|] == t && s[|b|] == t;
    assert forall i :: 0 <= i < |a| ==> s[i] == a[i];
    assert forall i :: 0 <= i < |b| ==> s[i] == b[i];
    assert a == s[..|a|] && b == s[..|b|];
    assert x == s[|a| + 1..] && y == s[|b| + 1..];
  }

  lemma SamePrefix(a: string, x: string, y: string)
    requires a + x == a + y
    ensures x == y
  {
    assert (a + x)[|a|..] == x && (a + y)[|a|..] == y;
  }

  /** What stands between an opening text and a terminator reads back. */
  lemma WrappedUnique(open: string, a: string, b: string, t: char, x: string, y: string)
    requires t !in a && t !in b && open + (a + [t]) + x == open + (b + [t]) + y
    ensures a == b && x == y
  {
    ConcatAssoc(open, a + [t], x);
    ConcatAssoc(open, b + [t], y);
    ConcatAssoc(a, [t], x);
    ConcatAssoc(b, [t], y);
    SamePrefix(open, a + ([t] + x), b + ([t] + y));
    SplitUnique(a, b, t, x, y);
  }

  /** Escaped characters are told apart by their first two, or their code. */
  lemma EscapeCharUnique(p: Printer, c: char, c': char, x: string, y: string)
    requires EscapeChar(p, c) + x == EscapeChar(p, c') + y
    ensures c == c' && x == y
  {
    var a, b := EscapeChar(p, c), EscapeChar(p, c');
    assert (a + x)[0] == a[0] && (b + y)[0] == b[0];
    if a[0] == '\\' {
      assert (a + x)[1] == a[1] && (b + y)[1] == b[1];
      if a[1] == 'u' {
        WrappedUnique("\\u{", Hex(c as nat), Hex(c' as nat), '}', x, y);
        HexInjective(c as nat, c' as nat);
      }
    }
    SamePrefix(a, x, y);
  }

  lemma EscapeStart(p: Printer, s: string, x: string)
    requires s != ""
    ensures Escape(p, s) + x == EscapeChar(p, s[0]) + (Escape(p, s[1..]) + x)
    ensures (Escape(p, s) + x)[0] != '"'
  {
    ConcatAssoc(EscapeChar(p, s[0]), Escape(p, s[1..]), x);
  }

  /** Escaped text ends at the first quote that is not escaped. */
  lemma {:induction false} EscapeUnique(p: Printer, s: string, s': string, x: string, y: string)
    requires Escape(p, s) + ("\"" + x) == Escape(p, s') + ("\"" + y)
    ensures s == s' && x == y
  {
    ConcatEmpty("\"" + x);
    ConcatEmpty("\"" + y);
    if s != "" {
      EscapeStart(p, s, "\"" + x);
    }
    if s' != "" {
      EscapeStart(p, s', "\"" + y);
    }
    if s == "" {
      assert s' == "";
      SamePrefix("\"", x, y);
    } else {
      assert s' != "";
      EscapeCharUnique(p, s[0], s'[0], Escape(p, s[1..]) + ("\"" + x), Escape(p, s'[1..]) + ("\"" + y));
      EscapeUnique(p, s[1..], s'[1..], x, y);
      assert s == [s[0]] + s[1..] && s' == [s'[0]] + s'[1..];
    }
  }

  lemma Regroup<T>(open: seq<T>, a: seq<T>, close: seq<T>, x: seq<T>)
    ensures open + (a + close) + x == open + (a + (close + x))
  {
  }

  lemma Adjoin<T>(a: T, b: T, x: seq<T>)
    ensures [a, b] + x == [a] + ([b] + x)
  {
  }

  lemma TextUnique(p: Printer, s: string, s': string, x: string, y: string)
    requires "Text(\"" + (Escape(p, s) + "\")") + x == "Text(\"" + (Escape(p, s') + "\")") + y
    ensures s == s' && x == y
  {
    Regroup("Text(\"", Escape(p, s), "\")", x);
    Regroup("Text(\"", Escape(p, s'), "\")", y);
    SamePrefix("Text(\"", Escape(p, s) + ("\")" + x), Escape(p, s') + ("\")" + y));
    Adjoin('"', ')', x);
    Adjoin('"', ')', y);
    EscapeUnique(p, s, s', ")" + x, ")" + y);
    SamePrefix(")", x, y);
  }

  lemma ParamStart(p: Printer, l: Literal, x: string)
    ensures (ShowParam(p, l) + x)[0] ==
      match l case Int(_) => 'I' case Float(_) => 'F' case Text(_) => 'T' case Bool(_) => 'B' case Null => 'N'
  {
  }

  lemma ParamUnique(p: Printer, a: Literal, b: Literal, x: string, y: string)
    requires Sober(p) && ShowParam(p, a) + x == ShowParam(p, b) + y
    ensures Alike(p, a, b) && x == y
  {
    ParamStart(p, a, x);
    ParamStart(p, b, y);
    match (a, b)
    case (Int(i), Int(j)) =>
      WrappedUnique("Int(", ShowInt(i as int), ShowInt(j as int), ')', x, y);
      ShowIntInjective(i as int, j as int);
    case (Float(f), Float(g)) => WrappedUnique("Float(", p.float(f), p.float(g), ')', x, y);
    case (Text(s), Text(s')) => TextUnique(p, s, s', x, y);
    case (Bool(v), Bool(w)) =>
      assert (ShowParam(p, a) + x)[5] == (if v then 't' else 'f')
        && (ShowParam(p, b) + y)[5] == (if w then 't' else 'f');
      SamePrefix(ShowParam(p, a), x, y);
    case (Null, Null) => SamePrefix("Null", x, y);
    case _ => assert false;
  }

  lemma {:induction false} MoreUnique(p: Printer, a: seq<Literal>, b: seq<Literal>)
    requires Sober(p) && ShowMore(p, a) == ShowMore(p, b)
    ensures AllAlike(p, a, b)
    decreases |a|
  {
    assert a == [] <==> ShowMore(p, a)[0] == ']';
    assert b == [] <==> ShowMore(p, b)[0] == ']';
    if a != [] {
      SamePrefix(", ", ShowParam(p, a[0]) + ShowMore(p, a[1..]), ShowParam(p, b[0]) + ShowMore(p, b[1..]));
      ParamUnique(p, a[0], b[0], ShowMore(p, a[1..]), ShowMore(p, b[1..]));
      MoreUnique(p, a[1..], b[1..]);
      AlikePrepend(p, a, b);
    }
  }

  lemma AlikePrepend(p: Printer, a: seq<Literal>, b: seq<Literal>)
    requires a != [] && b != [] && Alike(p, a[0], b[0]) && AllAlike(p, a[1..], b[1..])
    ensures AllAlike(p, a, b)
  {
    forall i | 0 <= i < |a| ensures Alike(p, a[i], b[i]) {
      if i > 0 {
        assert a[i] == a[1..][i - 1] && b[i] == b[1..][i - 1];
      }
    }
  }

  lemma ParamsUnique(p: Printer, a: seq<Literal>, b: seq<Literal>)
    requires Sober(p) && ShowParams(p, a) == ShowParams(p, b)
    ensures AllAlike(p, a, b)
  {
    if a == [] || b == [] {
      assert |ShowParams(p, [])| == 2;
      EmptyIsShort(p, a);
      EmptyIsShort(p, b);
    } else {
      SamePrefix("[", ShowParam(p, a[0]) + ShowMore(p, a[1..]), ShowParam(p, b[0]) + ShowMore(p, b[1..]));
      ParamUnique(p, a[0], b[0], ShowMore(p, a[1..]), ShowMore(p, b[1..]));
      MoreUnique(p, a[1..], b[1..]);
      AlikePrepend(p, a, b);
    }
  }

  lemma EmptyIsShort(p: Printer, a: seq<Literal>)
    ensures |ShowParams(p, a)| == 2 <==> a == []
  {
    if a != [] {
      ParamStart(p, a[0], "");
    }
  }

  // ---- Quote parity ---------------------------------------------------------------------------------

  /** Reading printed parameters: outside a text, inside one, after a backslash in one, or neither. */
  datatype Scan = Outside | Inside | Escaped | Lost

  /** Outside a text there is no backslash and no bar; inside one, a bar is never escaped. */
  function ScanChar(st: Scan, c: char): Scan {
    match st
    case Outside => if c == '"' then Inside else if c == '\\' || c == '|' then Lost else Outside
    case Inside => if c == '"' then Outside else if c == '\\' then Escaped else Inside
    case Escaped => if c == '|' then Lost else Inside
    case Lost => Lost
  }

  function ScanText(st: Scan, s: string): Scan
    decreases |s|
  {
    if s == "" then st else ScanText(ScanChar(st, s[0]), s[1..])
  }

  lemma {:induction false} ScanConcat(st: Scan, a: string, b: string)
    ensures ScanText(st, a + b) == ScanText(ScanText(st, a), b)
    decreases |a|
  {
    if a == "" {
      ConcatEmpty(b);
    } else {
      assert (a + b)[1..] == a[1..] + b;
      ScanConcat(ScanChar(st, a[0]), a[1..], b);
    }
  }

  lemma {:induction false} LostStaysLost(s: string)
    ensures ScanText(Lost, s) == Lost
  {
    if s != "" {
      LostStaysLost(s[1..]);
    }
  }

  /** Text without quotes, backslashes and bars changes nothing, on either side of a quote. */
  lemma {:induction false} SoundScan(st: Scan, s: string)
    requires Sound(s) && (st == Outside || st == Inside)
    ensures ScanText(st, s) == st
  {
    if s != "" {
      SoundScan(st, s[1..]);
    }
  }

  lemma EscapeCharScan(p: Printer, c: char)
    ensures ScanText(Inside, EscapeChar(p, c)) == Inside
    ensures ScanText(Outside, EscapeChar(p, c)) == if Sound(EscapeChar(p, c)) then Outside else Lost
  {
    var s := EscapeChar(p, c);
    if s[0] == '\\' {
      LostStaysLost(s[1..]);
      assert s[1..] == [s[1]] + s[2..];
      SoundScan(Inside, s[2..]);
    }
  }

  /** Escaped text stays inside its quotes; read from outside it goes nowhere or nowhere good. */
  lemma {:induction false} EscapeScan(p: Printer, s: string)
    ensures ScanText(Inside, Escape(p, s)) == Inside
    ensures ScanText(Outside, Escape(p, s)) in {Outside, Lost}
  {
    if s != "" {
      var head, tail := EscapeChar(p, s[0]), Escape(p, s[1..]);
      EscapeCharScan(p, s[0]);
      EscapeScan(p, s[1..]);
      ScanConcat(Inside, head, tail);
      ScanConcat(Outside, head, tail);
      LostStaysLost(tail);
    }
  }

  lemma WrappedScan(st: Scan, open: string, body: string, close: string)
    ensures ScanText(st, open + (body + close)) == ScanText(ScanText(ScanText(st, open), body), close)
  {
    ScanConcat(st, open, body + close);
    ScanConcat(ScanText(st, open), body, close);
  }

  lemma TextScan(p: Printer, s: string)
    ensures ScanText(Outside, ShowParam(p, Text(s))) == Outside
    ensures ScanText(Inside, ShowParam(p, Text(s))) in {Inside, Lost}
  {
    hide ScanText, Escape;
    var open, body, close := "Text(\"", Escape(p, s), "\")";
    WrappedScan(Outside, open, body, close);
    WrappedScan(Inside, open, body, close);
    QuoteScan("Text(", "");
    QuoteScan("", ")");
    assert open == "Text(" + ("\"" + "") && close == "" + ("\"" + ")");
    EscapeScan(p, s);
    LostStaysLost(close);
  }

  lemma QuoteScan(before: string, after: string)
    requires Sound(before) && Sound(after)
    ensures ScanText(Outside, before + ("\"" + after)) == Inside
    ensures ScanText(Inside, before + ("\"" + after)) == Outside
  {
    WrappedScan(Outside, before, "\"", after);
    WrappedScan(Inside, before, "\"", after);
    SoundScan(Outside, before);
    SoundScan(Inside, before);
    SoundScan(Outside, after);
    SoundScan(Inside, after);
    assert ("\"")[1..] == "";
  }

  lemma ParamScan(p: Printer, l: Literal)
    requires Sober(p)
    ensures ScanText(Outside, ShowParam(p, l)) == Outside
    ensures ScanText(Inside, ShowParam(p, l)) in {Inside, Lost}
  {
    if l.Text? {
      TextScan(p, l.s);
    } else {
      SoundScan(Outside, ShowParam(p, l));
      SoundScan(Inside, ShowParam(p, l));
    }
  }

  lemma {:induction false} MoreScan(p: Printer, params: seq<Literal>)
    requires Sober(p)
    ensures ScanText(Outside, ShowMore(p, params)) == Outside
    ensures ScanText(Inside, ShowMore(p, params)) in {Inside, Lost}
  {
    if params == [] {
      SoundScan(Outside, "]");
      SoundScan(Inside, "]");
    } else {
      MoreScan(p, params[1..]);
      PrefixedScan(p, ", ", params[0], ShowMore(p, params[1..]));
    }
  }

  lemma PrefixedScan(p: Printer, open: string, l: Literal, more: string)
    requires Sober(p) && Sound(open)
    requires ScanText(Outside, more) == Outside && ScanText(Inside, more) in {Inside, Lost}
    ensures ScanText(Outside, open + (ShowParam(p, l) + more)) == Outside
    ensures ScanText(Inside, open + (ShowParam(p, l) + more)) in {Inside, Lost}
  {
    WrappedScan(Outside, open, ShowParam(p, l), more);
    WrappedScan(Inside, open, ShowParam(p, l), more);
    SoundScan(Outside, open);
    SoundScan(Inside, open);
    ParamScan(p, l);
    LostStaysLost(more);
  }

  /** Printed parameters read as such from outside a text, and never from inside one. */
  lemma ParamsScan(p: Printer, params: seq<Literal>)
    requires Sober(p)
    ensures ScanText(Outside, ShowParams(p, params)) == Outside
    ensures ScanText(Inside, ShowParams(p, params)) in {Inside, Lost}
  {
    if params == [] {
      SoundScan(Outside, "[]");
      SoundScan(Inside, "[]");
    } else {
      MoreScan(p, params[1..]);
      PrefixedScan(p, "[", params[0], ShowMore(p, params[1..]));
    }
  }

  /** Printed parameters never end with a bar followed by printed parameters. */
  lemma NoBarBeforeParams(p: Printer, v: string, a: seq<Literal>, b: seq<Literal>)
    requires Sober(p)
    ensures ShowParams(p, a) != v + ("|" + ShowParams(p, b))
  {
    var all, tail := v + ("|" + ShowParams(p, b)), ShowParams(p, b);
    ParamsScan(p, a);
    ParamsScan(p, b);
    ScanConcat(Outside, v, "|" + tail);
    assert ("|" + tail)[1..] == tail;
    LostStaysLost(tail);
  }

  // ---- The key ----------------------------------------------------------------------------------------

  /** When one of two equal texts has its bar later, the other goes on to that bar. */
  lemma LaterBar(s: string, s': string, x: string, y: string) returns (v: string)
    requires |s| < |s'| && s + ("|" + x) == s' + ("|" + y)
    ensures x == v + ("|" + y)
  {
    v := s'[|s| + 1..];
    SharedPrefix(s, s', "|" + x, "|" + y);
    ConcatAssoc(s, "|" + v, "|" + y);
    ConcatAssoc("|", v, "|" + y);
    SamePrefix(s, "|" + x, "|" + (v + ("|" + y)));
    SamePrefix("|", x, v + ("|" + y));
  }

  lemma SharedPrefix(s: string, s': string, x: string, y: string)
    requires |s| < |s'| && x != "" && s + x == s' + y
    ensures s' == s + ([x[0]] + s'[|s| + 1..])
  {
    var all := s + x;
    assert all[|s|] == x[0] && all[..|s|] == s;
    assert all == s' + y && s' == all[..|s'|];
    assert s'[|s|] == x[0] && s'[..|s|] == s;
  }

  /** SQL and parameters can be told apart, whatever bars they contain. */
  lemma BarUnique(p: Printer, s: string, s': string, a: seq<Literal>, b: seq<Literal>)
    requires Sober(p) && |s| <= |s'| && s + ("|" + ShowParams(p, a)) == s' + ("|" + ShowParams(p, b))
    ensures s == s' && ShowParams(p, a) == ShowParams(p, b)
  {
    if |s| < |s'| {
      var v := LaterBar(s, s', ShowParams(p, a), ShowParams(p, b));
      NoBarBeforeParams(p, v, a, b);
    } else {
      SameLengthSplit(s, s', "|" + ShowParams(p, a), "|" + ShowParams(p, b));
      SamePrefix("|", ShowParams(p, a), ShowParams(p, b));
    }
  }

  /** Two compiled queries share a key exactly when they are the same query. */
  lemma KeyIdentifiesQuery(p: Printer, database: Uuid, q: CompiledQuery, database': Uuid, q': CompiledQuery)
    requires Sober(p)
    ensures CacheKey(p, database, q) == CacheKey(p, database', q') <==> SameQuery(p, database, q, database', q')
  {
    if CacheKey(p, database, q) == CacheKey(p, database', q') {
      var rest, rest' := q.sql + ("|" + ShowParams(p, q.params)), q'.sql + ("|" + ShowParams(p, q'.params));
      SameLengthSplit(Uuids.Show(database), Uuids.Show(database'), "|" + rest, "|" + rest');
      Uuids.ShowInjective(database, database');
      SamePrefix("|", rest, rest');
      if |q.sql| <= |q'.sql| {
        BarUnique(p, q.sql, q'.sql, q.params, q'.params);
      } else {
        BarUnique(p, q'.sql, q.sql, q'.params, q.params);
      }
      ParamsUnique(p, q.params, q'.params);
    }
    if SameQuery(p, database, q, database', q') {
      AlikeShowsSame(p, q.params, q'.params);
    }
  }

  lemma SameLengthSplit(a: string, b: string, x: string, y: string)
    requires |a| == |b| && a + x == b + y
    ensures a == b && x == y
  {
    assert a == (a + x)[..|a|] && b == (b + y)[..|b|];
    SamePrefix(a, x, y);
  }

  lemma {:induction false} AlikeShowsMore(p: Printer, a: seq<Literal>, b: seq<Literal>)
    requires AllAlike(p, a, b)
    ensures ShowMore(p, a) == ShowMore(p, b)
    decreases |a|
  {
    if a != [] {
      assert Alike(p, a[0], b[0]);
      AlikeShowsMore(p, a[1..], b[1..]);
    }
  }

  lemma AlikeShowsSame(p: Printer, a: seq<Literal>, b: seq<Literal>)
    requires AllAlike(p, a, b)
    ensures ShowParams(p, a) == ShowParams(p, b)
  {
    if a != [] {
      assert Alike(p, a[0], b[0]);
      AlikeShowsMore(p, a[1..], b[1..]);
    }
  }

  // ---- The cache ----------------------------------------------------------------------------------------

  datatype Entry<T> = Entry(at: nat, value: T)

  /** One result stored, and when. */
  datatype Stored<T> = Stored(database: Uuid, query: CompiledQuery, at: nat, value: T)

  /** The entry last stored under each key. */
  ghost function Entries<T>(p: Printer, log: seq<Stored<T>>): map<string, Entry<T>> {
    if log == [] then map[]
    else
      var last := log[|log| - 1];
      Entries(p, log[..|log| - 1])[CacheKey(p, last.database, last.query) := Entry(last.at, last.value)]
  }

  /** The latest result stored for a query. */
  ghost function LatestFor<T>(p: Printer, log: seq<Stored<T>>, database: Uuid, q: CompiledQuery): Option<Stored<T>> {
    if log == [] then None
    else
      var last := log[|log| - 1];
      if SameQuery(p, last.database, last.query, database, q) then Some(last)
      else LatestFor(p, log[..|log| - 1], database, q)
  }

  /** The result stored, when caching is on and it was stored less than `ttl` seconds ago. */
  ghost function Unexpired<T>(stored: Option<Stored<T>>, ttl: nat, now: nat): Option<T> {
    match stored
    case None => None
    case Some(s) => if ttl > 0 && now - s.at < ttl then Some(s.value) else None
  }

  // What a lookup answers, told by the log alone.

  /** A result of this very query: the same database and SQL, and parameters equal up to how floats print. */
  ghost predicate IsFor<T>(p: Printer, s: Stored<T>, database: Uuid, q: CompiledQuery) {
    && s.database == database && s.query.sql == q.sql && |s.query.params| == |q.params|
    && forall i :: 0 <= i < |q.params| ==>
         || s.query.params[i] == q.params[i]
         || (s.query.params[i].Float? && q.params[i].Float? && p.float(s.query.params[i].f) == p.float(q.params[i].f))
  }

  ghost predicate LatestAt<T>(p: Printer, log: seq<Stored<T>>, k: nat, database: Uuid, q: CompiledQuery) {
    k < |log| && IsFor(p, log[k], database, q) && forall j :: k < j < |log| ==> !IsFor(p, log[j], database, q)
  }

  /** A hit is the value stored last for the query, less than `ttl` seconds ago; a miss means there is none. */
  ghost predicate Serves<T>(p: Printer, log: seq<Stored<T>>, database: Uuid, q: CompiledQuery, ttl: nat, now: nat,
                            r: Option<T>)
  {
    match r
    case Some(v) =>
      ttl > 0
      && exists k: nat :: LatestAt(p, log, k, database, q) && now < log[k].at + ttl && log[k].value == v
    case None =>
      || ttl == 0
      || (forall k :: 0 <= k < |log| ==> !IsFor(p, log[k], database, q))
      || exists k: nat :: LatestAt(p, log, k, database, q) && log[k].at + ttl <= now
  }

  lemma SameQueryIs<T>(p: Printer, s: Stored<T>, database: Uuid, q: CompiledQuery)
    ensures SameQuery(p, s.database, s.query, database, q) <==> IsFor(p, s, database, q)
  {
    if SameQuery(p, s.database, s.query, database, q) {
      assert forall i :: 0 <= i < |q.params| ==> Alike(p, s.query.params[i], q.params[i]);
    }
  }

  lemma {:induction false} LatestForIs<T>(p: Printer, log: seq<Stored<T>>, database: Uuid, q: CompiledQuery)
    returns (k: nat)
    ensures LatestFor(p, log, database, q).None? ==>
      forall j :: 0 <= j < |log| ==> !IsFor(p, log[j], database, q)
    ensures LatestFor(p, log, database, q).Some? ==>
      LatestAt(p, log, k, database, q) && LatestFor(p, log, database, q) == Some(log[k])
  {
    hide SameQuery, IsFor;
    k := 0;
    if log != [] {
      SameQueryIs(p, log[|log| - 1], database, q);
      if IsFor(p, log[|log| - 1], database, q) {
        k := |log| - 1;
      } else {
        var front := log[..|log| - 1];
        k := LatestForIs(p, front, database, q);
        assert forall j :: 0 <= j < |front| ==> front[j] == log[j];
      }
    }
  }

  lemma UnexpiredServes<T>(p: Printer, log: seq<Stored<T>>, database: Uuid, q: CompiledQuery, ttl: nat, now: nat)
    ensures Serves(p, log, database, q, ttl, now, Unexpired(LatestFor(p, log, database, q), ttl, now))
  {
    hide LatestFor, IsFor;
    var k := LatestForIs(p, log, database, q);
  }

  /** Results kept for `ttl` seconds; none when it is zero. */
  class ResultCache<T> {
    const ttl: nat
    var entries: map<string, Entry<T>>

    constructor (ttl: nat)
      ensures this.ttl == ttl && entries == map[]
    {
      this.ttl := ttl;
      entries := map[];
    }

    predicate Enabled() {
      ttl > 0
    }

    /** The entry under a key, unless it has expired. */
    method Get(key: string, now: nat) returns (r: Option<T>)
      ensures r == if Enabled() && key in entries && now - entries[key].at < ttl then Some(entries[key].value) else None
    {
      if !Enabled() || key !in entries {
        return None;
      }
      var entry := entries[key];
      var elapsed := if now < entry.at then 0 else now - entry.at;
      r := if elapsed < ttl then Some(entry.value) else None;
    }

    method Put(key: string, value: T, now: nat)
      modifies this
      ensures entries == if Enabled() then old(entries)[key := Entry(now, value)] else old(entries)
    {
      if !Enabled() {
        return;
      }
      entries := entries[key := Entry(now, value)];
    }

    /** Stores a result as the query handlers do, under the key of its compiled query. */
    method Store(p: Printer, database: Uuid, q: CompiledQuery, value: T, now: nat, ghost log: seq<Stored<T>>)
      requires Enabled() && entries == Entries(p, log)
      modifies this
      ensures entries == Entries(p, log + [Stored(database, q, now, value)])
    {
      Put(CacheKey(p, database, q), value, now);
      assert (log + [Stored(database, q, now, value)])[..|log|] == log;
    }

    /** A hit is the latest unexpired result stored for this very query. */
    method Fetch(p: Printer, database: Uuid, q: CompiledQuery, now: nat,
                 ghost log: seq<Stored<T>>) returns (r: Option<T>)
      requires Sober(p) && entries == Entries(p, log)
      ensures r == Unexpired(LatestFor(p, log, database, q), ttl, now)
      ensures Serves(p, log, database, q, ttl, now, r)
    {
      UnexpiredServes(p, log, database, q, ttl, now);
      EntriesAreLatest(p, log, database, q);
      r := Get(CacheKey(p, database, q), now);
    }
  }

  /** The entry under a query's key is the latest one stored for that query, and no other query's. */
  lemma {:induction false} EntriesAreLatest<T>(p: Printer, log: seq<Stored<T>>, database: Uuid, q: CompiledQuery)
    requires Sober(p)
    ensures var key, entries, latest := CacheKey(p, database, q), Entries(p, log), LatestFor(p, log, database, q);
            && (key in entries <==> latest.Some?)
            && (latest.Some? ==> latest.value in log
                                 && SameQuery(p, latest.value.database, latest.value.query, database, q)
                                 && entries[key] == Entry(latest.value.at, latest.value.value))
  {
    if log != [] {
      var last := log[|log| - 1];
      EntriesAreLatest(p, log[..|log| - 1], database, q);
      KeyIdentifiesQuery(p, last.database, last.query, database, q);
    }
  }
}
