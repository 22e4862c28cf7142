/**
 A lexer for the emitted SQL, independent of the compiler: delimited identifiers
 as in section 5.2 of ISO/IEC 9075:1992 (a doubled quote stands for one), words,
 numbers, operators, and the placeholders of the dialect.

 The main lemma says that text built from well-spaced pieces lexes back to
 exactly the tokens it was built from, whatever the quoted names contain.
 */
module SqlLexer {
  import opened Common
  import opened Decimal
  import opened Gql
  import opened Dialects
  import opened Keywords

  /** A placeholder is known by the parameter it stands for: the k-th, counting from 1. */
  datatype Token =
    | Word(word: Keyword)
    | Name(text: string)
    | Number(value: nat)
    | LParen
    | RParen
    | Comma
    | Star
    | Operator(op: CompareOp)
    | Bind(k: nat, typeName: string)

  predicate IsWordChar(c: char) {
    IsLetter(c) || IsDigit(c) || c == '_'
  }

  /** The character around a delimited identifier. */
  function Delimiter(d: Dialect): char {
    match d
    case Postgres => '"'
    case MySql => '`'
    case Sqlite => '"'
    case Oracle => '"'
    case BigQuery => '`'
    case Snowflake => '"'
    case ClickHouse => '`'
    case Generic => '"'
  }

  predicate IsOperatorChar(c: char) {
    c == '=' || c == '<' || c == '>'
  }

  predicate NotBrace(c: char) {
    c != '}'
  }

  /** The length of the longest prefix whose characters satisfy `p`. */
  function Span(s: string, p: char -> bool): (n: nat)
    ensures n <= |s| && (forall k :: 0 <= k < n ==> p(s[k])) && (n < |s| ==> !p(s[n]))
  {
    if s == "" || !p(s[0]) then 0 else 1 + Span(s[1..], p)
  }

  /** The rest of a delimited identifier: its name, and what follows the closing quote. */
  function ReadName(q: char, s: string): (r: Option<(string, string)>)
    ensures r.Some? ==> |r.value.1| < |s|
  {
    if s == "" then None
    else if s[0] != q then
      match ReadName(q, s[1..])
      case None => None
      case Some((name, rest)) => Some(([s[0]] + name, rest))
    else if |s| > 1 && s[1] == q then
      match ReadName(q, s[2..])
      case None => None
      case Some((name, rest)) => Some(([q] + name, rest))
    else Some(("", s[1..]))
  }

  function ReadNumber(s: string): (r: Option<(nat, string)>)
    ensures r.Some? ==> |r.value.1| < |s|
  {
    var n := Span(s, IsDigit);
    if n == 0 then None else Some((Value(s[..n]), s[n..]))
  }

  /** A marker character and a number. */
  function ReadMarked(mark: char, s: string): (r: Option<(Token, string)>)
    requires s != ""
    ensures r.Some? ==> |r.value.1| < |s|
  {
    if s[0] != mark then None
    else
      match ReadNumber(s[1..])
      case None => None
      case Some((n, rest)) => Some((Bind(n, ""), rest))
  }

  /** `{pn:Type}`. */
  function ReadBraced(s: string): (r: Option<(Token, string)>)
    ensures r.Some? ==> |r.value.1| < |s|
  {
    if |s| < 2 || s[0] != '{' || s[1] != 'p' then None
    else
      match ReadNumber(s[2..])
      case None => None
      case Some((n, rest)) => ReadType(n, rest)
  }

  function ReadType(n: nat, s: string): (r: Option<(Token, string)>)
    ensures r.Some? ==> |r.value.1| < |s|
  {
    if s == "" || s[0] != ':' then None
    else
      var m := Span(s[1..], NotBrace);
      if m == |s[1..]| then None else Some((Bind(n, s[1..][..m]), s[1..][m + 1..]))
  }

  /** Placeholders: `?`, `$n`, `:n` or `{pn:Type}`; `?` counts the ones seen so far. */
  function ReadPlaceholder(d: Dialect, s: string, seen: nat): (r: Option<(Token, string)>)
    requires s != ""
    ensures r.Some? ==> |r.value.1| < |s|
  {
    match d
    case Postgres => ReadMarked('$', s)
    case Oracle => ReadMarked(':', s)
    case ClickHouse => ReadBraced(s)
    case _ => if s[0] != '?' then None else Some((Bind(seen + 1, ""), s[1..]))
  }

  function LexOne(d: Dialect, s: string, seen: nat): (r: Option<(Token, string)>)
    requires s != ""
    ensures r.Some? ==> |r.value.1| < |s|
  {
    var c := s[0];
    if c == Delimiter(d) then
      match ReadName(c, s[1..]) case None => None case Some((name, rest)) => Some((Name(name), rest))
    else if IsLetter(c) then
      var n := Span(s, IsWordChar);
      (match KeywordOf(s[..n]) case None => None case Some(word) => Some((Word(word), s[n..])))
    else if IsDigit(c) then
      match ReadNumber(s) case None => None case Some((n, rest)) => Some((Number(n), rest))
    else if c == '(' then Some((LParen, s[1..]))
    else if c == ')' then Some((RParen, s[1..]))
    else if c == ',' then Some((Comma, s[1..]))
    else if c == '*' then Some((Star, s[1..]))
    else if IsOperatorChar(c) then
      var n := Span(s, IsOperatorChar);
      (match OperatorOf(s[..n]) case None => None case Some(op) => Some((Operator(op), s[n..])))
    else ReadPlaceholder(d, s, seen)
  }

  function OperatorOf(text: string): Option<CompareOp> {
    if text == "=" then Some(Eq)
    else if text == "<>" then Some(Ne)
    else if text == "<" then Some(Lt)
    else if text == "<=" then Some(Le)
    else if text == ">" then Some(Gt)
    else if text == ">=" then Some(Ge)
    else None
  }

  lemma OperatorReadsBack(op: CompareOp)
    ensures OperatorOf(op.Sql()) == Some(op)
    ensures op.Sql() != "" && forall k :: 0 <= k < |op.Sql()| ==> IsOperatorChar(op.Sql()[k])
  {
  }

  /** All tokens of `s`, or None when it does not lex; `seen` placeholders came before. */
  function Lex(d: Dialect, s: string, seen: nat): Option<seq<Token>>
    decreases |s|
  {
    if s == "" then Some([])
    else if s[0] == ' ' then Lex(d, s[1..], seen)
    else
      match LexOne(d, s, seen)
      case None => None
      case Some((t, rest)) =>
        match Lex(d, rest, if t.Bind? then seen + 1 else seen)
        case None => None
        case Some(ts) => Some([t] + ts)
  }

  // ---- Spelling tokens --------------------------------------------------------------

  function Spell(d: Dialect, t: Token): string {
    match t
    case Word(word) => word.Text()
    case Name(text) => d.QuoteIdent(text)
    case Number(value) => Show(value)
    case LParen => "("
    case RParen => ")"
    case Comma => ","
    case Star => "*"
    case Operator(op) => op.Sql()
    case Bind(k, typeName) => d.PlaceholderText(k, typeName)
  }

  /** Tokens that can be spelled unambiguously. */
  predicate Spellable(d: Dialect, t: Token) {
    t.Bind? ==> if d.ClickHouse? then '}' !in t.typeName else t.typeName == ""
  }

  /** What may follow a token without changing how it lexes. */
  predicate Boundary(rest: string) {
    rest == "" || rest[0] == ' ' || rest[0] == ')' || rest[0] == ',' || rest[0] == '('
  }

  predicate SelfDelimiting(t: Token) {
    t.LParen? || t.RParen? || t.Comma? || t.Star?
  }

  lemma {:induction false} SpanStops(s: string, rest: string, p: char -> bool)
    requires forall k :: 0 <= k < |s| ==> p(s[k])
    requires rest != "" ==> !p(rest[0])
    ensures Span(s + rest, p) == |s|
  {
    if s == "" {
      assert s + rest == rest;
    } else {
      SpanStops(s[1..], rest, p);
      assert (s + rest)[1..] == s[1..] + rest;
    }
  }

  lemma {:induction false} ReadNameInvertsDoubled(q: char, name: string, rest: string)
    requires rest != "" ==> rest[0] != q
    ensures ReadName(q, Doubled(q, name) + [q] + rest) == Some((name, rest))
  {
    if name == "" {
      assert ([q] + rest)[1..] == rest;
      assert Doubled(q, name) + [q] + rest == [q] + rest;
    } else {
      ReadNameInvertsDoubled(q, name[1..], rest);
      var tail := Doubled(q, name[1..]) + [q] + rest;
      var first := if name[0] == q then [q, q] else [name[0]];
      ConcatAssoc(first, Doubled(q, name[1..]), [q]);
      ConcatAssoc(first, Doubled(q, name[1..]) + [q], rest);
      assert (first + tail)[|first|..] == tail;
      assert [name[0]] + name[1..] == name;
    }
  }

  lemma ReadNumberInvertsShow(n: nat, rest: string)
    requires rest != "" ==> !IsDigit(rest[0])
    ensures ReadNumber(Show(n) + rest) == Some((n, rest))
  {
    SpanStops(Show(n), rest, IsDigit);
    assert (Show(n) + rest)[..|Show(n)|] == Show(n);
    assert (Show(n) + rest)[|Show(n)|..] == rest;
  }

  lemma ReadMarkedInverts(mark: char, k: nat, rest: string)
    requires Boundary(rest)
    ensures ReadMarked(mark, [mark] + Show(k) + rest) == Some((Bind(k, ""), rest))
  {
    assert ([mark] + Show(k) + rest)[1..] == Show(k) + rest;
    ReadNumberInvertsShow(k, rest);
  }

  lemma ReadTypeInverts(k: nat, typeName: string, rest: string)
    requires '}' !in typeName
    ensures ReadType(k, ":" + (typeName + ("}" + rest))) == Some((Bind(k, typeName), rest))
  {
    var tail := typeName + ("}" + rest);
    assert (":" + tail)[1..] == tail;
    SpanStops(typeName, "}" + rest, NotBrace);
    assert tail[..|typeName|] == typeName && tail[|typeName| + 1..] == rest;
  }

  lemma ReadBracedInverts(k: nat, typeName: string, rest: string)
    requires '}' !in typeName
    ensures ReadBraced("{p" + Show(k) + ":" + typeName + "}" + rest) == Some((Bind(k, typeName), rest))
  {
    hide ReadNumber, ReadType, Show;
    var mid := ":" + (typeName + ("}" + rest));
    SixParts("{p", Show(k), ":", typeName, "}", rest);
    assert ("{p" + (Show(k) + mid))[2..] == Show(k) + mid;
    ReadNumberInvertsShow(k, mid);
    ReadTypeInverts(k, typeName, rest);
  }

  lemma SixParts<T>(a: seq<T>, b: seq<T>, c: seq<T>, e: seq<T>, f: seq<T>, g: seq<T>)
    ensures a + b + c + e + f + g == a + (b + (c + (e + (f + g))))
  {
    ConcatAssoc(a + b + c + e, f, g);
    ConcatAssoc(a + b + c, e, f + g);
    ConcatAssoc(a + b, c, e + (f + g));
    ConcatAssoc(a, b, c + (e + (f + g)));
  }

  lemma ReadPlaceholderInverts(d: Dialect, k: nat, typeName: string, rest: string, seen: nat)
    requires Spellable(d, Bind(k, typeName)) && Boundary(rest) && k == seen + 1
    ensures ReadPlaceholder(d, d.PlaceholderText(k, typeName) + rest, seen) == Some((Bind(k, typeName), rest))
  {
    hide ReadMarked, ReadBraced, Boundary, Show;
    match d
    case Postgres => ReadMarkedInverts('$', k, rest);
    case Oracle => ReadMarkedInverts(':', k, rest);
    case ClickHouse => ReadBracedInverts(k, typeName, rest);
    case _ => assert ("?" + rest)[1..] == rest;
  }

  lemma LexWord(d: Dialect, t: Token, rest: string, seen: nat)
    requires t.Word? && Boundary(rest)
    ensures LexOne(d, Spell(d, t) + rest, seen) == Some((t, rest))
  {
    KeywordReadsBack(t.word);
    KeywordLetters(t.word);
    LexLetters(d, t.word.Text(), rest, seen);
  }

  lemma LexLetters(d: Dialect, text: string, rest: string, seen: nat)
    requires text != "" && (forall i :: 0 <= i < |text| ==> IsLetter(text[i])) && Boundary(rest)
    ensures LexOne(d, text + rest, seen)
         == match KeywordOf(text) case None => None case Some(word) => Some((Word(word), rest))
  {
    var s := text + rest;
    assert forall k :: 0 <= k < |text| ==> IsWordChar(text[k]);
    SpanStops(text, rest, IsWordChar);
    assert s[0] == text[0];
    assert s[..|text|] == text && s[|text|..] == rest;
  }

  lemma LexOperator(d: Dialect, t: Token, rest: string, seen: nat)
    requires t.Operator? && Boundary(rest)
    ensures LexOne(d, Spell(d, t) + rest, seen) == Some((t, rest))
  {
    OperatorReadsBack(t.op);
    LexSigns(d, t.op.Sql(), rest, seen);
  }

  lemma LexSigns(d: Dialect, text: string, rest: string, seen: nat)
    requires text != "" && (forall i :: 0 <= i < |text| ==> IsOperatorChar(text[i])) && Boundary(rest)
    ensures LexOne(d, text + rest, seen)
         == match OperatorOf(text) case None => None case Some(op) => Some((Operator(op), rest))
  {
    var s := text + rest;
    SpanStops(text, rest, IsOperatorChar);
    assert s[0] == text[0];
    assert s[..|text|] == text && s[|text|..] == rest;
  }

  lemma LexNumber(d: Dialect, t: Token, rest: string, seen: nat)
    requires t.Number? && Boundary(rest)
    ensures LexOne(d, Spell(d, t) + rest, seen) == Some((t, rest))
  {
    ReadNumberInvertsShow(t.value, rest);
    assert (Show(t.value) + rest)[0] == Show(t.value)[0];
    assert IsDigit(Show(t.value)[0]);
  }

  lemma LexName(d: Dialect, t: Token, rest: string, seen: nat)
    requires t.Name? && Boundary(rest)
    ensures LexOne(d, Spell(d, t) + rest, seen) == Some((t, rest))
  {
    var q := d.QuoteChar();
    var s := d.QuoteIdent(t.text) + rest;
    assert s[1..] == Doubled(q, t.text) + [q] + rest;
    ReadNameInvertsDoubled(q, t.text, rest);
  }

  predicate IsMark(c: char) {
    c == '$' || c == ':' || c == '{' || c == '?'
  }

  lemma PlaceholderStarts(d: Dialect, k: nat, typeName: string)
    ensures d.PlaceholderText(k, typeName) != "" && IsMark(d.PlaceholderText(k, typeName)[0])
  {
    assert "{p" + Show(k) + ":" + typeName + "}" == ['{'] + ("p" + Show(k) + ":" + typeName + "}");
  }

  lemma LexOneElse(d: Dialect, s: string, seen: nat)
    requires s != "" && IsMark(s[0])
    ensures LexOne(d, s, seen) == ReadPlaceholder(d, s, seen)
  {
  }

  lemma LexPlaceholder(d: Dialect, t: Token, rest: string, seen: nat)
    requires t.Bind? && Spellable(d, t) && Boundary(rest) && t.k == seen + 1
    ensures LexOne(d, Spell(d, t) + rest, seen) == Some((t, rest))
  {
    ReadPlaceholderInverts(d, t.k, t.typeName, rest, seen);
    PlaceholderStarts(d, t.k, t.typeName);
    var text := d.PlaceholderText(t.k, t.typeName);
    assert (text + rest)[0] == text[0];
    LexOneElse(d, text + rest, seen);
  }

  /** A spelled token reads back, when what follows cannot run into it. */
  lemma LexOneInvertsSpell(d: Dialect, t: Token, rest: string, seen: nat)
    requires Spellable(d, t) && (SelfDelimiting(t) || Boundary(rest))
    requires t.Bind? ==> t.k == seen + 1
    ensures LexOne(d, Spell(d, t) + rest, seen) == Some((t, rest))
  {
    match t
    case Word(_) => LexWord(d, t, rest, seen);
    case Name(_) => LexName(d, t, rest, seen);
    case Number(_) => LexNumber(d, t, rest, seen);
    case Operator(_) => LexOperator(d, t, rest, seen);
    case Bind(_, _) => LexPlaceholder(d, t, rest, seen);
    case _ =>
  }

  // ---- Text made of pieces ------------------------------------------------------------

  /** A space, or a token. */
  datatype Piece = Gap | Tok(t: Token)

  function PieceText(d: Dialect, p: Piece): string {
    match p case Gap => " " case Tok(t) => Spell(d, t)
  }

  function TextOf(d: Dialect, ps: seq<Piece>): string {
    if ps == [] then "" else PieceText(d, ps[0]) + TextOf(d, ps[1..])
  }

  function Tokens(ps: seq<Piece>): seq<Token> {
    if ps == [] then [] else (if ps[0].Tok? then [ps[0].t] else []) + Tokens(ps[1..])
  }

  /** The placeholders among the tokens, in order. */
  function Binds(ts: seq<Token>): seq<Token> {
    if ts == [] then [] else (if ts[0].Bind? then [ts[0]] else []) + Binds(ts[1..])
  }

  predicate Spaced(ps: seq<Piece>) {
    forall i :: 0 <= i < |ps| - 1 ==> EndsAlone(ps[i]) || StartsAlone(ps[i + 1])
  }

  predicate EndsAlone(p: Piece) {
    p.Gap? || SelfDelimiting(p.t)
  }

  predicate StartsAlone(p: Piece) {
    p.Gap? || p.t.RParen? || p.t.Comma? || p.t.LParen?
  }

  predicate AllSpellable(d: Dialect, ps: seq<Piece>) {
    forall i :: 0 <= i < |ps| && ps[i].Tok? ==> Spellable(d, ps[i].t)
  }

  predicate NumberedFrom(ts: seq<Token>, seen: nat) {
    forall j :: 0 <= j < |Binds(ts)| ==> Binds(ts)[j].Bind? && Binds(ts)[j].k == seen + j + 1
  }

  lemma NumberedRest(t: Token, ts: seq<Token>, seen: nat)
    requires NumberedFrom([t] + ts, seen)
    ensures t.Bind? ==> t.k == seen + 1
    ensures NumberedFrom(ts, if t.Bind? then seen + 1 else seen)
  {
    var all := [t] + ts;
    assert all[1..] == ts;
    if t.Bind? {
      assert Binds(all) == [t] + Binds(ts);
      assert Binds(all)[0] == t;
      forall j | 0 <= j < |Binds(ts)|
        ensures Binds(ts)[j].Bind? && Binds(ts)[j].k == seen + 1 + j + 1
      {
        assert Binds(ts)[j] == Binds(all)[j + 1];
      }
    } else {
      assert Binds(all) == Binds(ts);
    }
  }

  lemma LexCons(d: Dialect, t: Token, rest: string, seen: nat, ts: seq<Token>)
    requires Spellable(d, t) && (SelfDelimiting(t) || Boundary(rest))
    requires t.Bind? ==> t.k == seen + 1
    requires Lex(d, rest, if t.Bind? then seen + 1 else seen) == Some(ts)
    ensures Lex(d, Spell(d, t) + rest, seen) == Some([t] + ts)
  {
    LexOneInvertsSpell(d, t, rest, seen);
    assert (Spell(d, t) + rest)[0] == Spell(d, t)[0];
  }

  lemma SpacedRest(d: Dialect, ps: seq<Piece>)
    requires ps != [] && Spaced(ps) && AllSpellable(d, ps)
    ensures Spaced(ps[1..]) && AllSpellable(d, ps[1..])
    ensures EndsAlone(ps[0]) || Boundary(TextOf(d, ps[1..]))
  {
    var rest := ps[1..];
    assert forall i :: 0 <= i < |rest| ==> rest[i] == ps[i + 1];
    if !EndsAlone(ps[0]) {
      assert rest != [] ==> StartsAlone(ps[0 + 1]);
    }
  }

  /** Well-spaced text lexes to exactly the tokens it spells. */
  lemma {:induction false} LexText(d: Dialect, ps: seq<Piece>, seen: nat)
    requires AllSpellable(d, ps) && Spaced(ps) && NumberedFrom(Tokens(ps), seen)
    ensures Lex(d, TextOf(d, ps), seen) == Some(Tokens(ps))
  {
    if ps != [] {
      var p, rest := ps[0], ps[1..];
      var tail := TextOf(d, rest);
      SpacedRest(d, ps);
      if p.Gap? {
        assert Tokens(ps) == Tokens(rest);
        LexText(d, rest, seen);
        assert (" " + tail)[1..] == tail;
      } else {
        NumberedRest(p.t, Tokens(rest), seen);
        LexText(d, rest, if p.t.Bind? then seen + 1 else seen);
        LexCons(d, p.t, tail, seen, Tokens(rest));
      }
    }
  }

  lemma TextCons(d: Dialect, p: Piece, ps: seq<Piece>)
    ensures TextOf(d, [p] + ps) == PieceText(d, p) + TextOf(d, ps)
  {
    assert ([p] + ps)[1..] == ps;
  }

  lemma {:induction false} TextOfConcat(d: Dialect, a: seq<Piece>, b: seq<Piece>)
    ensures TextOf(d, a + b) == TextOf(d, a) + TextOf(d, b)
  {
    if a == [] {
      assert a + b == b;
    } else {
      var x, rest := a[0], a[1..];
      assert a == [x] + rest;
      ConcatAssoc([x], rest, b);
      TextCons(d, x, rest);
      TextCons(d, x, rest + b);
      TextOfConcat(d, rest, b);
      ConcatAssoc(PieceText(d, x), TextOf(d, rest), TextOf(d, b));
    }
  }

  function TokenOf(p: Piece): seq<Token> {
    if p.Tok? then [p.t] else []
  }

  lemma TokensCons(p: Piece, ps: seq<Piece>)
    ensures Tokens([p] + ps) == TokenOf(p) + Tokens(ps)
  {
    assert ([p] + ps)[1..] == ps;
  }

  lemma {:induction false} TokensConcat(a: seq<Piece>, b: seq<Piece>)
    ensures Tokens(a + b) == Tokens(a) + Tokens(b)
  {
    if a == [] {
      assert a + b == b;
    } else {
      var x, rest := a[0], a[1..];
      assert a == [x] + rest;
      ConcatAssoc([x], rest, b);
      TokensCons(x, rest);
      TokensCons(x, rest + b);
      TokensConcat(rest, b);
      ConcatAssoc(TokenOf(x), Tokens(rest), Tokens(b));
    }
  }

  function BindOf(t: Token): seq<Token> {
    if t.Bind? then [t] else []
  }

  lemma BindsCons(t: Token, ts: seq<Token>)
    ensures Binds([t] + ts) == BindOf(t) + Binds(ts)
  {
    assert ([t] + ts)[1..] == ts;
  }

  lemma {:induction false} BindsConcat(a: seq<Token>, b: seq<Token>)
    ensures Binds(a + b) == Binds(a) + Binds(b)
  {
    if a == [] {
      assert a + b == b;
    } else {
      var x, rest := a[0], a[1..];
      assert a == [x] + rest;
      ConcatAssoc([x], rest, b);
      BindsCons(x, rest);
      BindsCons(x, rest + b);
      BindsConcat(rest, b);
      ConcatAssoc(BindOf(x), Binds(rest), Binds(b));
    }
  }
}
