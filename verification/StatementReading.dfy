/**
 A reader of whole SELECT statements, independent of the compiler, and what it
 reads in a compiled statement: the columns asked for, the table, the grouping,
 the order, the row limit and a condition that means the filters.
 */
module StatementReading {
  import opened Common
  import opened Gql
  import opened Dialects
  import opened Keywords
  import opened SqlLexer
  import opened SqlParser
  import opened QueryPieces
  import opened FilterTokens
  import opened FilterMeaning
  import opened PieceShapes
  import opened QueryMeaning
  import opened QueryBuilder

  // ---- Reading a statement -----------------------------------------------------------

  datatype Called =
    | RowCount
    | CountOf(name: string)
    | DistinctCountOf(name: string)
    | SumOf(name: string)
    | AverageOf(name: string)
    | LeastOf(name: string)
    | GreatestOf(name: string)

  datatype Selected = AllColumns | OneColumn(name: string) | Computed(called: Called, alias: Option<string>)

  datatype Term = Ascending(name: string) | Descending(name: string)

  datatype Statement = Statement(
    columns: seq<Selected>,
    table: string,
    condition: Option<Cond>,
    grouping: seq<string>,
    ordering: seq<Term>,
    rows: Option<nat>)

  /** COUNT(*), COUNT(DISTINCT name), or a call with one name. */
  function ReadCall(ts: seq<Token>): Parsed<Called> {
    if |ts| < 4 || ts[1] != LParen then None
    else if ts[0] == Word(KCount) && ts[2].Star? && ts[3] == RParen then Some((RowCount, ts[4..]))
    else if ts[0] == Word(KCount) && ts[2] == Word(KDistinct) then
      if |ts| > 4 && ts[3].Name? && ts[4] == RParen then Some((DistinctCountOf(ts[3].text), ts[5..])) else None
    else if !ts[2].Name? || ts[3] != RParen then None
    else if ts[0] == Word(KCount) then Some((CountOf(ts[2].text), ts[4..]))
    else if ts[0] == Word(KSum) then Some((SumOf(ts[2].text), ts[4..]))
    else if ts[0] == Word(KAvg) then Some((AverageOf(ts[2].text), ts[4..]))
    else if ts[0] == Word(KMin) then Some((LeastOf(ts[2].text), ts[4..]))
    else if ts[0] == Word(KMax) then Some((GreatestOf(ts[2].text), ts[4..]))
    else None
  }

  function ReadAlias(called: Called, ts: seq<Token>): Parsed<Selected> {
    if !StartsWith(ts, Word(KAs)) then Some((Computed(called, None), ts))
    else if |ts| < 2 || !ts[1].Name? then None
    else Some((Computed(called, Some(ts[1].text)), ts[2..]))
  }

  function ReadColumn(ts: seq<Token>): Parsed<Selected> {
    if ts == [] then None
    else if ts[0].Star? then Some((AllColumns, ts[1..]))
    else if ts[0].Name? then Some((OneColumn(ts[0].text), ts[1..]))
    else
      match ReadCall(ts)
      case None => None
      case Some((called, rest)) => ReadAlias(called, rest)
  }

  function ReadGrouping(ts: seq<Token>): Parsed<string> {
    if ts == [] || !ts[0].Name? then None else Some((ts[0].text, ts[1..]))
  }

  function ReadTerm(ts: seq<Token>): Parsed<Term> {
    if |ts| < 2 || !ts[0].Name? then None
    else if ts[1] == Word(KAsc) then Some((Ascending(ts[0].text), ts[2..]))
    else if ts[1] == Word(KDesc) then Some((Descending(ts[0].text), ts[2..]))
    else None
  }

  /** After the first items of a list: a comma and one more, any number of times. */
  function ReadMore<T>(read: seq<Token> -> Parsed<T>, done: seq<T>, ts: seq<Token>): Parsed<seq<T>>
    decreases |ts|
  {
    if !StartsWith(ts, Comma) then Some((done, ts))
    else
      match read(ts[1..])
      case None => None
      case Some((x, rest)) => if |rest| < |ts| then ReadMore(read, done + [x], rest) else None
  }

  function ReadList<T>(read: seq<Token> -> Parsed<T>, ts: seq<Token>): Parsed<seq<T>> {
    match read(ts)
    case None => None
    case Some((x, rest)) => ReadMore(read, [x], rest)
  }

  /** GROUP BY or ORDER BY and a list, or nothing. */
  function ReadBy<T>(word: Keyword, read: seq<Token> -> Parsed<T>, ts: seq<Token>): Parsed<seq<T>> {
    if |ts| < 2 || ts[0] != Word(word) || ts[1] != Word(KBy) then Some(([], ts)) else ReadList(read, ts[2..])
  }

  function ReadWhere(ts: seq<Token>): Parsed<Option<Cond>> {
    if !StartsWith(ts, Word(KWhere)) then Some((None, ts))
    else
      match ParseOr(ts[1..])
      case None => None
      case Some((c, rest)) => Some((Some(c), rest))
  }

  /** Oracle has no LIMIT; the others are asked for rows with LIMIT only. */
  function ReadRows(d: Dialect, ts: seq<Token>): Option<Option<nat>> {
    if ts == [] then Some(None)
    else if d.Oracle? then
      if |ts| == 8 && ts[..5] == [Word(KOffset), Number(0), Word(KRows), Word(KFetch), Word(KNext)]
        && ts[5].Number? && ts[6..] == [Word(KRows), Word(KOnly)] then Some(Some(ts[5].value))
      else None
    else if |ts| == 2 && ts[0] == Word(KLimit) && ts[1].Number? then Some(Some(ts[1].value))
    else None
  }

  function ReadClauses(d: Dialect, columns: seq<Selected>, table: string, ts: seq<Token>): Option<Statement> {
    match ReadWhere(ts)
    case None => None
    case Some((condition, afterWhere)) =>
      match ReadBy(KGroup, ReadGrouping, afterWhere)
      case None => None
      case Some((grouping, afterGroup)) =>
        match ReadBy(KOrder, ReadTerm, afterGroup)
        case None => None
        case Some((ordering, afterOrder)) =>
          match ReadRows(d, afterOrder)
          case None => None
          case Some(rows) => Some(Statement(columns, table, condition, grouping, ordering, rows))
  }

  function ReadStatement(d: Dialect, ts: seq<Token>): Option<Statement> {
    if !StartsWith(ts, Word(KSelect)) then None
    else
      match ReadList(ReadColumn, ts[1..])
      case None => None
      case Some((columns, rest)) =>
        if |rest| < 2 || rest[0] != Word(KFrom) || !rest[1].Name? then None
        else ReadClauses(d, columns, rest[1].text, rest[2..])
  }

  // ---- What a query asks for ------------------------------------------------------------

  predicate Computes(column: Selected, agg: Aggregation) {
    column.Computed? && column.alias == agg.alias &&
    match column.called
    case RowCount => agg.func.Count? && agg.field.None?
    case CountOf(name) => agg.func.Count? && agg.field == Some(name)
    case DistinctCountOf(name) => agg.func.CountDistinct? && agg.field == Some(name)
    case SumOf(name) => agg.func.Sum? && agg.field == Some(name)
    case AverageOf(name) => agg.func.Avg? && agg.field == Some(name)
    case LeastOf(name) => agg.func.Min? && agg.field == Some(name)
    case GreatestOf(name) => agg.func.Max? && agg.field == Some(name)
  }

  predicate AreColumns(columns: seq<Selected>, names: seq<string>) {
    |columns| == |names| && forall k :: 0 <= k < |names| ==> columns[k] == OneColumn(names[k])
  }

  /** All columns, or the fields; with aggregations, the breakouts and then the aggregations. */
  predicate Selects(columns: seq<Selected>, q: Query) {
    if q.aggregations == [] then if q.fields == [] then columns == [AllColumns] else AreColumns(columns, q.fields)
    else
      && |columns| == |q.breakouts| + |q.aggregations|
      && AreColumns(columns[..|q.breakouts|], q.breakouts)
      && forall k :: 0 <= k < |q.aggregations| ==> Computes(columns[|q.breakouts| + k], q.aggregations[k])
  }

  predicate Orders(ordering: seq<Term>, terms: seq<OrderBy>) {
    |ordering| == |terms| && forall k :: 0 <= k < |terms| ==>
      ordering[k] == match terms[k].direction
                     case Asc => Ascending(terms[k].field)
                     case Desc => Descending(terms[k].field)
  }

  /** The type a placeholder names for a value. */
  function TypeFor(d: Dialect, value: Literal): string {
    if d != ClickHouse then ""
    else
      match value
      case Int(_) => "Int64"
      case Float(_) => "Float64"
      case Text(_) => "String"
      case Bool(_) => "UInt8"
      case Null => "Nullable(String)"
  }

  // ---- Lists read back ------------------------------------------------------------------

  /** What may follow an item of a list: a comma, or a word that does not belong to it. */
  predicate Ends(ts: seq<Token>) {
    ts != [] ==> ts[0] == Comma || (ts[0].Word? && ts[0].word != KAs)
  }

  ghost predicate Reads<T(!new)>(read: seq<Token> -> Parsed<T>, ts: seq<Token>, x: T) {
    forall rest :: Ends(rest) ==> read(ts + rest) == Some((x, rest))
  }

  lemma GrowCommas(front: seq<seq<Piece>>, last: seq<Piece>)
    requires front != []
    ensures Tokens(Join(front + [last], CommaSep())) == Tokens(Join(front, CommaSep())) + ([Comma] + Tokens(last))
  {
    assert (front + [last])[..|front|] == front;
    TokensConcat(Join(front, CommaSep()), CommaSep());
    TokensConcat(Join(front, CommaSep()) + CommaSep(), last);
    Phrase2(Comma);
    ConcatAssoc(Tokens(Join(front, CommaSep())), [Comma], Tokens(last));
  }

  lemma MoreReads<T(!new)>(read: seq<Token> -> Parsed<T>, done: seq<T>, ts: seq<Token>, x: T, rest: seq<Token>)
    requires Reads(read, ts, x) && Ends(rest)
    ensures ReadMore(read, done, [Comma] + (ts + rest)) == ReadMore(read, done + [x], rest)
  {
    assert ([Comma] + (ts + rest))[1..] == ts + rest;
  }

  /** A list of pieces with commas between them reads item by item. */
  lemma {:induction false} ListReads<T(!new)>(read: seq<Token> -> Parsed<T>, parts: seq<seq<Piece>>, xs: seq<T>,
                                              rest: seq<Token>)
    requires parts != [] && |xs| == |parts| && Ends(rest)
    requires forall k :: 0 <= k < |parts| ==> Reads(read, Tokens(parts[k]), xs[k])
    ensures ReadList(read, Tokens(Join(parts, CommaSep())) + rest) == ReadMore(read, xs, rest)
  {
    var front, last := parts[..|parts| - 1], parts[|parts| - 1];
    var x := xs[|parts| - 1];
    if front == [] {
      assert xs == [x];
    } else {
      var after := [Comma] + (Tokens(last) + rest);
      ListReads(read, front, xs[..|front|], after);
      MoreReads(read, xs[..|front|], Tokens(last), x, rest);
      assert parts == front + [last] && xs == xs[..|front|] + [x];
      GrowCommas(front, last);
      Regroup(Tokens(Join(front, CommaSep())), [Comma], Tokens(last), rest);
    }
  }

  lemma Regroup<T>(a: seq<T>, b: seq<T>, c: seq<T>, e: seq<T>)
    ensures a + (b + c) + e == a + (b + (c + e))
  {
  }

  /** The list ends where no comma follows. */
  lemma WholeListReads<T(!new)>(read: seq<Token> -> Parsed<T>, parts: seq<seq<Piece>>, xs: seq<T>, rest: seq<Token>)
    requires parts != [] && |xs| == |parts| && Ends(rest) && !StartsWith(rest, Comma)
    requires forall k :: 0 <= k < |parts| ==> Reads(read, Tokens(parts[k]), xs[k])
    ensures ReadList(read, Tokens(Join(parts, CommaSep())) + rest) == Some((xs, rest))
  {
    ListReads(read, parts, xs, rest);
  }

  // ---- The columns ------------------------------------------------------------------------

  lemma OneToken(t: Token)
    ensures Tokens([Tok(t)]) == [t]
  {
    assert Tokens([Tok(t)]) == [t] + Tokens([]);
  }

  lemma NameReads(name: string)
    ensures Reads(ReadColumn, Tokens([NamePiece(name)]), OneColumn(name))
    ensures Reads(ReadGrouping, Tokens([NamePiece(name)]), name)
  {
    OneToken(Name(name));
    forall rest: seq<Token>
      ensures ReadColumn([Name(name)] + rest) == Some((OneColumn(name), rest))
      ensures ReadGrouping([Name(name)] + rest) == Some((name, rest))
    {
      assert ([Name(name)] + rest)[1..] == rest;
    }
  }

  lemma {:induction false} NamePiecesAt(names: seq<string>, k: nat)
    requires k < |names|
    ensures NamePieces(names)[k] == [NamePiece(names[k])]
  {
    if k < |names| - 1 {
      NamePiecesAt(names[..|names| - 1], k);
    }
  }

  ghost predicate Calls(ts: seq<Token>, called: Called) {
    ts != [] && ts[0].Word? && forall rest :: ReadCall(ts + rest) == Some((called, rest))
  }

  lemma CallOnOne(word: Keyword, t: Token, called: Called)
    requires t != Word(KDistinct)
    requires ReadCall([Word(word), LParen, t, RParen]).Some?
    requires ReadCall([Word(word), LParen, t, RParen]).value.0 == called
    ensures Calls(Tokens([Kw(word), Tok(LParen), Tok(t), Tok(RParen)]), called)
  {
    var ts := [Word(word), LParen, t, RParen];
    PhraseCall(Word(word), t);
    forall rest: seq<Token> ensures ReadCall(ts + rest) == Some((called, rest)) {
      assert (ts + rest)[..4] == ts && (ts + rest)[4..] == rest;
      assert ts[..4] == ts;
    }
  }

  lemma DistinctCallReads(name: string)
    ensures Calls(Tokens([Kw(KCount), Tok(LParen), Kw(KDistinct), Gap, NamePiece(name), Tok(RParen)]),
                  DistinctCountOf(name))
  {
    var ts := [Word(KCount), LParen, Word(KDistinct), Name(name), RParen];
    var open, close := [Kw(KCount), Tok(LParen)], [NamePiece(name), Tok(RParen)];
    assert open + [Kw(KDistinct), Gap] + close
        == [Kw(KCount), Tok(LParen), Kw(KDistinct), Gap, NamePiece(name), Tok(RParen)];
    TokensConcat(open + [Kw(KDistinct), Gap], close);
    TokensConcat(open, [Kw(KDistinct), Gap]);
    Phrase2(Word(KDistinct));
    OneToken(LParen);
    OneToken(RParen);
    TokensCons(Kw(KCount), [Tok(LParen)]);
    TokensCons(NamePiece(name), [Tok(RParen)]);
    assert Tokens(open + [Kw(KDistinct), Gap] + close) == ts;
    forall rest: seq<Token> ensures ReadCall(ts + rest) == Some((DistinctCountOf(name), rest)) {
      assert (ts + rest)[5..] == rest && (ts + rest)[2] == Word(KDistinct);
    }
  }

  /** An aggregation without its alias reads as the call it asks for. */
  lemma BareReads(agg: Aggregation, ps: seq<Piece>) returns (called: Called)
    requires agg.alias.None? && AggregationPieces(agg) == Ok(ps)
    ensures Calls(Tokens(ps), called) && Computes(Computed(called, None), agg)
  {
    hide Calls, Tokens;
    if agg.field.None? {
      called := RowCount;
      CallOnOne(KCount, Star, called);
    } else {
      var name := agg.field.value;
      match agg.func
      case Count => called := CountOf(name); CallOnOne(KCount, Name(name), called);
      case CountDistinct => called := DistinctCountOf(name); DistinctCallReads(name);
      case Sum => called := SumOf(name); CallOnOne(KSum, Name(name), called);
      case Avg => called := AverageOf(name); CallOnOne(KAvg, Name(name), called);
      case Min => called := LeastOf(name); CallOnOne(KMin, Name(name), called);
      case Max => called := GreatestOf(name); CallOnOne(KMax, Name(name), called);
    }
  }

  lemma AliasTokens(call: seq<Piece>, alias: string)
    ensures Tokens(call + [Gap, Kw(KAs), Gap, NamePiece(alias)]) == Tokens(call) + [Word(KAs), Name(alias)]
  {
    var rest := [Kw(KAs), Gap, NamePiece(alias)];
    TokensConcat(call, [Gap] + rest);
    TokensCons(Gap, rest);
    Phrase2(Word(KAs));
    OneToken(Name(alias));
    TokensConcat([Kw(KAs), Gap], [NamePiece(alias)]);
    assert [Kw(KAs), Gap] + [NamePiece(alias)] == rest;
    assert [Gap] + rest == [Gap, Kw(KAs), Gap, NamePiece(alias)];
  }

  lemma CallReads(ts: seq<Token>, called: Called)
    requires Calls(ts, called)
    ensures Reads(ReadColumn, ts, Computed(called, None))
  {
    forall rest | Ends(rest) ensures ReadColumn(ts + rest) == Some((Computed(called, None), rest)) {
      assert ReadCall(ts + rest) == Some((called, rest));
    }
  }

  lemma AliasReads(ts: seq<Token>, called: Called, alias: string)
    requires Calls(ts, called)
    ensures Reads(ReadColumn, ts + [Word(KAs), Name(alias)], Computed(called, Some(alias)))
  {
    forall rest: seq<Token>
      ensures ReadColumn(ts + [Word(KAs), Name(alias)] + rest) == Some((Computed(called, Some(alias)), rest))
    {
      var after := [Word(KAs), Name(alias)] + rest;
      ConcatAssoc(ts, [Word(KAs), Name(alias)], rest);
      assert ReadCall(ts + after) == Some((called, after));
      assert after[2..] == rest;
    }
  }

  lemma AggregationReads(agg: Aggregation) returns (x: Selected)
    requires AggregationPieces(agg).Ok?
    ensures Reads(ReadColumn, Tokens(AggregationPieces(agg).value), x) && Computes(x, agg)
  {
    hide Calls, Tokens, Reads;
    var bare := agg.(alias := None);
    var call := AggregationPieces(bare).value;
    var called := BareReads(bare, call);
    if agg.alias.None? {
      CallReads(Tokens(call), called);
      x := Computed(called, None);
    } else {
      AliasTokens(call, agg.alias.value);
      AliasReads(Tokens(call), called, agg.alias.value);
      x := Computed(called, agg.alias);
    }
  }

  lemma {:induction false} AggregationsRead(aggs: seq<Aggregation>) returns (xs: seq<Selected>)
    requires AggregationColumns(aggs).Ok?
    ensures |xs| == |aggs| == |AggregationColumns(aggs).value|
    ensures forall k :: 0 <= k < |aggs| ==>
      Reads(ReadColumn, Tokens(AggregationColumns(aggs).value[k]), xs[k]) && Computes(xs[k], aggs[k])
  {
    hide Tokens, Reads, Computes, AggregationPieces;
    if aggs == [] {
      xs := [];
    } else {
      xs := AggregationsRead(aggs[..|aggs| - 1]);
      var x := AggregationReads(aggs[|aggs| - 1]);
      xs := xs + [x];
    }
  }

  lemma NamesRead(names: seq<string>) returns (xs: seq<Selected>)
    ensures AreColumns(xs, names)
    ensures forall k :: 0 <= k < |names| ==>
      Reads(ReadColumn, Tokens(NamePieces(names)[k]), xs[k])
      && Reads(ReadGrouping, Tokens(NamePieces(names)[k]), names[k])
  {
    hide Tokens, Reads;
    xs := seq(|names|, i requires 0 <= i < |names| => OneColumn(names[i]));
    forall k | 0 <= k < |names|
      ensures Reads(ReadColumn, Tokens(NamePieces(names)[k]), xs[k])
      ensures Reads(ReadGrouping, Tokens(NamePieces(names)[k]), names[k])
    {
      NamePiecesAt(names, k);
      NameReads(names[k]);
    }
  }

  lemma StarReads(rest: seq<Token>)
    requires !StartsWith(rest, Comma)
    ensures ReadList(ReadColumn, [Star] + rest) == Some(([AllColumns], rest))
  {
    assert ([Star] + rest)[1..] == rest;
  }

  lemma SelectReads(q: Query, rest: seq<Token>) returns (columns: seq<Selected>)
    requires SelectPieces(q).Ok? && Ends(rest) && !StartsWith(rest, Comma)
    ensures ReadList(ReadColumn, Tokens(SelectPieces(q).value) + rest) == Some((columns, rest))
    ensures Selects(columns, q)
  {
    hide Tokens, Reads, Computes, ReadList, Join;
    if q.aggregations != [] {
      var parts := AggregationColumns(q.aggregations).value;
      var names := NamesRead(q.breakouts);
      var computed := AggregationsRead(q.aggregations);
      columns := names + computed;
      WholeListReads(ReadColumn, NamePieces(q.breakouts) + parts, columns, rest);
      assert columns[..|q.breakouts|] == names;
    } else if q.fields == [] {
      OneToken(Star);
      StarReads(rest);
      columns := [AllColumns];
    } else {
      columns := NamesRead(q.fields);
      WholeListReads(ReadColumn, NamePieces(q.fields), columns, rest);
    }
  }

  // ---- The clauses after the filters ---------------------------------------------------------

  lemma ByTokens(word: Keyword, list: seq<Piece>)
    ensures Tokens([Gap, Kw(word), Gap, Kw(KBy), Gap] + list) == [Word(word), Word(KBy)] + Tokens(list)
  {
    TokensConcat([Gap, Kw(word), Gap, Kw(KBy), Gap], list);
    Phrase2(Word(word));
    Phrase2(Word(KBy));
    TokensConcat([Kw(word), Gap], [Kw(KBy), Gap]);
    TokensCons(Gap, [Kw(word), Gap] + [Kw(KBy), Gap]);
    assert [Gap] + ([Kw(word), Gap] + [Kw(KBy), Gap]) == [Gap, Kw(word), Gap, Kw(KBy), Gap];
  }

  lemma ByReads<T(!new)>(word: Keyword, read: seq<Token> -> Parsed<T>, parts: seq<seq<Piece>>, xs: seq<T>,
                         rest: seq<Token>)
    requires parts != [] && |xs| == |parts| && Ends(rest) && !StartsWith(rest, Comma)
    requires forall k :: 0 <= k < |parts| ==> Reads(read, Tokens(parts[k]), xs[k])
    ensures ReadBy(word, read, Tokens([Gap, Kw(word), Gap, Kw(KBy), Gap] + Join(parts, CommaSep())) + rest)
         == Some((xs, rest))
  {
    hide Tokens, Reads, ReadList, Join;
    var list := Tokens(Join(parts, CommaSep()));
    WholeListReads(read, parts, xs, rest);
    ByTokens(word, Join(parts, CommaSep()));
    ConcatAssoc([Word(word), Word(KBy)], list, rest);
    assert ([Word(word), Word(KBy)] + (list + rest))[2..] == list + rest;
  }

  lemma TermReads(term: OrderBy) returns (x: Term)
    ensures Reads(ReadTerm, Tokens(OrderPiece(term)), x)
    ensures x == match term.direction case Asc => Ascending(term.field) case Desc => Descending(term.field)
  {
    var word := if term.direction.Asc? then KAsc else KDesc;
    var ts := [Name(term.field), Word(word)];
    x := if term.direction.Asc? then Ascending(term.field) else Descending(term.field);
    Phrase2(Name(term.field));
    OneToken(Word(word));
    TokensConcat([NamePiece(term.field), Gap], [Kw(word)]);
    assert [NamePiece(term.field), Gap] + [Kw(word)] == OrderPiece(term);
    assert Tokens(OrderPiece(term)) == ts;
    forall rest: seq<Token> ensures ReadTerm(ts + rest) == Some((x, rest)) {
      assert (ts + rest)[2..] == rest;
    }
  }

  lemma {:induction false} TermsRead(terms: seq<OrderBy>) returns (xs: seq<Term>)
    ensures Orders(xs, terms)
    ensures forall k :: 0 <= k < |terms| ==> Reads(ReadTerm, Tokens(OrderPieces(terms)[k]), xs[k])
  {
    hide Tokens, Reads, OrderPiece;
    if terms == [] {
      xs := [];
    } else {
      xs := TermsRead(terms[..|terms| - 1]);
      var x := TermReads(terms[|terms| - 1]);
      xs := xs + [x];
    }
  }

  /** The row limit, as the dialect writes it. */
  lemma LimitTokens(d: Dialect, q: Query)
    ensures Tokens(LimitPieces(d, q))
         == if q.limit.None? then []
            else if d.Oracle? then
              [Word(KOffset), Number(0), Word(KRows), Word(KFetch), Word(KNext), Number(q.limit.value), Word(KRows),
               Word(KOnly)]
            else [Word(KLimit), Number(q.limit.value)]
  {
    if q.limit.Some? {
      var n := q.limit.value;
      TokensCons(Gap, LimitClausePieces(d, n));
      if d.Oracle? {
        Phrase3(Word(KOffset), Number(0), Word(KRows));
        Phrase5(Word(KFetch), Word(KNext), Number(n), Word(KRows), Word(KOnly));
        TokensConcat(OffsetPieces() + [Gap], FetchPieces(n));
        TokensConcat(OffsetPieces(), [Gap]);
        assert Tokens([Gap]) == [];
      } else {
        Phrase2(Word(KLimit));
        OneToken(Number(n));
        TokensConcat([Kw(KLimit), Gap], [Tok(Number(n))]);
        assert [Kw(KLimit), Gap] + [Tok(Number(n))] == LimitClausePieces(d, n);
      }
    }
  }

  lemma RowsRead(d: Dialect, q: Query)
    ensures ReadRows(d, Tokens(LimitPieces(d, q))) == Some(q.limit)
    ensures Later(Tokens(LimitPieces(d, q)), {KLimit, KOffset})
  {
    hide Tokens, LimitPieces;
    LimitTokens(d, q);
  }

  /** Text that starts with one of the words, if with anything. */
  predicate Later(ts: seq<Token>, words: set<Keyword>) {
    ts != [] ==> ts[0].Word? && ts[0].word in words
  }

  lemma OrderReads(q: Query, rest: seq<Token>) returns (ordering: seq<Term>)
    requires Later(rest, {KLimit, KOffset})
    ensures ReadBy(KOrder, ReadTerm, Tokens(OrderByPieces(q)) + rest) == Some((ordering, rest))
    ensures Orders(ordering, q.orderBy)
    ensures Later(Tokens(OrderByPieces(q)) + rest, {KOrder, KLimit, KOffset})
  {
    hide Tokens, Reads, ReadTerm, Join;
    if q.orderBy == [] {
      ordering := [];
      NoTokens();
      ConcatEmpty(rest);
    } else {
      ordering := TermsRead(q.orderBy);
      ByReads(KOrder, ReadTerm, OrderPieces(q.orderBy), ordering, rest);
      ByTokens(KOrder, Join(OrderPieces(q.orderBy), CommaSep()));
    }
  }

  lemma NoTokens()
    ensures Tokens([]) == []
  {
  }

  lemma GroupReads(q: Query, rest: seq<Token>)
    requires Later(rest, {KOrder, KLimit, KOffset})
    ensures ReadBy(KGroup, ReadGrouping, Tokens(GroupPieces(q)) + rest)
         == Some((if q.aggregations == [] then [] else q.breakouts, rest))
  {
    hide Tokens, Reads, ReadGrouping, Join;
    if q.aggregations == [] || q.breakouts == [] {
      NoTokens();
      ConcatEmpty(rest);
    } else {
      var _ := NamesRead(q.breakouts);
      ByReads(KGroup, ReadGrouping, NamePieces(q.breakouts), q.breakouts, rest);
    }
  }

  // ---- The whole statement ------------------------------------------------------------------

  lemma TailSplits(d: Dialect, q: Query)
    ensures TailTokens(d, q)
         == Tokens(GroupPieces(q)) + (Tokens(OrderByPieces(q)) + Tokens(LimitPieces(d, q)))
  {
    TokensConcat(GroupPieces(q) + OrderByPieces(q), LimitPieces(d, q));
    TokensConcat(GroupPieces(q), OrderByPieces(q));
    ConcatAssoc(Tokens(GroupPieces(q)), Tokens(OrderByPieces(q)), Tokens(LimitPieces(d, q)));
  }

  /** A condition that is the filters and-ed together, on every row. */
  ghost predicate Means(condition: Option<Cond>, filters: seq<Filter>, params: seq<Literal>) {
    if filters == [] then condition == None
    else condition.Some? && forall e, row :: Eval(e, row, params, condition.value) == AllHold(e, row, filters)
  }

  lemma WhereReads(d: Dialect, q: Query) returns (condition: Option<Cond>)
    requires StatementPieces(d, q).Ok?
    ensures ReadWhere(WhereTokens(d, q) + TailTokens(d, q)) == Some((condition, TailTokens(d, q)))
    ensures Means(condition, q.filters, ParamsOfAll(q.filters))
  {
    hide Eval, AllHold, ParseOr, TokensOfAll, TailTokens, HeadTokens;
    var tail := TailTokens(d, q);
    if q.filters == [] {
      condition := None;
      PlainAround(d, q);
      ConcatEmpty(tail);
    } else {
      var ts := TokensOfAll(d, q.filters, 0, KAnd);
      var c := ConditionMeansFilters(d, q);
      condition := Some(c);
      ConcatAssoc([Word(KWhere)], ts, tail);
      assert ([Word(KWhere)] + (ts + tail))[1..] == ts + tail;
    }
  }

  /** The statement reads as what the query asks for, when its condition is given the parameters. */
  ghost predicate Asks(s: Statement, q: Query, params: seq<Literal>) {
    && Selects(s.columns, q)
    && s.table == q.sourceTable
    && Means(s.condition, q.filters, params)
    && s.grouping == (if q.aggregations == [] then [] else q.breakouts)
    && Orders(s.ordering, q.orderBy)
    && s.rows == q.limit
  }

  lemma ClausesRead(d: Dialect, q: Query, columns: seq<Selected>) returns (s: Statement)
    requires StatementPieces(d, q).Ok? && Selects(columns, q)
    ensures ReadClauses(d, columns, q.sourceTable, WhereTokens(d, q) + TailTokens(d, q)) == Some(s)
    ensures Asks(s, q, ParamsOfAll(q.filters))
  {
    hide Tokens, ReadBy, ReadWhere, ReadRows, Selects, Means, Orders, WhereTokens, TailTokens, StatementPieces;
    var limit := Tokens(LimitPieces(d, q));
    var condition := WhereReads(d, q);
    RowsRead(d, q);
    TailSplits(d, q);
    var ordering := OrderReads(q, limit);
    GroupReads(q, Tokens(OrderByPieces(q)) + limit);
    s := Statement(columns, q.sourceTable, condition, if q.aggregations == [] then [] else q.breakouts, ordering,
                   q.limit);
  }

  lemma FromTokens(table: string)
    ensures Tokens([Gap, Kw(KFrom), Gap, NamePiece(table)]) == [Word(KFrom), Name(table)]
  {
    hide Tokens;
    Phrase2(Word(KFrom));
    OneToken(Name(table));
    TokensConcat([Kw(KFrom), Gap], [NamePiece(table)]);
    assert [Kw(KFrom), Gap] + [NamePiece(table)] == [Kw(KFrom), Gap, NamePiece(table)];
    TokensCons(Gap, [Kw(KFrom), Gap, NamePiece(table)]);
    assert [Gap] + [Kw(KFrom), Gap, NamePiece(table)] == [Gap, Kw(KFrom), Gap, NamePiece(table)];
  }

  lemma HeadSplits(q: Query)
    requires SelectPieces(q).Ok?
    ensures HeadTokens(q) == [Word(KSelect)] + (Tokens(SelectPieces(q).value) + [Word(KFrom), Name(q.sourceTable)])
  {
    hide Tokens, SelectPieces;
    var select := SelectPieces(q).value;
    Phrase2(Word(KSelect));
    FromTokens(q.sourceTable);
    TokensConcat([Kw(KSelect), Gap] + select, [Gap, Kw(KFrom), Gap, NamePiece(q.sourceTable)]);
    TokensConcat([Kw(KSelect), Gap], select);
    ConcatAssoc([Word(KSelect)], Tokens(select), [Word(KFrom), Name(q.sourceTable)]);
  }

  lemma FromReads(d: Dialect, select: seq<Token>, table: string, rest: seq<Token>, columns: seq<Selected>)
    requires ReadList(ReadColumn, select + ([Word(KFrom), Name(table)] + rest))
          == Some((columns, [Word(KFrom), Name(table)] + rest))
    ensures ReadStatement(d, [Word(KSelect)] + (select + [Word(KFrom), Name(table)]) + rest)
         == ReadClauses(d, columns, table, rest)
  {
    hide ReadList, ReadClauses;
    var from := [Word(KFrom), Name(table)];
    var ts := [Word(KSelect)] + (select + from) + rest;
    assert ts[1..] == select + (from + rest);
    assert (from + rest)[2..] == rest;
  }

  lemma StatementReads(d: Dialect, q: Query) returns (s: Statement)
    requires StatementPieces(d, q).Ok?
    ensures ReadStatement(d, StatementTokens(d, q)) == Some(s)
    ensures Asks(s, q, ParamsOfAll(q.filters))
  {
    hide Tokens, ReadList, ReadClauses, ReadStatement, Asks, Selects, WhereTokens, TailTokens, HeadTokens, SelectPieces;
    var rest := WhereTokens(d, q) + TailTokens(d, q);
    var select := Tokens(SelectPieces(q).value);
    var columns := SelectReads(q, [Word(KFrom), Name(q.sourceTable)] + rest);
    HeadSplits(q);
    FromReads(d, select, q.sourceTable, rest, columns);
    ConcatAssoc(HeadTokens(q), WhereTokens(d, q), TailTokens(d, q));
    s := ClausesRead(d, q, columns);
  }

  /** One placeholder for each parameter, in order, each naming the type of its value. */
  predicate Numbered(d: Dialect, binds: seq<Token>, params: seq<Literal>) {
    |binds| == |params| && forall k :: 0 <= k < |params| ==> binds[k] == Bind(k + 1, TypeFor(d, params[k]))
  }

  /** The text lexes, reads as what the query asks for, and has one placeholder for each parameter. */
  ghost predicate Answers(d: Dialect, c: CompiledQuery, q: Query) {
    match Lex(d, c.sql, 0)
    case None => false
    case Some(ts) =>
      match ReadStatement(d, ts)
      case None => false
      case Some(s) => Asks(s, q, c.params) && Numbered(d, Binds(ts), c.params)
  }

  lemma BindsAreNumbered(d: Dialect, params: seq<Literal>)
    ensures Numbered(d, BindTokens(d, params, 0), params)
  {
    forall k | 0 <= k < |params| ensures BindTokens(d, params, 0)[k] == Bind(k + 1, TypeFor(d, params[k])) {
      BindTokensAt(d, params, 0, k);
    }
  }

  /** A compiled query answers the query it was compiled from. */
  lemma CompiledAnswers(d: Dialect, q: Query, c: CompiledQuery)
    requires Compiled(d, StatementPieces(d, q), ParamsOfAll(q.filters)) == Ok(c)
    ensures Answers(d, c, q)
  {
    hide Lex, ReadStatement, Asks, Numbered, StatementPieces, StatementTokens, Binds, BindTokens;
    CompiledTextLexes(d, q);
    var _ := StatementReads(d, q);
    BindsAreNumbered(d, c.params);
  }
}
