/**
 What the compiler promises about a whole statement: its text lexes to the
 tokens intended, whatever the quoted names contain; its placeholders are the
 bound parameters in order; its WHERE clause means the filters; and the text does
 not depend on the literals.
 */
module QueryMeaning {
  import opened Common
  import opened Gql
  import opened Dialects
  import opened Keywords
  import opened SqlLexer
  import opened SqlParser
  import opened QueryPieces
  import opened FilterTokens
  import opened FilterMeaning
  import opened PieceShapes

  // ---- The whole statement ------------------------------------------------------------------

  function WhereTokens(d: Dialect, q: Query): seq<Token> {
    if q.filters == [] then [] else [Word(KWhere)] + TokensOfAll(d, q.filters, 0, KAnd)
  }

  lemma WhereStart(list: seq<Piece>)
    ensures Tokens([Gap, Kw(KWhere), Gap] + list) == [Word(KWhere)] + Tokens(list)
  {
    Phrase2(Word(KWhere));
    TokensCons(Gap, [Kw(KWhere), Gap]);
    assert [Gap] + [Kw(KWhere), Gap] == [Gap, Kw(KWhere), Gap];
    TokensConcat([Gap, Kw(KWhere), Gap], list);
  }

  lemma WhereSpells(d: Dialect, q: Query)
    ensures Tokens(WherePieces(d, q)) == WhereTokens(d, q)
    ensures Binds(WhereTokens(d, q)) == BindTokens(d, ParamsOfAll(q.filters), 0)
  {
    if q.filters != [] {
      var list := Join(PartsOf(d, q.filters, 0), Joiner(KAnd));
      PartsSpell(d, q.filters, 0, KAnd, PartsOf(d, q.filters, 0), TokensOfAll(d, q.filters, 0, KAnd));
      WhereStart(list);
      AllBind(d, q.filters, 0, KAnd, TokensOfAll(d, q.filters, 0, KAnd), ParamsOfAll(q.filters));
      WordThenBinds(KWhere, TokensOfAll(d, q.filters, 0, KAnd));
    }
  }

  lemma NumberedAsBound(d: Dialect, ts: seq<Token>, params: seq<Literal>)
    requires Binds(ts) == BindTokens(d, params, 0)
    ensures NumberedFrom(ts, 0)
  {
    forall j | 0 <= j < |Binds(ts)|
      ensures Binds(ts)[j].Bind? && Binds(ts)[j].k == 0 + j + 1
    {
      BindTokensAt(d, params, 0, j);
    }
  }

  /** The tokens of a compiled statement. */
  function StatementTokens(d: Dialect, q: Query): seq<Token>
    requires SelectPieces(q).Ok?
  {
    HeadTokens(q) + WhereTokens(d, q) + TailTokens(d, q)
  }

  /** SELECT, the columns, FROM and the table. */
  function HeadTokens(q: Query): seq<Token>
    requires SelectPieces(q).Ok?
  {
    Tokens(HeadPieces(q, SelectPieces(q).value))
  }

  /** GROUP BY, ORDER BY and the row limit. */
  function TailTokens(d: Dialect, q: Query): seq<Token> {
    Tokens(TailPieces(d, q))
  }

  lemma StatementIsTidy(d: Dialect, q: Query)
    requires SelectPieces(q).Ok?
    ensures Tidy(d, StatementPieces(d, q).value)
    ensures Tokens(StatementPieces(d, q).value) == StatementTokens(d, q)
  {
    var head, filters, tail := HeadPieces(q, SelectPieces(q).value), WherePieces(d, q), TailPieces(d, q);
    PlainSelect(d, q);
    PlainHead(d, q, SelectPieces(q).value);
    WhereIsTidy(d, q);
    TailIsClause(d, q);
    TidyConcat(d, head, filters);
    TidyConcat(d, head + filters, tail);
    WhereSpells(d, q);
    TokensConcat(head, filters);
    TokensConcat(head + filters, tail);
  }

  /**
   The text of a compiled statement lexes to the intended tokens: every quoted
   name reads back, by the quote doubling of section 5.2 of ISO/IEC 9075:1992, to
   the name it was made from, and the placeholders, in the form of the dialect,
   are exactly the bound parameters, in order, numbered from 1.
   */
  lemma CompiledTextLexes(d: Dialect, q: Query)
    requires StatementPieces(d, q).Ok?
    ensures Lex(d, TextOf(d, StatementPieces(d, q).value), 0) == Some(StatementTokens(d, q))
    ensures Binds(StatementTokens(d, q)) == BindTokens(d, ParamsOfAll(q.filters), 0)
    ensures |Binds(StatementTokens(d, q))| == |ParamsOfAll(q.filters)|
  {
    hide Lex, TextOf, Tokens, Binds, BindTokens, NumberedFrom, WhereTokens, SelectPieces, TailPieces;
    var head, tail := Tokens(HeadPieces(q, SelectPieces(q).value)), Tokens(TailPieces(d, q));
    StatementIsTidy(d, q);
    WhereSpells(d, q);
    PlainSelect(d, q);
    PlainHead(d, q, SelectPieces(q).value);
    TailIsClause(d, q);
    PlainTokens(d, HeadPieces(q, SelectPieces(q).value));
    PlainTokens(d, TailPieces(d, q));
    BindsAround(head, WhereTokens(d, q), tail);
    NumberedAsBound(d, StatementTokens(d, q), ParamsOfAll(q.filters));
    LexText(d, StatementPieces(d, q).value, 0);
  }

  // ---- The WHERE clause means the filters ------------------------------------------------------

  /** What follows the first WHERE, if there is one. */
  function AfterWhere(ts: seq<Token>): Option<seq<Token>> {
    if ts == [] then None
    else if ts[0] == Word(KWhere) then Some(ts[1..])
    else AfterWhere(ts[1..])
  }

  lemma {:induction false} WhereAfterPlain(before: seq<Token>, ts: seq<Token>)
    requires forall i :: 0 <= i < |before| ==> PlainToken(before[i])
    ensures AfterWhere(before + ts) == AfterWhere(ts)
  {
    if before == [] {
      assert before + ts == ts;
    } else {
      WhereAfterPlain(before[1..], ts);
      assert (before + ts)[1..] == before[1..] + ts;
    }
  }

  lemma ClauseStarts(d: Dialect, ps: seq<Piece>)
    requires Clause(d, ps)
    ensures !StartsWith(Tokens(ps), Word(KAnd)) && !StartsWith(Tokens(ps), Word(KOr))
  {
    if ps != [] {
      assert ps == [Gap] + ([ps[1]] + ps[2..]);
      TokensCons(Gap, [ps[1]] + ps[2..]);
      TokensCons(ps[1], ps[2..]);
    }
  }

  lemma PlainAround(d: Dialect, q: Query)
    requires StatementPieces(d, q).Ok?
    ensures forall i :: 0 <= i < |HeadTokens(q)| ==> PlainToken(HeadTokens(q)[i])
    ensures forall i :: 0 <= i < |TailTokens(d, q)| ==> PlainToken(TailTokens(d, q)[i])
    ensures !StartsWith(TailTokens(d, q), Word(KAnd)) && !StartsWith(TailTokens(d, q), Word(KOr))
  {
    PlainSelect(d, q);
    PlainHead(d, q, SelectPieces(q).value);
    TailIsClause(d, q);
    PlainTokens(d, HeadPieces(q, SelectPieces(q).value));
    PlainTokens(d, TailPieces(d, q));
    ClauseStarts(d, TailPieces(d, q));
  }

  lemma AfterWhereFinds(head: seq<Token>, ts: seq<Token>, tail: seq<Token>)
    requires forall i :: 0 <= i < |head| ==> PlainToken(head[i])
    ensures AfterWhere(head + ([Word(KWhere)] + ts) + tail) == Some(ts + tail)
  {
    ConcatAssoc(head, [Word(KWhere)] + ts, tail);
    WhereAfterPlain(head, [Word(KWhere)] + ts + tail);
    assert ([Word(KWhere)] + ts + tail)[1..] == ts + tail;
  }

  lemma NoWhere(head: seq<Token>, tail: seq<Token>)
    requires forall i :: 0 <= i < |head| ==> PlainToken(head[i])
    requires forall i :: 0 <= i < |tail| ==> PlainToken(tail[i])
    ensures AfterWhere(head + [] + tail) == None
  {
    WhereAfterPlain(head, tail);
    WhereAfterPlain(tail, []);
    ConcatEmpty(head);
    ConcatEmpty(tail);
  }

  /** The conditions after WHERE, up to the clauses that follow them. */
  lemma ConditionMeansFilters(d: Dialect, q: Query) returns (c: Cond)
    requires StatementPieces(d, q).Ok? && q.filters != []
    ensures ParseOr(TokensOfAll(d, q.filters, 0, KAnd) + TailTokens(d, q)) == Some((c, TailTokens(d, q)))
    ensures forall e, row :: Eval(e, row, ParamsOfAll(q.filters), c) == AllHold(e, row, q.filters)
  {
    var ts, tail := TokensOfAll(d, q.filters, 0, KAnd), TailTokens(d, q);
    PlainAround(d, q);
    c := Conjunction(q.filters, 0);
    AndParses(d, q.filters, 0, tail, ts, c);
    AndIsOr(ts + tail, c, tail);
    forall e, row ensures Eval(e, row, ParamsOfAll(q.filters), c) == AllHold(e, row, q.filters) {
      ConjunctionMeans(e, row, q.filters, 0, ParamsOfAll(q.filters));
    }
  }

  /**
   The WHERE clause of the statement parses, with standard precedence, to a
   condition that has on every row the truth value of the filters and-ed together
   when the k-th placeholder stands for the k-th bound parameter. Without filters
   there is no WHERE clause.
   */
  lemma WhereMeansFilters(d: Dialect, q: Query) returns (c: Cond)
    requires StatementPieces(d, q).Ok?
    ensures q.filters == [] ==> AfterWhere(StatementTokens(d, q)) == None
    ensures q.filters != [] ==>
      && AfterWhere(StatementTokens(d, q)).Some?
      && ParseOr(AfterWhere(StatementTokens(d, q)).value) == Some((c, TailTokens(d, q)))
      && forall e, row :: Eval(e, row, ParamsOfAll(q.filters), c) == AllHold(e, row, q.filters)
  {
    var head, tail := HeadTokens(q), TailTokens(d, q);
    PlainAround(d, q);
    if q.filters == [] {
      c := ConstantCond(1);
      NoWhere(head, tail);
    } else {
      AfterWhereFinds(head, TokensOfAll(d, q.filters, 0, KAnd), tail);
      c := ConditionMeansFilters(d, q);
    }
  }

  // ---- The text does not depend on the literals ---------------------------------------------------

  /** The same filter up to its literals; where placeholders name types, up to their values. */
  predicate SameShape(d: Dialect, f: Filter, g: Filter) {
    match (f, g)
    case (Compare(a, op, x), Compare(b, op', y)) => a == b && op == op' && d.TypeName(x) == d.TypeName(y)
    case (Like(a, _, ci), Like(b, _, ci')) => a == b && ci == ci'
    case (In(a, xs), In(b, ys)) => a == b && SameTypes(d, xs, ys)
    case (Between(a, x, x'), Between(b, y, y')) =>
      a == b && d.TypeName(x) == d.TypeName(y) && d.TypeName(x') == d.TypeName(y')
    case (IsNull(a), IsNull(b)) => a == b
    case (IsNotNull(a), IsNotNull(b)) => a == b
    case (And(fs), And(gs)) => SameShapes(d, fs, gs)
    case (Or(fs), Or(gs)) => SameShapes(d, fs, gs)
    case (Not(f'), Not(g')) => SameShape(d, f', g')
    case _ => false
  }

  predicate SameShapes(d: Dialect, fs: seq<Filter>, gs: seq<Filter>) {
    |fs| == |gs| && (fs != [] ==>
      SameShape(d, fs[|fs| - 1], gs[|gs| - 1]) && SameShapes(d, fs[..|fs| - 1], gs[..|gs| - 1]))
  }

  predicate SameTypes(d: Dialect, xs: seq<Literal>, ys: seq<Literal>) {
    |xs| == |ys| && forall k :: 0 <= k < |xs| ==> d.TypeName(xs[k]) == d.TypeName(ys[k])
  }

  lemma BindPiecesUnfold(d: Dialect, xs: seq<Literal>, front: seq<Literal>, last: Literal, n: nat)
    requires xs != [] && front == xs[..|xs| - 1] && last == xs[|xs| - 1]
    ensures BindPieces(d, xs, n) == BindPieces(d, front, n) + [[BindPiece(d, n + |xs|, last)]]
  {
  }

  lemma {:induction false} SameBinds(d: Dialect, xs: seq<Literal>, ys: seq<Literal>, n: nat)
    requires SameTypes(d, xs, ys)
    ensures BindPieces(d, xs, n) == BindPieces(d, ys, n)
  {
    if xs != [] {
      var k := |xs| - 1;
      assert BindPiece(d, n + |xs|, xs[k]) == BindPiece(d, n + |xs|, ys[k]);
      hide BindPieces, BindPiece;
      SameBinds(d, xs[..k], ys[..k], n);
      BindPiecesUnfold(d, xs, xs[..k], xs[k], n);
      BindPiecesUnfold(d, ys, ys[..k], ys[k], n);
    }
  }

  lemma {:induction false} SameShapeSameText(d: Dialect, f: Filter, g: Filter, n: nat)
    requires SameShape(d, f, g)
    ensures FilterPieces(d, f, n) == FilterPieces(d, g, n) && |ParamsOf(f)| == |ParamsOf(g)|
    decreases f, 1
  {
    match f
    case In(_, xs) => SameBinds(d, xs, g.values, n);
    case And(fs) => SameShapesSameText(d, fs, g.subs, n);
    case Or(fs) => SameShapesSameText(d, fs, g.subs, n);
    case Not(inner) => SameShapeSameText(d, inner, g.inner, n);
    case _ =>
  }

  lemma {:induction false} SameShapesSameText(d: Dialect, fs: seq<Filter>, gs: seq<Filter>, n: nat)
    requires SameShapes(d, fs, gs)
    ensures PartsOf(d, fs, n) == PartsOf(d, gs, n) && |ParamsOfAll(fs)| == |ParamsOfAll(gs)|
    decreases fs, 0
  {
    if fs != [] {
      var f0, g0 := fs[..|fs| - 1], gs[..|gs| - 1];
      SameShapesSameText(d, f0, g0, n);
      SameShapeSameText(d, fs[|fs| - 1], gs[|gs| - 1], n + |ParamsOfAll(f0)|);
      PartsOfUnfold(d, fs, n);
      PartsOfUnfold(d, gs, n);
    }
  }

  /** Queries that differ only in filter literals compile to the same text, or fail alike. */
  lemma TextIgnoresLiterals(d: Dialect, q: Query, filters: seq<Filter>)
    requires SameShapes(d, q.filters, filters)
    ensures StatementPieces(d, q) == StatementPieces(d, q.(filters := filters))
    ensures |ParamsOfAll(q.filters)| == |ParamsOfAll(filters)|
  {
    var q' := q.(filters := filters);
    SameShapesSameText(d, q.filters, filters, 0);
    SameSelect(q, filters);
    SameWhere(d, q, q');
    SameTail(d, q, filters);
  }

  lemma SameSelect(q: Query, filters: seq<Filter>)
    ensures SelectPieces(q) == SelectPieces(q.(filters := filters))
    ensures forall select :: HeadPieces(q, select) == HeadPieces(q.(filters := filters), select)
  {
  }

  lemma SameTail(d: Dialect, q: Query, filters: seq<Filter>)
    ensures TailPieces(d, q) == TailPieces(d, q.(filters := filters))
  {
    var q' := q.(filters := filters);
    assert GroupPieces(q) == GroupPieces(q') && OrderByPieces(q) == OrderByPieces(q')
      && LimitPieces(d, q) == LimitPieces(d, q');
  }

  lemma SameWhere(d: Dialect, q: Query, q': Query)
    requires |q.filters| == |q'.filters| && PartsOf(d, q.filters, 0) == PartsOf(d, q'.filters, 0)
    ensures WherePieces(d, q) == WherePieces(d, q')
  {
  }

  // ---- Which queries compile ------------------------------------------------------------------------

  predicate HasColumn(agg: Aggregation) {
    agg.field.Some? || agg.func.Count?
  }

  lemma {:induction false} ColumnsIff(aggs: seq<Aggregation>)
    ensures AggregationColumns(aggs).Ok? <==> forall k :: 0 <= k < |aggs| ==> HasColumn(aggs[k])
    ensures AggregationColumns(aggs).Ok? ==> |AggregationColumns(aggs).value| == |aggs|
    ensures AggregationColumns(aggs).Err? ==>
      exists k :: 0 <= k < |aggs| && !HasColumn(aggs[k])
        && AggregationColumns(aggs).error == RequiresField(aggs[k].func)
        && forall j :: 0 <= j < k ==> HasColumn(aggs[j])
  {
    if aggs != [] {
      var front, last := aggs[..|aggs| - 1], aggs[|aggs| - 1];
      ColumnsIff(front);
      assert forall k :: 0 <= k < |front| ==> front[k] == aggs[k];
      if AggregationColumns(front).Err? {
        var k :| 0 <= k < |front| && !HasColumn(front[k])
          && AggregationColumns(front).error == RequiresField(front[k].func)
          && forall j :: 0 <= j < k ==> HasColumn(front[j]);
        assert !HasColumn(aggs[k]);
      }
    }
  }

  /** A query compiles exactly when each aggregation but COUNT names a field; the first that does not is reported. */
  lemma CompilesIff(d: Dialect, q: Query)
    ensures StatementPieces(d, q).Ok? <==> forall k :: 0 <= k < |q.aggregations| ==> HasColumn(q.aggregations[k])
    ensures StatementPieces(d, q).Err? ==>
      exists k :: 0 <= k < |q.aggregations| && !HasColumn(q.aggregations[k])
        && StatementPieces(d, q).error == RequiresField(q.aggregations[k].func)
        && forall j :: 0 <= j < k ==> HasColumn(q.aggregations[j])
  {
    ColumnsIff(q.aggregations);
  }
}
