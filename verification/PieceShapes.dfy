/**
 The shape of the compiler's pieces: every text is spaced so that no two tokens run
 together, and all but the WHERE clause is free of placeholders.
 */
module PieceShapes {
  import opened Common
  import opened Gql
  import opened Dialects
  import opened Keywords
  import opened SqlLexer
  import opened QueryPieces
  import opened FilterTokens

  // ---- The text is well spaced --------------------------------------------------------

  predicate Tidy(d: Dialect, ps: seq<Piece>) {
    Spaced(ps) && AllSpellable(d, ps)
  }

  lemma TidyConcat(d: Dialect, a: seq<Piece>, b: seq<Piece>)
    requires Tidy(d, a) && Tidy(d, b)
    requires a == [] || b == [] || EndsAlone(a[|a| - 1]) || StartsAlone(b[0])
    ensures Tidy(d, a + b)
  {
    forall i | 0 <= i < |a + b| - 1
      ensures EndsAlone((a + b)[i]) || StartsAlone((a + b)[i + 1])
    {
      if i + 1 < |a| {
        assert EndsAlone(a[i]) || StartsAlone(a[i + 1]);
      } else if i >= |a| {
        assert EndsAlone(b[i - |a|]) || StartsAlone(b[i - |a| + 1]);
      }
    }
  }

  lemma TidyOne(d: Dialect, p: Piece)
    requires p.Tok? ==> Spellable(d, p.t)
    ensures Tidy(d, [p])
  {
  }

  lemma BindSpellable(d: Dialect, k: nat, param: Literal)
    ensures Spellable(d, BindToken(d, k, param))
  {
  }

  /** Words and operands separated by single spaces. */
  lemma Tidy3(d: Dialect, a: Token, b: Token, c: Token)
    requires Spellable(d, a) && Spellable(d, b) && Spellable(d, c)
    ensures Tidy(d, [Tok(a), Gap, Tok(b), Gap, Tok(c)])
  {
  }

  lemma Tidy5(d: Dialect, a: Token, b: Token, c: Token, e: Token, f: Token)
    requires Spellable(d, a) && Spellable(d, b) && Spellable(d, c) && Spellable(d, e) && Spellable(d, f)
    ensures Tidy(d, [Tok(a), Gap, Tok(b), Gap, Tok(c), Gap, Tok(e), Gap, Tok(f)])
  {
    Tidy3(d, a, b, c);
    TidyConcat(d, [Tok(a), Gap, Tok(b), Gap, Tok(c)], [Gap, Tok(e), Gap, Tok(f)]);
    assert [Tok(a), Gap, Tok(b), Gap, Tok(c)] + [Gap, Tok(e), Gap, Tok(f)]
        == [Tok(a), Gap, Tok(b), Gap, Tok(c), Gap, Tok(e), Gap, Tok(f)];
  }

  lemma TidyCall(d: Dialect, word: Keyword, t: Token)
    requires Spellable(d, t)
    ensures Tidy(d, [Kw(word), Tok(LParen), Tok(t), Tok(RParen)])
  {
  }

  lemma TidyLowerLike(d: Dialect, a: Token, b: Token)
    requires Spellable(d, a) && Spellable(d, b)
    ensures Tidy(d, [Kw(KLower), Tok(LParen), Tok(a), Tok(RParen), Gap, Kw(KLike), Gap,
                     Kw(KLower), Tok(LParen), Tok(b), Tok(RParen)])
  {
    var left, mid, right := [Kw(KLower), Tok(LParen), Tok(a), Tok(RParen)], [Gap, Kw(KLike), Gap],
                            [Kw(KLower), Tok(LParen), Tok(b), Tok(RParen)];
    TidyCall(d, KLower, a);
    TidyCall(d, KLower, b);
    TidyConcat(d, left, mid);
    TidyConcat(d, left + mid, right);
    assert left + mid + right == [Kw(KLower), Tok(LParen), Tok(a), Tok(RParen), Gap, Kw(KLike), Gap,
                                  Kw(KLower), Tok(LParen), Tok(b), Tok(RParen)];
  }

  lemma TidyParens(d: Dialect, ps: seq<Piece>)
    requires Tidy(d, ps)
    ensures Tidy(d, [Tok(LParen)] + ps + [Tok(RParen)])
  {
    TidyOne(d, Tok(LParen));
    TidyOne(d, Tok(RParen));
    TidyConcat(d, [Tok(LParen)], ps);
    TidyConcat(d, [Tok(LParen)] + ps, [Tok(RParen)]);
  }

  /** A separator that may stand next to anything. */
  predicate Separates(sep: seq<Piece>) {
    sep != [] && StartsAlone(sep[0]) && EndsAlone(sep[|sep| - 1])
  }

  lemma {:induction false} TidyJoin(d: Dialect, parts: seq<seq<Piece>>, sep: seq<Piece>)
    requires forall k :: 0 <= k < |parts| ==> Tidy(d, parts[k])
    requires Tidy(d, sep) && Separates(sep)
    ensures Tidy(d, Join(parts, sep))
  {
    if |parts| > 1 {
      var front, last := parts[..|parts| - 1], parts[|parts| - 1];
      TidyJoin(d, front, sep);
      TidyConcat(d, Join(front, sep), sep);
      assert (Join(front, sep) + sep)[|Join(front, sep) + sep| - 1] == sep[|sep| - 1];
      TidyConcat(d, Join(front, sep) + sep, last);
    }
  }

  lemma {:induction false} TidyBinds(d: Dialect, values: seq<Literal>, n: nat)
    ensures forall k :: 0 <= k < |values| ==> Tidy(d, BindPieces(d, values, n)[k])
  {
    if values != [] {
      var front, last := values[..|values| - 1], BindPiece(d, n + |values|, values[|values| - 1]);
      TidyBinds(d, front, n);
      BindSpellable(d, n + |values|, values[|values| - 1]);
      TidyOne(d, last);
      assert BindPieces(d, values, n) == BindPieces(d, front, n) + [[last]];
    }
  }

  lemma TidyIn(d: Dialect, field: string, values: seq<Literal>, n: nat)
    requires values != []
    ensures Tidy(d, FilterPieces(d, In(field, values), n))
  {
    var open, list := [NamePiece(field), Gap, Kw(KIn), Gap, Tok(LParen)], Join(BindPieces(d, values, n), CommaSep());
    Tidy3(d, Name(field), Word(KIn), LParen);
    TidyBinds(d, values, n);
    TidyJoin(d, BindPieces(d, values, n), CommaSep());
    TidyConcat(d, open, list);
    TidyOne(d, Tok(RParen));
    TidyConcat(d, open + list, [Tok(RParen)]);
  }

  lemma TidyLike(d: Dialect, field: string, pattern: string, ci: bool, n: nat)
    ensures Tidy(d, FilterPieces(d, Like(field, pattern, ci), n))
  {
    var bind := BindToken(d, n + 1, Text(pattern));
    if ci {
      TidyLowerLike(d, Name(field), bind);
    } else {
      Tidy3(d, Name(field), Word(KLike), bind);
    }
  }

  lemma TidyBetween(d: Dialect, field: string, low: Literal, high: Literal, n: nat)
    ensures Tidy(d, FilterPieces(d, Between(field, low, high), n))
  {
    var lo, hi := BindToken(d, n + 1, low), BindToken(d, n + 2, high);
    BindSpellable(d, n + 1, low);
    BindSpellable(d, n + 2, high);
    Tidy5(d, Name(field), Word(KBetween), lo, Word(KAnd), hi);
  }

  lemma TidyAtom(d: Dialect, f: Filter, n: nat)
    requires IsAtom(f)
    ensures Tidy(d, FilterPieces(d, f, n))
  {
    match f
    case Compare(field, op, value) =>
      BindSpellable(d, n + 1, value);
      Tidy3(d, Name(field), Operator(op), BindToken(d, n + 1, value));
    case Like(field, pattern, ci) => TidyLike(d, field, pattern, ci, n);
    case Between(field, low, high) => TidyBetween(d, field, low, high, n);
    case IsNull(field) => Tidy3(d, Name(field), Word(KIs), Word(KNull));
    case IsNotNull(field) => TidyNotNull(d, field);
  }

  lemma TidyNotNull(d: Dialect, field: string)
    ensures Tidy(d, [NamePiece(field), Gap, Kw(KIs), Gap, Kw(KNot), Gap, Kw(KNull)])
  {
    Tidy3(d, Name(field), Word(KIs), Word(KNot));
    TidyConcat(d, [NamePiece(field), Gap, Kw(KIs), Gap, Kw(KNot)], [Gap, Kw(KNull)]);
    assert [NamePiece(field), Gap, Kw(KIs), Gap, Kw(KNot)] + [Gap, Kw(KNull)]
        == [NamePiece(field), Gap, Kw(KIs), Gap, Kw(KNot), Gap, Kw(KNull)];
  }

  lemma TidyNot(d: Dialect, ps: seq<Piece>)
    requires Tidy(d, ps)
    ensures Tidy(d, [Tok(LParen), Kw(KNot), Gap, Tok(LParen)] + ps + [Tok(RParen), Tok(RParen)])
  {
    var open, close := [Tok(LParen), Kw(KNot), Gap, Tok(LParen)], [Tok(RParen), Tok(RParen)];
    TidyConcat(d, open, ps);
    TidyConcat(d, open + ps, close);
  }

  lemma TidyJoined(d: Dialect, parts: seq<seq<Piece>>, word: Keyword, neutral: nat)
    requires forall k :: 0 <= k < |parts| ==> Tidy(d, parts[k])
    ensures Tidy(d, Join(parts, Joiner(word))) && Tidy(d, Junction(parts, word, neutral))
  {
    TidyJoin(d, parts, Joiner(word));
    TidyParens(d, Join(parts, Joiner(word)));
    Tidy3(d, Number(1), Operator(Eq), Number(neutral));
  }

  lemma {:induction false} TidyFilter(d: Dialect, f: Filter, n: nat)
    ensures Tidy(d, FilterPieces(d, f, n))
    decreases f, 1
  {
    match f
    case In(field, values) =>
      if values == [] {
        Tidy3(d, Number(1), Operator(Eq), Number(0));
      } else {
        TidyIn(d, field, values, n);
      }
    case And(subs) =>
      TidyParts(d, subs, n);
      TidyJoined(d, PartsOf(d, subs, n), KAnd, 1);
    case Or(subs) =>
      TidyParts(d, subs, n);
      TidyJoined(d, PartsOf(d, subs, n), KOr, 0);
    case Not(inner) =>
      TidyFilter(d, inner, n);
      TidyNot(d, FilterPieces(d, inner, n));
    case _ => TidyAtom(d, f, n);
  }

  lemma {:induction false} TidyParts(d: Dialect, subs: seq<Filter>, n: nat)
    ensures forall k :: 0 <= k < |subs| ==> Tidy(d, PartsOf(d, subs, n)[k])
    decreases subs, 0
  {
    if subs != [] {
      var front, last := subs[..|subs| - 1], subs[|subs| - 1];
      TidyParts(d, front, n);
      TidyFilter(d, last, n + |ParamsOfAll(front)|);
      PartsOfUnfold(d, subs, n);
    }
  }

  // ---- The parts around the filters -------------------------------------------------------

  /** Tidy text with neither a placeholder nor WHERE in it. */
  predicate Plain(d: Dialect, ps: seq<Piece>) {
    Tidy(d, ps) && forall i :: 0 <= i < |ps| && ps[i].Tok? ==> PlainToken(ps[i].t)
  }

  predicate PlainToken(t: Token) {
    !t.Bind? && t != Word(KWhere)
  }

  lemma PlainConcat(d: Dialect, a: seq<Piece>, b: seq<Piece>)
    requires Plain(d, a) && Plain(d, b)
    requires a == [] || b == [] || EndsAlone(a[|a| - 1]) || StartsAlone(b[0])
    ensures Plain(d, a + b)
  {
    TidyConcat(d, a, b);
  }

  lemma {:induction false} PlainTokens(d: Dialect, ps: seq<Piece>)
    requires Plain(d, ps)
    ensures forall i :: 0 <= i < |Tokens(ps)| ==> PlainToken(Tokens(ps)[i])
  {
    if ps != [] {
      SpacedRest(d, ps);
      PlainTokens(d, ps[1..]);
    }
  }

  lemma {:induction false} PlainJoin(d: Dialect, parts: seq<seq<Piece>>, sep: seq<Piece>)
    requires forall k :: 0 <= k < |parts| ==> Plain(d, parts[k])
    requires Plain(d, sep) && Separates(sep)
    ensures Plain(d, Join(parts, sep))
  {
    if |parts| > 1 {
      var front, last := parts[..|parts| - 1], parts[|parts| - 1];
      PlainJoin(d, front, sep);
      PlainConcat(d, Join(front, sep), sep);
      assert (Join(front, sep) + sep)[|Join(front, sep) + sep| - 1] == sep[|sep| - 1];
      PlainConcat(d, Join(front, sep) + sep, last);
    }
  }

  lemma {:induction false} PlainNames(d: Dialect, names: seq<string>)
    ensures forall k :: 0 <= k < |names| ==> Plain(d, NamePieces(names)[k])
  {
    if names != [] {
      PlainNames(d, names[..|names| - 1]);
      TidyOne(d, NamePiece(names[|names| - 1]));
    }
  }

  lemma PlainNameList(d: Dialect, names: seq<string>)
    ensures Plain(d, Join(NamePieces(names), CommaSep()))
  {
    PlainNames(d, names);
    PlainJoin(d, NamePieces(names), CommaSep());
  }

  lemma PlainSimpleCall(d: Dialect, word: Keyword, t: Token)
    requires PlainToken(t) && word != KWhere
    ensures Plain(d, [Kw(word), Tok(LParen), Tok(t), Tok(RParen)])
  {
    TidyCall(d, word, t);
  }

  lemma PlainCall(d: Dialect, agg: Aggregation, ps: seq<Piece>)
    requires agg.alias.None? && AggregationPieces(agg) == Ok(ps)
    ensures Plain(d, ps)
  {
    if agg.field.None? {
      PlainSimpleCall(d, KCount, Star);
    } else {
      var t := Name(agg.field.value);
      match agg.func
      case Count => PlainSimpleCall(d, KCount, t);
      case CountDistinct =>
      case Sum => PlainSimpleCall(d, KSum, t);
      case Avg => PlainSimpleCall(d, KAvg, t);
      case Min => PlainSimpleCall(d, KMin, t);
      case Max => PlainSimpleCall(d, KMax, t);
    }
  }

  lemma PlainAggregation(d: Dialect, agg: Aggregation)
    requires AggregationPieces(agg).Ok?
    ensures Plain(d, AggregationPieces(agg).value)
  {
    var bare := agg.(alias := None);
    PlainCall(d, bare, AggregationPieces(bare).value);
    if agg.alias.Some? {
      var alias := [Gap, Kw(KAs), Gap, NamePiece(agg.alias.value)];
      assert Plain(d, alias);
      PlainConcat(d, AggregationPieces(bare).value, alias);
    }
  }

  lemma {:induction false} PlainColumns(d: Dialect, aggs: seq<Aggregation>)
    requires AggregationColumns(aggs).Ok?
    ensures forall k :: 0 <= k < |AggregationColumns(aggs).value| ==> Plain(d, AggregationColumns(aggs).value[k])
  {
    if aggs != [] {
      PlainColumns(d, aggs[..|aggs| - 1]);
      PlainAggregation(d, aggs[|aggs| - 1]);
    }
  }

  lemma PlainSelect(d: Dialect, q: Query)
    requires SelectPieces(q).Ok?
    ensures Plain(d, SelectPieces(q).value)
  {
    if q.aggregations != [] {
      PlainNames(d, q.breakouts);
      PlainColumns(d, q.aggregations);
      PlainJoin(d, NamePieces(q.breakouts) + AggregationColumns(q.aggregations).value, CommaSep());
    } else if q.fields != [] {
      PlainNameList(d, q.fields);
    }
  }

  lemma PlainHead(d: Dialect, q: Query, select: seq<Piece>)
    requires Plain(d, select)
    ensures Plain(d, HeadPieces(q, select))
  {
    var from := [Gap, Kw(KFrom), Gap, NamePiece(q.sourceTable)];
    assert Plain(d, [Kw(KSelect), Gap]) && Plain(d, from);
    PlainConcat(d, [Kw(KSelect), Gap], select);
    PlainConcat(d, [Kw(KSelect), Gap] + select, from);
  }

  lemma {:induction false} PlainOrders(d: Dialect, terms: seq<OrderBy>)
    ensures forall k :: 0 <= k < |terms| ==> Plain(d, OrderPieces(terms)[k])
  {
    if terms != [] {
      PlainOrders(d, terms[..|terms| - 1]);
      var last := terms[|terms| - 1];
      assert Plain(d, [NamePiece(last.field), Gap, Kw(if last.direction.Asc? then KAsc else KDesc)]);
    }
  }

  /** A clause starts with a space and a word that is neither AND nor OR. */
  predicate Clause(d: Dialect, ps: seq<Piece>) {
    Plain(d, ps) && (ps != [] ==>
      |ps| > 1 && ps[0] == Gap && ps[1].Tok? && ps[1].t.Word? && ps[1].t.word != KAnd && ps[1].t.word != KOr)
  }

  lemma ClauseConcat(d: Dialect, a: seq<Piece>, b: seq<Piece>)
    requires Clause(d, a) && Clause(d, b)
    ensures Clause(d, a + b)
  {
    PlainConcat(d, a, b);
    assert a == [] ==> a + b == b;
  }

  lemma ByClause(d: Dialect, word: Keyword, list: seq<Piece>)
    requires Plain(d, list) && (word == KGroup || word == KOrder)
    ensures Clause(d, [Gap, Kw(word), Gap, Kw(KBy), Gap] + list)
  {
    assert Plain(d, [Gap, Kw(word), Gap, Kw(KBy), Gap]);
    PlainConcat(d, [Gap, Kw(word), Gap, Kw(KBy), Gap], list);
  }

  lemma LimitIsClause(d: Dialect, q: Query)
    ensures Clause(d, LimitPieces(d, q))
  {
    if q.limit.Some? {
      if d.Oracle? {
        assert Plain(d, OffsetPieces());
        PlainConcat(d, OffsetPieces(), [Gap]);
        FetchIsPlain(d, q.limit.value);
        PlainConcat(d, OffsetPieces() + [Gap], FetchPieces(q.limit.value));
        PlainConcat(d, [Gap], OffsetPieces() + [Gap] + FetchPieces(q.limit.value));
      } else {
        assert Plain(d, LimitClausePieces(d, q.limit.value));
        PlainConcat(d, [Gap], LimitClausePieces(d, q.limit.value));
      }
    }
  }

  lemma FetchIsPlain(d: Dialect, n: nat)
    ensures Plain(d, FetchPieces(n))
  {
    Tidy5(d, Word(KFetch), Word(KNext), Number(n), Word(KRows), Word(KOnly));
  }

  lemma TailIsClause(d: Dialect, q: Query)
    ensures Clause(d, TailPieces(d, q))
  {
    if q.aggregations != [] && q.breakouts != [] {
      PlainNameList(d, q.breakouts);
      ByClause(d, KGroup, Join(NamePieces(q.breakouts), CommaSep()));
    }
    if q.orderBy != [] {
      PlainOrders(d, q.orderBy);
      PlainJoin(d, OrderPieces(q.orderBy), CommaSep());
      ByClause(d, KOrder, Join(OrderPieces(q.orderBy), CommaSep()));
    }
    LimitIsClause(d, q);
    ClauseConcat(d, GroupPieces(q), OrderByPieces(q));
    ClauseConcat(d, GroupPieces(q) + OrderByPieces(q), LimitPieces(d, q));
  }

  lemma WhereIsTidy(d: Dialect, q: Query)
    ensures Tidy(d, WherePieces(d, q))
    ensures WherePieces(d, q) != [] ==> WherePieces(d, q)[0] == Gap
  {
    if q.filters != [] {
      TidyParts(d, q.filters, 0);
      TidyJoined(d, PartsOf(d, q.filters, 0), KAnd, 1);
      TidyConcat(d, [Gap, Kw(KWhere), Gap], Join(PartsOf(d, q.filters, 0), Joiner(KAnd)));
    }
  }
}
