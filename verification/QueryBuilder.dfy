/**
 The compiler itself: a builder that renders SQL text while it binds literals as
 parameters, proved to emit exactly the pieces of module QueryPieces.
 */
module QueryBuilder {
  import opened Common
  import opened Decimal
  import opened Gql
  import opened Dialects
  import opened Keywords
  import opened SqlLexer
  import opened QueryPieces

  datatype CompiledQuery = CompiledQuery(sql: string, params: seq<Literal>)

  function TextResult(d: Dialect, r: Result<seq<Piece>, CompileError>): Result<string, CompileError> {
    match r case Err(e) => Err(e) case Ok(pieces) => Ok(TextOf(d, pieces))
  }

  function ColumnsResult(d: Dialect, known: seq<seq<Piece>>, r: Result<seq<seq<Piece>>,
                         CompileError>): Result<seq<string>, CompileError> {
    match r case Err(e) => Err(e) case Ok(cols) => Ok(Texts(d, known + cols))
  }

  function Compiled(d: Dialect, r: Result<seq<Piece>, CompileError>, params: seq<Literal>): Result<CompiledQuery,
                    CompileError> {
    match r case Err(e) => Err(e) case Ok(pieces) => Ok(CompiledQuery(TextOf(d, pieces), params))
  }

  class Builder {
    const dialect: Dialect
    var params: seq<Literal>

    constructor (d: Dialect)
      ensures dialect == d && params == []
    {
      dialect := d;
      params := [];
    }

    /** Binds a literal and returns its placeholder. */
    method Bind(lit: Literal) returns (placeholder: string)
      modifies this
      ensures params == old(params) + [lit]
      ensures placeholder == PieceText(dialect, BindPiece(dialect, |old(params)| + 1, lit))
    {
      placeholder := dialect.Placeholder(|params| + 1, lit);
      params := params + [lit];
    }

    /** Binds the values of an IN list, left to right. */
    method BindAll(values: seq<Literal>) returns (placeholders: seq<string>)
      modifies this
      ensures params == old(params) + values
      ensures placeholders == Texts(dialect, BindPieces(dialect, values, |old(params)|))
    {
      hide PieceText, BindPiece;
      placeholders := [];
      ghost var before := params;
      ghost var done: seq<Literal> := [];
      for k := 0 to |values|
        invariant done == values[..k]
        invariant params == before + done
        invariant placeholders == Texts(dialect, BindPieces(dialect, done, |before|))
      {
        BindPiecesStep(dialect, done, values[k], |before|);
        var ph := Bind(values[k]);
        placeholders := placeholders + [ph];
        ConcatAssoc(before, done, [values[k]]);
        TakeSnoc(values, k);
        done := done + [values[k]];
      }
      assert done == values;
    }

    /** The text of a filter; its literals are bound in the order they appear. */
    method BuildFilter(f: Filter) returns (sql: string)
      modifies this
      ensures params == old(params) + ParamsOf(f)
      ensures sql == TextOf(dialect, FilterPieces(dialect, f, |old(params)|))
      decreases f, 1
    {
      hide TextOf, PieceText;
      ghost var n := |params|;
      match f
      case Compare(field, op, value) =>
        sql := BuildCompare(field, op, value);
      case Like(field, pattern, caseInsensitive) =>
        sql := BuildLike(field, pattern, caseInsensitive);
      case In(field, values) =>
        sql := BuildIn(field, values);
      case Between(field, low, high) =>
        sql := BuildBetween(field, low, high);
      case IsNull(field) =>
        sql := dialect.QuoteIdent(field) + " " + KIs.Text() + " " + KNull.Text();
        NullText(dialect, field);
      case IsNotNull(field) =>
        sql := dialect.QuoteIdent(field) + " " + KIs.Text() + " " + KNot.Text() + " " + KNull.Text();
        NotNullText(dialect, field);
      case And(subs) =>
        sql := BuildJunction(subs, KAnd, 1);
      case Or(subs) =>
        sql := BuildJunction(subs, KOr, 0);
      case Not(inner) =>
        var text := BuildFilter(inner);
        sql := "(" + KNot.Text() + " " + "(" + text + ")" + ")";
        NotText(dialect, FilterPieces(dialect, inner, n));
    }

    method BuildCompare(field: string, op: CompareOp, value: Literal) returns (sql: string)
      modifies this
      ensures params == old(params) + [value]
      ensures sql == TextOf(dialect, FilterPieces(dialect, Compare(field, op, value), |old(params)|))
    {
      ghost var bind := BindPiece(dialect, |params| + 1, value);
      var ph := Bind(value);
      sql := dialect.QuoteIdent(field) + " " + op.Sql() + " " + ph;
      Text5(dialect, NamePiece(field), Gap, Tok(Operator(op)), Gap, bind);
    }

    method BuildBetween(field: string, low: Literal, high: Literal) returns (sql: string)
      modifies this
      ensures params == old(params) + [low, high]
      ensures sql == TextOf(dialect, FilterPieces(dialect, Between(field, low, high), |old(params)|))
    {
      ghost var before := params;
      var lo := Bind(low);
      var hi := Bind(high);
      sql := dialect.QuoteIdent(field) + " " + KBetween.Text() + " " + lo + " " + KAnd.Text() + " " + hi;
      BetweenText(dialect, field, low, high, |before|);
      assert before + [low] + [high] == before + [low, high];
    }

    method BuildLike(field: string, pattern: string, caseInsensitive: bool) returns (sql: string)
      modifies this
      ensures params == old(params) + ParamsOf(Like(field, pattern, caseInsensitive))
      ensures sql == TextOf(dialect, FilterPieces(dialect, Like(field, pattern, caseInsensitive), |old(params)|))
    {
      ghost var bind := BindPiece(dialect, |params| + 1, Text(pattern));
      var ph := Bind(Text(pattern));
      if caseInsensitive {
        sql := KLower.Text() + "(" + dialect.QuoteIdent(field) + ")" + " " + KLike.Text() + " "
          + KLower.Text() + "(" + ph + ")";
        LowerLikeText(dialect, NamePiece(field), bind);
      } else {
        sql := dialect.QuoteIdent(field) + " " + KLike.Text() + " " + ph;
        Text5(dialect, NamePiece(field), Gap, Kw(KLike), Gap, bind);
      }
    }

    /** An empty IN list would not be SQL; it matches nothing. */
    method BuildIn(field: string, values: seq<Literal>) returns (sql: string)
      modifies this
      ensures params == old(params) + values
      ensures sql == TextOf(dialect, FilterPieces(dialect, In(field, values), |old(params)|))
    {
      if values == [] {
        sql := EmptyJunction(0);
      } else {
        ghost var n := |params|;
        var phs := BindAll(values);
        sql := dialect.QuoteIdent(field) + " " + KIn.Text() + " " + "(" + Join(phs, "," + " ") + ")";
        InText(dialect, field, values, n);
      }
    }

    /** The comparison standing for an empty list of conditions: true for 1, false for 0. */
    method EmptyJunction(neutral: nat) returns (sql: string)
      ensures sql == TextOf(dialect, Constant(neutral))
    {
      sql := Show(1) + " " + "=" + " " + Show(neutral);
      Text5(dialect, Tok(Number(1)), Gap, Tok(Operator(Eq)), Gap, Tok(Number(neutral)));
    }

    /** The parts of a junction, or of the top level, in order. */
    method BuildParts(subs: seq<Filter>) returns (parts: seq<string>)
      modifies this
      ensures params == old(params) + ParamsOfAll(subs)
      ensures parts == Texts(dialect, PartsOf(dialect, subs, |old(params)|))
      decreases subs, 0
    {
      parts := [];
      ghost var before := params;
      ghost var done: seq<Filter> := [];
      for k := 0 to |subs|
        invariant done == subs[..k]
        invariant PartsBuilt(dialect, done, before, params, parts)
      {
        MoreBuilt(dialect, done, subs[k], before, params, parts);
        var part := BuildFilter(subs[k]);
        parts := parts + [part];
        TakeSnoc(subs, k);
        done := done + [subs[k]];
      }
      assert done == subs;
    }

    method BuildJunction(subs: seq<Filter>, joiner: Keyword, neutral: nat) returns (sql: string)
      modifies this
      ensures params == old(params) + ParamsOfAll(subs)
      ensures sql == TextOf(dialect, Junction(PartsOf(dialect, subs, |old(params)|), joiner, neutral))
      decreases subs, 1
    {
      if subs == [] {
        sql := EmptyJunction(neutral);
      } else {
        ghost var n := |params|;
        var parts := BuildParts(subs);
        sql := "(" + Join(parts, " " + joiner.Text() + " ") + ")";
        JunctionText(dialect, PartsOf(dialect, subs, n), joiner, neutral);
      }
    }

    /** Quoted names, in order. */
    method Idents(names: seq<string>) returns (cols: seq<string>)
      ensures cols == Texts(dialect, NamePieces(names))
    {
      cols := [];
      for k := 0 to |names|
        invariant cols == Texts(dialect, NamePieces(names[..k]))
      {
        cols := cols + [dialect.QuoteIdent(names[k])];
        assert names[..k + 1][..k] == names[..k];
        TextsStep(dialect, NamePieces(names[..k]), [NamePiece(names[k])]);
        Text1(dialect, NamePiece(names[k]));
      }
      assert names[..|names|] == names;
    }

    method BuildAggregation(agg: Aggregation) returns (r: Result<string, CompileError>)
      ensures r == TextResult(dialect, AggregationPieces(agg))
    {
      var expr: string;
      if agg.field.None? {
        if !agg.func.Count? {
          return Err(RequiresField(agg.func));
        }
        expr := KCount.Text() + "(" + "*" + ")";
      } else {
        var name := dialect.QuoteIdent(agg.field.value);
        match agg.func {
          case Count => expr := KCount.Text() + "(" + name + ")";
          case CountDistinct => expr := KCount.Text() + "(" + KDistinct.Text() + " " + name + ")";
          case Sum => expr := KSum.Text() + "(" + name + ")";
          case Avg => expr := KAvg.Text() + "(" + name + ")";
          case Min => expr := KMin.Text() + "(" + name + ")";
          case Max => expr := KMax.Text() + "(" + name + ")";
        }
      }
      AggregationText(dialect, agg, expr);
      if agg.alias.Some? {
        expr := expr + (" " + KAs.Text() + " " + dialect.QuoteIdent(agg.alias.value));
      }
      return Ok(expr);
    }

    /** The aggregate columns after the group-by columns, or the first error. */
    method AggregateColumns(q: Query) returns (r: Result<seq<string>, CompileError>)
      ensures r == ColumnsResult(dialect, NamePieces(q.breakouts), AggregationColumns(q.aggregations))
    {
      var cols := Idents(q.breakouts);
      ghost var known := NamePieces(q.breakouts);
      ghost var pieces: seq<seq<Piece>> := [];
      assert known + pieces == known;
      ghost var done: seq<Aggregation> := [];
      for k := 0 to |q.aggregations|
        invariant done == q.aggregations[..k]
        invariant AggregationColumns(done) == Ok(pieces)
        invariant cols == Texts(dialect, known + pieces)
      {
        var agg := q.aggregations[k];
        var col := BuildAggregation(agg);
        if col.Err? {
          ColumnsError(q.aggregations, k);
          return Err(col.error);
        }
        cols := cols + [col.value];
        ColumnsStep(dialect, known, done, agg, pieces, AggregationPieces(agg).value);
        pieces := pieces + [AggregationPieces(agg).value];
        TakeSnoc(q.aggregations, k);
        done := done + [agg];
      }
      assert done == q.aggregations;
      return Ok(cols);
    }

    method BuildSelect(q: Query) returns (r: Result<string, CompileError>)
      ensures r == TextResult(dialect, SelectPieces(q))
    {
      if q.aggregations != [] {
        var cols := AggregateColumns(q);
        if cols.Err? {
          return Err(cols.error);
        }
        if cols.value == [] {
          return Err(NothingToSelect);
        }
        CommaJoinText(dialect, NamePieces(q.breakouts) + AggregationColumns(q.aggregations).value);
        return Ok(Join(cols.value, "," + " "));
      } else if q.fields == [] {
        Text1(dialect, Tok(Star));
        return Ok("*");
      } else {
        var cols := Idents(q.fields);
        CommaJoinText(dialect, NamePieces(q.fields));
        return Ok(Join(cols, "," + " "));
      }
    }

    method OrderTerms(terms: seq<OrderBy>) returns (texts: seq<string>)
      ensures texts == Texts(dialect, OrderPieces(terms))
    {
      texts := [];
      for k := 0 to |terms|
        invariant texts == Texts(dialect, OrderPieces(terms[..k]))
      {
        var dir := if terms[k].direction.Asc? then KAsc else KDesc;
        texts := texts + [dialect.QuoteIdent(terms[k].field) + " " + dir.Text()];
        OrderTextStep(dialect, terms[..k], terms[k]);
        TakeSnoc(terms, k);
      }
      assert terms[..|terms|] == terms;
    }

    /** The text after the filters: grouping, ordering and the row limit. */
    method BuildTail(q: Query) returns (sql: string)
      ensures sql == TextOf(dialect, TailPieces(dialect, q))
    {
      var group, order, limit := "", "", "";
      if q.aggregations != [] && q.breakouts != [] {
        var cols := Idents(q.breakouts);
        group := " " + KGroup.Text() + " " + KBy.Text() + " " + Join(cols, "," + " ");
      }
      GroupText(dialect, q);
      if q.orderBy != [] {
        var terms := OrderTerms(q.orderBy);
        order := " " + KOrder.Text() + " " + KBy.Text() + " " + Join(terms, "," + " ");
      }
      OrderText(dialect, q);
      if q.limit.Some? {
        limit := " " + dialect.LimitClause(q.limit.value);
      }
      LimitText(dialect, q);
      sql := group + order + limit;
      TextOfConcat(dialect, GroupPieces(q), OrderByPieces(q));
      TextOfConcat(dialect, GroupPieces(q) + OrderByPieces(q), LimitPieces(dialect, q));
    }

    /** The whole statement; afterwards `params` are the literals of its filters. */
    method Build(q: Query) returns (r: Result<string, CompileError>)
      requires params == []
      modifies this
      ensures r == TextResult(dialect, StatementPieces(dialect, q))
      ensures r.Ok? ==> params == ParamsOfAll(q.filters)
    {
      var select := BuildSelect(q);
      if select.Err? {
        return Err(select.error);
      }
      ghost var head := HeadPieces(q, SelectPieces(q).value);
      var sql := KSelect.Text() + " " + select.value + (" " + KFrom.Text() + " " + dialect.QuoteIdent(q.sourceTable));
      HeadText(dialect, q, SelectPieces(q).value);
      if q.filters != [] {
        var clauses := BuildParts(q.filters);
        sql := sql + (" " + KWhere.Text() + " " + Join(clauses, " " + KAnd.Text() + " "));
      }
      WhereText(dialect, q);
      TextOfConcat(dialect, head, WherePieces(dialect, q));
      var tail := BuildTail(q);
      TextOfConcat(dialect, head + WherePieces(dialect, q), TailPieces(dialect, q));
      assert q.filters == [] ==> WherePieces(dialect, q) == [] && head + [] == head;
      return Ok(sql + tail);
    }
  }

  // ---- One loop step of the list pieces ------------------------------------------------

  lemma BindPiecesStep(d: Dialect, front: seq<Literal>, last: Literal, n: nat)
    ensures Texts(d, BindPieces(d, front + [last], n))
         == Texts(d, BindPieces(d, front, n)) + [PieceText(d, BindPiece(d, n + |front| + 1, last))]
  {
    var piece := BindPiece(d, n + |front| + 1, last);
    BindPiecesSnoc(d, front, last, n);
    TextsStep(d, BindPieces(d, front, n), [piece]);
    Text1(d, piece);
  }

  /** The texts of `done` and the parameters after them, when `before` were bound already. */
  ghost predicate PartsBuilt(d: Dialect, done: seq<Filter>, before: seq<Literal>, params: seq<Literal>,
                             parts: seq<string>) {
    params == before + ParamsOfAll(done) && parts == Texts(d, PartsOf(d, done, |before|))
  }

  lemma MoreBuilt(d: Dialect, done: seq<Filter>, f: Filter, before: seq<Literal>, params: seq<Literal>,
                  parts: seq<string>)
    requires PartsBuilt(d, done, before, params, parts)
    ensures PartsBuilt(d, done + [f], before, params + ParamsOf(f), parts + [TextOf(d, FilterPieces(d, f, |params|))])
  {
    hide Texts, PartsOf, ParamsOfAll, ParamsOf, FilterPieces, TextOf;
    var n := |before| + |ParamsOfAll(done)|;
    assert n == |params|;
    PartsOfStep(d, done, f, |before|, FilterPieces(d, f, n));
    ConcatAssoc(before, ParamsOfAll(done), ParamsOf(f));
  }

  lemma PartsOfStep(d: Dialect, front: seq<Filter>, last: Filter, n: nat, piece: seq<Piece>)
    requires piece == FilterPieces(d, last, n + |ParamsOfAll(front)|)
    ensures ParamsOfAll(front + [last]) == ParamsOfAll(front) + ParamsOf(last)
    ensures Texts(d, PartsOf(d, front + [last], n)) == Texts(d, PartsOf(d, front, n)) + [TextOf(d, piece)]
  {
    ParamsOfAllSnoc(front, last);
    PartsOfSnoc(d, front, last, n);
    TextsStep(d, PartsOf(d, front, n), piece);
  }

  // ---- The texts of the fixed phrases ------------------------------------------------

  lemma FiveWordsText(d: Dialect, a: Piece, b: Piece, c: Piece, e: Piece, f: Piece)
    ensures TextOf(d, [a, Gap, b, Gap, c, Gap, e, Gap, f])
         == PieceText(d, a) + " " + PieceText(d, b) + " " + PieceText(d, c) + " " + PieceText(d, e) + " " +
            PieceText(d, f)
  {
    hide PieceText;
    Text5(d, a, Gap, b, Gap, c);
    TextSnoc2(d, [a, Gap, b, Gap, c], Gap, e);
    TextSnoc2(d, [a, Gap, b, Gap, c] + [Gap, e], Gap, f);
    assert [a, Gap, b, Gap, c] + [Gap, e] + [Gap, f] == [a, Gap, b, Gap, c, Gap, e, Gap, f];
    GapText(d);
  }

  lemma GapText(d: Dialect)
    ensures PieceText(d, Gap) == " "
  {
  }

  lemma BetweenText(d: Dialect, field: string, low: Literal, high: Literal, n: nat)
    ensures TextOf(d, FilterPieces(d, Between(field, low, high), n))
         == d.QuoteIdent(field) + " " + KBetween.Text() + " " + PieceText(d, BindPiece(d, n + 1, low)) +
            " " + KAnd.Text() + " " + PieceText(d, BindPiece(d, n + 2, high))
  {
    FiveWordsText(d, NamePiece(field), Kw(KBetween), BindPiece(d, n + 1, low), Kw(KAnd), BindPiece(d, n + 2, high));
  }

  lemma NullText(d: Dialect, field: string)
    ensures TextOf(d, [NamePiece(field), Gap, Kw(KIs), Gap, Kw(KNull)])
         == d.QuoteIdent(field) + " " + KIs.Text() + " " + KNull.Text()
  {
    Text5(d, NamePiece(field), Gap, Kw(KIs), Gap, Kw(KNull));
  }

  lemma NotNullText(d: Dialect, field: string)
    ensures TextOf(d, [NamePiece(field), Gap, Kw(KIs), Gap, Kw(KNot), Gap, Kw(KNull)])
         == d.QuoteIdent(field) + " " + KIs.Text() + " " + KNot.Text() + " " + KNull.Text()
  {
    var name := NamePiece(field);
    Text5(d, name, Gap, Kw(KIs), Gap, Kw(KNot));
    TextSnoc2(d, [name, Gap, Kw(KIs), Gap, Kw(KNot)], Gap, Kw(KNull));
    assert [name, Gap, Kw(KIs), Gap, Kw(KNot)] + [Gap, Kw(KNull)]
        == [name, Gap, Kw(KIs), Gap, Kw(KNot), Gap, Kw(KNull)];
  }

  lemma LowerLikeText(d: Dialect, a: Piece, b: Piece)
    ensures TextOf(d, [Kw(KLower), Tok(LParen), a, Tok(RParen), Gap, Kw(KLike), Gap,
                       Kw(KLower), Tok(LParen), b, Tok(RParen)])
         == KLower.Text() + "(" + PieceText(d, a) + ")" + " " + KLike.Text() + " "
          + KLower.Text() + "(" + PieceText(d, b) + ")"
  {
    var first := [Kw(KLower), Tok(LParen), a, Tok(RParen), Gap];
    Text5(d, Kw(KLower), Tok(LParen), a, Tok(RParen), Gap);
    TextSnoc2(d, first, Kw(KLike), Gap);
    TextSnoc2(d, first + [Kw(KLike), Gap], Kw(KLower), Tok(LParen));
    TextSnoc2(d, first + [Kw(KLike), Gap] + [Kw(KLower), Tok(LParen)], b, Tok(RParen));
    assert first + [Kw(KLike), Gap] + [Kw(KLower), Tok(LParen)] + [b, Tok(RParen)]
        == [Kw(KLower), Tok(LParen), a, Tok(RParen), Gap, Kw(KLike), Gap, Kw(KLower), Tok(LParen), b, Tok(RParen)];
  }

  lemma NotText(d: Dialect, inner: seq<Piece>)
    ensures TextOf(d, [Tok(LParen), Kw(KNot), Gap, Tok(LParen)] + inner + [Tok(RParen), Tok(RParen)])
         == "(" + KNot.Text() + " " + "(" + TextOf(d, inner) + ")" + ")"
  {
    var open := [Tok(LParen), Kw(KNot), Gap, Tok(LParen)];
    Text4(d, Tok(LParen), Kw(KNot), Gap, Tok(LParen));
    TextOfConcat(d, open, inner);
    TextSnoc(d, open + inner, Tok(RParen));
    TextSnoc(d, open + inner + [Tok(RParen)], Tok(RParen));
    assert open + inner + [Tok(RParen)] + [Tok(RParen)] == open + inner + [Tok(RParen), Tok(RParen)];
  }

  lemma CommaJoinText(d: Dialect, parts: seq<seq<Piece>>)
    ensures TextOf(d, Join(parts, CommaSep())) == Join(Texts(d, parts), "," + " ")
  {
    TextOfJoin(d, parts, CommaSep());
    Text2(d, Tok(Comma), Gap);
  }

  lemma JunctionText(d: Dialect, parts: seq<seq<Piece>>, joiner: Keyword, neutral: nat)
    requires parts != []
    ensures TextOf(d, Junction(parts, joiner, neutral)) == "(" + Join(Texts(d, parts), " " + joiner.Text() + " ") + ")"
  {
    TextOfJoin(d, parts, Joiner(joiner));
    Text3(d, Gap, Kw(joiner), Gap);
    Text1(d, Tok(LParen));
    TextOfConcat(d, [Tok(LParen)], Join(parts, Joiner(joiner)));
    TextSnoc(d, [Tok(LParen)] + Join(parts, Joiner(joiner)), Tok(RParen));
  }

  lemma InText(d: Dialect, field: string, values: seq<Literal>, n: nat)
    requires values != []
    ensures TextOf(d, FilterPieces(d, In(field, values), n))
         == d.QuoteIdent(field) + " " + KIn.Text() + " " + "("
            + Join(Texts(d, BindPieces(d, values, n)), "," + " ") + ")"
  {
    var open, list := [NamePiece(field), Gap, Kw(KIn), Gap, Tok(LParen)], Join(BindPieces(d, values, n), CommaSep());
    Text5(d, NamePiece(field), Gap, Kw(KIn), Gap, Tok(LParen));
    CommaJoinText(d, BindPieces(d, values, n));
    TextOfConcat(d, open, list);
    TextSnoc(d, open + list, Tok(RParen));
  }

  /** The text of an aggregation call, before its alias. */
  function CallTextOf(d: Dialect, agg: Aggregation): string {
    if agg.field.None? then KCount.Text() + "(" + "*" + ")"
    else
      var name := d.QuoteIdent(agg.field.value);
      match agg.func
      case Count => KCount.Text() + "(" + name + ")"
      case CountDistinct => KCount.Text() + "(" + KDistinct.Text() + " " + name + ")"
      case Sum => KSum.Text() + "(" + name + ")"
      case Avg => KAvg.Text() + "(" + name + ")"
      case Min => KMin.Text() + "(" + name + ")"
      case Max => KMax.Text() + "(" + name + ")"
  }

  lemma CountDistinctText(d: Dialect, x: Piece)
    ensures TextOf(d, [Kw(KCount), Tok(LParen), Kw(KDistinct), Gap, x, Tok(RParen)])
         == KCount.Text() + "(" + KDistinct.Text() + " " + PieceText(d, x) + ")"
  {
    Text4(d, Kw(KCount), Tok(LParen), Kw(KDistinct), Gap);
    TextSnoc2(d, [Kw(KCount), Tok(LParen), Kw(KDistinct), Gap], x, Tok(RParen));
    assert [Kw(KCount), Tok(LParen), Kw(KDistinct), Gap] + [x, Tok(RParen)]
        == [Kw(KCount), Tok(LParen), Kw(KDistinct), Gap, x, Tok(RParen)];
  }

  lemma CallText(d: Dialect, agg: Aggregation)
    requires agg.alias.None? && (agg.field.None? ==> agg.func.Count?)
    ensures AggregationPieces(agg).Ok? && TextOf(d, AggregationPieces(agg).value) == CallTextOf(d, agg)
  {
    if agg.field.None? {
      Text4(d, Kw(KCount), Tok(LParen), Tok(Star), Tok(RParen));
    } else {
      var x := NamePiece(agg.field.value);
      match agg.func
      case Count => Text4(d, Kw(KCount), Tok(LParen), x, Tok(RParen));
      case CountDistinct => CountDistinctText(d, x);
      case Sum => Text4(d, Kw(KSum), Tok(LParen), x, Tok(RParen));
      case Avg => Text4(d, Kw(KAvg), Tok(LParen), x, Tok(RParen));
      case Min => Text4(d, Kw(KMin), Tok(LParen), x, Tok(RParen));
      case Max => Text4(d, Kw(KMax), Tok(LParen), x, Tok(RParen));
    }
  }

  lemma AggregationText(d: Dialect, agg: Aggregation, expr: string)
    requires agg.field.None? ==> agg.func.Count?
    requires expr == CallTextOf(d, agg)
    ensures AggregationPieces(agg).Ok?
    ensures TextOf(d, AggregationPieces(agg).value)
         == if agg.alias.None? then expr else expr + (" " + KAs.Text() + " " + d.QuoteIdent(agg.alias.value))
  {
    var bare := agg.(alias := None);
    CallText(d, bare);
    if agg.alias.Some? {
      AliasText(d, AggregationPieces(bare).value, agg.alias.value);
    }
  }

  lemma AliasText(d: Dialect, column: seq<Piece>, alias: string)
    ensures TextOf(d, column + [Gap, Kw(KAs), Gap, NamePiece(alias)])
         == TextOf(d, column) + (" " + KAs.Text() + " " + d.QuoteIdent(alias))
  {
    Text4(d, Gap, Kw(KAs), Gap, NamePiece(alias));
    TextOfConcat(d, column, [Gap, Kw(KAs), Gap, NamePiece(alias)]);
  }

  lemma OrderTextStep(d: Dialect, front: seq<OrderBy>, last: OrderBy)
    ensures Texts(d, OrderPieces(front + [last])) == Texts(d, OrderPieces(front)) +
            [d.QuoteIdent(last.field) + " " + (if last.direction.Asc? then KAsc else KDesc).Text()]
  {
    OrderPiecesSnoc(front, last);
    TextsStep(d, OrderPieces(front), OrderPiece(last));
    Text3(d, NamePiece(last.field), Gap, Kw(if last.direction.Asc? then KAsc else KDesc));
  }

  lemma ColumnsStep(d: Dialect, known: seq<seq<Piece>>, front: seq<Aggregation>, agg: Aggregation,
                    cols: seq<seq<Piece>>, col: seq<Piece>)
    requires AggregationColumns(front) == Ok(cols) && AggregationPieces(agg) == Ok(col)
    ensures AggregationColumns(front + [agg]) == Ok(cols + [col])
    ensures Texts(d, known + (cols + [col])) == Texts(d, known + cols) + [TextOf(d, col)]
  {
    assert (front + [agg])[..|front|] == front;
    TextsStep(d, known + cols, col);
    assert known + (cols + [col]) == known + cols + [col];
  }

  /** The first aggregation without a column decides the error. */
  lemma {:induction false} ColumnsError(aggs: seq<Aggregation>, k: nat)
    requires k < |aggs| && AggregationColumns(aggs[..k]).Ok? && AggregationPieces(aggs[k]).Err?
    ensures AggregationColumns(aggs) == Err(AggregationPieces(aggs[k]).error)
    decreases |aggs|
  {
    var front := aggs[..|aggs| - 1];
    if k < |front| {
      assert front[..k] == aggs[..k];
      ColumnsError(front, k);
    } else {
      assert front == aggs[..k];
    }
  }

  lemma HeadText(d: Dialect, q: Query, select: seq<Piece>)
    ensures TextOf(d, HeadPieces(q, select))
         == KSelect.Text() + " " + TextOf(d, select) + (" " + KFrom.Text() + " " + d.QuoteIdent(q.sourceTable))
  {
    Text2(d, Kw(KSelect), Gap);
    Text4(d, Gap, Kw(KFrom), Gap, NamePiece(q.sourceTable));
    TextOfConcat(d, [Kw(KSelect), Gap], select);
    TextOfConcat(d, [Kw(KSelect), Gap] + select, [Gap, Kw(KFrom), Gap, NamePiece(q.sourceTable)]);
  }

  lemma WhereText(d: Dialect, q: Query)
    requires q.filters != [] ==> PartsOf(d, q.filters, 0) != []
    ensures TextOf(d, WherePieces(d, q))
         == if q.filters == [] then ""
            else " " + KWhere.Text() + " " + Join(Texts(d, PartsOf(d, q.filters, 0)), " " + KAnd.Text() + " ")
  {
    Text3(d, Gap, Kw(KWhere), Gap);
    TextOfJoin(d, PartsOf(d, q.filters, 0), Joiner(KAnd));
    Text3(d, Gap, Kw(KAnd), Gap);
    TextOfConcat(d, [Gap, Kw(KWhere), Gap], Join(PartsOf(d, q.filters, 0), Joiner(KAnd)));
  }

  lemma GroupText(d: Dialect, q: Query)
    ensures TextOf(d, GroupPieces(q))
         == if q.aggregations == [] || q.breakouts == [] then ""
            else " " + KGroup.Text() + " " + KBy.Text() + " " + Join(Texts(d, NamePieces(q.breakouts)), "," + " ")
  {
    Text5(d, Gap, Kw(KGroup), Gap, Kw(KBy), Gap);
    CommaJoinText(d, NamePieces(q.breakouts));
    TextOfConcat(d, [Gap, Kw(KGroup), Gap, Kw(KBy), Gap], Join(NamePieces(q.breakouts), CommaSep()));
  }

  lemma OrderText(d: Dialect, q: Query)
    ensures TextOf(d, OrderByPieces(q))
         == if q.orderBy == [] then ""
            else " " + KOrder.Text() + " " + KBy.Text() + " " + Join(Texts(d, OrderPieces(q.orderBy)), "," + " ")
  {
    Text5(d, Gap, Kw(KOrder), Gap, Kw(KBy), Gap);
    CommaJoinText(d, OrderPieces(q.orderBy));
    TextOfConcat(d, [Gap, Kw(KOrder), Gap, Kw(KBy), Gap], Join(OrderPieces(q.orderBy), CommaSep()));
  }

  lemma LimitText(d: Dialect, q: Query)
    ensures TextOf(d, LimitPieces(d, q)) == if q.limit.None? then "" else " " + d.LimitClause(q.limit.value)
  {
    if q.limit.Some? {
      LimitClauseText(d, q.limit.value);
      Text1(d, Gap);
      TextOfConcat(d, [Gap], LimitClausePieces(d, q.limit.value));
    }
  }

  lemma LimitClauseText(d: Dialect, n: nat)
    ensures TextOf(d, LimitClausePieces(d, n)) == d.LimitClause(n)
  {
    if d.Oracle? {
      OffsetClauseText(d);
      FetchClauseText(d, n);
      OffsetFetchText(d, n, OffsetPieces(), FetchPieces(n));
    } else {
      Text3(d, Kw(KLimit), Gap, Tok(Number(n)));
    }
  }

  lemma OffsetClauseText(d: Dialect)
    ensures TextOf(d, OffsetPieces()) == d.OffsetText()
  {
    Text5(d, Kw(KOffset), Gap, Tok(Number(0)), Gap, Kw(KRows));
  }

  lemma FetchClauseText(d: Dialect, n: nat)
    ensures TextOf(d, FetchPieces(n)) == d.FetchText(n)
  {
    FiveWordsText(d, Kw(KFetch), Kw(KNext), Tok(Number(n)), Kw(KRows), Kw(KOnly));
  }

  lemma OffsetFetchText(d: Dialect, n: nat, offset: seq<Piece>, fetch: seq<Piece>)
    requires TextOf(d, offset) == d.OffsetText() && TextOf(d, fetch) == d.FetchText(n)
    ensures TextOf(d, offset + [Gap] + fetch) == d.OffsetText() + " " + d.FetchText(n)
  {
    TextSnoc(d, offset, Gap);
    TextOfConcat(d, offset + [Gap], fetch);
  }
}
