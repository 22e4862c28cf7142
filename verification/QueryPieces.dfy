/**
 What the compiler emits, as pieces: the shape of the text of each filter and of
 the whole statement, with the number each placeholder gets, and the parameters
 in the order they are bound.
 */
module QueryPieces {
  import opened Common
  import opened Gql
  import opened Dialects
  import opened Keywords
  import opened SqlLexer

  function Join<T>(parts: seq<seq<T>>, sep: seq<T>): seq<T> {
    if parts == [] then []
    else if |parts| == 1 then parts[0]
    else Join(parts[..|parts| - 1], sep) + sep + parts[|parts| - 1]
  }

  function Kw(word: Keyword): Piece { Tok(Word(word)) }

  function NamePiece(name: string): Piece { Tok(Name(name)) }

  function BindPiece(d: Dialect, k: nat, param: Literal): Piece { Tok(Bind(k, d.TypeName(param))) }

  /** The placeholders of `params`, numbered after the first `n`. */
  function BindPieces(d: Dialect, params: seq<Literal>, n: nat): (r: seq<seq<Piece>>)
    ensures |r| == |params|
  {
    if params == [] then []
    else BindPieces(d, params[..|params| - 1], n) + [[BindPiece(d, n + |params|, params[|params| - 1])]]
  }

  // ---- Filters -----------------------------------------------------------------

  /** The literals of a filter, left to right. */
  function ParamsOf(f: Filter): seq<Literal> {
    match f
    case Compare(_, _, value) => [value]
    case Like(_, pattern, _) => [Text(pattern)]
    case In(_, values) => values
    case Between(_, low, high) => [low, high]
    case IsNull(_) => []
    case IsNotNull(_) => []
    case And(subs) => ParamsOfAll(subs)
    case Or(subs) => ParamsOfAll(subs)
    case Not(inner) => ParamsOf(inner)
  }

  function ParamsOfAll(subs: seq<Filter>): seq<Literal> {
    if subs == [] then [] else ParamsOfAll(subs[..|subs| - 1]) + ParamsOf(subs[|subs| - 1])
  }

  /** The text of a filter when `n` parameters are bound already. */
  function FilterPieces(d: Dialect, f: Filter, n: nat): seq<Piece> {
    match f
    case Compare(field, op, value) =>
      [NamePiece(field), Gap, Tok(Operator(op)), Gap, BindPiece(d, n + 1, value)]
    case Like(field, pattern, ci) =>
      var bind := BindPiece(d, n + 1, Text(pattern));
      if ci then
        [Kw(KLower), Tok(LParen), NamePiece(field), Tok(RParen), Gap, Kw(KLike), Gap,
         Kw(KLower), Tok(LParen), bind, Tok(RParen)]
      else [NamePiece(field), Gap, Kw(KLike), Gap, bind]
    case In(field, values) =>
      if values == [] then Constant(0)
      else
        [NamePiece(field), Gap, Kw(KIn), Gap, Tok(LParen)] + Join(BindPieces(d, values, n), [Tok(Comma), Gap])
        + [Tok(RParen)]
    case Between(field, low, high) =>
      [NamePiece(field), Gap, Kw(KBetween), Gap, BindPiece(d, n + 1, low), Gap, Kw(KAnd), Gap,
       BindPiece(d, n + 2, high)]
    case IsNull(field) => [NamePiece(field), Gap, Kw(KIs), Gap, Kw(KNull)]
    case IsNotNull(field) => [NamePiece(field), Gap, Kw(KIs), Gap, Kw(KNot), Gap, Kw(KNull)]
    case And(subs) => Junction(PartsOf(d, subs, n), KAnd, 1)
    case Or(subs) => Junction(PartsOf(d, subs, n), KOr, 0)
    case Not(inner) =>
      [Tok(LParen), Kw(KNot), Gap, Tok(LParen)] + FilterPieces(d, inner, n) + [Tok(RParen), Tok(RParen)]
  }

  function PartsOf(d: Dialect, subs: seq<Filter>, n: nat): (r: seq<seq<Piece>>)
    ensures |r| == |subs|
  {
    if subs == [] then []
    else
      var front := subs[..|subs| - 1];
      PartsOf(d, front, n) + [FilterPieces(d, subs[|subs| - 1], n + |ParamsOfAll(front)|)]
  }

  function Junction(parts: seq<seq<Piece>>, joiner: Keyword, neutral: nat): seq<Piece> {
    if parts == [] then Constant(neutral) else [Tok(LParen)] + Join(parts, Joiner(joiner)) + [Tok(RParen)]
  }

  function Joiner(word: Keyword): seq<Piece> { [Gap, Kw(word), Gap] }

  /** `1 = 1` or `1 = 0`. */
  function Constant(right: nat): seq<Piece> {
    [Tok(Number(1)), Gap, Tok(Operator(Eq)), Gap, Tok(Number(right))]
  }

  // ---- The statement --------------------------------------------------------------

  datatype CompileError = RequiresField(func: AggFunc) | NothingToSelect

  function NamePieces(names: seq<string>): (r: seq<seq<Piece>>)
    ensures |r| == |names|
  {
    if names == [] then [] else NamePieces(names[..|names| - 1]) + [[NamePiece(names[|names| - 1])]]
  }

  function Call(func: Keyword, field: string): seq<Piece> {
    [Kw(func), Tok(LParen), NamePiece(field), Tok(RParen)]
  }

  function AggregationPieces(agg: Aggregation): Result<seq<Piece>, CompileError> {
    if agg.field.None? && !agg.func.Count? then Err(RequiresField(agg.func))
    else
      var call :=
        if agg.field.None? then [Kw(KCount), Tok(LParen), Tok(Star), Tok(RParen)]
        else
          match agg.func
          case Count => Call(KCount, agg.field.value)
          case CountDistinct => [Kw(KCount), Tok(LParen), Kw(KDistinct), Gap, NamePiece(agg.field.value), Tok(RParen)]
          case Sum => Call(KSum, agg.field.value)
          case Avg => Call(KAvg, agg.field.value)
          case Min => Call(KMin, agg.field.value)
          case Max => Call(KMax, agg.field.value);
      Ok(if agg.alias.None? then call else call + [Gap, Kw(KAs), Gap, NamePiece(agg.alias.value)])
  }

  /** The aggregate columns, or the error of the first one that has none. */
  function AggregationColumns(aggs: seq<Aggregation>): Result<seq<seq<Piece>>, CompileError> {
    if aggs == [] then Ok([])
    else
      match AggregationColumns(aggs[..|aggs| - 1])
      case Err(e) => Err(e)
      case Ok(cols) =>
        match AggregationPieces(aggs[|aggs| - 1])
        case Err(e) => Err(e)
        case Ok(col) => Ok(cols + [col])
  }

  function CommaSep(): seq<Piece> { [Tok(Comma), Gap] }

  function SelectPieces(q: Query): Result<seq<Piece>, CompileError> {
    if q.aggregations != [] then
      match AggregationColumns(q.aggregations)
      case Err(e) => Err(e)
      case Ok(cols) =>
        if NamePieces(q.breakouts) + cols == [] then Err(NothingToSelect)
        else Ok(Join(NamePieces(q.breakouts) + cols, CommaSep()))
    else if q.fields == [] then Ok([Tok(Star)])
    else Ok(Join(NamePieces(q.fields), CommaSep()))
  }

  function OrderPiece(term: OrderBy): seq<Piece> {
    [NamePiece(term.field), Gap, Kw(if term.direction.Asc? then KAsc else KDesc)]
  }

  function OrderPieces(terms: seq<OrderBy>): (r: seq<seq<Piece>>)
    ensures |r| == |terms|
  {
    if terms == [] then [] else OrderPieces(terms[..|terms| - 1]) + [OrderPiece(terms[|terms| - 1])]
  }

  lemma OrderPiecesSnoc(front: seq<OrderBy>, last: OrderBy)
    ensures OrderPieces(front + [last]) == OrderPieces(front) + [OrderPiece(last)]
  {
    assert (front + [last])[..|front|] == front;
  }

  function WherePieces(d: Dialect, q: Query): seq<Piece> {
    if q.filters == [] then []
    else [Gap, Kw(KWhere), Gap] + Join(PartsOf(d, q.filters, 0), Joiner(KAnd))
  }

  function GroupPieces(q: Query): seq<Piece> {
    if q.aggregations == [] || q.breakouts == [] then []
    else [Gap, Kw(KGroup), Gap, Kw(KBy), Gap] + Join(NamePieces(q.breakouts), CommaSep())
  }

  function OrderByPieces(q: Query): seq<Piece> {
    if q.orderBy == [] then []
    else [Gap, Kw(KOrder), Gap, Kw(KBy), Gap] + Join(OrderPieces(q.orderBy), CommaSep())
  }

  function OffsetPieces(): seq<Piece> {
    [Kw(KOffset), Gap, Tok(Number(0)), Gap, Kw(KRows)]
  }

  function FetchPieces(n: nat): seq<Piece> {
    [Kw(KFetch), Gap, Kw(KNext), Gap, Tok(Number(n)), Gap, Kw(KRows), Gap, Kw(KOnly)]
  }

  function LimitClausePieces(d: Dialect, n: nat): seq<Piece> {
    if d.Oracle? then OffsetPieces() + [Gap] + FetchPieces(n)
    else [Kw(KLimit), Gap, Tok(Number(n))]
  }

  function LimitPieces(d: Dialect, q: Query): seq<Piece> {
    if q.limit.None? then []
    else [Gap] + LimitClausePieces(d, q.limit.value)
  }

  function TailPieces(d: Dialect, q: Query): seq<Piece> {
    GroupPieces(q) + OrderByPieces(q) + LimitPieces(d, q)
  }

  function HeadPieces(q: Query, select: seq<Piece>): seq<Piece> {
    [Kw(KSelect), Gap] + select + [Gap, Kw(KFrom), Gap, NamePiece(q.sourceTable)]
  }

  function StatementPieces(d: Dialect, q: Query): Result<seq<Piece>, CompileError> {
    match SelectPieces(q)
    case Err(e) => Err(e)
    case Ok(select) => Ok(HeadPieces(q, select) + WherePieces(d, q) + TailPieces(d, q))
  }

  lemma ParamsOfAllSnoc(front: seq<Filter>, last: Filter)
    ensures ParamsOfAll(front + [last]) == ParamsOfAll(front) + ParamsOf(last)
  {
    assert (front + [last])[..|front|] == front;
  }

  lemma BindPiecesSnoc(d: Dialect, front: seq<Literal>, last: Literal, n: nat)
    ensures BindPieces(d, front + [last], n) == BindPieces(d, front, n) + [[BindPiece(d, n + |front| + 1, last)]]
  {
    assert (front + [last])[..|front|] == front;
  }

  lemma PartsOfSnoc(d: Dialect, front: seq<Filter>, last: Filter, n: nat)
    ensures PartsOf(d, front + [last], n) == PartsOf(d, front, n) + [FilterPieces(d, last, n + |ParamsOfAll(front)|)]
  {
    assert (front + [last])[..|front|] == front;
  }

  // ---- Texts of short piece lists ---------------------------------------------------

  lemma TextSnoc(d: Dialect, ps: seq<Piece>, p: Piece)
    ensures TextOf(d, ps + [p]) == TextOf(d, ps) + PieceText(d, p)
  {
    TextOfConcat(d, ps, [p]);
    assert TextOf(d, [p]) == PieceText(d, p) + TextOf(d, []);
  }

  lemma TextSnoc2(d: Dialect, ps: seq<Piece>, p: Piece, q: Piece)
    ensures TextOf(d, ps + [p, q]) == TextOf(d, ps) + PieceText(d, p) + PieceText(d, q)
  {
    TextSnoc(d, ps, p);
    TextSnoc(d, ps + [p], q);
    assert ps + [p] + [q] == ps + [p, q];
  }

  lemma Text1(d: Dialect, a: Piece)
    ensures TextOf(d, [a]) == PieceText(d, a)
  {
    assert TextOf(d, [a]) == PieceText(d, a) + TextOf(d, []);
  }

  lemma Text2(d: Dialect, a: Piece, b: Piece)
    ensures TextOf(d, [a, b])
         == PieceText(d, a) + PieceText(d, b)
  {
    Text1(d, a);
    TextSnoc(d, [a], b);
    assert [a] + [b] == [a, b];
  }

  lemma Text3(d: Dialect, a: Piece, b: Piece, c: Piece)
    ensures TextOf(d, [a, b, c])
         == PieceText(d, a) + PieceText(d, b) + PieceText(d, c)
  {
    Text2(d, a, b);
    TextSnoc(d, [a, b], c);
    assert [a, b] + [c] == [a, b, c];
  }

  lemma Text4(d: Dialect, a: Piece, b: Piece, c: Piece, e: Piece)
    ensures TextOf(d, [a, b, c, e])
         == PieceText(d, a) + PieceText(d, b) + PieceText(d, c) + PieceText(d, e)
  {
    Text3(d, a, b, c);
    TextSnoc(d, [a, b, c], e);
    assert [a, b, c] + [e] == [a, b, c, e];
  }

  lemma Text5(d: Dialect, a: Piece, b: Piece, c: Piece, e: Piece, f: Piece)
    ensures TextOf(d, [a, b, c, e, f])
         == PieceText(d, a) + PieceText(d, b) + PieceText(d, c) + PieceText(d, e) + PieceText(d, f)
  {
    Text4(d, a, b, c, e);
    TextSnoc(d, [a, b, c, e], f);
    assert [a, b, c, e] + [f] == [a, b, c, e, f];
  }

  function Texts(d: Dialect, parts: seq<seq<Piece>>): (r: seq<string>)
    ensures |r| == |parts|
  {
    if parts == [] then []
    else Texts(d, parts[..|parts| - 1]) + [TextOf(d, parts[|parts| - 1])]
  }

  lemma TextsStep(d: Dialect, parts: seq<seq<Piece>>, last: seq<Piece>)
    ensures Texts(d, parts + [last]) == Texts(d, parts) + [TextOf(d, last)]
  {
    assert (parts + [last])[..|parts|] == parts;
  }

  /** Joining texts is the text of the joined pieces. */
  lemma {:induction false} TextOfJoin(d: Dialect, parts: seq<seq<Piece>>, sep: seq<Piece>)
    ensures TextOf(d, Join(parts, sep)) == Join(Texts(d, parts), TextOf(d, sep))
  {
    if |parts| > 1 {
      var front, last := parts[..|parts| - 1], parts[|parts| - 1];
      TextOfJoin(d, front, sep);
      assert Texts(d, parts)[..|parts| - 1] == Texts(d, front);
      TextOfConcat(d, Join(front, sep), sep);
      TextOfConcat(d, Join(front, sep) + sep, last);
    }
  }
}
