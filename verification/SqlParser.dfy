/**
 A parser and evaluator for SQL search conditions, independent of the compiler:
 NOT binds tighter than AND, AND tighter than OR, and BETWEEN owns the AND
 between its bounds (sections 8.3 and 8.12 of ISO/IEC 9075:1992). Conditions are
 evaluated in three-valued logic with the bound parameters.
 */
module SqlParser {
  import opened Common
  import opened Gql
  import opened Keywords
  import opened SqlLexer

  datatype Expr = Column(name: string) | Param(k: nat) | Num(n: nat) | Lower(e: Expr)

  datatype Cond =
    | Comparison(left: Expr, op: CompareOp, right: Expr)
    | LikeCond(left: Expr, pattern: Expr)
    | InCond(left: Expr, items: seq<Expr>)
    | BetweenCond(left: Expr, low: Expr, high: Expr)
    | NullCond(left: Expr, negated: bool)
    | NotCond(c: Cond)
    | AndCond(a: Cond, b: Cond)
    | OrCond(a: Cond, b: Cond)

  type Parsed<T> = Option<(T, seq<Token>)>

  // ---- Parsing --------------------------------------------------------------------

  predicate StartsWith(ts: seq<Token>, t: Token) {
    ts != [] && ts[0] == t
  }

  function ParseExpr(ts: seq<Token>): (r: Parsed<Expr>)
    ensures r.Some? ==> |r.value.1| < |ts|
  {
    if ts == [] then None
    else
      match ts[0]
      case Name(name) => Some((Column(name), ts[1..]))
      case Bind(k, _) => Some((Param(k), ts[1..]))
      case Number(n) => Some((Num(n), ts[1..]))
      case Word(w) =>
        if w != KLower || !StartsWith(ts[1..], LParen) then None
        else
          (match ParseExpr(ts[2..])
           case None => None
           case Some((e, rest)) => if StartsWith(rest, RParen) then Some((Lower(e), rest[1..])) else None)
      case _ => None
  }

  /** After the first item of an IN list: `, item` any number of times, then `)`. */
  function ParseItems(items: seq<Expr>, ts: seq<Token>): (r: Parsed<seq<Expr>>)
    ensures r.Some? ==> |r.value.1| < |ts|
    decreases |ts|
  {
    if StartsWith(ts, RParen) then Some((items, ts[1..]))
    else if !StartsWith(ts, Comma) then None
    else
      match ParseExpr(ts[1..])
      case None => None
      case Some((e, rest)) => ParseItems(items + [e], rest)
  }

  function ParseIn(left: Expr, ts: seq<Token>): (r: Parsed<Cond>)
    ensures r.Some? ==> |r.value.1| < |ts|
  {
    if !StartsWith(ts, LParen) then None
    else
      match ParseExpr(ts[1..])
      case None => None
      case Some((e, rest)) =>
        match ParseItems([e], rest)
        case None => None
        case Some((items, rest')) => Some((InCond(left, items), rest'))
  }

  function ParseBetween(left: Expr, ts: seq<Token>): (r: Parsed<Cond>)
    ensures r.Some? ==> |r.value.1| < |ts|
  {
    match ParseExpr(ts)
    case None => None
    case Some((low, rest)) =>
      if !StartsWith(rest, Word(KAnd)) then None
      else
        match ParseExpr(rest[1..])
        case None => None
        case Some((high, rest')) => Some((BetweenCond(left, low, high), rest'))
  }

  function ParsePredicate(ts: seq<Token>): (r: Parsed<Cond>)
    ensures r.Some? ==> |r.value.1| < |ts|
  {
    match ParseExpr(ts)
    case None => None
    case Some((left, rest)) =>
      if rest == [] then None
      else if rest[0].Operator? then
        match ParseExpr(rest[1..])
        case None => None
        case Some((right, rest')) => Some((Comparison(left, rest[0].op, right), rest'))
      else if rest[0] == Word(KLike) then
        match ParseExpr(rest[1..])
        case None => None
        case Some((pattern, rest')) => Some((LikeCond(left, pattern), rest'))
      else if rest[0] == Word(KIn) then ParseIn(left, rest[1..])
      else if rest[0] == Word(KBetween) then ParseBetween(left, rest[1..])
      else if rest[0] == Word(KIs) then
        if StartsWith(rest[1..], Word(KNull)) then Some((NullCond(left, false), rest[2..]))
        else if StartsWith(rest[1..], Word(KNot)) && StartsWith(rest[2..], Word(KNull)) then
          Some((NullCond(left, true), rest[3..]))
        else None
      else None
  }

  /** A parenthesized condition, or a predicate. */
  function ParseTest(ts: seq<Token>): (r: Parsed<Cond>)
    ensures r.Some? ==> |r.value.1| < |ts|
    decreases |ts|, 0
  {
    if StartsWith(ts, LParen) then
      match ParseOr(ts[1..])
      case None => None
      case Some((c, rest)) => if StartsWith(rest, RParen) then Some((c, rest[1..])) else None
    else ParsePredicate(ts)
  }

  function ParseNot(ts: seq<Token>): (r: Parsed<Cond>)
    ensures r.Some? ==> |r.value.1| < |ts|
    decreases |ts|, 1
  {
    if StartsWith(ts, Word(KNot)) then
      match ParseTest(ts[1..])
      case None => None
      case Some((c, rest)) => Some((NotCond(c), rest))
    else ParseTest(ts)
  }

  function ParseAnd(ts: seq<Token>): (r: Parsed<Cond>)
    ensures r.Some? ==> |r.value.1| < |ts|
    decreases |ts|, 2
  {
    match ParseNot(ts)
    case None => None
    case Some((c, rest)) => AndTail(c, rest)
  }

  function AndTail(c: Cond, ts: seq<Token>): (r: Parsed<Cond>)
    ensures r.Some? ==> |r.value.1| <= |ts|
    decreases |ts|, 0
  {
    if !StartsWith(ts, Word(KAnd)) then Some((c, ts))
    else
      match ParseNot(ts[1..])
      case None => None
      case Some((c', rest)) => AndTail(AndCond(c, c'), rest)
  }

  function ParseOr(ts: seq<Token>): (r: Parsed<Cond>)
    ensures r.Some? ==> |r.value.1| < |ts|
    decreases |ts|, 3
  {
    match ParseAnd(ts)
    case None => None
    case Some((c, rest)) => OrTail(c, rest)
  }

  function OrTail(c: Cond, ts: seq<Token>): (r: Parsed<Cond>)
    ensures r.Some? ==> |r.value.1| <= |ts|
    decreases |ts|, 0
  {
    if !StartsWith(ts, Word(KOr)) then Some((c, ts))
    else
      match ParseAnd(ts[1..])
      case None => None
      case Some((c', rest)) => OrTail(OrCond(c, c'), rest)
  }

  // ---- Evaluating --------------------------------------------------------------------

  /** A parameter marker stands for the k-th bound parameter, counting from 1. */
  function Value(e: Engine, row: Row, params: seq<Literal>, x: Expr): Literal {
    match x
    case Column(name) => row(name)
    case Param(k) => if 1 <= k <= |params| then params[k - 1] else Null
    case Num(n) => if n < 0x8000_0000_0000_0000 then Int(n as i64) else Null
    case Lower(inner) => LowerValue(e, Value(e, row, params, inner))
  }

  function ItemsEqual(e: Engine, row: Row, params: seq<Literal>, x: Literal, items: seq<Expr>): Truth {
    if items == [] then False
    else Or3(ItemsEqual(e, row, params, x, items[..|items| - 1]),
             CompareValues(e, x, Eq, Value(e, row, params, items[|items| - 1])))
  }

  function Eval(e: Engine, row: Row, params: seq<Literal>, c: Cond): Truth {
    match c
    case Comparison(left, op, right) => CompareValues(e, Value(e, row, params, left), op, Value(e, row, params, right))
    case LikeCond(left, pattern) => LikeValues(e, Value(e, row, params, left), Value(e, row, params, pattern))
    case InCond(left, items) => ItemsEqual(e, row, params, Value(e, row, params, left), items)
    case BetweenCond(left, low, high) =>
      And3(CompareValues(e, Value(e, row, params, left), Ge, Value(e, row, params, low)),
           CompareValues(e, Value(e, row, params, left), Le, Value(e, row, params, high)))
    case NullCond(left, negated) => FromBool(Value(e, row, params, left).Null? != negated)
    case NotCond(inner) => Not3(Eval(e, row, params, inner))
    case AndCond(a, b) => And3(Eval(e, row, params, a), Eval(e, row, params, b))
    case OrCond(a, b) => Or3(Eval(e, row, params, a), Eval(e, row, params, b))
  }
}
