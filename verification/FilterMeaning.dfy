/**
 The emitted text of a filter, parsed with standard precedence and evaluated with
 the bound parameters, means the filter: on every row, for every nesting,
 including empty And, Or and In.
 */
module FilterMeaning {
  import opened Common
  import opened Gql
  import opened Dialects
  import opened Keywords
  import opened SqlLexer
  import opened SqlParser
  import opened QueryPieces
  import opened FilterTokens

  // ---- The parse tree of a filter -----------------------------------------------------

  /** The parse tree of the text of `f` when `n` parameters are bound already. */
  function CondOf(f: Filter, n: nat): Cond {
    match f
    case Compare(field, op, _) => Comparison(Column(field), op, Param(n + 1))
    case Like(field, _, ci) =>
      if ci then LikeCond(Lower(Column(field)), Lower(Param(n + 1))) else LikeCond(Column(field), Param(n + 1))
    case In(field, values) =>
      if values == [] then ConstantCond(0) else InCond(Column(field), Markers(|values|, n))
    case Between(field, _, _) => BetweenCond(Column(field), Param(n + 1), Param(n + 2))
    case IsNull(field) => NullCond(Column(field), false)
    case IsNotNull(field) => NullCond(Column(field), true)
    case And(subs) => if subs == [] then ConstantCond(1) else Conjunction(subs, n)
    case Or(subs) => if subs == [] then ConstantCond(0) else Disjunction(subs, n)
    case Not(inner) => NotCond(CondOf(inner, n))
  }

  function ConstantCond(right: nat): Cond {
    Comparison(Num(1), Eq, Num(right))
  }

  function Markers(count: nat, n: nat): (r: seq<Expr>)
    ensures |r| == count
  {
    if count == 0 then [] else Markers(count - 1, n) + [Param(n + count)]
  }

  function Conjunction(subs: seq<Filter>, n: nat): Cond
    requires subs != []
  {
    var front := subs[..|subs| - 1];
    var last := CondOf(subs[|subs| - 1], n + |ParamsOfAll(front)|);
    if front == [] then last else AndCond(Conjunction(front, n), last)
  }

  function Disjunction(subs: seq<Filter>, n: nat): Cond
    requires subs != []
  {
    var front := subs[..|subs| - 1];
    var last := CondOf(subs[|subs| - 1], n + |ParamsOfAll(front)|);
    if front == [] then last else OrCond(Disjunction(front, n), last)
  }

  // ---- Parsing the fixed phrases -----------------------------------------------------------

  /** A column, a parameter marker or a number. */
  predicate IsOperand(t: Token) {
    t.Name? || t.Bind? || t.Number?
  }

  function OperandOf(t: Token): Expr
    requires IsOperand(t)
  {
    match t case Name(name) => Column(name) case Bind(k, _) => Param(k) case Number(n) => Num(n)
  }

  lemma ParseOperand(t: Token, rest: seq<Token>)
    requires IsOperand(t)
    ensures ParseExpr([t] + rest) == Some((OperandOf(t), rest))
  {
    assert ([t] + rest)[1..] == rest;
  }

  lemma ParseLowered(t: Token, rest: seq<Token>)
    requires IsOperand(t)
    ensures ParseExpr([Word(KLower), LParen, t, RParen] + rest) == Some((Lower(OperandOf(t)), rest))
  {
    var ts := [Word(KLower), LParen, t, RParen] + rest;
    ParseOperand(t, [RParen] + rest);
    assert ts[2..] == [t] + ([RParen] + rest);
    assert ([RParen] + rest)[1..] == rest;
  }

  lemma TestComparison(a: Token, op: CompareOp, b: Token, rest: seq<Token>)
    requires IsOperand(a) && IsOperand(b)
    ensures ParseTest([a, Operator(op), b] + rest) == Some((Comparison(OperandOf(a), op, OperandOf(b)), rest))
  {
    var ts := [a, Operator(op), b] + rest;
    assert ts == [a] + ([Operator(op)] + ([b] + rest));
    ParseOperand(a, [Operator(op)] + ([b] + rest));
    assert ([Operator(op)] + ([b] + rest))[1..] == [b] + rest;
    ParseOperand(b, rest);
  }

  lemma TestLike(a: Token, b: Token, rest: seq<Token>)
    requires IsOperand(a) && IsOperand(b)
    ensures ParseTest([a, Word(KLike), b] + rest) == Some((LikeCond(OperandOf(a), OperandOf(b)), rest))
  {
    var tail := [Word(KLike)] + ([b] + rest);
    assert [a, Word(KLike), b] + rest == [a] + tail;
    ParseOperand(a, tail);
    assert tail[1..] == [b] + rest;
    ParseOperand(b, rest);
  }

  lemma TestLowerLike(a: Token, b: Token, rest: seq<Token>)
    requires IsOperand(a) && IsOperand(b)
    ensures ParseTest([Word(KLower), LParen, a, RParen, Word(KLike), Word(KLower), LParen, b, RParen] + rest)
         == Some((LikeCond(Lower(OperandOf(a)), Lower(OperandOf(b))), rest))
  {
    var left, right := [Word(KLower), LParen, a, RParen], [Word(KLower), LParen, b, RParen];
    var tail := [Word(KLike)] + (right + rest);
    assert [Word(KLower), LParen, a, RParen, Word(KLike), Word(KLower), LParen, b, RParen] + rest == left + tail;
    ParseLowered(a, tail);
    assert tail[1..] == right + rest;
    ParseLowered(b, rest);
  }

  lemma FourThen<T>(a: T, b: T, c: T, d: T, rest: seq<T>)
    ensures [a, b, c, d] + rest == [a] + ([b] + ([c] + ([d] + rest)))
  {
  }

  lemma FiveThen<T>(a: T, b: T, c: T, d: T, e: T, rest: seq<T>)
    ensures [a, b, c, d, e] + rest == [a] + ([b] + ([c] + ([d] + ([e] + rest))))
  {
  }

  lemma TestBetween(a: Token, lo: Token, hi: Token, rest: seq<Token>)
    requires IsOperand(a) && IsOperand(lo) && IsOperand(hi)
    ensures ParseTest([a, Word(KBetween), lo, Word(KAnd), hi] + rest)
         == Some((BetweenCond(OperandOf(a), OperandOf(lo), OperandOf(hi)), rest))
  {
    var tail3 := [Word(KAnd)] + ([hi] + rest);
    var tail2 := [lo] + tail3;
    var tail1 := [Word(KBetween)] + tail2;
    FiveThen(a, Word(KBetween), lo, Word(KAnd), hi, rest);
    ParseOperand(a, tail1);
    assert tail1[1..] == tail2;
    ParseOperand(lo, tail3);
    assert tail3[1..] == [hi] + rest;
    ParseOperand(hi, rest);
  }

  lemma TestNull(a: Token, rest: seq<Token>)
    requires IsOperand(a)
    ensures ParseTest([a, Word(KIs), Word(KNull)] + rest) == Some((NullCond(OperandOf(a), false), rest))
  {
    var tail := [Word(KIs)] + ([Word(KNull)] + rest);
    assert [a, Word(KIs), Word(KNull)] + rest == [a] + tail;
    ParseOperand(a, tail);
    assert tail[1..] == [Word(KNull)] + rest && tail[2..] == rest;
  }

  lemma TestNotNull(a: Token, rest: seq<Token>)
    requires IsOperand(a)
    ensures ParseTest([a, Word(KIs), Word(KNot), Word(KNull)] + rest) == Some((NullCond(OperandOf(a), true), rest))
  {
    var tail := [Word(KIs)] + ([Word(KNot)] + ([Word(KNull)] + rest));
    FourThen(a, Word(KIs), Word(KNot), Word(KNull), rest);
    ParseOperand(a, tail);
    DropThree(Word(KIs), Word(KNot), Word(KNull), rest);
  }

  lemma DropThree<T>(a: T, b: T, c: T, rest: seq<T>)
    ensures var all := [a] + ([b] + ([c] + rest));
            all[1..] == [b] + ([c] + rest) && all[2..] == [c] + rest && all[3..] == rest
  {
  }

  /** A parenthesized condition is a test of its own, whatever follows it. */
  lemma TestParens(ts: seq<Token>, c: Cond, rest: seq<Token>)
    requires ParseOr(ts + ([RParen] + rest)) == Some((c, [RParen] + rest))
    ensures ParseTest([LParen] + ts + [RParen] + rest) == Some((c, rest))
  {
    var all := [LParen] + ts + [RParen] + rest;
    assert all[1..] == ts + ([RParen] + rest);
    assert ([RParen] + rest)[1..] == rest;
  }

  /** What parses as a test and does not start with NOT is the first part of a condition, or all of it before `)`. */
  lemma TestIsCondition(ts: seq<Token>, c: Cond, rest: seq<Token>)
    requires ts != [] && ts[0] != Word(KNot) && ParseTest(ts) == Some((c, rest))
    ensures ParseNot(ts) == Some((c, rest)) && ParseAnd(ts) == AndTail(c, rest)
    ensures !StartsWith(rest, Word(KAnd)) ==> ParseAnd(ts) == Some((c, rest)) && ParseOr(ts) == OrTail(c, rest)
    ensures !StartsWith(rest, Word(KAnd)) && !StartsWith(rest, Word(KOr)) ==> ParseOr(ts) == Some((c, rest))
  {
  }

  lemma TestNegation(ts: seq<Token>, c: Cond, rest: seq<Token>)
    requires ParseTest([LParen] + ts + [RParen] + ([RParen] + rest)) == Some((c, [RParen] + rest))
    ensures ParseTest([LParen, Word(KNot), LParen] + ts + [RParen, RParen] + rest) == Some((NotCond(c), rest))
  {
    var inner := [LParen] + ts + [RParen];
    var body := [Word(KNot)] + inner;
    var close := [RParen] + rest;
    assert body + close == [Word(KNot)] + (inner + close);
    assert (body + close)[1..] == inner + close;
    assert ParseNot(body + close) == Some((NotCond(c), close));
    assert ParseAnd(body + close) == AndTail(NotCond(c), close);
    assert ParseOr(body + close) == Some((NotCond(c), close));
    TestParens(body, NotCond(c), rest);
    assert [LParen] + body + [RParen] + rest
        == [LParen, Word(KNot), LParen] + ts + [RParen, RParen] + rest;
  }

  // ---- IN lists -------------------------------------------------------------------------

  /** The first item and the items after it. */
  function ParseList(ts: seq<Token>): Parsed<seq<Expr>> {
    match ParseExpr(ts)
    case None => None
    case Some((e, rest)) => ParseItems([e], rest)
  }

  lemma ItemStep(before: seq<Token>, items: seq<Expr>, bind: Token, rest: seq<Token>)
    requires bind.Bind?
    requires ParseList(before + ([Comma] + ([bind] + rest))) == ParseItems(items, [Comma] + ([bind] + rest))
    ensures ParseList(before + ([Comma] + [bind]) + rest) == ParseItems(items + [Param(bind.k)], rest)
  {
    JoinThen(before, Comma, [bind], rest);
    ParseOperand(bind, rest);
  }

  lemma {:induction false} ListParses(d: Dialect, values: seq<Literal>, n: nat, rest: seq<Token>)
    requires values != []
    ensures ParseList(ListTokens(d, values, n) + rest) == ParseItems(Markers(|values|, n), rest)
  {
    var front := values[..|values| - 1];
    var bind := BindToken(d, n + |values|, values[|values| - 1]);
    if front == [] {
      ParseOperand(bind, rest);
      assert Markers(1, n) == [Param(n + 1)];
    } else {
      ListParses(d, front, n, [Comma] + ([bind] + rest));
      ItemStep(ListTokens(d, front, n), Markers(|front|, n), bind, rest);
      ListTokensUnfold(d, values, n, front, bind);
      assert Markers(|values|, n) == Markers(|front|, n) + [Param(bind.k)];
    }
  }

  lemma ListTokensUnfold(d: Dialect, values: seq<Literal>, n: nat, front: seq<Literal>, bind: Token)
    requires |values| > 1 && front == values[..|values| - 1] && bind == BindToken(d, n + |values|, values[|values| - 1])
    ensures ListTokens(d, values, n) == ListTokens(d, front, n) + ([Comma] + [bind])
  {
  }

  lemma ItemsClose(exprs: seq<Expr>, rest: seq<Token>)
    ensures ParseItems(exprs, [RParen] + rest) == Some((exprs, rest))
  {
    assert ([RParen] + rest)[1..] == rest;
  }

  lemma ListInParens(left: Expr, body: seq<Token>, exprs: seq<Expr>, rest: seq<Token>)
    requires ParseList(body) == Some((exprs, rest))
    ensures ParseIn(left, [LParen] + body) == Some((InCond(left, exprs), rest))
  {
    assert ([LParen] + body)[1..] == body;
  }

  lemma TestIn(a: Token, list: seq<Token>)
    requires IsOperand(a)
    ensures ParseTest([a] + ([Word(KIn)] + list)) == ParseIn(OperandOf(a), list)
  {
    ParseOperand(a, [Word(KIn)] + list);
    assert ([Word(KIn)] + list)[1..] == list;
  }

  lemma ListShape<T>(a: T, b: T, c: T, items: seq<T>, d: T, rest: seq<T>)
    ensures [a, b, c] + items + [d] + rest == [a] + ([b] + ([c] + (items + ([d] + rest))))
  {
  }

  lemma TestInList(a: Token, items: seq<Token>, exprs: seq<Expr>, rest: seq<Token>)
    requires IsOperand(a)
    requires ParseList(items + ([RParen] + rest)) == ParseItems(exprs, [RParen] + rest)
    ensures ParseTest([a, Word(KIn), LParen] + items + [RParen] + rest) == Some((InCond(OperandOf(a), exprs), rest))
  {
    var body := items + ([RParen] + rest);
    ItemsClose(exprs, rest);
    ListInParens(OperandOf(a), body, exprs, rest);
    TestIn(a, [LParen] + body);
    ListShape(a, Word(KIn), LParen, items, RParen, rest);
  }

  // ---- The text of a filter parses to its tree ----------------------------------------

  lemma ConstantParses(right: nat, rest: seq<Token>)
    ensures ParseTest(ConstantTokens(right) + rest) == Some((ConstantCond(right), rest))
  {
    TestComparison(Number(1), Eq, Number(right), rest);
  }

  lemma AtomParses(d: Dialect, f: Filter, n: nat, rest: seq<Token>)
    requires IsAtom(f)
    ensures ParseTest(TokensOfFilter(d, f, n) + rest) == Some((CondOf(f, n), rest))
  {
    match f
    case Compare(field, op, value) => TestComparison(Name(field), op, BindToken(d, n + 1, value), rest);
    case Like(field, pattern, ci) =>
      if ci {
        TestLowerLike(Name(field), BindToken(d, n + 1, Text(pattern)), rest);
      } else {
        TestLike(Name(field), BindToken(d, n + 1, Text(pattern)), rest);
      }
    case Between(field, low, high) =>
      TestBetween(Name(field), BindToken(d, n + 1, low), BindToken(d, n + 2, high), rest);
    case IsNull(field) => TestNull(Name(field), rest);
    case IsNotNull(field) => TestNotNull(Name(field), rest);
  }

  lemma FilterStarts(d: Dialect, f: Filter, n: nat)
    ensures TokensOfFilter(d, f, n) != [] && TokensOfFilter(d, f, n)[0] != Word(KNot)
  {
  }

  /** Whatever follows, the text of a filter is one test that parses to its tree. */
  lemma {:induction false} FilterParses(d: Dialect, f: Filter, n: nat, rest: seq<Token>)
    ensures ParseTest(TokensOfFilter(d, f, n) + rest) == Some((CondOf(f, n), rest))
    decreases f, 1
  {
    match f
    case In(field, values) =>
      if values == [] {
        ConstantParses(0, rest);
      } else {
        ListParses(d, values, n, [RParen] + rest);
        TestInList(Name(field), ListTokens(d, values, n), Markers(|values|, n), rest);
      }
    case And(subs) =>
      if subs == [] {
        ConstantParses(1, rest);
      } else {
        var ts := TokensOfAll(d, subs, n, KAnd);
        AndParses(d, subs, n, [RParen] + rest, ts, Conjunction(subs, n));
        AndIsOr(ts + ([RParen] + rest), Conjunction(subs, n), [RParen] + rest);
        TestParens(ts, Conjunction(subs, n), rest);
      }
    case Or(subs) =>
      if subs == [] {
        ConstantParses(0, rest);
      } else {
        var ts := TokensOfAll(d, subs, n, KOr);
        OrParses(d, subs, n, [RParen] + rest, ts, Disjunction(subs, n));
        TestParens(ts, Disjunction(subs, n), rest);
      }
    case Not(inner) =>
      var ts, close := TokensOfFilter(d, inner, n), [RParen] + rest;
      FilterParses(d, inner, n, [RParen] + close);
      FilterStarts(d, inner, n);
      TestIsCondition(ts + ([RParen] + close), CondOf(inner, n), [RParen] + close);
      TestParens(ts, CondOf(inner, n), close);
      TestNegation(ts, CondOf(inner, n), rest);
    case _ =>
      AtomParses(d, f, n, rest);
  }

  lemma JoinThen(a: seq<Token>, t: Token, b: seq<Token>, rest: seq<Token>)
    ensures a + ([t] + b) + rest == a + ([t] + (b + rest))
    ensures ([t] + (b + rest))[1..] == b + rest
  {
  }

  lemma ConjunctionUnfold(subs: seq<Filter>, n: nat, front: seq<Filter>, last: Cond)
    requires subs != [] && front == subs[..|subs| - 1] && last == CondOf(subs[|subs| - 1], n + |ParamsOfAll(front)|)
    ensures Conjunction(subs, n) == if front == [] then last else AndCond(Conjunction(front, n), last)
  {
  }

  lemma DisjunctionUnfold(subs: seq<Filter>, n: nat, front: seq<Filter>, last: Cond)
    requires subs != [] && front == subs[..|subs| - 1] && last == CondOf(subs[|subs| - 1], n + |ParamsOfAll(front)|)
    ensures Disjunction(subs, n) == if front == [] then last else OrCond(Disjunction(front, n), last)
  {
  }

  lemma AndStep(before: seq<Token>, acc: Cond, ts: seq<Token>, c: Cond, rest: seq<Token>)
    requires ParseAnd(before + ([Word(KAnd)] + (ts + rest))) == AndTail(acc, [Word(KAnd)] + (ts + rest))
    requires ts != [] && ts[0] != Word(KNot) && ParseTest(ts + rest) == Some((c, rest))
    ensures ParseAnd(before + ([Word(KAnd)] + ts) + rest) == AndTail(AndCond(acc, c), rest)
  {
    TestIsCondition(ts + rest, c, rest);
    JoinThen(before, Word(KAnd), ts, rest);
  }

  lemma OrStep(before: seq<Token>, acc: Cond, ts: seq<Token>, c: Cond, rest: seq<Token>)
    requires ParseOr(before + ([Word(KOr)] + (ts + rest))) == OrTail(acc, [Word(KOr)] + (ts + rest))
    requires ts != [] && ts[0] != Word(KNot) && ParseTest(ts + rest) == Some((c, rest))
    requires !StartsWith(rest, Word(KAnd))
    ensures ParseOr(before + ([Word(KOr)] + ts) + rest) == OrTail(OrCond(acc, c), rest)
  {
    TestIsCondition(ts + rest, c, rest);
    JoinThen(before, Word(KOr), ts, rest);
  }

  lemma AndIsOr(ts: seq<Token>, c: Cond, rest: seq<Token>)
    requires ParseAnd(ts) == AndTail(c, rest) && !StartsWith(rest, Word(KAnd)) && !StartsWith(rest, Word(KOr))
    ensures ParseOr(ts) == Some((c, rest))
  {
  }

  /** A list joined by AND is folded from the left, and parsing goes on with what follows. */
  lemma {:induction false} AndParses(d: Dialect, subs: seq<Filter>, n: nat, rest: seq<Token>, all: seq<Token>,
                                     tree: Cond)
    requires subs != [] && all == TokensOfAll(d, subs, n, KAnd) && tree == Conjunction(subs, n)
    ensures ParseAnd(all + rest) == AndTail(tree, rest)
    decreases subs, 0
  {
    hide *;
    var front, last := subs[..|subs| - 1], subs[|subs| - 1];
    var m := n + |ParamsOfAll(front)|;
    var ts, c := TokensOfFilter(d, last, m), CondOf(last, m);
    FilterParses(d, last, m, rest);
    FilterStarts(d, last, m);
    var all0 := TokensOfAll(d, front, n, KAnd);
    TokensOfAllUnfold(d, subs, n, KAnd, all, front, all0, ts);
    ConjunctionUnfold(subs, n, front, c);
    if front == [] {
      TestIsCondition(ts + rest, c, rest);
    } else {
      var tree0 := Conjunction(front, n);
      AndParses(d, front, n, [Word(KAnd)] + (ts + rest), all0, tree0);
      AndStep(all0, tree0, ts, c, rest);
    }
  }

  lemma {:induction false} OrParses(d: Dialect, subs: seq<Filter>, n: nat, rest: seq<Token>, all: seq<Token>,
                                    tree: Cond)
    requires subs != [] && all == TokensOfAll(d, subs, n, KOr)
      && tree == Disjunction(subs, n) && !StartsWith(rest, Word(KAnd))
    ensures ParseOr(all + rest) == OrTail(tree, rest)
    decreases subs, 0
  {
    hide TokensOfAll, TokensOfFilter, Disjunction, CondOf, ParamsOfAll, ParamsOf, ParseOr, ParseAnd, ParseTest, OrTail;
    var front, last := subs[..|subs| - 1], subs[|subs| - 1];
    var m := n + |ParamsOfAll(front)|;
    var ts, c := TokensOfFilter(d, last, m), CondOf(last, m);
    FilterParses(d, last, m, rest);
    FilterStarts(d, last, m);
    var all0 := TokensOfAll(d, front, n, KOr);
    TokensOfAllUnfold(d, subs, n, KOr, all, front, all0, ts);
    DisjunctionUnfold(subs, n, front, c);
    if front == [] {
      TestIsCondition(ts + rest, c, rest);
    } else {
      var tree0 := Disjunction(front, n);
      OrParses(d, front, n, [Word(KOr)] + (ts + rest), all0, tree0);
      OrStep(all0, tree0, ts, c, rest);
    }
  }

  // ---- The tree means the filter ----------------------------------------------------------

  /** The parameters after the first `n` start with `expected`. */
  predicate BoundAt(params: seq<Literal>, n: nat, expected: seq<Literal>) {
    n + |expected| <= |params| && params[n..n + |expected|] == expected
  }

  lemma BoundSplit(params: seq<Literal>, n: nat, a: seq<Literal>, b: seq<Literal>)
    requires BoundAt(params, n, a + b)
    ensures BoundAt(params, n, a) && BoundAt(params, n + |a|, b)
  {
    assert (a + b)[..|a|] == a && (a + b)[|a|..] == b;
  }

  lemma BoundParts(params: seq<Literal>, n: nat, subs: seq<Filter>, front: seq<Filter>, last: Filter)
    requires subs != [] && front == subs[..|subs| - 1] && last == subs[|subs| - 1]
    requires BoundAt(params, n, ParamsOfAll(subs))
    ensures BoundAt(params, n, ParamsOfAll(front))
    ensures BoundAt(params, n + |ParamsOfAll(front)|, ParamsOf(last))
  {
    BoundSplit(params, n, ParamsOfAll(front), ParamsOf(last));
  }

  lemma {:induction false} MarkersMean(e: Engine, row: Row, x: Literal, values: seq<Literal>, n: nat,
                                       params: seq<Literal>)
    requires BoundAt(params, n, values)
    ensures ItemsEqual(e, row, params, x, Markers(|values|, n)) == EqualsAny(e, x, values)
  {
    if values != [] {
      var front := values[..|values| - 1];
      assert front + [values[|values| - 1]] == values;
      BoundSplit(params, n, front, [values[|values| - 1]]);
      MarkersMean(e, row, x, front, n, params);
      var items := Markers(|values|, n);
      assert items[..|items| - 1] == Markers(|front|, n);
      assert params[n..n + |values|][|values| - 1] == params[n + |values| - 1];
    }
  }

  lemma MarkerMeans(e: Engine, row: Row, n: nat, params: seq<Literal>, expected: seq<Literal>, k: nat)
    requires BoundAt(params, n, expected) && k < |expected|
    ensures Value(e, row, params, Param(n + k + 1)) == expected[k]
    ensures Value(e, row, params, Lower(Param(n + k + 1))) == LowerValue(e, expected[k])
  {
    assert params[n..n + |expected|][k] == params[n + k];
  }

  lemma ColumnMeans(e: Engine, row: Row, field: string, params: seq<Literal>)
    ensures Value(e, row, params, Column(field)) == row(field)
    ensures Value(e, row, params, Lower(Column(field))) == LowerValue(e, row(field))
  {
  }

  lemma AtomMeans(e: Engine, row: Row, f: Filter, n: nat, params: seq<Literal>)
    requires IsAtom(f) && BoundAt(params, n, ParamsOf(f))
    ensures Eval(e, row, params, CondOf(f, n)) == Holds(e, row, f)
  {
    ColumnMeans(e, row, f.field, params);
    match f
    case Compare(_, _, _) => MarkerMeans(e, row, n, params, ParamsOf(f), 0);
    case Like(_, _, _) => MarkerMeans(e, row, n, params, ParamsOf(f), 0);
    case Between(_, _, _) =>
      MarkerMeans(e, row, n, params, ParamsOf(f), 0);
      MarkerMeans(e, row, n, params, ParamsOf(f), 1);
    case IsNull(_) =>
    case IsNotNull(_) =>
  }

  /** Evaluated with its literals bound, the tree of a filter is the filter, on every row. */
  lemma {:induction false} CondMeansFilter(e: Engine, row: Row, f: Filter, n: nat, params: seq<Literal>)
    requires BoundAt(params, n, ParamsOf(f))
    ensures Eval(e, row, params, CondOf(f, n)) == Holds(e, row, f)
    decreases f, 1
  {
    match f
    case In(field, values) => MarkersMean(e, row, row(field), values, n, params);
    case And(subs) => if subs != [] { ConjunctionMeans(e, row, subs, n, params); }
    case Or(subs) => if subs != [] { DisjunctionMeans(e, row, subs, n, params); }
    case Not(inner) => CondMeansFilter(e, row, inner, n, params);
    case _ => AtomMeans(e, row, f, n, params);
  }

  lemma ConjunctionStep(e: Engine, row: Row, subs: seq<Filter>, n: nat, params: seq<Literal>,
                        front: seq<Filter>, c: Cond)
    requires subs != [] && front == subs[..|subs| - 1] && c == CondOf(subs[|subs| - 1], n + |ParamsOfAll(front)|)
    requires Eval(e, row, params, c) == Holds(e, row, subs[|subs| - 1])
    requires front != [] ==> Eval(e, row, params, Conjunction(front, n)) == AllHold(e, row, front)
    ensures Eval(e, row, params, Conjunction(subs, n)) == AllHold(e, row, subs)
  {
    ConjunctionUnfold(subs, n, front, c);
  }

  lemma {:induction false} ConjunctionMeans(e: Engine, row: Row, subs: seq<Filter>, n: nat, params: seq<Literal>)
    requires subs != [] && BoundAt(params, n, ParamsOfAll(subs))
    ensures Eval(e, row, params, Conjunction(subs, n)) == AllHold(e, row, subs)
    decreases subs, 0
  {
    hide *;
    var front, last := subs[..|subs| - 1], subs[|subs| - 1];
    var m := n + |ParamsOfAll(front)|;
    BoundParts(params, n, subs, front, last);
    CondMeansFilter(e, row, last, m, params);
    if front != [] {
      ConjunctionMeans(e, row, front, n, params);
    }
    ConjunctionStep(e, row, subs, n, params, front, CondOf(last, m));
  }

  lemma DisjunctionStep(e: Engine, row: Row, subs: seq<Filter>, n: nat, params: seq<Literal>,
                        front: seq<Filter>, c: Cond)
    requires subs != [] && front == subs[..|subs| - 1] && c == CondOf(subs[|subs| - 1], n + |ParamsOfAll(front)|)
    requires Eval(e, row, params, c) == Holds(e, row, subs[|subs| - 1])
    requires front != [] ==> Eval(e, row, params, Disjunction(front, n)) == AnyHolds(e, row, front)
    ensures Eval(e, row, params, Disjunction(subs, n)) == AnyHolds(e, row, subs)
  {
    DisjunctionUnfold(subs, n, front, c);
  }

  lemma {:induction false} DisjunctionMeans(e: Engine, row: Row, subs: seq<Filter>, n: nat, params: seq<Literal>)
    requires subs != [] && BoundAt(params, n, ParamsOfAll(subs))
    ensures Eval(e, row, params, Disjunction(subs, n)) == AnyHolds(e, row, subs)
    decreases subs, 0
  {
    hide *;
    var front, last := subs[..|subs| - 1], subs[|subs| - 1];
    var m := n + |ParamsOfAll(front)|;
    BoundParts(params, n, subs, front, last);
    CondMeansFilter(e, row, last, m, params);
    if front != [] {
      DisjunctionMeans(e, row, front, n, params);
    }
    DisjunctionStep(e, row, subs, n, params, front, CondOf(last, m));
  }
}
