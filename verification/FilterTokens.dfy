/**
 The tokens of the emitted filters: what their text spells, which placeholders
 occur in it, and that it is spaced so that it lexes back.
 */
module FilterTokens {
  import opened Common
  import opened Gql
  import opened Dialects
  import opened Keywords
  import opened SqlLexer
  import opened QueryPieces

  // ---- The tokens of a filter --------------------------------------------------------

  function BindToken(d: Dialect, k: nat, param: Literal): Token {
    Bind(k, d.TypeName(param))
  }

  /** The tokens of a filter when `n` parameters are bound already. */
  function TokensOfFilter(d: Dialect, f: Filter, n: nat): seq<Token> {
    match f
    case Compare(field, op, value) => [Name(field), Operator(op), BindToken(d, n + 1, value)]
    case Like(field, pattern, ci) =>
      var bind := BindToken(d, n + 1, Text(pattern));
      if ci then [Word(KLower), LParen, Name(field), RParen, Word(KLike), Word(KLower), LParen, bind, RParen]
      else [Name(field), Word(KLike), bind]
    case In(field, values) =>
      if values == [] then ConstantTokens(0)
      else [Name(field), Word(KIn), LParen] + ListTokens(d, values, n) + [RParen]
    case Between(field, low, high) =>
      [Name(field), Word(KBetween), BindToken(d, n + 1, low), Word(KAnd), BindToken(d, n + 2, high)]
    case IsNull(field) => [Name(field), Word(KIs), Word(KNull)]
    case IsNotNull(field) => [Name(field), Word(KIs), Word(KNot), Word(KNull)]
    case And(subs) => if subs == [] then ConstantTokens(1) else [LParen] + TokensOfAll(d, subs, n, KAnd) + [RParen]
    case Or(subs) => if subs == [] then ConstantTokens(0) else [LParen] + TokensOfAll(d, subs, n, KOr) + [RParen]
    case Not(inner) => [LParen, Word(KNot), LParen] + TokensOfFilter(d, inner, n) + [RParen, RParen]
  }

  /** Filters joined by a word. */
  function TokensOfAll(d: Dialect, subs: seq<Filter>, n: nat, word: Keyword): seq<Token> {
    if subs == [] then []
    else
      var front := subs[..|subs| - 1];
      var last := TokensOfFilter(d, subs[|subs| - 1], n + |ParamsOfAll(front)|);
      if front == [] then last else TokensOfAll(d, front, n, word) + ([Word(word)] + last)
  }

  /** Placeholders separated by commas. */
  function ListTokens(d: Dialect, values: seq<Literal>, n: nat): seq<Token> {
    if values == [] then []
    else
      var front, last := values[..|values| - 1], BindToken(d, n + |values|, values[|values| - 1]);
      if front == [] then [last] else ListTokens(d, front, n) + ([Comma] + [last])
  }

  function ConstantTokens(right: nat): seq<Token> {
    [Number(1), Operator(Eq), Number(right)]
  }

  // ---- Tokens of the fixed phrases ------------------------------------------------------

  lemma Phrase2(a: Token)
    ensures Tokens([Tok(a), Gap]) == [a]
  {
    assert Tokens([Gap]) == [];
  }

  lemma Phrase3(a: Token, b: Token, c: Token)
    ensures Tokens([Tok(a), Gap, Tok(b), Gap, Tok(c)]) == [a, b, c]
  {
    Phrase2(a);
    Phrase2(b);
    TokensConcat([Tok(a), Gap], [Tok(b), Gap]);
    TokensConcat([Tok(a), Gap] + [Tok(b), Gap], [Tok(c)]);
    assert [Tok(a), Gap] + [Tok(b), Gap] + [Tok(c)] == [Tok(a), Gap, Tok(b), Gap, Tok(c)];
  }

  lemma Phrase4(a: Token, b: Token, c: Token, e: Token)
    ensures Tokens([Tok(a), Gap, Tok(b), Gap, Tok(c), Gap, Tok(e)]) == [a, b, c, e]
  {
    Phrase2(a);
    Phrase3(b, c, e);
    TokensConcat([Tok(a), Gap], [Tok(b), Gap, Tok(c), Gap, Tok(e)]);
    assert [Tok(a), Gap] + [Tok(b), Gap, Tok(c), Gap, Tok(e)] == [Tok(a), Gap, Tok(b), Gap, Tok(c), Gap, Tok(e)];
  }

  lemma Phrase5(a: Token, b: Token, c: Token, e: Token, f: Token)
    ensures Tokens([Tok(a), Gap, Tok(b), Gap, Tok(c), Gap, Tok(e), Gap, Tok(f)]) == [a, b, c, e, f]
  {
    Phrase2(a);
    Phrase4(b, c, e, f);
    TokensConcat([Tok(a), Gap], [Tok(b), Gap, Tok(c), Gap, Tok(e), Gap, Tok(f)]);
    assert [Tok(a), Gap] + [Tok(b), Gap, Tok(c), Gap, Tok(e), Gap, Tok(f)]
        == [Tok(a), Gap, Tok(b), Gap, Tok(c), Gap, Tok(e), Gap, Tok(f)];
  }

  lemma PhraseOpen(a: Token, b: Token)
    ensures Tokens([Tok(a), Gap, Tok(b), Gap, Tok(LParen)]) == [a, b, LParen]
  {
    Phrase3(a, b, LParen);
  }

  lemma PhraseCall(a: Token, b: Token)
    ensures Tokens([Tok(a), Tok(LParen), Tok(b), Tok(RParen)]) == [a, LParen, b, RParen]
  {
    TokensConcat([Tok(a), Tok(LParen)], [Tok(b), Tok(RParen)]);
    assert Tokens([Tok(a), Tok(LParen)]) == [a] + Tokens([Tok(LParen)]);
    assert Tokens([Tok(b), Tok(RParen)]) == [b] + Tokens([Tok(RParen)]);
    assert [Tok(a), Tok(LParen)] + [Tok(b), Tok(RParen)] == [Tok(a), Tok(LParen), Tok(b), Tok(RParen)];
  }

  lemma PhraseLowerLike(a: Token, b: Token)
    ensures Tokens([Kw(KLower), Tok(LParen), Tok(a), Tok(RParen), Gap, Kw(KLike), Gap,
                    Kw(KLower), Tok(LParen), Tok(b), Tok(RParen)])
         == [Word(KLower), LParen, a, RParen, Word(KLike), Word(KLower), LParen, b, RParen]
  {
    var left, mid, right := [Kw(KLower), Tok(LParen), Tok(a), Tok(RParen)], [Gap, Kw(KLike), Gap],
                            [Kw(KLower), Tok(LParen), Tok(b), Tok(RParen)];
    PhraseCall(Word(KLower), a);
    PhraseCall(Word(KLower), b);
    Phrase2(Word(KLike));
    assert Tokens(mid) == [] + Tokens([Kw(KLike), Gap]);
    TokensConcat(left, mid);
    TokensConcat(left + mid, right);
    assert left + mid + right
        == [Kw(KLower), Tok(LParen), Tok(a), Tok(RParen), Gap, Kw(KLike), Gap,
            Kw(KLower), Tok(LParen), Tok(b), Tok(RParen)];
  }

  /** The tokens of a parenthesized text. */
  lemma PhraseParens(ps: seq<Piece>)
    ensures Tokens([Tok(LParen)] + ps + [Tok(RParen)]) == [LParen] + Tokens(ps) + [RParen]
  {
    TokensConcat([Tok(LParen)], ps);
    TokensConcat([Tok(LParen)] + ps, [Tok(RParen)]);
  }

  lemma PhraseNot(ps: seq<Piece>)
    ensures Tokens([Tok(LParen), Kw(KNot), Gap, Tok(LParen)] + ps + [Tok(RParen), Tok(RParen)])
         == [LParen, Word(KNot), LParen] + Tokens(ps) + [RParen, RParen]
  {
    var open := [Tok(LParen), Kw(KNot), Gap, Tok(LParen)];
    assert Tokens(open) == [LParen] + Tokens([Kw(KNot), Gap, Tok(LParen)]);
    assert Tokens([Kw(KNot), Gap, Tok(LParen)]) == [Word(KNot)] + Tokens([Gap, Tok(LParen)]);
    assert Tokens([Gap, Tok(LParen)]) == [] + Tokens([Tok(LParen)]);
    TokensConcat(open, ps);
    TokensConcat(open + ps, [Tok(RParen), Tok(RParen)]);
    assert Tokens([Tok(RParen), Tok(RParen)]) == [RParen] + Tokens([Tok(RParen)]);
  }

  // ---- The pieces spell these tokens ------------------------------------------------------

  lemma GrowJoin(front: seq<seq<Piece>>, last: seq<Piece>, word: Keyword)
    requires front != []
    ensures Tokens(Join(front + [last], Joiner(word)))
         == Tokens(Join(front, Joiner(word))) + ([Word(word)] + Tokens(last))
  {
    assert (front + [last])[..|front|] == front;
    TokensConcat(Join(front, Joiner(word)), Joiner(word));
    TokensConcat(Join(front, Joiner(word)) + Joiner(word), last);
    assert Tokens(Joiner(word)) == [] + Tokens([Kw(word), Gap]);
    Phrase2(Word(word));
    ConcatAssoc(Tokens(Join(front, Joiner(word))), [Word(word)], Tokens(last));
  }

  lemma GrowList(front: seq<seq<Piece>>, last: Piece)
    requires front != [] && last.Tok?
    ensures Tokens(Join(front + [[last]], CommaSep())) == Tokens(Join(front, CommaSep())) + ([Comma] + [last.t])
  {
    assert (front + [[last]])[..|front|] == front;
    TokensConcat(Join(front, CommaSep()), CommaSep());
    TokensConcat(Join(front, CommaSep()) + CommaSep(), [last]);
    Phrase2(Comma);
    assert Tokens([last]) == [last.t] + Tokens([]);
    ConcatAssoc(Tokens(Join(front, CommaSep())), [Comma], [last.t]);
  }

  lemma {:induction false} ListSpells(d: Dialect, values: seq<Literal>, n: nat)
    requires values != []
    ensures Tokens(Join(BindPieces(d, values, n), CommaSep())) == ListTokens(d, values, n)
  {
    var front, last := values[..|values| - 1], BindPiece(d, n + |values|, values[|values| - 1]);
    if front == [] {
      assert BindPieces(d, values, n) == [[last]];
      assert Tokens([last]) == [last.t] + Tokens([]);
    } else {
      ListSpells(d, front, n);
      GrowList(BindPieces(d, front, n), last);
    }
  }

  lemma InSpells(d: Dialect, field: string, values: seq<Literal>, n: nat)
    requires values != []
    ensures Tokens(FilterPieces(d, In(field, values), n)) == TokensOfFilter(d, In(field, values), n)
  {
    var open, list := [NamePiece(field), Gap, Kw(KIn), Gap, Tok(LParen)], Join(BindPieces(d, values, n), CommaSep());
    PhraseOpen(Name(field), Word(KIn));
    ListSpells(d, values, n);
    TokensConcat(open, list);
    TokensConcat(open + list, [Tok(RParen)]);
    assert Tokens([Tok(RParen)]) == [RParen] + Tokens([]);
  }

  lemma ConstantSpells(right: nat)
    ensures Tokens(Constant(right)) == ConstantTokens(right)
  {
    Phrase3(Number(1), Operator(Eq), Number(right));
  }

  predicate IsAtom(f: Filter) {
    f.Compare? || f.Like? || f.Between? || f.IsNull? || f.IsNotNull?
  }

  lemma AtomSpells(d: Dialect, f: Filter, n: nat)
    requires IsAtom(f)
    ensures Tokens(FilterPieces(d, f, n)) == TokensOfFilter(d, f, n)
  {
    match f
    case Compare(field, op, value) => Phrase3(Name(field), Operator(op), BindToken(d, n + 1, value));
    case Like(field, pattern, ci) =>
      var bind := BindToken(d, n + 1, Text(pattern));
      if ci {
        PhraseLowerLike(Name(field), bind);
      } else {
        Phrase3(Name(field), Word(KLike), bind);
      }
    case Between(field, low, high) =>
      Phrase5(Name(field), Word(KBetween), BindToken(d, n + 1, low), Word(KAnd), BindToken(d, n + 2, high));
    case IsNull(field) => Phrase3(Name(field), Word(KIs), Word(KNull));
    case IsNotNull(field) => Phrase4(Name(field), Word(KIs), Word(KNot), Word(KNull));
  }

  lemma {:induction false} FilterSpells(d: Dialect, f: Filter, n: nat)
    ensures Tokens(FilterPieces(d, f, n)) == TokensOfFilter(d, f, n)
    decreases f, 1
  {
    match f
    case In(field, values) => if values == [] { ConstantSpells(0); } else { InSpells(d, field, values, n); }
    case And(subs) =>
      if subs == [] {
        ConstantSpells(1);
      } else {
        PartsSpell(d, subs, n, KAnd, PartsOf(d, subs, n), TokensOfAll(d, subs, n, KAnd));
        PhraseParens(Join(PartsOf(d, subs, n), Joiner(KAnd)));
      }
    case Or(subs) =>
      if subs == [] {
        ConstantSpells(0);
      } else {
        PartsSpell(d, subs, n, KOr, PartsOf(d, subs, n), TokensOfAll(d, subs, n, KOr));
        PhraseParens(Join(PartsOf(d, subs, n), Joiner(KOr)));
      }
    case Not(inner) =>
      FilterSpells(d, inner, n);
      PhraseNot(FilterPieces(d, inner, n));
    case _ => AtomSpells(d, f, n);
  }

  lemma {:induction false} PartsSpell(d: Dialect, subs: seq<Filter>, n: nat, word: Keyword,
                                      parts: seq<seq<Piece>>, ts: seq<Token>)
    requires subs != [] && parts == PartsOf(d, subs, n) && ts == TokensOfAll(d, subs, n, word)
    ensures Tokens(Join(parts, Joiner(word))) == ts
    decreases subs, 0
  {
    var front, last := subs[..|subs| - 1], subs[|subs| - 1];
    var m := n + |ParamsOfAll(front)|;
    var piece, tokens := FilterPieces(d, last, m), TokensOfFilter(d, last, m);
    FilterSpells(d, last, m);
    PartsOfUnfold(d, subs, n);
    TokensOfAllUnfold(d, subs, n, word, ts, front, TokensOfAll(d, front, n, word), tokens);
    if front == [] {
    } else {
      var parts0, ts0 := PartsOf(d, front, n), TokensOfAll(d, front, n, word);
      PartsSpell(d, front, n, word, parts0, ts0);
      MoreParts(parts, parts0, piece, word);
    }
  }

  lemma PartsOfUnfold(d: Dialect, subs: seq<Filter>, n: nat)
    requires subs != []
    ensures PartsOf(d, subs, n) == PartsOf(d, subs[..|subs| - 1], n) +
            [FilterPieces(d, subs[|subs| - 1], n + |ParamsOfAll(subs[..|subs| - 1])|)]
  {
  }

  lemma TokensOfAllUnfold(d: Dialect, subs: seq<Filter>, n: nat, word: Keyword, all: seq<Token>,
                          front: seq<Filter>, before: seq<Token>, last: seq<Token>)
    requires subs != [] && front == subs[..|subs| - 1]
    requires all == TokensOfAll(d, subs, n, word) && before == TokensOfAll(d, front, n, word)
    requires last == TokensOfFilter(d, subs[|subs| - 1], n + |ParamsOfAll(front)|)
    ensures all == if front == [] then last else before + ([Word(word)] + last)
  {
    hide TokensOfFilter, ParamsOf, ParamsOfAll;
  }

  lemma MoreParts(parts: seq<seq<Piece>>, front: seq<seq<Piece>>, piece: seq<Piece>, word: Keyword)
    requires front != [] && parts == front + [piece]
    ensures Tokens(Join(parts, Joiner(word))) == Tokens(Join(front, Joiner(word))) + ([Word(word)] + Tokens(piece))
  {
    GrowJoin(front, piece, word);
  }

  // ---- Placeholders are the parameters, in order --------------------------------------------

  /** One placeholder for each parameter, numbered after the first `n`. */
  function BindTokens(d: Dialect, params: seq<Literal>, n: nat): (r: seq<Token>)
    ensures |r| == |params|
  {
    if params == [] then []
    else BindTokens(d, params[..|params| - 1], n) + [BindToken(d, n + |params|, params[|params| - 1])]
  }

  lemma {:induction false} BindTokensAt(d: Dialect, params: seq<Literal>, n: nat, k: nat)
    requires k < |params|
    ensures BindTokens(d, params, n)[k] == BindToken(d, n + k + 1, params[k])
  {
    if k < |params| - 1 {
      BindTokensAt(d, params[..|params| - 1], n, k);
    }
  }

  lemma BindTokensSnoc(d: Dialect, params: seq<Literal>, last: Literal, n: nat)
    ensures BindTokens(d, params + [last], n) == BindTokens(d, params, n) + [BindToken(d, n + |params| + 1, last)]
  {
    assert (params + [last])[..|params|] == params;
  }

  lemma {:induction false} BindTokensConcat(d: Dialect, a: seq<Literal>, b: seq<Literal>, n: nat)
    ensures BindTokens(d, a + b, n) == BindTokens(d, a, n) + BindTokens(d, b, n + |a|)
  {
    if b == [] {
      assert a + b == a;
    } else {
      var front, last := b[..|b| - 1], b[|b| - 1];
      assert b == front + [last];
      ConcatAssoc(a, front, [last]);
      BindTokensConcat(d, a, front, n);
      BindTokensSnoc(d, a + front, last, n);
      BindTokensSnoc(d, front, last, n + |a|);
      ConcatAssoc(BindTokens(d, a, n), BindTokens(d, front, n + |a|), [BindToken(d, n + |a + front| + 1, last)]);
    }
  }

  lemma NoBinds(ts: seq<Token>)
    requires forall k :: 0 <= k < |ts| ==> !ts[k].Bind?
    ensures Binds(ts) == []
  {
  }

  lemma BindsAround(before: seq<Token>, ts: seq<Token>, after: seq<Token>)
    requires forall k :: 0 <= k < |before| ==> !before[k].Bind?
    requires forall k :: 0 <= k < |after| ==> !after[k].Bind?
    ensures Binds(before + ts + after) == Binds(ts)
  {
    BindsConcat(before, ts);
    BindsConcat(before + ts, after);
    NoBinds(before);
    NoBinds(after);
  }

  lemma OneBind(before: seq<Token>, t: Token, after: seq<Token>)
    requires forall k :: 0 <= k < |before| ==> !before[k].Bind?
    requires forall k :: 0 <= k < |after| ==> !after[k].Bind?
    requires t.Bind?
    ensures Binds(before + [t] + after) == [t]
  {
    BindsAround(before, [t], after);
    assert Binds([t]) == [t] + Binds([]);
  }

  lemma {:induction false} ListBinds(d: Dialect, values: seq<Literal>, n: nat)
    ensures Binds(ListTokens(d, values, n)) == BindTokens(d, values, n)
  {
    if values != [] {
      var front, last := values[..|values| - 1], values[|values| - 1];
      var bind := BindToken(d, n + |values|, last);
      ListBinds(d, front, n);
      if front == [] {
        assert Binds([bind]) == [bind] + Binds([]);
      } else {
        CommaThenBind(ListTokens(d, front, n), bind);
      }
    }
  }

  lemma CommaThenBind(before: seq<Token>, bind: Token)
    requires bind.Bind?
    ensures Binds(before + ([Comma] + [bind])) == Binds(before) + [bind]
  {
    BindsConcat(before, [Comma] + [bind]);
    BindsCons(Comma, [bind]);
    BindsCons(bind, []);
    assert [bind] + [] == [bind];
  }

  lemma CompareBinds(a: Token, op: Token, bind: Token)
    requires !a.Bind? && !op.Bind? && bind.Bind?
    ensures Binds([a, op, bind]) == [bind]
  {
    OneBind([a, op], bind, []);
    assert [a, op] + [bind] + [] == [a, op, bind];
  }

  lemma LowerLikeBinds(a: Token, bind: Token)
    requires !a.Bind? && bind.Bind?
    ensures Binds([Word(KLower), LParen, a, RParen, Word(KLike), Word(KLower), LParen, bind, RParen]) == [bind]
  {
    var before := [Word(KLower), LParen, a, RParen, Word(KLike), Word(KLower), LParen];
    OneBind(before, bind, [RParen]);
    assert before + [bind] + [RParen]
        == [Word(KLower), LParen, a, RParen, Word(KLike), Word(KLower), LParen, bind, RParen];
  }

  lemma BetweenBinds(a: Token, lo: Token, hi: Token)
    requires !a.Bind? && lo.Bind? && hi.Bind?
    ensures Binds([a, Word(KBetween), lo, Word(KAnd), hi]) == [lo, hi]
  {
    CompareBinds(a, Word(KBetween), lo);
    OneBind([Word(KAnd)], hi, []);
    assert [Word(KAnd)] + [hi] + [] == [Word(KAnd), hi];
    BindsConcat([a, Word(KBetween), lo], [Word(KAnd), hi]);
    assert [a, Word(KBetween), lo] + [Word(KAnd), hi] == [a, Word(KBetween), lo, Word(KAnd), hi];
  }

  lemma OneBindToken(d: Dialect, a: Literal, n: nat)
    ensures BindTokens(d, [a], n) == [BindToken(d, n + 1, a)]
  {
    BindTokensSnoc(d, [], a, n);
    ConcatEmpty([a]);
    ConcatEmpty([BindToken(d, n + 1, a)]);
  }

  lemma AtomBinds(d: Dialect, f: Filter, n: nat)
    requires IsAtom(f)
    ensures Binds(TokensOfFilter(d, f, n)) == BindTokens(d, ParamsOf(f), n)
  {
    hide Binds;
    match f
    case Compare(field, op, value) =>
      CompareBinds(Name(field), Operator(op), BindToken(d, n + 1, value));
      OneBindToken(d, value, n);
    case Like(field, pattern, ci) =>
      var bind := BindToken(d, n + 1, Text(pattern));
      OneBindToken(d, Text(pattern), n);
      if ci {
        LowerLikeBinds(Name(field), bind);
      } else {
        CompareBinds(Name(field), Word(KLike), bind);
      }
    case Between(field, low, high) =>
      BetweenBinds(Name(field), BindToken(d, n + 1, low), BindToken(d, n + 2, high));
    case IsNull(field) => NoBinds(TokensOfFilter(d, f, n));
    case IsNotNull(field) => NoBinds(TokensOfFilter(d, f, n));
  }

  /** The placeholders of a filter's text are its parameters, left to right, numbered after the first `n`. */
  lemma {:induction false} FilterBinds(d: Dialect, f: Filter, n: nat)
    ensures Binds(TokensOfFilter(d, f, n)) == BindTokens(d, ParamsOf(f), n)
    decreases f, 1
  {
    match f
    case In(field, values) => InBinds(d, field, values, n);
    case And(subs) => JunctionBinds(d, subs, n, KAnd, 1);
    case Or(subs) => JunctionBinds(d, subs, n, KOr, 0);
    case Not(inner) =>
      FilterBinds(d, inner, n);
      NotBinds(TokensOfFilter(d, inner, n));
    case _ => AtomBinds(d, f, n);
  }

  lemma InBinds(d: Dialect, field: string, values: seq<Literal>, n: nat)
    ensures Binds(TokensOfFilter(d, In(field, values), n)) == BindTokens(d, values, n)
  {
    if values == [] {
      NoBinds(ConstantTokens(0));
    } else {
      ListBinds(d, values, n);
      BindsAround([Name(field), Word(KIn), LParen], ListTokens(d, values, n), [RParen]);
    }
  }

  lemma NotBinds(ts: seq<Token>)
    ensures Binds([LParen, Word(KNot), LParen] + ts + [RParen, RParen]) == Binds(ts)
  {
    BindsAround([LParen, Word(KNot), LParen], ts, [RParen, RParen]);
  }

  lemma JunctionBinds(d: Dialect, subs: seq<Filter>, n: nat, word: Keyword, neutral: nat)
    ensures Binds(if subs == [] then ConstantTokens(neutral) else [LParen] + TokensOfAll(d, subs, n, word) + [RParen])
         == BindTokens(d, ParamsOfAll(subs), n)
    decreases subs, 1
  {
    if subs == [] {
      NoBinds(ConstantTokens(neutral));
    } else {
      AllBind(d, subs, n, word, TokensOfAll(d, subs, n, word), ParamsOfAll(subs));
      BindsAround([LParen], TokensOfAll(d, subs, n, word), [RParen]);
    }
  }

  lemma {:induction false} AllBind(d: Dialect, subs: seq<Filter>, n: nat, word: Keyword, all: seq<Token>,
                                   params: seq<Literal>)
    requires all == TokensOfAll(d, subs, n, word) && params == ParamsOfAll(subs)
    ensures Binds(all) == BindTokens(d, params, n)
    decreases subs, 0
  {
    hide TokensOfFilter, ParamsOf;
    if subs != [] {
      var front, last := subs[..|subs| - 1], subs[|subs| - 1];
      var m := n + |ParamsOfAll(front)|;
      FilterBinds(d, last, m);
      AllBind(d, front, n, word, TokensOfAll(d, front, n, word), ParamsOfAll(front));
      MoreBind(d, subs, n, word, front, ParamsOfAll(front), TokensOfFilter(d, last, m), ParamsOf(last));
    }
  }

  lemma ParamsOfAllUnfold(subs: seq<Filter>, front: seq<Filter>)
    requires subs != [] && front == subs[..|subs| - 1]
    ensures ParamsOfAll(subs) == ParamsOfAll(front) + ParamsOf(subs[|subs| - 1])
    ensures front == [] ==> ParamsOfAll(front) == []
  {
    hide ParamsOf;
  }

  lemma MoreBind(d: Dialect, subs: seq<Filter>, n: nat, word: Keyword,
                 front: seq<Filter>, a: seq<Literal>, ts: seq<Token>, b: seq<Literal>)
    requires subs != [] && front == subs[..|subs| - 1] && a == ParamsOfAll(front) && b == ParamsOf(subs[|subs| - 1])
    requires ts == TokensOfFilter(d, subs[|subs| - 1], n + |a|) && Binds(ts) == BindTokens(d, b, n + |a|)
    requires Binds(TokensOfAll(d, front, n, word)) == BindTokens(d, a, n)
    ensures Binds(TokensOfAll(d, subs, n, word)) == BindTokens(d, ParamsOfAll(subs), n)
  {
    hide *;
    var all, before := TokensOfAll(d, subs, n, word), TokensOfAll(d, front, n, word);
    TokensOfAllUnfold(d, subs, n, word, all, front, before, ts);
    ParamsOfAllUnfold(subs, front);
    if front == [] {
      ConcatEmpty(b);
    } else {
      GrowBinds(d, before, a, word, ts, b, n);
    }
  }

  lemma GrowBinds(d: Dialect, before: seq<Token>, a: seq<Literal>, word: Keyword, ts: seq<Token>, b: seq<Literal>,
                  n: nat)
    requires Binds(before) == BindTokens(d, a, n) && Binds(ts) == BindTokens(d, b, n + |a|)
    ensures Binds(before + ([Word(word)] + ts)) == BindTokens(d, a + b, n)
  {
    WordThenBinds(word, ts);
    BindsConcat(before, [Word(word)] + ts);
    BindTokensConcat(d, a, b, n);
  }

  lemma WordThenBinds(word: Keyword, ts: seq<Token>)
    ensures Binds([Word(word)] + ts) == Binds(ts)
  {
    BindsAround([Word(word)], ts, []);
    assert [Word(word)] + ts + [] == [Word(word)] + ts;
  }
}
