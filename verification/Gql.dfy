/**
 The query language: its syntax, and what a filter means on a row in the
 three-valued logic of SQL.
 */
module Gql {
  import opened Common

  newtype i64 = x: int | -0x8000_0000_0000_0000 <= x < 0x8000_0000_0000_0000

  /** A 64-bit float, known by its bits only. */
  datatype F64 = F64(bits: bv64)

  datatype Literal = Int(i: i64) | Float(f: F64) | Text(s: string) | Bool(b: bool) | Null

  datatype CompareOp = Eq | Ne | Lt | Le | Gt | Ge {
    function Sql(): string {
      match this
      case Eq => "="
      case Ne => "<>"
      case Lt => "<"
      case Le => "<="
      case Gt => ">"
      case Ge => ">="
    }
  }

  datatype Filter =
    | Compare(field: string, op: CompareOp, value: Literal)
    | Like(field: string, pattern: string, caseInsensitive: bool)
    | In(field: string, values: seq<Literal>)
    | Between(field: string, low: Literal, high: Literal)
    | IsNull(field: string)
    | IsNotNull(field: string)
    | And(subs: seq<Filter>)
    | Or(subs: seq<Filter>)
    | Not(inner: Filter)

  datatype AggFunc = Count | CountDistinct | Sum | Avg | Min | Max

  datatype Aggregation = Aggregation(func: AggFunc, field: Option<string>, alias: Option<string>)

  datatype Direction = Asc | Desc

  datatype OrderBy = OrderBy(field: string, direction: Direction)

  datatype Query = Query(
    sourceTable: string,
    fields: seq<string>,
    filters: seq<Filter>,
    aggregations: seq<Aggregation>,
    breakouts: seq<string>,
    orderBy: seq<OrderBy>,
    limit: Option<nat>)

  // ---- Three-valued logic ------------------------------------------------------

  datatype Truth = True | False | Unknown

  function And3(a: Truth, b: Truth): Truth {
    if a == False || b == False then False else if a == True && b == True then True else Unknown
  }

  function Or3(a: Truth, b: Truth): Truth {
    if a == True || b == True then True else if a == False && b == False then False else Unknown
  }

  function Not3(a: Truth): Truth {
    match a case True => False case False => True case Unknown => Unknown
  }

  function FromBool(b: bool): Truth {
    if b then True else False
  }

  /** How one database compares values that are not NULL; integers compare as integers. */
  datatype Engine = Engine(
    compare: (Literal, CompareOp, Literal) -> bool,
    like: (Literal, Literal) -> bool,
    lower: Literal -> Literal)

  function CompareInts(a: i64, op: CompareOp, b: i64): bool {
    match op
    case Eq => a == b
    case Ne => a != b
    case Lt => a < b
    case Le => a <= b
    case Gt => a > b
    case Ge => a >= b
  }

  /** A comparison with NULL is unknown. */
  function CompareValues(e: Engine, a: Literal, op: CompareOp, b: Literal): Truth {
    if a.Null? || b.Null? then Unknown
    else if a.Int? && b.Int? then FromBool(CompareInts(a.i, op, b.i))
    else FromBool(e.compare(a, op, b))
  }

  function LikeValues(e: Engine, a: Literal, pattern: Literal): Truth {
    if a.Null? || pattern.Null? then Unknown else FromBool(e.like(a, pattern))
  }

  function LowerValue(e: Engine, a: Literal): Literal {
    if a.Null? then Null else e.lower(a)
  }

  type Row = string -> Literal

  // ---- What a filter means -------------------------------------------------------

  function Holds(e: Engine, row: Row, f: Filter): Truth {
    match f
    case Compare(field, op, value) => CompareValues(e, row(field), op, value)
    case Like(field, pattern, ci) =>
      if ci then LikeValues(e, LowerValue(e, row(field)), LowerValue(e, Text(pattern)))
      else LikeValues(e, row(field), Text(pattern))
    case In(field, values) => EqualsAny(e, row(field), values)
    case Between(field, low, high) =>
      And3(CompareValues(e, row(field), Ge, low), CompareValues(e, row(field), Le, high))
    case IsNull(field) => FromBool(row(field).Null?)
    case IsNotNull(field) => FromBool(!row(field).Null?)
    case And(subs) => AllHold(e, row, subs)
    case Or(subs) => AnyHolds(e, row, subs)
    case Not(inner) => Not3(Holds(e, row, inner))
  }

  function EqualsAny(e: Engine, x: Literal, values: seq<Literal>): Truth {
    if values == [] then False
    else Or3(EqualsAny(e, x, values[..|values| - 1]), CompareValues(e, x, Eq, values[|values| - 1]))
  }

  function AllHold(e: Engine, row: Row, subs: seq<Filter>): Truth {
    if subs == [] then True
    else And3(AllHold(e, row, subs[..|subs| - 1]), Holds(e, row, subs[|subs| - 1]))
  }

  function AnyHolds(e: Engine, row: Row, subs: seq<Filter>): Truth {
    if subs == [] then False
    else Or3(AnyHolds(e, row, subs[..|subs| - 1]), Holds(e, row, subs[|subs| - 1]))
  }

  /** A conjunction is true when all its parts are, and false when one of them is. */
  lemma {:induction false} AllHoldMeaning(e: Engine, row: Row, subs: seq<Filter>)
    ensures AllHold(e, row, subs) == True <==> forall i :: 0 <= i < |subs| ==> Holds(e, row, subs[i]) == True
    ensures AllHold(e, row, subs) == False <==> exists i :: 0 <= i < |subs| && Holds(e, row, subs[i]) == False
  {
    if subs != [] {
      var front := subs[..|subs| - 1];
      AllHoldMeaning(e, row, front);
      assert forall i :: 0 <= i < |front| ==> front[i] == subs[i];
      if exists i :: 0 <= i < |subs| && Holds(e, row, subs[i]) == False {
        var i :| 0 <= i < |subs| && Holds(e, row, subs[i]) == False;
        assert i < |front| ==> Holds(e, row, front[i]) == False;
      }
    }
  }

  /** A disjunction is false when all its parts are, and true when one of them is. */
  lemma {:induction false} AnyHoldsMeaning(e: Engine, row: Row, subs: seq<Filter>)
    ensures AnyHolds(e, row, subs) == False <==> forall i :: 0 <= i < |subs| ==> Holds(e, row, subs[i]) == False
    ensures AnyHolds(e, row, subs) == True <==> exists i :: 0 <= i < |subs| && Holds(e, row, subs[i]) == True
  {
    if subs != [] {
      var front := subs[..|subs| - 1];
      AnyHoldsMeaning(e, row, front);
      assert forall i :: 0 <= i < |front| ==> front[i] == subs[i];
      if exists i :: 0 <= i < |subs| && Holds(e, row, subs[i]) == True {
        var i :| 0 <= i < |subs| && Holds(e, row, subs[i]) == True;
        assert i < |front| ==> Holds(e, row, front[i]) == True;
      }
    }
  }
}
