/** How each supported database spells identifiers, placeholders and row limits. */
module Dialects {
  import opened Decimal
  import opened Gql
  import opened Keywords

  /** `text` with every `q` doubled. */
  function Doubled(q: char, text: string): string {
    if text == "" then ""
    else (if text[0] == q then [q, q] else [text[0]]) + Doubled(q, text[1..])
  }

  datatype Dialect = Postgres | MySql | Sqlite | Oracle | BigQuery | Snowflake | ClickHouse | Generic {

    function QuoteChar(): char {
      if MySql? || BigQuery? || ClickHouse? then '`' else '"'
    }

    function QuoteIdent(name: string): string {
      [QuoteChar()] + Doubled(QuoteChar(), name) + [QuoteChar()]
    }

    /** The type a placeholder names; only ClickHouse names one. */
    function TypeName(param: Literal): string {
      if !ClickHouse? then ""
      else match param
           case Int(_) => "Int64"
           case Float(_) => "Float64"
           case Text(_) => "String"
           case Bool(_) => "UInt8"
           case Null => "Nullable(String)"
    }

    function Placeholder(n: nat, param: Literal): string {
      PlaceholderText(n, TypeName(param))
    }

    function PlaceholderText(n: nat, typeName: string): string {
      match this
      case Postgres => "$" + Show(n)
      case Oracle => ":" + Show(n)
      case ClickHouse => "{p" + Show(n) + ":" + typeName + "}"
      case _ => "?"
    }

    function OffsetText(): string {
      KOffset.Text() + " " + Show(0) + " " + KRows.Text()
    }

    function FetchText(n: nat): string {
      KFetch.Text() + " " + KNext.Text() + " " + Show(n) + " " + KRows.Text() + " " + KOnly.Text()
    }

    function LimitClause(n: nat): string {
      if Oracle? then OffsetText() + " " + FetchText(n) else KLimit.Text() + " " + Show(n)
    }
  }
}
