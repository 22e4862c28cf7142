/** The entry point of the compiler, with what its result promises. */
module QueryCompiler {
  import opened Common
  import opened Gql
  import opened Dialects
  import opened QueryPieces
  import opened QueryBuilder
  import opened QueryMeaning
  import opened StatementReading

  /**
   Compiles a query to SQL text with placeholders, and the parameters to bind to
   them. Read back by a reader that knows nothing of the compiler, the text asks
   for what the query asks for.
   */
  method Compile(q: Query, d: Dialect) returns (r: Result<CompiledQuery, CompileError>)
    ensures r == Compiled(d, StatementPieces(d, q), ParamsOfAll(q.filters))
    ensures r.Ok? ==> Answers(d, r.value, q)
    ensures r.Ok? <==> forall k :: 0 <= k < |q.aggregations| ==> HasColumn(q.aggregations[k])
  {
    CompilesIff(d, q);
    var b := new Builder(d);
    var sql := b.Build(q);
    if sql.Err? {
      return Err(sql.error);
    }
    r := Ok(CompiledQuery(sql.value, b.params));
    CompiledAnswers(d, q, r.value);
  }
}
