/** The dialect clause objects that the query decorations build and store.
    How they render to SQL is not part of this model: each value records
    exactly the arguments it was constructed from. */
module Clauses {
  import opened Base

  /** `ArrayJoin(*columns)` and `LeftArrayJoin(*columns)`: the columns in call order. */
  datatype ArrayJoinClause = ArrayJoin(columns: seq<Expr>) | LeftArrayJoin(columns: seq<Expr>)

  /** `LimitByClause(by_clauses, limit, offset)`; `offset` is None when omitted. */
  datatype LimitByClause = LimitByClause(byClauses: seq<Expr>, limit: int, offset: Option<int>)

  /** `sample_clause(sample)`: the stored sample value, None included, wrapped for the compiler. */
  datatype SampleClause = SampleClause(sample: Option<Expr>)
}
