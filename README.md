# Query decorations of the ClickHouse-family SQLAlchemy dialect

This project models the ORM `Query` subclass of the dialect
(`bytehouse_sqlalchemy/orm/query.py`). The subclass layers dialect decorations
onto a generic SQLAlchemy query:

- WITH TOTALS, FINAL, SAMPLE, LIMIT BY and ARRAY JOIN / LEFT ARRAY JOIN;
- join modifiers (type, strictness, distribution), which it threads through
  the base join's `full` flag;
- the hand-off of all of these to the compiled statement in `_compile_context`.

The model has two layers:

- `Decorations` (decorations.dfy) gives the query's state as a value
  (`QueryState`) and one function per operation. Its lemmas state what the
  operations promise: the WITH TOTALS guard, last-call-wins setters, the
  ARRAY JOIN variants, the join wrapping and its inverse, the outer-join
  default, and the verbatim hand-off to the compiler.
- `OrmQuery` (query.dfy) keeps the source's imperative form: a `Query` class with the
  same fields. Each generative method clones the query (`_generative`) and
  assigns one field on the clone. `Join` is a loop that rewrites each join
  entry's flags dict in place. The flags dicts are objects (`JoinFlags`)
  shared between a query and its clones, as the Python dicts are. So the
  model shows that a join also rewrites the entries of the query it was
  called on. Every method is proved against its `Decorations` function.

Supporting modules:

- `Base`: Option, Result, the build-time error, and opaque expressions.
- `Kwargs`: keyword arguments as a map, with Python truthiness.
- `Clauses`: the clause objects, which record only their constructor arguments.
- `JoinModifiers`: the modifier spec, the nested `full` value, and the
  `join`/`outerjoin` keyword-argument handling.

Three facts about `query.py` shape the join part of the model:

- When no type is given, `join` stores None as the type. It supplies no default of its own.
- Modifier values (type, strictness, distribution) are stored exactly as given.
- Clones share the join entries' flags dicts, and `join` mutates those dicts in place.

## Model

| member | source | states |
|---|---|---|
| OrmQuery.Query.constructor | bytehouse_sqlalchemy/orm/query.py:40-44 | a fresh query has `with_totals` false and `final`, `sample`, `limit_by`, `array_join` absent (`Undecorated`) |
| Decorations.WithTotals | bytehouse_sqlalchemy/orm/query.py:58-66 | fails exactly when the GROUP BY list is empty, with InvalidRequestError carrying the source's message; otherwise sets the flag, keeps the WITH TOTALS invariant, and resetting the flag gives back the input (nothing else changes) |
| OrmQuery.Query.WithTotals | bytehouse_sqlalchemy/orm/query.py:58-66 | the same on the class: error iff no GROUP BY, raised before any compilation; otherwise a fresh clone whose state is `Decorations.WithTotals` of this one |
| Decorations.WithTotalsErrorNamesMethod | tests/orm/test_select.py:89-92 | the error raised without GROUP BY mentions `with_totals` |
| Decorations.AddArrayJoin | bytehouse_sqlalchemy/orm/query.py:68-70 | stores an array join of exactly the given columns, in order; it is LEFT exactly when `left` is truthy; no other field changes |
| OrmQuery.Query.AddArrayJoin | bytehouse_sqlalchemy/orm/query.py:68-70 | the in-place assignment on the clone yields `Decorations.AddArrayJoin` of the old state |
| Decorations.ArrayJoin | bytehouse_sqlalchemy/orm/query.py:72-75 | `left` is read with default False; same columns and LEFT-iff-truthy guarantees |
| OrmQuery.Query.ArrayJoin | bytehouse_sqlalchemy/orm/query.py:72-75 | a fresh clone whose state is `Decorations.ArrayJoin` of this one |
| Decorations.LeftArrayJoin | bytehouse_sqlalchemy/orm/query.py:77-79 | stores `LeftArrayJoin(columns)` and changes nothing else |
| OrmQuery.Query.LeftArrayJoin | bytehouse_sqlalchemy/orm/query.py:77-79 | a fresh clone whose state is `Decorations.LeftArrayJoin` of this one |
| Decorations.LeftArrayJoinIsArrayJoinLeft | bytehouse_sqlalchemy/orm/query.py:68-79 | `array_join(cols, **kw)` equals `left_array_join(cols)` iff `kw['left']` is truthy; otherwise it is a plain ARRAY JOIN of `cols` |
| Decorations.Final | bytehouse_sqlalchemy/orm/query.py:81-83 | sets `final` to true and nothing else |
| OrmQuery.Query.Final | bytehouse_sqlalchemy/orm/query.py:81-83 | a fresh clone whose state is `Decorations.Final` of this one |
| Decorations.Sample | bytehouse_sqlalchemy/orm/query.py:85-87 | stores the sample value unchanged and nothing else |
| OrmQuery.Query.Sample | bytehouse_sqlalchemy/orm/query.py:85-87 | a fresh clone whose state is `Decorations.Sample` of this one |
| Decorations.LimitBy | bytehouse_sqlalchemy/orm/query.py:89-91 | stores a LimitByClause of exactly (by, limit, offset), offset absent when omitted, and nothing else |
| OrmQuery.Query.LimitBy | bytehouse_sqlalchemy/orm/query.py:89-91 | a fresh clone whose state is `Decorations.LimitBy` of this one |
| Decorations.LastCallWins | bytehouse_sqlalchemy/orm/query.py:81-91 | repeating a setter keeps only the last call's value, and setters of different fields commute |
| JoinModifiers.ExtractSpec | bytehouse_sqlalchemy/orm/query.py:94-98 | the spec holds the caller's type, strictness and distribution, each None when absent; the arguments passed on are the caller's minus exactly those three keys |
| JoinModifiers.RestoreAfterExtract | bytehouse_sqlalchemy/orm/query.py:94-98 | extracting the modifiers loses nothing: putting them back restores the keyword arguments (when none is an explicit None) |
| JoinModifiers.ExtractAfterRestore | bytehouse_sqlalchemy/orm/query.py:94-98 | the converse round trip: extraction from restored arguments gives back spec and rest |
| Decorations.UnwrapAfterWrap | bytehouse_sqlalchemy/orm/query.py:100-104 | wrapping each entry puts the spec outermost, keeps the previous `full` under `'full'`, and unwrapping gives the entries back |
| Decorations.Join | bytehouse_sqlalchemy/orm/query.py:93-105 | `join` appends one entry and wraps every entry once in its own copy of the spec, earlier entries included; the previous `full` stays underneath, so unwrapping gives back the base join's entries; no other field changes |
| OrmQuery.Query.Join | bytehouse_sqlalchemy/orm/query.py:93-105 | the in-place loop over the entries gives `Decorations.Join` of the old state; the result shares this query's entries and adds one with a new flags dict; through the shared dicts, this query's own entries are wrapped as well |
| JoinModifiers.OuterjoinKwargs | bytehouse_sqlalchemy/orm/query.py:107-108 | `type` is always present and truthy: the caller's value if truthy (arguments then unchanged), else `'LEFT OUTER'`; every other key is untouched |
| JoinModifiers.OuterjoinKwargsIdempotent | bytehouse_sqlalchemy/orm/query.py:107-108 | applying the outer-join default twice equals applying it once |
| Decorations.Outerjoin | bytehouse_sqlalchemy/orm/query.py:107-109 | the entry `outerjoin` adds carries type LEFT OUTER unless a truthy type was given (e.g. FULL OUTER is kept); strictness and distribution pass through; only the entries change |
| OrmQuery.Query.Outerjoin | bytehouse_sqlalchemy/orm/query.py:107-109 | delegates to `Join` with `OuterjoinKwargs` applied; the result shares this query's entries plus one new entry and is `Decorations.Outerjoin` of the old state |
| Decorations.JoinChainRewrapsEarlierEntries | bytehouse_sqlalchemy/orm/query.py:100-104 | in a chain of joins, an existing entry is wrapped once per later call, and its outermost spec is the last call's |
| OrmQuery.ChainedJoinRewritesIntermediate | bytehouse_sqlalchemy/orm/query.py:99-104 | on objects, `q1 = q0.join(t2, strictness='any')` then `q2 = q1.join(t3)`: q2 shares q1's t2 entry, and q1's own t2 entry now has t3's empty spec outermost, with ANY one level down |
| Decorations.ChainedJoinLosesFirstModifiers | bytehouse_sqlalchemy/orm/query.py:100-104 | `join(t2, strictness='any').join(t3)`: as written, the t2 entry's outermost spec has no strictness; with `JoinOwn`, it keeps ANY |
| Decorations.JoinOwn | bytehouse_sqlalchemy/orm/query.py:93-105 | corrected join: appends the call's own wrapped entry and leaves earlier entries and all other fields as they were |
| Decorations.JoinOwnChainKeepsEachCallsModifiers | bytehouse_sqlalchemy/orm/query.py:93-105 | with the corrected join, each entry of a chain carries exactly the modifiers of the call that added it |
| OrmQuery.Query.JoinOwn | bytehouse_sqlalchemy/orm/query.py:93-105 | corrected join on the class: shares this query's entries, wraps only the appended entry (whose flags dict is new), modifies nothing of this query, and gives `Decorations.JoinOwn` |
| Decorations.Compile | bytehouse_sqlalchemy/orm/query.py:46-56 | the compiled fields give back exactly the query's decorations (`FromCompiled` is its inverse on them), the sample read back out of its `sample_clause` wrapping |
| OrmQuery.Query.CompileContext | bytehouse_sqlalchemy/orm/query.py:46-56 | the compiled statement carries `_with_totals`, `_final_clause`, `_sample_clause` (wrapped), `_limit_by_clause` and `_array_join` equal to the query's decorations, and never WITH TOTALS without GROUP BY |
| Decorations.CompileCopiesVerbatim | bytehouse_sqlalchemy/orm/query.py:50-54 | two queries hand the compiler the same fields exactly when their decorations are equal |
| Decorations.CompileSeesLastDecoration | bytehouse_sqlalchemy/orm/query.py:46-56 | the compiler sees no decoration on a fresh query, and after each setter it sees that setter's value |
| Decorations.OperationsKeepTotalsInvariant | bytehouse_sqlalchemy/orm/query.py:58-66 | every operation preserves "WITH TOTALS only with a GROUP BY", so the compiler never receives WITH TOTALS without a GROUP BY |

## Left out

- SQLAlchemy's own `Query` is not part of this model. Three pieces of it are stood in for:
  - `Query.Clone` stands for `_generative`. It copies every field and shares the join entries.
  - `Query.BaseJoin` and `Decorations.BaseJoin` stand for the base `join`. They append one entry whose `isouter` and `full` come from the keyword arguments, defaulting to False.
  - `Query.GroupBy` and `Decorations.GroupBy` stand for `group_by`, and only append.
- Not modelled in the base join: its multi-target legacy forms, `aliased`/`from_joinpoint`, and the TypeError it raises on unknown keyword arguments.
- `group_by(None)`, which clears the list, is not modelled. It could leave WITH TOTALS set with an empty GROUP BY, which the invariant here excludes.
- The base `_compile_context` is stood in for by a fresh `CompiledSelect` with the dialect fields at their defaults. Everything else it compiles is left out.
- `ArrayJoin`, `LeftArrayJoin`, `LimitByClause` and `sample_clause` come from the dialect's clause module, which is not part of this model. They are opaque values that record their arguments.
- All SQL rendering is left out. That includes join keyword order, LIMIT BY, LIMIT/OFFSET, DELETE, EXTRACT, CREATE TABLE/engine/TTL and type names. It lives in the compiler, type and engine modules, which are not part of this model.
- Values are narrowed in a few places:
  - Keyword-argument values are only None, strings or booleans.
  - The sample fraction and all columns, tables and conditions are opaque expressions.
  - `limit` and `offset` are integers.
- Decorations.Sample: takes a value and stores `Some(value)`. It does not model calling `sample(None)`, which stores None again.
- The live-database parts are left out: execution, reflection, server-side decimal truncation and IS DISTINCT FROM. So is the test plumbing.

## Findings

| source | as written | input that shows it | evidently intended | confidence | as-written member | corrected member |
|---|---|---|---|---|---|---|
| bytehouse_sqlalchemy/orm/query.py:100-104 | the loop wraps every entry of the joined query, including entries added by earlier `join` calls, whose flags dicts are also shared with the query `join` was called on | `q.join(t2, c, strictness='any').join(t3, c)`: the t2 entry's outermost spec becomes t3's (type, strictness, distribution all None), with ANY only one level down; the intermediate query's t2 entry is rewritten too | wrap only the entries this call appended, so each entry keeps its own call's modifiers | medium, not executed (how the compiler then renders the t2 join is not part of this model) | Decorations.JoinChainRewrapsEarlierEntries | Decorations.JoinOwnChainKeepsEachCallsModifiers |

`Query.Outerjoin` delegates to the as-written `Query.Join`, as the source does. `ChainedJoinRewritesIntermediate` shows the as-written behaviour on objects, including the rewrite of the intermediate query. The corrected join is `Decorations.JoinOwn` on values and `Query.JoinOwn` on the class.
