/** The decoration state of an ORM query as a value, and one function per
    operation of `Query` giving the state that operation produces. The class
    in module OrmQuery is proved against these functions; the lemmas here
    state what the operations promise. */
module Decorations {
  import opened Base
  import opened Kwargs
  import opened JoinModifiers
  import C = Clauses

  /** One entry of `_legacy_setup_joins`: the join target, its ON clause and
      the entry's flags dict (`isouter` and `full`). */
  datatype JoinView = JoinView(target: Expr, onclause: Option<Expr>, isouter: Arg, full: Full)

  /** The five decoration fields, the GROUP BY list and the join entries. */
  datatype QueryState = QueryState(
    withTotals: bool,
    final: Option<bool>,
    sample: Option<Expr>,
    limitBy: Option<C.LimitByClause>,
    arrayJoin: Option<C.ArrayJoinClause>,
    groupBy: seq<Expr>,
    joins: seq<JoinView>)

  /** A freshly made query: the class-level defaults of the decoration fields,
      no GROUP BY and no joins. */
  const Initial: QueryState := QueryState(false, None, None, None, None, [], [])

  /** A query that carries none of the dialect decorations. */
  predicate Undecorated(s: QueryState)
  {
    !s.withTotals && s.final.None? && s.sample.None? && s.limitBy.None? && s.arrayJoin.None?
  }

  /** WITH TOTALS is only ever set on a query that has a GROUP BY. */
  predicate TotalsNeedGroupBy(s: QueryState)
  {
    s.withTotals ==> s.groupBy != []
  }

  // ---------------------------------------------------------------------
  // Base query machinery (SQLAlchemy) that the decorations rely on

  /** SQLAlchemy's `group_by(*clauses)`, modelled as appending to the GROUP BY list. */
  function GroupBy(s: QueryState, clauses: seq<Expr>): (r: QueryState)
    ensures r.groupBy == s.groupBy + clauses
    ensures r.(groupBy := s.groupBy) == s
  {
    s.(groupBy := s.groupBy + clauses)
  }

  /** The flags entry SQLAlchemy's join appends: `isouter` and `full` popped
      from the keyword arguments, each defaulting to False. */
  function BaseEntry(target: Expr, onclause: Option<Expr>, kwargs: Kwargs): JoinView
  {
    JoinView(target, onclause, Get(kwargs, "isouter", Bool(false)), Raw(Get(kwargs, "full", Bool(false))))
  }

  /** SQLAlchemy's join, modelled as appending one entry. */
  function BaseJoin(s: QueryState, target: Expr, onclause: Option<Expr>, kwargs: Kwargs): (r: QueryState)
    ensures r.joins == s.joins + [BaseEntry(target, onclause, kwargs)]
    ensures r.(joins := s.joins) == s
  {
    s.(joins := s.joins + [BaseEntry(target, onclause, kwargs)])
  }

  // ---------------------------------------------------------------------
  // The decorations

  /** The message of the error `with_totals()` raises without a GROUP BY. */
  const WithTotalsMessage: string :=
    "Query." + "with_totals" + "() can be used only with specified GROUP BY, call group_by()"

  /** `with_totals()`: rejected at build time without a GROUP BY, otherwise sets the flag. */
  function WithTotals(s: QueryState): (r: Result<QueryState>)
    ensures r.Err? <==> s.groupBy == []
    ensures r.Err? ==> r.error == InvalidRequestError(WithTotalsMessage)
    ensures r.Ok? ==> r.value.withTotals && TotalsNeedGroupBy(r.value)
    ensures r.Ok? ==> r.value.(withTotals := s.withTotals) == s
  {
    if s.groupBy == [] then Err(InvalidRequestError(WithTotalsMessage))
    else Ok(s.(withTotals := true))
  }

  /** The error raised by `with_totals()` names the method, as the test expects. */
  lemma WithTotalsErrorNamesMethod(s: QueryState)
    requires s.groupBy == []
    ensures WithTotals(s).Err? && Contains(WithTotals(s).error.message, "with_totals")
  {
    var prefix, rest := "Query.", "() can be used only with specified GROUP BY, call group_by()";
    assert |prefix| == 6 && WithTotalsMessage == prefix + "with_totals" + rest;
    assert WithTotalsMessage[6..17] == "with_totals";
    assert OccursAt(WithTotalsMessage, "with_totals", 6);
  }

  /** `_add_array_join(columns, left)`: an ArrayJoin unless `left` is truthy. */
  function AddArrayJoin(s: QueryState, columns: seq<Expr>, left: Arg): (r: QueryState)
    ensures r.arrayJoin.Some? && r.arrayJoin.value.columns == columns
    ensures r.arrayJoin.value.LeftArrayJoin? <==> Truthy(left)
    ensures r.(arrayJoin := s.arrayJoin) == s
  {
    var clause := if !Truthy(left) then C.ArrayJoin(columns) else C.LeftArrayJoin(columns);
    s.(arrayJoin := Some(clause))
  }

  /** `array_join(*columns, **kwargs)`: `left` read with `kwargs.get("left", False)`. */
  function ArrayJoin(s: QueryState, columns: seq<Expr>, kwargs: Kwargs): (r: QueryState)
    ensures r.arrayJoin.Some? && r.arrayJoin.value.columns == columns
    ensures r.arrayJoin.value.LeftArrayJoin? <==> Truthy(Get(kwargs, "left", Bool(false)))
    ensures r.(arrayJoin := s.arrayJoin) == s
  {
    AddArrayJoin(s, columns, Get(kwargs, "left", Bool(false)))
  }

  /** `left_array_join(*columns)`. */
  function LeftArrayJoin(s: QueryState, columns: seq<Expr>): (r: QueryState)
    ensures r.arrayJoin == Some(C.LeftArrayJoin(columns))
    ensures r.(arrayJoin := s.arrayJoin) == s
  {
    AddArrayJoin(s, columns, Bool(true))
  }

  /** `left_array_join(cols)` is `array_join(cols, left=...)` with any truthy `left`,
      and `array_join` without a truthy `left` is a plain ARRAY JOIN. */
  lemma LeftArrayJoinIsArrayJoinLeft(s: QueryState, columns: seq<Expr>, kwargs: Kwargs)
    ensures Truthy(Get(kwargs, "left", Bool(false))) <==> ArrayJoin(s, columns, kwargs) == LeftArrayJoin(s, columns)
    ensures !Truthy(Get(kwargs, "left", Bool(false))) ==> ArrayJoin(s, columns, kwargs).arrayJoin == Some(C.ArrayJoin(columns))
  {
  }

  /** `final()`. */
  function Final(s: QueryState): (r: QueryState)
    ensures r.final == Some(true)
    ensures r.(final := s.final) == s
  {
    s.(final := Some(true))
  }

  /** `sample(sample)`: the value is stored as given. */
  function Sample(s: QueryState, sample: Expr): (r: QueryState)
    ensures r.sample == Some(sample)
    ensures r.(sample := s.sample) == s
  {
    s.(sample := Some(sample))
  }

  /** `limit_by(by_clauses, limit, offset=None)`. */
  function LimitBy(s: QueryState, byClauses: seq<Expr>, limit: int, offset: Option<int>): (r: QueryState)
    ensures r.limitBy == Some(C.LimitByClause(byClauses, limit, offset))
    ensures r.(limitBy := s.limitBy) == s
  {
    s.(limitBy := Some(C.LimitByClause(byClauses, limit, offset)))
  }

  /** Each setter overwrites its own field only, so the last call wins and
      setters of different fields commute. */
  lemma LastCallWins(s: QueryState, a: Expr, b: Expr, by1: seq<Expr>, l1: int, o1: Option<int>,
                     by2: seq<Expr>, l2: int, o2: Option<int>, c1: seq<Expr>, left1: Arg, c2: seq<Expr>, left2: Arg)
    ensures Final(Final(s)) == Final(s)
    ensures Sample(Sample(s, a), b) == Sample(s, b)
    ensures LimitBy(LimitBy(s, by1, l1, o1), by2, l2, o2) == LimitBy(s, by2, l2, o2)
    ensures AddArrayJoin(AddArrayJoin(s, c1, left1), c2, left2) == AddArrayJoin(s, c2, left2)
    ensures Sample(Final(s), a) == Final(Sample(s, a))
    ensures LimitBy(Sample(s, a), by1, l1, o1) == Sample(LimitBy(s, by1, l1, o1), a)
    ensures AddArrayJoin(Final(s), c1, left1) == Final(AddArrayJoin(s, c1, left1))
  {
  }

  // ---------------------------------------------------------------------
  // Joins

  /** Every entry's 'full' value replaced by a copy of `spec` holding the old value. */
  function WrapEntries(spec: JoinSpec, joins: seq<JoinView>): (r: seq<JoinView>)
  {
    seq(|joins|, k requires 0 <= k < |joins| => joins[k].(full := Wrapped(spec, joins[k].full)))
  }

  /** Strips the outermost modifier spec from every entry that has one. */
  function UnwrapEntries(joins: seq<JoinView>): (r: seq<JoinView>)
  {
    seq(|joins|, k requires 0 <= k < |joins| =>
      match joins[k].full
      case Raw(_) => joins[k]
      case Wrapped(_, inner) => joins[k].(full := inner))
  }

  /** Wrapping loses nothing: unwrapping gives the entries back. */
  lemma UnwrapAfterWrap(spec: JoinSpec, joins: seq<JoinView>)
    ensures |WrapEntries(spec, joins)| == |joins|
    ensures forall k :: 0 <= k < |joins| ==> OuterSpec(WrapEntries(spec, joins)[k].full) == Some(spec)
    ensures UnwrapEntries(WrapEntries(spec, joins)) == joins
  {
  }

  /** `join(*props, **kwargs)`: the modifiers are taken out of the keyword
      arguments, the base join appends its entry, and then EVERY entry of the
      result, earlier ones included, has its 'full' value wrapped once in a
      copy of the modifier spec, the previous value kept underneath. Only the
      entries change. */
  function Join(s: QueryState, target: Expr, onclause: Option<Expr>, kwargs: Kwargs): (r: QueryState)
    ensures var spec := ExtractSpec(kwargs).0;
            && |r.joins| == |s.joins| + 1
            && (forall k :: 0 <= k < |s.joins| ==> r.joins[k] == s.joins[k].(full := Wrapped(spec, s.joins[k].full)))
            && r.joins[|s.joins|] == BaseEntry(target, onclause, kwargs).(full := Wrapped(spec, Raw(Get(kwargs, "full", Bool(false)))))
            && UnwrapEntries(r.joins) == s.joins + [BaseEntry(target, onclause, kwargs)]
            && r.(joins := s.joins) == s
  {
    var (spec, rest) := ExtractSpec(kwargs);
    var based := BaseJoin(s, target, onclause, rest);
    based.(joins := WrapEntries(spec, based.joins))
  }

  /** `outerjoin(*props, **kwargs)`: `join` with the type defaulted to LEFT
      OUTER. The entry it adds carries the caller's type when that is truthy
      and LEFT OUTER otherwise; strictness and distribution pass through. */
  function Outerjoin(s: QueryState, target: Expr, onclause: Option<Expr>, kwargs: Kwargs): (r: QueryState)
    ensures var given := Get(kwargs, "type", NoneArg);
            && |r.joins| == |s.joins| + 1
            && OuterSpec(r.joins[|s.joins|].full) == Some(JoinSpec(
                 if Truthy(given) then given else Str("LEFT OUTER"),
                 Get(kwargs, "strictness", NoneArg),
                 Get(kwargs, "distribution", NoneArg)))
            && r.(joins := s.joins) == s
  {
    Join(s, target, onclause, OuterjoinKwargs(kwargs))
  }

  // ---------------------------------------------------------------------
  // Chains of joins

  /** The arguments of one `join` call. */
  datatype JoinCall = JoinCall(target: Expr, onclause: Option<Expr>, kwargs: Kwargs)

  /** `q.join(c0).join(c1)...` as the source writes `join`. */
  function JoinChain(s: QueryState, calls: seq<JoinCall>): QueryState
    decreases |calls|
  {
    if calls == [] then s
    else JoinChain(Join(s, calls[0].target, calls[0].onclause, calls[0].kwargs), calls[1..])
  }

  /** In a chain of joins, an entry that was already there is wrapped once per
      later call, and the spec read first is the LAST call's, not its own. */
  lemma {:induction false} JoinChainRewrapsEarlierEntries(s: QueryState, calls: seq<JoinCall>, k: nat)
    requires k < |s.joins|
    ensures |JoinChain(s, calls).joins| == |s.joins| + |calls|
    ensures Depth(JoinChain(s, calls).joins[k].full) == Depth(s.joins[k].full) + |calls|
    ensures calls != [] ==>
      OuterSpec(JoinChain(s, calls).joins[k].full) == Some(ExtractSpec(calls[|calls| - 1].kwargs).0)
    decreases |calls|
  {
    if calls != [] {
      var c := calls[0];
      var s1 := Join(s, c.target, c.onclause, c.kwargs);
      JoinChainRewrapsEarlierEntries(s1, calls[1..], k);
      if |calls| > 1 {
        assert calls[1..][|calls[1..]| - 1] == calls[|calls| - 1];
      }
    }
  }

  /** The entry a call adds when only that call's entry is decorated. */
  function OwnEntry(c: JoinCall): JoinView
  {
    BaseEntry(c.target, c.onclause, c.kwargs).(full := Wrapped(ExtractSpec(c.kwargs).0, Raw(Get(c.kwargs, "full", Bool(false)))))
  }

  /** The evidently intended `join`: only the entries this call added are
      wrapped, so earlier entries keep the modifiers of their own call. */
  function JoinOwn(s: QueryState, target: Expr, onclause: Option<Expr>, kwargs: Kwargs): (r: QueryState)
    ensures r.joins == s.joins + [OwnEntry(JoinCall(target, onclause, kwargs))]
    ensures r.(joins := s.joins) == s
  {
    var (spec, rest) := ExtractSpec(kwargs);
    var based := BaseJoin(s, target, onclause, rest);
    based.(joins := s.joins + WrapEntries(spec, based.joins[|s.joins|..]))
  }

  /** A chain of joins with the intended `join`. */
  function JoinOwnChain(s: QueryState, calls: seq<JoinCall>): QueryState
    decreases |calls|
  {
    if calls == [] then s
    else JoinOwnChain(JoinOwn(s, calls[0].target, calls[0].onclause, calls[0].kwargs), calls[1..])
  }

  /** With the intended `join`, each entry of a chain carries exactly the
      modifiers of the call that added it, and earlier entries are untouched. */
  lemma {:induction false} JoinOwnChainKeepsEachCallsModifiers(s: QueryState, calls: seq<JoinCall>)
    ensures var r := JoinOwnChain(s, calls);
            && |r.joins| == |s.joins| + |calls|
            && r.joins[..|s.joins|] == s.joins
            && (forall i :: 0 <= i < |calls| ==> r.joins[|s.joins| + i] == OwnEntry(calls[i]))
            && r.(joins := s.joins) == s
    decreases |calls|
  {
    if calls != [] {
      var c := calls[0];
      var s1 := JoinOwn(s, c.target, c.onclause, c.kwargs);
      JoinOwnChainKeepsEachCallsModifiers(s1, calls[1..]);
      var r := JoinOwnChain(s, calls);
      assert r == JoinOwnChain(s1, calls[1..]);
      forall i | 0 <= i < |calls| ensures r.joins[|s.joins| + i] == OwnEntry(calls[i]) {
        if i == 0 {
          assert r.joins[|s.joins|] == r.joins[..|s1.joins|][|s.joins|];
        } else {
          assert calls[1..][i - 1] == calls[i];
        }
      }
      assert r.joins[..|s.joins|] == r.joins[..|s1.joins|][..|s.joins|];
    }
  }

  /** `q.join(t2, strictness='any').join(t3)`: as written, the t2 entry's
      outermost spec is t3's (no strictness), and ANY survives only one level
      down; with the intended `join` the t2 entry keeps ANY. */
  lemma ChainedJoinLosesFirstModifiers()
    ensures var calls := [JoinCall(Expr("t2"), None, map["strictness" := Str("any")]),
                          JoinCall(Expr("t3"), None, map[])];
            && OuterSpec(JoinChain(Initial, calls).joins[0].full) == Some(JoinSpec(NoneArg, NoneArg, NoneArg))
            && OuterSpec(JoinOwnChain(Initial, calls).joins[0].full) == Some(JoinSpec(NoneArg, Str("any"), NoneArg))
  {
  }

  // ---------------------------------------------------------------------
  // Hand-off to the compiler

  /** The dialect fields `_compile_context` writes onto the compiled query. */
  datatype Compiled = Compiled(
    withTotals: bool,
    finalClause: Option<bool>,
    sampleClause: C.SampleClause,
    limitByClause: Option<C.LimitByClause>,
    arrayJoin: Option<C.ArrayJoinClause>)

  /** `_compile_context`: each decoration copied, the sample wrapped by
      `sample_clause`; the decorations can be read back from the result. */
  function Compile(s: QueryState): (c: Compiled)
    ensures FromCompiled(c) == DecorationsOf(s)
  {
    Compiled(s.withTotals, s.final, C.SampleClause(s.sample), s.limitBy, s.arrayJoin)
  }

  /** The decoration fields of a state, without GROUP BY and joins. */
  function DecorationsOf(s: QueryState): QueryState
  {
    s.(groupBy := [], joins := [])
  }

  /** The decorations the compiler reads back from the compiled fields. */
  function FromCompiled(c: Compiled): QueryState
  {
    QueryState(c.withTotals, c.finalClause, c.sampleClause.sample, c.limitByClause, c.arrayJoin, [], [])
  }

  /** The hand-off copies verbatim: two states compile to the same fields
      exactly when their decorations are equal. */
  lemma CompileCopiesVerbatim(s: QueryState, t: QueryState)
    ensures Compile(s) == Compile(t) <==> DecorationsOf(s) == DecorationsOf(t)
  {
  }

  /** What the compiler sees after each decoration, and for a fresh query. */
  lemma CompileSeesLastDecoration(s: QueryState, sample: Expr, byClauses: seq<Expr>, limit: int,
                                  offset: Option<int>, columns: seq<Expr>, kwargs: Kwargs)
    ensures Compile(Initial) == Compiled(false, None, C.SampleClause(None), None, None)
    ensures Compile(Final(s)).finalClause == Some(true)
    ensures Compile(Sample(s, sample)).sampleClause == C.SampleClause(Some(sample))
    ensures Compile(LimitBy(s, byClauses, limit, offset)).limitByClause == Some(C.LimitByClause(byClauses, limit, offset))
    ensures Compile(ArrayJoin(s, columns, kwargs)).arrayJoin == ArrayJoin(s, columns, kwargs).arrayJoin
    ensures WithTotals(s).Ok? ==> Compile(WithTotals(s).value).withTotals
  {
  }

  /** No decoration breaks the WITH TOTALS invariant, so the compiler never
      sees WITH TOTALS without a GROUP BY. */
  lemma OperationsKeepTotalsInvariant(s: QueryState, e: Expr, cols: seq<Expr>, limit: int,
                                      offset: Option<int>, left: Arg, target: Expr, onclause: Option<Expr>, kwargs: Kwargs)
    requires TotalsNeedGroupBy(s)
    ensures TotalsNeedGroupBy(Initial)
    ensures WithTotals(s).Ok? ==> TotalsNeedGroupBy(WithTotals(s).value)
    ensures TotalsNeedGroupBy(GroupBy(s, cols))
    ensures TotalsNeedGroupBy(AddArrayJoin(s, cols, left))
    ensures TotalsNeedGroupBy(Final(s))
    ensures TotalsNeedGroupBy(Sample(s, e))
    ensures TotalsNeedGroupBy(LimitBy(s, cols, limit, offset))
    ensures TotalsNeedGroupBy(Join(s, target, onclause, kwargs))
    ensures TotalsNeedGroupBy(JoinOwn(s, target, onclause, kwargs))
    ensures Compile(s).withTotals ==> s.groupBy != []
  {
  }
}
