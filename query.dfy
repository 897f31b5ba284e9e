/** The ORM `Query` subclass: each generative decoration clones the query
    and assigns one field on the clone; `join` rewrites the flags dicts of
    the join entries in place, and those dicts are shared, not copied, by
    the clone. Every method is proved against the matching function of
    module Decorations. */
module OrmQuery {
  import opened Base
  import opened Kwargs
  import opened JoinModifiers
  import C = Clauses
  import D = Decorations

  /** The flags dict that SQLAlchemy's join puts last in a join entry. */
  class JoinFlags {
    var isouter: Arg
    var full: Full

    constructor (isouter: Arg, full: Full)
      ensures this.isouter == isouter && this.full == full
    {
      this.isouter := isouter;
      this.full := full;
    }
  }

  /** One entry of `_legacy_setup_joins`: target, ON clause and flags dict. */
  datatype JoinEntry = JoinEntry(target: Expr, onclause: Option<Expr>, flags: JoinFlags)

  /** The flags dicts of a list of join entries. */
  function FlagsOf(entries: seq<JoinEntry>): set<JoinFlags>
  {
    set k | 0 <= k < |entries| :: entries[k].flags
  }

  /** The value of one join entry in the current heap. */
  ghost function ViewOf(e: JoinEntry): D.JoinView
    reads e.flags
  {
    D.JoinView(e.target, e.onclause, e.flags.isouter, e.flags.full)
  }

  /** The values of a list of join entries in the current heap. */
  ghost function Views(entries: seq<JoinEntry>): (r: seq<D.JoinView>)
    reads FlagsOf(entries)
    ensures |r| == |entries|
    ensures forall k :: 0 <= k < |entries| ==> r[k] == ViewOf(entries[k])
  {
    seq(|entries|, k requires 0 <= k < |entries| reads FlagsOf(entries) => ViewOf(entries[k]))
  }

  /** The statement `_compile_context` hands to the compiler (`context.query`),
      with the dialect fields it reads. */
  class CompiledSelect {
    var withTotals: bool
    var finalClause: Option<bool>
    var sampleClause: C.SampleClause
    var limitByClause: Option<C.LimitByClause>
    var arrayJoin: Option<C.ArrayJoinClause>

    /** The statement as the base compilation leaves it. */
    constructor ()
      ensures Fields() == D.Compiled(false, None, C.SampleClause(None), None, None)
    {
      withTotals, finalClause, sampleClause := false, None, C.SampleClause(None);
      limitByClause, arrayJoin := None, None;
    }

    ghost function Fields(): D.Compiled
      reads this
    {
      D.Compiled(withTotals, finalClause, sampleClause, limitByClause, arrayJoin)
    }
  }

  class Query {
    var withTotals: bool
    var final: Option<bool>
    var sample: Option<Expr>
    var limitBy: Option<C.LimitByClause>
    var arrayJoin: Option<C.ArrayJoinClause>
    var groupBy: seq<Expr>
    var joins: seq<JoinEntry>

    /** Each join entry has a flags dict of its own, and WITH TOTALS is only
        ever set alongside a GROUP BY. */
    ghost predicate Valid()
      reads this
    {
      && (forall i, j :: 0 <= i < j < |joins| ==> joins[i].flags != joins[j].flags)
      && (withTotals ==> groupBy != [])
    }

    /** The query's state as a value. */
    ghost function State(): D.QueryState
      reads this, FlagsOf(joins)
    {
      D.QueryState(withTotals, final, sample, limitBy, arrayJoin, groupBy, Views(joins))
    }

    /** A fresh query: the class-level defaults of the five decoration fields. */
    constructor ()
      ensures Valid() && State() == D.Initial && D.Undecorated(State())
    {
      withTotals, final, sample, limitBy, arrayJoin := false, None, None, None, None;
      groupBy, joins := [], [];
    }

    /** The copy `_generative` makes before a decoration runs: every field
        copied, the join entries (and their flags dicts) shared. */
    method Clone() returns (r: Query)
      requires Valid()
      ensures fresh(r) && r.Valid() && r.joins == joins && r.State() == State()
    {
      r := new Query();
      r.withTotals, r.final, r.sample, r.limitBy, r.arrayJoin := withTotals, final, sample, limitBy, arrayJoin;
      r.groupBy, r.joins := groupBy, joins;
    }

    /** SQLAlchemy's `group_by(*clauses)`, appending to the GROUP BY list. */
    method GroupBy(clauses: seq<Expr>) returns (r: Query)
      requires Valid()
      ensures fresh(r) && r.Valid() && r.joins == joins
      ensures r.State() == D.GroupBy(State(), clauses)
    {
      r := Clone();
      r.groupBy := r.groupBy + clauses;
    }

    /** `with_totals()`: raises InvalidRequestError when there is no GROUP BY. */
    method WithTotals() returns (r: Result<Query>)
      requires Valid()
      ensures r.Err? <==> groupBy == []
      ensures r.Err? ==> r.error == InvalidRequestError(D.WithTotalsMessage)
      ensures r.Ok? ==> fresh(r.value) && r.value.Valid() && r.value.joins == joins
      ensures r.Ok? ==> D.WithTotals(State()) == Ok(r.value.State())
    {
      if groupBy == [] {
        return Err(InvalidRequestError(D.WithTotalsMessage));
      }
      var q := Clone();
      q.withTotals := true;
      return Ok(q);
    }

    /** `_add_array_join(columns, left)`, run on the clone. */
    method AddArrayJoin(columns: seq<Expr>, left: Arg)
      requires Valid()
      modifies this
      ensures Valid() && joins == old(joins)
      ensures State() == D.AddArrayJoin(old(State()), columns, left)
    {
      var clause := if !Truthy(left) then C.ArrayJoin(columns) else C.LeftArrayJoin(columns);
      arrayJoin := Some(clause);
    }

    /** `array_join(*columns, **kwargs)`. */
    method ArrayJoin(columns: seq<Expr>, kwargs: Kwargs) returns (r: Query)
      requires Valid()
      ensures fresh(r) && r.Valid() && r.joins == joins
      ensures r.State() == D.ArrayJoin(State(), columns, kwargs)
    {
      r := Clone();
      r.AddArrayJoin(columns, Get(kwargs, "left", Bool(false)));
    }

    /** `left_array_join(*columns)`. */
    method LeftArrayJoin(columns: seq<Expr>) returns (r: Query)
      requires Valid()
      ensures fresh(r) && r.Valid() && r.joins == joins
      ensures r.State() == D.LeftArrayJoin(State(), columns)
    {
      r := Clone();
      r.AddArrayJoin(columns, Bool(true));
    }

    /** `final()`. */
    method Final() returns (r: Query)
      requires Valid()
      ensures fresh(r) && r.Valid() && r.joins == joins
      ensures r.State() == D.Final(State())
    {
      r := Clone();
      r.final := Some(true);
    }

    /** `sample(sample)`. */
    method Sample(sample: Expr) returns (r: Query)
      requires Valid()
      ensures fresh(r) && r.Valid() && r.joins == joins
      ensures r.State() == D.Sample(State(), sample)
    {
      r := Clone();
      r.sample := Some(sample);
    }

    /** `limit_by(by_clauses, limit, offset=None)`. */
    method LimitBy(byClauses: seq<Expr>, limit: int, offset: Option<int>) returns (r: Query)
      requires Valid()
      ensures fresh(r) && r.Valid() && r.joins == joins
      ensures r.State() == D.LimitBy(State(), byClauses, limit, offset)
    {
      r := Clone();
      r.limitBy := Some(C.LimitByClause(byClauses, limit, offset));
    }

    /** SQLAlchemy's join: a clone with one entry appended, whose flags dict is new. */
    method BaseJoin(target: Expr, onclause: Option<Expr>, kwargs: Kwargs) returns (rv: Query)
      requires Valid()
      ensures fresh(rv) && rv.Valid()
      ensures |rv.joins| == |joins| + 1 && rv.joins[..|joins|] == joins
      ensures fresh(rv.joins[|joins|].flags)
      ensures rv.State() == D.BaseJoin(State(), target, onclause, kwargs)
    {
      rv := Clone();
      var flags := new JoinFlags(Get(kwargs, "isouter", Bool(false)), Raw(Get(kwargs, "full", Bool(false))));
      rv.joins := rv.joins + [JoinEntry(target, onclause, flags)];
      assert rv.joins[..|joins|] == joins;
      assert Views(rv.joins) == Views(joins) + [D.BaseEntry(target, onclause, kwargs)];
    }

    /** `join(*props, **kwargs)` as written: every entry of the result, the
        ones shared with this query included, gets its 'full' value wrapped
        in a copy of the modifier spec. Because the flags dicts are shared,
        this query's own entries change too. */
    method Join(target: Expr, onclause: Option<Expr>, kwargs: Kwargs) returns (rv: Query)
      requires Valid()
      modifies FlagsOf(joins)
      ensures fresh(rv) && rv.Valid()
      ensures |rv.joins| == |joins| + 1 && rv.joins[..|joins|] == joins
      ensures fresh(rv.joins[|joins|].flags)
      ensures rv.State() == D.Join(old(State()), target, onclause, kwargs)
      ensures State() == old(State()).(joins := D.WrapEntries(ExtractSpec(kwargs).0, old(State()).joins))
    {
      var spec, rest := ExtractSpec(kwargs).0, ExtractSpec(kwargs).1;
      rv := BaseJoin(target, onclause, rest);
      ghost var before := Views(rv.joins);
      assert before == old(State()).joins + [D.BaseEntry(target, onclause, rest)];
      var i := 0;
      while i < |rv.joins|
        modifies FlagsOf(rv.joins)
        invariant 0 <= i <= |rv.joins|
        invariant forall k :: 0 <= k < |rv.joins| ==>
          ViewOf(rv.joins[k]) == (if k < i then before[k].(full := Wrapped(spec, before[k].full)) else before[k])
      {
        var x := rv.joins[i].flags;
        x.full := Wrapped(spec, x.full);
        i := i + 1;
      }
      assert Views(rv.joins) == D.WrapEntries(spec, before);
      assert rv.joins[..|joins|] == joins;
      assert Views(joins) == D.WrapEntries(spec, old(State()).joins);
    }

    /** `outerjoin(*props, **kwargs)`: `join` with the type defaulted to LEFT OUTER. */
    method Outerjoin(target: Expr, onclause: Option<Expr>, kwargs: Kwargs) returns (rv: Query)
      requires Valid()
      modifies FlagsOf(joins)
      ensures fresh(rv) && rv.Valid()
      ensures |rv.joins| == |joins| + 1 && rv.joins[..|joins|] == joins
      ensures fresh(rv.joins[|joins|].flags)
      ensures rv.State() == D.Outerjoin(old(State()), target, onclause, kwargs)
      ensures State() == old(State()).(joins := D.WrapEntries(ExtractSpec(OuterjoinKwargs(kwargs)).0, old(State()).joins))
    {
      rv := Join(target, onclause, OuterjoinKwargs(kwargs));
    }

    /** The evidently intended `join`: only the entries this call appended are
        wrapped, so this query and its earlier entries are left as they were. */
    method JoinOwn(target: Expr, onclause: Option<Expr>, kwargs: Kwargs) returns (rv: Query)
      requires Valid()
      ensures fresh(rv) && rv.Valid()
      ensures |rv.joins| == |joins| + 1 && rv.joins[..|joins|] == joins
      ensures fresh(rv.joins[|joins|].flags)
      ensures rv.State() == D.JoinOwn(State(), target, onclause, kwargs)
    {
      var spec, rest := ExtractSpec(kwargs).0, ExtractSpec(kwargs).1;
      rv := BaseJoin(target, onclause, rest);
      ghost var before := Views(rv.joins);
      var i := |joins|;
      while i < |rv.joins|
        modifies FlagsOf(rv.joins[|joins|..])
        invariant |joins| <= i <= |rv.joins|
        invariant forall k :: 0 <= k < |rv.joins| ==>
          ViewOf(rv.joins[k]) == (if |joins| <= k < i then before[k].(full := Wrapped(spec, before[k].full)) else before[k])
      {
        var x := rv.joins[i].flags;
        assert x in FlagsOf(rv.joins[|joins|..]) by { assert rv.joins[|joins|..][i - |joins|] == rv.joins[i]; }
        x.full := Wrapped(spec, x.full);
        i := i + 1;
      }
      assert Views(rv.joins) == State().joins + D.WrapEntries(spec, before[|joins|..]);
    }

    /** `_compile_context`: the decorations copied onto the compiled statement,
        the sample wrapped by `sample_clause`. */
    method CompileContext() returns (ctx: CompiledSelect)
      requires Valid()
      ensures fresh(ctx)
      ensures ctx.Fields() == D.Compile(State())
      ensures ctx.withTotals ==> groupBy != []
    {
      ctx := new CompiledSelect();
      ctx.withTotals := withTotals;
      ctx.finalClause := final;
      ctx.sampleClause := C.SampleClause(sample);
      ctx.limitByClause := limitBy;
      ctx.arrayJoin := arrayJoin;
    }
  }

  /** `q.join(t2, strictness='any').join(t3)` on objects: the second join
      rewrites the t2 entry that the intermediate query `q1` shares, so `q1`'s
      own t2 entry now reads t3's (empty) modifiers first and keeps ANY one
      level down. */
  method ChainedJoinRewritesIntermediate() returns (q1: Query, q2: Query)
    ensures |q1.joins| == 1 && |q2.joins| == 2 && q2.joins[0] == q1.joins[0]
    ensures q1.joins[0].flags.full
         == Wrapped(JoinSpec(NoneArg, NoneArg, NoneArg),
                    Wrapped(JoinSpec(NoneArg, Str("any"), NoneArg), Raw(Bool(false))))
  {
    var q0 := new Query();
    q1 := q0.Join(Expr("t2"), None, map["strictness" := Str("any")]);
    q2 := q1.Join(Expr("t3"), None, map[]);
  }
}
