/** The dialect's join modifiers (type, strictness, distribution) and the way
    `Query.join` threads them through the base join's `full` flag. */
module JoinModifiers {
  import opened Base
  import opened Kwargs

  /** The modifier dict `join` builds from its keyword arguments. */
  datatype JoinSpec = JoinSpec(joinType: Arg, strictness: Arg, distribution: Arg)

  /** The value under the 'full' key of a join entry's flags: either the base
      join's own FULL OUTER flag, or a copy of a modifier spec that keeps the
      previous value under its own 'full' key. */
  datatype Full = Raw(flag: Arg) | Wrapped(spec: JoinSpec, full: Full)

  /** The keyword arguments `join` takes for itself. */
  const ModifierKeys: set<string> := {"type", "strictness", "distribution"}

  /** `join`'s three `kwargs.pop(key, None)` calls: the modifier spec, and the
      keyword arguments left over for the base join. */
  function ExtractSpec(kwargs: Kwargs): (r: (JoinSpec, Kwargs))
    ensures r.1.Keys == kwargs.Keys - ModifierKeys
    ensures forall k :: k in r.1 ==> r.1[k] == kwargs[k]
    ensures "type" in kwargs ==> r.0.joinType == kwargs["type"]
    ensures "strictness" in kwargs ==> r.0.strictness == kwargs["strictness"]
    ensures "distribution" in kwargs ==> r.0.distribution == kwargs["distribution"]
    ensures "type" !in kwargs ==> r.0.joinType == NoneArg
    ensures "strictness" !in kwargs ==> r.0.strictness == NoneArg
    ensures "distribution" !in kwargs ==> r.0.distribution == NoneArg
  {
    var spec := JoinSpec(Get(kwargs, "type", NoneArg),
                         Get(kwargs, "strictness", NoneArg),
                         Get(kwargs, "distribution", NoneArg));
    (spec, kwargs - ModifierKeys)
  }

  /** Puts back into `rest` every modifier of `spec` that is not None. */
  function Restore(spec: JoinSpec, rest: Kwargs): Kwargs
  {
    var withType := if spec.joinType == NoneArg then rest else rest["type" := spec.joinType];
    var withStrictness :=
      if spec.strictness == NoneArg then withType else withType["strictness" := spec.strictness];
    if spec.distribution == NoneArg then withStrictness
    else withStrictness["distribution" := spec.distribution]
  }

  /** No modifier is passed as an explicit None (which `pop(key, None)` cannot
      tell apart from an absent key). */
  predicate NoExplicitNone(kwargs: Kwargs)
  {
    forall k :: k in ModifierKeys && k in kwargs ==> kwargs[k] != NoneArg
  }

  /** Extracting the modifiers loses nothing: putting them back restores the call's keyword arguments. */
  lemma RestoreAfterExtract(kwargs: Kwargs)
    requires NoExplicitNone(kwargs)
    ensures Restore(ExtractSpec(kwargs).0, ExtractSpec(kwargs).1) == kwargs
  {
    var (spec, rest) := ExtractSpec(kwargs);
    var back := Restore(spec, rest);
    assert back.Keys == kwargs.Keys;
    forall k | k in kwargs ensures back[k] == kwargs[k] {
    }
  }

  /** And in the other direction: extracting from restored arguments gives back the spec and the rest. */
  lemma ExtractAfterRestore(spec: JoinSpec, rest: Kwargs)
    requires rest.Keys !! ModifierKeys
    ensures ExtractSpec(Restore(spec, rest)) == (spec, rest)
  {
    var back := Restore(spec, rest);
    assert back - ModifierKeys == rest;
  }

  /** `outerjoin`'s `kwargs['type'] = kwargs.get('type') or 'LEFT OUTER'`. */
  function OuterjoinKwargs(kwargs: Kwargs): (r: Kwargs)
    ensures "type" in r && Truthy(r["type"])
    ensures Truthy(Get(kwargs, "type", NoneArg)) ==> r == kwargs
    ensures !Truthy(Get(kwargs, "type", NoneArg)) ==> r["type"] == Str("LEFT OUTER")
    ensures forall k :: k != "type" ==> (k in r <==> k in kwargs)
    ensures forall k :: k != "type" && k in r ==> r[k] == kwargs[k]
  {
    var given := Get(kwargs, "type", NoneArg);
    kwargs["type" := if Truthy(given) then given else Str("LEFT OUTER")]
  }

  /** Applying the outer-join default twice is the same as applying it once. */
  lemma OuterjoinKwargsIdempotent(kwargs: Kwargs)
    ensures OuterjoinKwargs(OuterjoinKwargs(kwargs)) == OuterjoinKwargs(kwargs)
  {
  }

  /** The modifier spec a join entry reads first: the outermost one, if any. */
  function OuterSpec(full: Full): Option<JoinSpec>
  {
    match full
    case Raw(_) => None
    case Wrapped(spec, _) => Some(spec)
  }

  /** How many modifier specs are nested in a 'full' value. */
  function Depth(full: Full): nat
  {
    match full
    case Raw(_) => 0
    case Wrapped(_, inner) => 1 + Depth(inner)
  }
}
