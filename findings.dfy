/**
 * Two places where the source, as written, does not do what its tests and
 * design expect. Each is modelled here as written, next to a lemma that
 * exhibits the discrepancy; the rest of the model uses the corrected
 * behaviour (Binder.Bind resolves defaults per call; VarStack.Lookup resolves
 * by key membership in the top binding).
 */
module Findings {
  import opened Wrappers
  import opened Arguments
  import opened Errors
  import opened TypeMatch
  import opened Binder
  import opened VarStack

  // ---------------------------------------------------------------------------
  // 1. Defaulting rewrites the shared params Hash

  predicate HasDefault(params: Params)
  {
    exists i :: 0 <= i < |params| && params[i].1.Default?
  }

  /**
   * `__typedeaf_handle_default_parameters` (and the loop of the older
   * `define`) as written: when short, each DefaultArgument in the shared
   * Hash is replaced by its `types` and its value appended; the Hash keeps
   * the rewrite for every later call. A frozen Hash (split `define`) raises
   * at the first write.
   */
  function DefaultInPlace(params: Params, args: seq<Value>, frozen: bool): (r: Result<(Params, seq<Value>), Error>)
    ensures r.Err? <==> frozen && |params| > |args| && HasDefault(params)
    ensures r.Err? ==> r.error == FrozenParams
    ensures r.Ok? ==> r.value == ResolveDefaults(params, args)
  {
    if |params| <= |args| then Ok((params, args))
    else if frozen && HasDefault(params) then Err(FrozenParams)
    else Ok((ResolvedSpecs(params), args + DefaultValues(params)))
  }

  /**
   * One call as written: the params Hash after the call, and the call's
   * result. Unless the frozen Hash is written to, the call itself answers as
   * the per-call Bind does, and the Hash is left in its resolved form.
   */
  function CallAsWritten(isA: IsA, params: Params, args: seq<Value>, frozen: bool)
    : (after: (Params, Result<Binding, Error>))
    ensures frozen && |params| > |args| && HasDefault(params) ==> after == (params, Err(FrozenParams))
    ensures !(frozen && |params| > |args| && HasDefault(params)) ==>
      after.1 == Bind(isA, params, args, None) && after.0 == ResolveDefaults(params, args).0
  {
    match DefaultInPlace(params, args, frozen)
    case Err(e) => (params, Err(e))
    case Ok((rewritten, filled)) =>
      (rewritten, match CheckArity(params, filled)
                  case Some(e) => Err(e)
                  case None => ValidateAll(isA, rewritten, filled))
  }

  lemma {:induction false} ResolvedHasNoDefaults(params: Params)
    ensures NoDefaults(ResolvedSpecs(params))
  {
  }

  /**
   * After one short call on an unfrozen Hash no DefaultArgument is left, so
   * a later call with a different count than the parameters raises
   * ArgumentError, where per-call resolution would fill the defaults again.
   */
  lemma InPlaceDefaultsAreSpent(isA: IsA, params: Params, first: seq<Value>, second: seq<Value>)
    requires |first| < |params|
    requires |second| != |params|
    ensures NoDefaults(CallAsWritten(isA, params, first, false).0)
    ensures CallAsWritten(isA, CallAsWritten(isA, params, first, false).0, second, false).1
      == Err(WrongArity(|second|, |params|))
  {
    var rewritten := CallAsWritten(isA, params, first, false).0;
    ResolvedHasNoDefaults(params);
    assert !HasDefault(rewritten);
    DefaultValuesNone(rewritten);
  }

  function LogParams(): Params
  {
    [("message", Single("String")), ("level", Default(Sym("debug"), ["Symbol"]))]
  }

  /** Any relation under which "hello" is a String and :debug a Symbol. */
  ghost predicate StringsAndSymbols(isA: IsA)
  {
    isA(Str("hello"), "String") && isA(Sym("debug"), "Symbol")
  }

  /**
   * `log('hello')` called twice (spec/typedeaf_spec.rb:101-105): as written,
   * the first call binds level to :debug and the second raises
   * ArgumentError (1 for 2).
   */
  lemma RepeatedDefaultCallAsWritten(isA: IsA)
    requires StringsAndSymbols(isA)
    ensures CallAsWritten(isA, LogParams(), [Str("hello")], false).1
      == Ok(map["message" := Str("hello"), "level" := Sym("debug")])
    ensures CallAsWritten(isA, CallAsWritten(isA, LogParams(), [Str("hello")], false).0, [Str("hello")], false).1
      == Err(WrongArity(1, 2))
  {
    var p := LogParams();
    assert HasDefault(p) by { assert p[1].1.Default?; }
    assert p[..1][..0] == [];
    assert DefaultValues(p) == [Sym("debug")];
    var rewritten := ResolvedSpecs(p);
    assert rewritten == [("message", Single("String")), ("level", Union(["Symbol"]))];
    assert FirstMatch(isA, Sym("debug"), ["Symbol"]) == Some(0);
    var filled := [Str("hello"), Sym("debug")];
    assert rewritten[..1] == [("message", Single("String"))];
    assert rewritten[..1][..0] == [];
    assert CheckAt(isA, rewritten[..1], filled, 0) == None;
    assert ValidateAll(isA, rewritten[..1], filled) == Ok(map["message" := Str("hello")]);
    assert CheckAt(isA, rewritten, filled, 1) == None;
    assert ValidateAll(isA, rewritten, filled) == Ok(map["message" := Str("hello"), "level" := Sym("debug")]);
    assert [Str("hello")] + DefaultValues(p) == filled;
    assert DefaultInPlace(p, [Str("hello")], false) == Ok((rewritten, filled));
    InPlaceDefaultsAreSpent(isA, p, [Str("hello")], [Str("hello")]);
  }

  /** With the frozen Hash of split `define`, the first `log('hello')` already raises. */
  lemma FrozenDefaultCallAsWritten(isA: IsA)
    ensures CallAsWritten(isA, LogParams(), [Str("hello")], true).1 == Err(FrozenParams)
  {
    assert LogParams()[1].1.Default?;
  }

  /** The corrected behaviour: per-call resolution binds level to :debug on every call. */
  lemma RepeatedDefaultCallCorrected(isA: IsA)
    requires StringsAndSymbols(isA)
    ensures Bind(isA, LogParams(), [Str("hello")], None)
      == Ok(map["message" := Str("hello"), "level" := Sym("debug")])
  {
    var p := LogParams();
    assert !HasParam(p, "block");
    assert CallAsWritten(isA, p, [Str("hello")], false).1 == Bind(isA, p, [Str("hello")], None);
    RepeatedDefaultCallAsWritten(isA);
  }

  // ---------------------------------------------------------------------------
  // 2. The split revision's frame head is a Symbol

  /**
   * What the two revisions push: the older `[params, binding]`, the split
   * revision `[method_sym, binding]`.
   */
  datatype PushedFrame =
    | ParamsHead(params: Params, values: Binding)
    | SymbolHead(methodName: Name, values: Binding)

  /**
   * `method_missing` as written: `params, values = stack.last` and then
   * `values[sym] if params[sym]`. On a Hash `params[sym]` is truthy iff
   * `sym` is a key (every spec is truthy). On a Symbol it is `Symbol#[]`,
   * which raises TypeError for a Symbol argument.
   */
  function MethodMissingAsWritten(stack: seq<PushedFrame>, sym: Name, argc: nat): (r: Result<Option<Value>, Error>)
    ensures r.Err? <==> argc == 0 && |stack| > 0 && stack[|stack| - 1].SymbolHead?
    ensures r.Err? ==> r.error == SymbolIndex
    ensures r.Ok? && r.value.Some? ==>
      argc == 0 && |stack| > 0 && stack[|stack| - 1].ParamsHead? && HasParam(stack[|stack| - 1].params, sym)
  {
    if argc == 0 && |stack| > 0 then
      match stack[|stack| - 1]
      case ParamsHead(params, values) =>
        if HasParam(params, sym) then Ok(Some(if sym in values then values[sym] else Nil)) else Ok(None)
      case SymbolHead(_, _) => Err(SymbolIndex)
    else Ok(None)
  }

  /**
   * As written, any bare name used inside a split-revision `define` or
   * `future` body raises TypeError instead of resolving.
   */
  lemma SplitFrameResolutionRaises(below: seq<PushedFrame>, sym: Name, values: Binding, name: Name)
    ensures MethodMissingAsWritten(below + [SymbolHead(sym, values)], name, 0) == Err(SymbolIndex)
  {
  }

  /**
   * `log('world')` of spec/typedeaf_spec.rb:44-56: the body's `message`
   * raises as written, and resolves to "world" with the corrected lookup.
   */
  lemma PositionalMessageLookup()
    ensures MethodMissingAsWritten([SymbolHead("log", map["message" := Str("world")])], "message", 0)
      == Err(SymbolIndex)
    ensures Lookup([Frame("log", map["message" := Str("world")])], "message", 0) == Some(Str("world"))
  {
  }

  /**
   * The corrected lookup agrees with the older revision's: when the binding
   * has exactly the contract's keys, testing the params Hash and testing the
   * binding give the same answer for every name.
   */
  lemma LegacyFrameAgrees(below: seq<PushedFrame>, lower: seq<Frame>, params: Params, b: Binding,
                          sym: Name, name: Name, argc: nat)
    requires b.Keys == ParamNames(params)
    ensures MethodMissingAsWritten(below + [ParamsHead(params, b)], name, argc)
      == Ok(Lookup(lower + [Frame(sym, b)], name, argc))
  {
    if HasParam(params, name) {
      var i :| 0 <= i < |params| && params[i].0 == name;
      assert name in ParamNames(params);
    }
  }
}
