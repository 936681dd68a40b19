/**
 * Argument binding: block folding, default filling, the positional count and
 * the per-parameter type checks, in that order (lib/typedeaf/instancemethods.rb
 * helpers, the body of `define_method` in lib/typedeaf.rb).
 *
 * The source rewrites the shared params Hash and appends to `args` in place.
 * Here every call resolves its defaults into a fresh effective parameter list
 * and argument list, so the contract is never changed by a call; the in-place
 * rewrite and what it does to a second call are in module Findings.
 */
module Binder {
  import opened Wrappers
  import opened Arguments
  import opened Errors
  import opened TypeMatch

  predicate HasParam(params: Params, name: Name)
  {
    exists i :: 0 <= i < |params| && params[i].0 == name
  }

  /**
   * `__typedeaf_handle_nested_block`: the arguments are kept, and a block is
   * added after them exactly when one is given and the contract has a
   * `block` parameter.
   */
  function FoldBlock(params: Params, args: seq<Value>, blk: Option<Value>): (r: seq<Value>)
    ensures |args| <= |r| && r[..|args|] == args
    ensures |r| == |args| + 1 <==> blk.Some? && HasParam(params, "block")
    ensures |r| == |args| + 1 ==> r[|args|] == blk.value
    ensures |r| <= |args| + 1
  {
    if blk.Some? && HasParam(params, "block") then args + [blk.value] else args
  }

  /** The spec a DefaultArgument is rewritten to: its `types` Array. */
  function ResolveSpec(spec: Spec): (resolved: Spec)
  {
    match spec
    case Default(_, types) => Union(types)
    case _ => spec
  }

  function ResolvedSpecs(params: Params): (resolved: Params)
  {
    seq(|params|, i requires 0 <= i < |params| => (params[i].0, ResolveSpec(params[i].1)))
  }

  /** The value of every DefaultArgument, in declaration order. */
  function DefaultValues(params: Params): (values: seq<Value>)
    decreases |params|
  {
    if |params| == 0 then []
    else
      DefaultValues(params[..|params| - 1]) +
      match params[|params| - 1].1
      case Default(v, _) => [v]
      case _ => []
  }

  /** `__typedeaf_handle_default_parameters`, resolved into a fresh pair. */
  function ResolveDefaults(params: Params, args: seq<Value>): (r: (Params, seq<Value>))
    ensures |params| <= |args| ==> r == (params, args)
    ensures |r.0| == |params|
    ensures |params| > |args| ==> forall i :: 0 <= i < |params| ==>
      r.0[i] == (params[i].0, if params[i].1.Default? then Union(params[i].1.types) else params[i].1)
    ensures |args| <= |r.1| && r.1[..|args|] == args
  {
    if |params| <= |args| then (params, args)
    else (ResolvedSpecs(params), args + DefaultValues(params))
  }

  /** The parameters and arguments the checks see, after folding and defaulting. */
  function Effective(params: Params, args: seq<Value>, blk: Option<Value>): (checked: (Params, seq<Value>))
  {
    ResolveDefaults(params, FoldBlock(params, args, blk))
  }

  /** `__typedeaf_validate_positionals` / `positional_validation!`. */
  function CheckArity(params: Params, args: seq<Value>): (r: Option<Error>)
    ensures r.None? <==> |params| == |args|
    ensures r.Some? ==> r.value == WrongArity(|args|, |params|)
  {
    if |params| != |args| then Some(WrongArity(|args|, |params|)) else None
  }

  /** `args[index]`: nil past the end. */
  function ArgAt(args: seq<Value>, i: nat): (v: Value)
  {
    if i < |args| then args[i] else Nil
  }

  /** The type check of the i-th parameter against the i-th argument. */
  function CheckAt(isA: IsA, params: Params, args: seq<Value>, i: nat): (failure: Option<Error>)
    requires i < |params|
  {
    CheckType(isA, params[i].0, ArgAt(args, i), params[i].1)
  }

  /**
   * `__typedeaf_validate_types`: walk the parameters in order, raising at the
   * first that fails, recording name -> argument for each that passes.
   */
  function ValidateAll(isA: IsA, params: Params, args: seq<Value>): (r: Result<Binding, Error>)
    ensures r.Ok? ==> r.value.Keys == ParamNames(params)
    ensures r.Err? ==> r.error.InvalidType? || r.error.NotAClass?
    decreases |params|
  {
    if |params| == 0 then Ok(map[])
    else
      ParamNamesLast(params);
      match ValidateAll(isA, params[..|params| - 1], args)
      case Err(e) => Err(e)
      case Ok(b) =>
        match CheckAt(isA, params, args, |params| - 1)
        case Some(e) => Err(e)
        case None => Ok(b[params[|params| - 1].0 := ArgAt(args, |params| - 1)])
  }

  /** The whole pipeline: fold the block, fill defaults, count, then check types. */
  function Bind(isA: IsA, params: Params, args: seq<Value>, blk: Option<Value>): (r: Result<Binding, Error>)
    ensures r.Ok? ==> r.value.Keys == ParamNames(params)
    ensures r.Err? ==> r.error.WrongArity? || r.error.InvalidType? || r.error.NotAClass?
    ensures r.Err? && r.error.WrongArity? ==> r.error == WrongArity(|Effective(params, args, blk).1|, |params|)
  {
    ResolvedNames(params);
    var (effective, filled) := Effective(params, args, blk);
    match CheckArity(params, filled)
    case Some(e) => Err(e)
    case None => ValidateAll(isA, effective, filled)
  }

  // ---------------------------------------------------------------------------
  // The loops of the source, proved against the functions above

  /** The `parameters.each` loop of `__typedeaf_handle_default_parameters`. */
  method HandleDefaultParameters(params: Params, args: seq<Value>)
    returns (effective: Params, filled: seq<Value>)
    ensures (effective, filled) == ResolveDefaults(params, args)
  {
    effective, filled := params, args;
    if |params| <= |args| {
      return;
    }
    var i := 0;
    while i < |params|
      invariant 0 <= i <= |params| && |effective| == |params|
      invariant forall j :: 0 <= j < i ==> effective[j] == (params[j].0, ResolveSpec(params[j].1))
      invariant forall j :: i <= j < |params| ==> effective[j] == params[j]
      invariant filled == args + DefaultValues(params[..i])
    {
      assert params[..i + 1][..i] == params[..i];
      var (name, argument) := params[i];
      if argument.Default? {
        effective := effective[i := (name, Union(argument.types))];
        filled := filled + [argument.value];
      }
      i := i + 1;
    }
    assert params[..i] == params;
    assert effective == ResolvedSpecs(params);
  }

  /** The `parameters.each.with_index` loop of `__typedeaf_validate_types`. */
  method ValidateTypes(isA: IsA, params: Params, args: seq<Value>) returns (r: Result<Binding, Error>)
    ensures r == ValidateAll(isA, params, args)
  {
    var binding: Binding := map[];
    for i := 0 to |params|
      invariant ValidateAll(isA, params[..i], args) == Ok(binding)
    {
      assert params[..i + 1][..i] == params[..i];
      assert CheckAt(isA, params[..i + 1], args, i) == CheckAt(isA, params, args, i);
      var (name, types) := params[i];
      var value := ArgAt(args, i);
      var failure, _ := ValidateTypesFor(isA, name, value, types);
      if failure.Some? {
        ValidateAllKeepsError(isA, params, args, i + 1);
        return Err(failure.value);
      }
      binding := binding[name := value];
    }
    assert params[..|params|] == params;
    r := Ok(binding);
  }

  /**
   * The validation half of a contracted method's body, step by step as the
   * source runs it: fold the block, fill defaults, check the count, check types.
   */
  method BindArguments(isA: IsA, params: Params, args: seq<Value>, blk: Option<Value>)
    returns (r: Result<Binding, Error>)
    ensures r == Bind(isA, params, args, blk)
  {
    var folded := FoldBlock(params, args, blk);
    var effective, filled := HandleDefaultParameters(params, folded);
    var arity := CheckArity(params, filled);
    if arity.Some? {
      return Err(arity.value);
    }
    r := ValidateTypes(isA, effective, filled);
  }

  // ---------------------------------------------------------------------------
  // Properties of type validation

  /** Once a prefix of the parameters fails, the whole list fails the same way. */
  lemma {:induction false} ValidateAllKeepsError(isA: IsA, params: Params, args: seq<Value>, n: nat)
    requires n <= |params|
    requires ValidateAll(isA, params[..n], args).Err?
    ensures ValidateAll(isA, params, args) == ValidateAll(isA, params[..n], args)
    decreases |params| - n
  {
    if n < |params| {
      var longer := params[..n + 1];
      assert longer[..n] == params[..n];
      assert ValidateAll(isA, longer, args) == ValidateAll(isA, params[..n], args);
      ValidateAllKeepsError(isA, params, args, n + 1);
    } else {
      assert params[..n] == params;
    }
  }

  /** Validation passes iff every parameter passes its own check. */
  lemma {:induction false} ValidateAllOkIff(isA: IsA, params: Params, args: seq<Value>)
    ensures ValidateAll(isA, params, args).Ok? <==>
      forall i :: 0 <= i < |params| ==> CheckAt(isA, params, args, i).None?
    decreases |params|
  {
    if |params| > 0 {
      var front := params[..|params| - 1];
      ValidateAllOkIff(isA, front, args);
      forall i | 0 <= i < |front|
        ensures CheckAt(isA, front, args, i) == CheckAt(isA, params, args, i)
      {
      }
    }
  }

  /** A failure names the first parameter that fails; all before it pass. */
  lemma {:induction false} ValidateAllFirstError(isA: IsA, params: Params, args: seq<Value>)
    requires ValidateAll(isA, params, args).Err?
    ensures exists i :: (0 <= i < |params|
      && CheckAt(isA, params, args, i) == Some(ValidateAll(isA, params, args).error)
      && forall j :: 0 <= j < i ==> CheckAt(isA, params, args, j).None?)
    decreases |params|
  {
    var front := params[..|params| - 1];
    var last := |params| - 1;
    forall i | 0 <= i < |front|
      ensures CheckAt(isA, front, args, i) == CheckAt(isA, params, args, i)
    {
    }
    if ValidateAll(isA, front, args).Err? {
      ValidateAllFirstError(isA, front, args);
      var i :| 0 <= i < |front|
        && CheckAt(isA, front, args, i) == Some(ValidateAll(isA, front, args).error)
        && forall j :: 0 <= j < i ==> CheckAt(isA, front, args, j).None?;
      assert CheckAt(isA, params, args, i) == Some(ValidateAll(isA, params, args).error);
    } else {
      ValidateAllOkIff(isA, front, args);
      assert CheckAt(isA, params, args, last) == Some(ValidateAll(isA, params, args).error);
    }
  }

  /** The names of a list are those of its front and its last entry. */
  lemma ParamNamesLast(params: Params)
    requires |params| > 0
    ensures ParamNames(params) == ParamNames(params[..|params| - 1]) + {params[|params| - 1].0}
  {
    var front := params[..|params| - 1];
    forall n | n in ParamNames(params) ensures n in ParamNames(front) + {params[|params| - 1].0} {
      var i :| 0 <= i < |params| && params[i].0 == n;
      if i < |front| { assert front[i].0 == n; }
    }
    forall n | n in ParamNames(front) ensures n in ParamNames(params) {
      var i :| 0 <= i < |front| && front[i].0 == n;
      assert params[i].0 == n;
    }
  }

  /** The binding has exactly the parameters' names, each mapped to its argument. */
  lemma {:induction false} ValidateAllBinding(isA: IsA, params: Params, args: seq<Value>)
    requires DistinctNames(params)
    requires ValidateAll(isA, params, args).Ok?
    ensures ValidateAll(isA, params, args).value.Keys == ParamNames(params)
    ensures forall i :: 0 <= i < |params| ==>
      ValidateAll(isA, params, args).value[params[i].0] == ArgAt(args, i)
    decreases |params|
  {
    if |params| > 0 {
      var front := params[..|params| - 1];
      var last := |params| - 1;
      assert DistinctNames(front);
      ValidateAllBinding(isA, front, args);
      ParamNamesLast(params);
      var b := ValidateAll(isA, front, args).value;
      assert ValidateAll(isA, params, args).value == b[params[last].0 := ArgAt(args, last)];
      forall i | 0 <= i < last
        ensures ValidateAll(isA, params, args).value[params[i].0] == ArgAt(args, i)
      {
        assert front[i] == params[i];
        assert params[i].0 != params[last].0;
      }
    }
  }

  // ---------------------------------------------------------------------------
  // Properties of defaulting

  function CountDefaults(params: Params): nat
    decreases |params|
  {
    if |params| == 0 then 0
    else CountDefaults(params[..|params| - 1]) + if params[|params| - 1].1.Default? then 1 else 0
  }

  /** A short call appends the value of every DefaultArgument, and nothing else. */
  lemma DefaultsOnlyWhenShort(params: Params, args: seq<Value>)
    ensures |params| > |args| ==> ResolveDefaults(params, args).1 == args + DefaultValues(params)
  {
  }

  /**
   * Each DefaultArgument's value is appended in declaration order: the k-th
   * DefaultArgument of the contract supplies the k-th appended value.
   */
  lemma {:induction false} DefaultValuesInOrder(params: Params, i: nat)
    requires i < |params| && params[i].1.Default?
    ensures |DefaultValues(params)| == CountDefaults(params)
    ensures CountDefaults(params[..i]) < |DefaultValues(params)|
    ensures DefaultValues(params)[CountDefaults(params[..i])] == params[i].1.value
    decreases |params|
  {
    var front := params[..|params| - 1];
    DefaultValuesLength(params);
    if i < |params| - 1 {
      assert front[..i] == params[..i];
      DefaultValuesInOrder(front, i);
    } else {
      assert params[..i] == front;
      DefaultValuesLength(front);
    }
  }

  lemma {:induction false} DefaultValuesLength(params: Params)
    ensures |DefaultValues(params)| == CountDefaults(params)
    decreases |params|
  {
    if |params| > 0 {
      DefaultValuesLength(params[..|params| - 1]);
    }
  }

  lemma {:induction false} DefaultValuesAppend(p: Params, q: Params)
    ensures DefaultValues(p + q) == DefaultValues(p) + DefaultValues(q)
    decreases |q|
  {
    if |q| == 0 {
      assert p + q == p;
    } else {
      var q' := q[..|q| - 1];
      assert (p + q)[..|p + q| - 1] == p + q';
      DefaultValuesAppend(p, q');
    }
  }

  ghost predicate NoDefaults(params: Params)
  {
    forall i :: 0 <= i < |params| ==> !params[i].1.Default?
  }

  ghost predicate AllDefaults(params: Params)
  {
    forall i :: 0 <= i < |params| ==> params[i].1.Default?
  }

  /** A DefaultArgument whose value is a kind of one of its own classes. */
  ghost predicate DefaultFits(isA: IsA, spec: Spec)
  {
    spec.Default? && exists j :: 0 <= j < |spec.types| && isA(spec.value, spec.types[j])
  }

  lemma {:induction false} DefaultValuesNone(params: Params)
    requires NoDefaults(params)
    ensures DefaultValues(params) == []
    decreases |params|
  {
    if |params| > 0 {
      DefaultValuesNone(params[..|params| - 1]);
    }
  }

  lemma {:induction false} DefaultValuesAll(params: Params)
    requires AllDefaults(params)
    ensures |DefaultValues(params)| == |params|
    ensures forall k :: 0 <= k < |params| ==> DefaultValues(params)[k] == params[k].1.value
    decreases |params|
  {
    if |params| > 0 {
      DefaultValuesAll(params[..|params| - 1]);
    }
  }

  // ---------------------------------------------------------------------------
  // Properties of the whole pipeline

  /** Binding raises ArgumentError exactly when the counts differ after folding and defaulting. */
  lemma BindArityIff(isA: IsA, params: Params, args: seq<Value>, blk: Option<Value>)
    ensures (Bind(isA, params, args, blk).Err? && Bind(isA, params, args, blk).error.WrongArity?)
      <==> |Effective(params, args, blk).1| != |params|
    ensures |Effective(params, args, blk).1| != |params| ==>
      Bind(isA, params, args, blk) == Err(WrongArity(|Effective(params, args, blk).1|, |params|))
  {
  }

  /** Binding succeeds iff the counts agree and every parameter passes its check. */
  lemma BindOkIff(isA: IsA, params: Params, args: seq<Value>, blk: Option<Value>)
    ensures Bind(isA, params, args, blk).Ok? <==>
      var (effective, filled) := Effective(params, args, blk);
      |filled| == |params| && forall i :: 0 <= i < |effective| ==> CheckAt(isA, effective, filled, i).None?
  {
    var (effective, filled) := Effective(params, args, blk);
    ValidateAllOkIff(isA, effective, filled);
  }

  /**
   * A type failure names the first failing parameter of the contract, in
   * declaration order, checked against its (possibly defaulted) spec.
   */
  lemma BindFirstFailure(isA: IsA, params: Params, args: seq<Value>, blk: Option<Value>)
    requires Bind(isA, params, args, blk).Err?
    requires !Bind(isA, params, args, blk).error.WrongArity?
    ensures var (effective, filled) := Effective(params, args, blk);
      exists i :: 0 <= i < |effective|
        && CheckAt(isA, effective, filled, i) == Some(Bind(isA, params, args, blk).error)
        && forall j :: 0 <= j < i ==> CheckAt(isA, effective, filled, j).None?
  {
    var (effective, filled) := Effective(params, args, blk);
    ValidateAllFirstError(isA, effective, filled);
  }

  lemma {:induction false} ResolvedNames(params: Params)
    ensures DistinctNames(params) ==> DistinctNames(ResolvedSpecs(params))
    ensures ParamNames(ResolvedSpecs(params)) == ParamNames(params)
  {
    var r := ResolvedSpecs(params);
    assert forall i :: 0 <= i < |params| ==> r[i].0 == params[i].0;
    forall n | n in ParamNames(params) ensures n in ParamNames(r) {
      var i :| 0 <= i < |params| && params[i].0 == n;
      assert r[i].0 == n;
    }
  }

  /**
   * A successful bind maps exactly the contract's names, each to the effective
   * argument at its position.
   */
  lemma BindBindsEachParameter(isA: IsA, params: Params, args: seq<Value>, blk: Option<Value>)
    requires DistinctNames(params)
    requires Bind(isA, params, args, blk).Ok?
    ensures Bind(isA, params, args, blk).value.Keys == ParamNames(params)
    ensures forall i :: 0 <= i < |params| ==>
      Bind(isA, params, args, blk).value[params[i].0] == Effective(params, args, blk).1[i]
  {
    var (effective, filled) := Effective(params, args, blk);
    ResolvedNames(params);
    ValidateAllBinding(isA, effective, filled);
    assert forall i :: 0 <= i < |params| ==> effective[i].0 == params[i].0;
  }

  /** A contract without DefaultArguments called with the wrong count raises ArgumentError. */
  lemma WrongCountWithoutDefaults(isA: IsA, params: Params, args: seq<Value>)
    requires NoDefaults(params)
    requires |args| != |params|
    ensures Bind(isA, params, args, None) == Err(WrongArity(|args|, |params|))
  {
    DefaultValuesNone(params);
    BindArityIff(isA, params, args, None);
  }

  /** With the block parameter absent and args short, the effective arguments are args then the default values. */
  lemma TrailingDefaultsFilled(required: Params, defaults: Params, args: seq<Value>)
    requires NoDefaults(required) && AllDefaults(defaults) && |defaults| > 0
    requires |args| == |required|
    ensures Effective(required + defaults, args, None).1 == args + DefaultValues(defaults)
    ensures |DefaultValues(defaults)| == |defaults|
    ensures forall k :: 0 <= k < |defaults| ==> DefaultValues(defaults)[k] == defaults[k].1.value
  {
    var params := required + defaults;
    DefaultValuesAppend(required, defaults);
    DefaultValuesNone(required);
    DefaultValuesAll(defaults);
    assert FoldBlock(params, args, None) == args;
    assert ResolveDefaults(params, args).1 == args + DefaultValues(params);
  }

  /** A default value of one of its own classes passes the check of its resolved spec. */
  lemma DefaultFitsPasses(isA: IsA, name: Name, spec: Spec)
    requires DefaultFits(isA, spec)
    ensures CheckType(isA, name, spec.value, ResolveSpec(spec)).None?
  {
    var j :| 0 <= j < |spec.types| && isA(spec.value, spec.types[j]);
    assert ResolveSpec(spec) == Union(spec.types);
  }

  /** Under those conditions every effective check passes. */
  lemma TrailingDefaultsCheck(isA: IsA, required: Params, defaults: Params, args: seq<Value>)
    requires NoDefaults(required) && AllDefaults(defaults) && |defaults| > 0
    requires |args| == |required|
    requires forall i :: 0 <= i < |required| ==> CheckAt(isA, required, args, i).None?
    requires forall k :: 0 <= k < |defaults| ==> DefaultFits(isA, defaults[k].1)
    ensures forall i :: 0 <= i < |required + defaults| ==>
      CheckAt(isA, Effective(required + defaults, args, None).0, Effective(required + defaults, args, None).1, i).None?
  {
    var params := required + defaults;
    TrailingDefaultsFilled(required, defaults, args);
    assert FoldBlock(params, args, None) == args;
    var effective := ResolvedSpecs(params);
    var filled := args + DefaultValues(defaults);
    assert Effective(params, args, None) == (effective, filled);
    forall i | 0 <= i < |params| ensures CheckAt(isA, effective, filled, i).None? {
      assert effective[i] == (params[i].0, ResolveSpec(params[i].1));
      if i < |required| {
        assert params[i] == required[i] && filled[i] == args[i];
        assert ResolveSpec(required[i].1) == required[i].1;
        assert CheckAt(isA, required, args, i).None?;
      } else {
        var k := i - |required|;
        assert params[i] == defaults[k];
        assert filled[i] == defaults[k].1.value;
        DefaultFitsPasses(isA, params[i].0, defaults[k].1);
      }
    }
  }

  /** Under those conditions the call binds. */
  lemma TrailingDefaultsBind(isA: IsA, required: Params, defaults: Params, args: seq<Value>)
    requires NoDefaults(required) && AllDefaults(defaults) && |defaults| > 0
    requires |args| == |required|
    requires forall i :: 0 <= i < |required| ==> CheckAt(isA, required, args, i).None?
    requires forall k :: 0 <= k < |defaults| ==> DefaultFits(isA, defaults[k].1)
    ensures Bind(isA, required + defaults, args, None).Ok?
  {
    TrailingDefaultsFilled(required, defaults, args);
    TrailingDefaultsCheck(isA, required, defaults, args);
    BindOkIff(isA, required + defaults, args, None);
  }

  /**
   * Omitted trailing DefaultArguments bind to their values: with the required
   * parameters given well-typed arguments and each default value of one of
   * its own classes, the call binds every required name to its argument and
   * every defaulted name to its default value.
   */
  lemma TrailingDefaultsFill(isA: IsA, required: Params, defaults: Params, args: seq<Value>)
    requires DistinctNames(required + defaults)
    requires NoDefaults(required) && AllDefaults(defaults) && |defaults| > 0
    requires |args| == |required|
    requires forall i :: 0 <= i < |required| ==> CheckAt(isA, required, args, i).None?
    requires forall k :: 0 <= k < |defaults| ==> DefaultFits(isA, defaults[k].1)
    ensures Bind(isA, required + defaults, args, None).Ok?
    ensures forall i :: 0 <= i < |required| ==>
      required[i].0 in Bind(isA, required + defaults, args, None).value &&
      Bind(isA, required + defaults, args, None).value[required[i].0] == args[i]
    ensures forall k :: 0 <= k < |defaults| ==>
      defaults[k].0 in Bind(isA, required + defaults, args, None).value &&
      Bind(isA, required + defaults, args, None).value[defaults[k].0] == defaults[k].1.value
  {
    var params := required + defaults;
    TrailingDefaultsBind(isA, required, defaults, args);
    TrailingDefaultsFilled(required, defaults, args);
    BindBindsEachParameter(isA, params, args, None);
    SplitBinding(required, defaults, args, Bind(isA, params, args, None).value, args + DefaultValues(defaults));
  }

  /** A binding of `required + defaults` to `args` then the default values, read part by part. */
  lemma SplitBinding(required: Params, defaults: Params, args: seq<Value>, b: Binding, filled: seq<Value>)
    requires AllDefaults(defaults)
    requires |args| == |required| && filled == args + DefaultValues(defaults)
    requires |DefaultValues(defaults)| == |defaults|
    requires forall k :: 0 <= k < |defaults| ==> DefaultValues(defaults)[k] == defaults[k].1.value
    requires forall i :: 0 <= i < |required + defaults| ==>
      (required + defaults)[i].0 in b && b[(required + defaults)[i].0] == filled[i]
    ensures forall i :: 0 <= i < |required| ==> required[i].0 in b && b[required[i].0] == args[i]
    ensures forall k :: 0 <= k < |defaults| ==> defaults[k].0 in b && b[defaults[k].0] == defaults[k].1.value
  {
    var params := required + defaults;
    forall i | 0 <= i < |required|
      ensures required[i].0 in b && b[required[i].0] == args[i]
    {
      assert params[i] == required[i];
    }
    forall k | 0 <= k < |defaults|
      ensures defaults[k].0 in b && b[defaults[k].0] == defaults[k].1.value
    {
      assert params[|required| + k] == defaults[k];
      assert filled[|required| + k] == DefaultValues(defaults)[k];
    }
  }

  /**
   * A given block lands in the `block` parameter when that is the last one
   * and the other arguments are all present.
   */
  lemma BlockBindsToBlockParameter(isA: IsA, params: Params, args: seq<Value>, blk: Value)
    requires DistinctNames(params)
    requires |params| == |args| + 1 && params[|params| - 1].0 == "block"
    requires Bind(isA, params, args, Some(blk)).Ok?
    ensures Bind(isA, params, args, Some(blk)).value["block"] == blk
    ensures forall i :: 0 <= i < |args| ==>
      params[i].0 in Bind(isA, params, args, Some(blk)).value &&
      Bind(isA, params, args, Some(blk)).value[params[i].0] == args[i]
  {
    assert HasParam(params, "block");
    BindBindsEachParameter(isA, params, args, Some(blk));
  }
}
