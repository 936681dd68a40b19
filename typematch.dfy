/**
 * Type matching: `__typedeaf_valid_type?` and `__typedeaf_validate_types_for`
 * (lib/typedeaf/instancemethods.rb), `type_validation!` (lib/typedeaf.rb).
 * Ruby's class hierarchy is not modelled: `is_a?` is the given relation `isA`.
 */
module TypeMatch {
  import opened Wrappers
  import opened Arguments
  import opened Errors

  /** The relation `value.is_a?(cls)`. */
  type IsA = (Value, ClassName) -> bool

  /** The index of the first class in `classes` the value is a kind of. */
  function FirstMatch(isA: IsA, v: Value, classes: seq<ClassName>): (r: Option<nat>)
    ensures r.Some? ==> r.value < |classes| && isA(v, classes[r.value])
    ensures r.Some? ==> forall j :: 0 <= j < r.value ==> !isA(v, classes[j])
    ensures r.None? <==> forall j :: 0 <= j < |classes| ==> !isA(v, classes[j])
    decreases |classes|
  {
    if |classes| == 0 then None
    else if isA(v, classes[0]) then Some(0)
    else match FirstMatch(isA, v, classes[1..])
      case None => None
      case Some(k) => Some(k + 1)
  }

  /**
   * Whether a value passes a parameter's spec: a single class by `is_a?`, an
   * Array when some listed class matches. A DefaultArgument is not a class,
   * so `is_a?` raises TypeError on it.
   */
  function CheckType(isA: IsA, param: Name, v: Value, spec: Spec): (r: Option<Error>)
    ensures r.None? <==>
      || (spec.Single? && isA(v, spec.cls))
      || (spec.Union? && exists j :: 0 <= j < |spec.classes| && isA(v, spec.classes[j]))
    ensures r.Some? && spec.Default? ==> r.value == NotAClass(param)
    ensures r.Some? && !spec.Default? ==> r.value == InvalidType(param)
  {
    match spec
    case Single(c) => if isA(v, c) then None else Some(InvalidType(param))
    case Union(cs) => if FirstMatch(isA, v, cs).Some? then None else Some(InvalidType(param))
    case Default(_, _) => Some(NotAClass(param))
  }

  /**
   * The loop of `__typedeaf_validate_types_for`: `validated` is set by each
   * `is_a?` in turn and the loop breaks at the first match. `tried` counts
   * the `is_a?` calls made, which shows the short circuit.
   */
  method ValidateTypesFor(isA: IsA, param: Name, value: Value, spec: Spec)
    returns (r: Option<Error>, tried: nat)
    ensures r == CheckType(isA, param, value, spec)
    ensures spec.Union? ==>
      tried == match FirstMatch(isA, value, spec.classes)
               case Some(k) => k + 1
               case None => |spec.classes|
    ensures !spec.Union? ==> tried == 1
  {
    var validated := false;
    match spec {
      case Union(cs) =>
        var i := 0;
        while i < |cs|
          invariant 0 <= i <= |cs|
          invariant !validated
          invariant forall j :: 0 <= j < i ==> !isA(value, cs[j])
        {
          validated := isA(value, cs[i]);
          i := i + 1;
          if validated {
            break;
          }
        }
        tried := i;
      case Single(c) =>
        validated := isA(value, c);
        tried := 1;
      case Default(_, _) =>
        // `value.is_a?(default_argument)` raises before `validated` is set
        return Some(NotAClass(param)), 1;
    }
    r := if validated then None else Some(InvalidType(param));
  }
}
