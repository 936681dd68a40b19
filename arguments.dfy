/**
 * The values and parameter specifications a contract is built from, and the
 * DefaultArgument wrapper of lib/typedeaf/arguments.rb.
 */
module Arguments {

  /** A Ruby Symbol naming a parameter or a method. */
  type Name = string

  /** The name of a Ruby class or module, as handed to `is_a?`. */
  type ClassName = string

  /** Runtime values that can be passed as arguments. */
  datatype Value =
    | Nil
    | Str(text: string)
    | Sym(name: string)
    | Int(n: int)
    | List(items: seq<Value>)
    | Proc(id: nat)
    | Object(id: nat)

  /**
   * What a parameter declares: one class, an Array of classes (a union), or a
   * DefaultArgument holding the value to use when the argument is omitted and
   * the classes it is checked against. A DefaultArgument has readers only, so
   * a datatype (immutable) is its model.
   */
  datatype Spec =
    | Single(cls: ClassName)
    | Union(classes: seq<ClassName>)
    | Default(value: Value, types: seq<ClassName>)

  /** The params Hash of a contract: names in declaration (= positional) order. */
  type Params = seq<(Name, Spec)>

  /** The validated name-to-value mapping of one call. */
  type Binding = map<Name, Value>

  /** `default(value, *types)`, i.e. `DefaultArgument.new(value, *types)`. */
  function DefaultArgument(value: Value, types: seq<ClassName>): (s: Spec)
    ensures s.Default? && s.value == value && s.types == types
  {
    Default(value, types)
  }

  /** The names a contract declares. */
  function ParamNames(params: Params): set<Name>
  {
    set i | 0 <= i < |params| :: params[i].0
  }

  /** A Ruby Hash has no repeated keys. */
  ghost predicate DistinctNames(params: Params)
  {
    forall i, j :: 0 <= i < j < |params| ==> params[i].0 != params[j].0
  }
}
