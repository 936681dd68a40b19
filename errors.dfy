/** The exceptions the engine raises (their messages are not modelled). */
module Errors {
  import opened Arguments

  datatype Error =
      /** MissingMethodException: `define`/`future` called without a body. */
    | MissingMethod(methodName: Name)
      /** ArgumentError "wrong number of arguments (given for expected)". */
    | WrongArity(given: nat, expected: nat)
      /** InvalidTypeException for the named parameter. */
    | InvalidType(param: Name)
      /** TypeError from `is_a?` when the spec is an unresolved DefaultArgument. */
    | NotAClass(param: Name)
      /** FrozenError: a write into the frozen params Hash. */
    | FrozenParams
      /** TypeError from indexing a Symbol with a Symbol (`Symbol#[]`). */
    | SymbolIndex
}
