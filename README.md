# typedeaf: a model of the contract-checking call engine

Typedeaf lets a Ruby class declare a method together with a contract. The
contract is an ordered Hash of parameter names to a class, an Array of
classes, or a `default(value, *types)`. Each later call of such a method goes
through these steps:

1. fold a given block into the arguments when the contract has a `block`
   parameter;
2. append the values of the DefaultArguments when arguments are missing;
3. check the argument count;
4. check each argument with `is_a?` in declaration order, raising at the
   first failure;
5. push a frame on the varstack, which is kept per object and per thread.
   The split revision pushes `[method_sym, binding]`; the older one pushes
   `[params, param_indices]`. The model's frame is (method name, binding) for
   both, and `Findings` shows how each head behaves in `method_missing`;
6. run the body, whose bare names resolve against the top frame through
   `method_missing`. In the split `define`, the varstack is accessed (and so
   created) right after the count check, before the type checks, because it
   is the receiver of the push;
7. pop the frame, even if the body raised.

`future` and `promise` do the same binding synchronously, but they defer the
push, run and pop to work returned to the caller. That work runs on a worker
thread.

The project models both revisions of the engine:

- the split revision: `lib/typedeaf/classmethods.rb`,
  `lib/typedeaf/instancemethods.rb` and `lib/typedeaf/arguments.rb`;
- the older all-in-one `lib/typedeaf.rb`.

Modules:

- `Arguments`: values, parameter specs, `DefaultArgument`, contracts as
  ordered sequences.
- `Errors`: the exceptions.
- `TypeMatch`: one parameter's check. The loop of
  `__typedeaf_validate_types_for` is a `method` proved against `CheckType`.
- `Binder`: block folding, defaulting, arity and type validation. The
  source's loops are methods proved equal to the specification functions
  `ResolveDefaults`, `ValidateAll` and `Bind`, and lemmas state what those
  functions promise.
- `VarStack`: the per-(object, thread) varstacks as a class over a map, and
  bare-name resolution.
- `ClassMethods`: a typed class as a Dafny class. It holds the parameter
  registry and two method tables, one for `define_method` and one for
  `define_singleton_method`. It provides `define`, `future`, `promise`, their
  `class_*` forms, the older `define`, and the invocation of a defined
  method.
- `Findings`: the two places where the code as written departs from what its
  tests expect.
- `Examples`: the test-suite scenarios over a small concrete `is_a?`
  relation.

External things become parameters:

- Ruby's class hierarchy is the relation `isA`.
- The thread and the object id of a call are explicit arguments.
- A method body is a function from the frame on top of the varstack to a
  completion: a value, or a raised exception.

In the three places below, where the documented behaviour and the code
differ, the model follows the code. In the two places listed under
"## Findings", it follows the tests instead. There the code as written is
modelled separately, in module `Findings`.

- When arguments are missing, every DefaultArgument's value is appended,
  including those whose argument was supplied.
- A supplied argument for a defaulted parameter is checked against the
  unresolved DefaultArgument itself, and `is_a?` raises TypeError (modelled
  as `NotAClass`).
- The split revision's parameter-less `define` ignores any arguments it is
  given.

## Model

| member | source | states |
|---|---|---|
| Arguments.DefaultArgument | lib/typedeaf/arguments.rb:3-9 | a DefaultArgument holds exactly the given value and the given classes |
| TypeMatch.FirstMatch | lib/typedeaf/instancemethods.rb:72-76 | finds the least index of a class the value is a kind of, and none exactly when no listed class matches |
| TypeMatch.CheckType | lib/typedeaf/instancemethods.rb:70-85 | a value passes iff it is a kind of the single class or of some class of the Array; otherwise InvalidTypeException for that parameter; an unresolved DefaultArgument raises TypeError |
| TypeMatch.ValidateTypesFor | lib/typedeaf/instancemethods.rb:70-85 | the `validated`/`break` loop gives the same verdict as CheckType and stops right after the first matching class |
| Binder.FoldBlock | lib/typedeaf/instancemethods.rb:89-94 | the arguments are kept, and the block is added after them exactly when one is given and the contract has a `block` parameter |
| Binder.ResolveDefaults | lib/typedeaf/instancemethods.rb:96-109 | nothing changes unless arguments are short; when short, each DefaultArgument becomes an Array of its classes and every other spec stays as it was, names and order kept; arguments are only appended to |
| Binder.ValidateAll | lib/typedeaf/instancemethods.rb:51-67 | a successful walk binds exactly the contract's names; a failure is always a type error (InvalidTypeException or TypeError), never ArgumentError |
| Binder.Bind | lib/typedeaf/classmethods.rb:66-71 | a successful call binds exactly the contract's names; a failure is ArgumentError with the counts after folding and defaulting, or a type error |
| Binder.CheckArity | lib/typedeaf/instancemethods.rb:115-121 | ArgumentError (given, expected) exactly when the argument count differs from the parameter count |
| Binder.HandleDefaultParameters | lib/typedeaf/instancemethods.rb:96-109 | the loop leaves contract and arguments unchanged unless arguments are short; otherwise each DefaultArgument is replaced by its classes and its value appended, as ResolveDefaults states |
| Binder.ValidateTypes | lib/typedeaf/instancemethods.rb:51-67 | the `each.with_index` loop returns exactly ValidateAll: the first failing parameter's error, or the name-to-argument binding |
| Binder.BindArguments | lib/typedeaf/classmethods.rb:66-71 | folding, defaulting, the count check and the type checks, run in the source's order, compute Bind |
| Binder.ValidateAllKeepsError | lib/typedeaf/instancemethods.rb:55-64 | once a prefix of the parameters raises, the whole walk raises the same error |
| Binder.ValidateAllOkIff | lib/typedeaf/instancemethods.rb:51-67 | validation succeeds iff every parameter passes its own check against its positional argument |
| Binder.ValidateAllFirstError | lib/typedeaf/instancemethods.rb:55-64 | a failure is the error of some parameter all of whose predecessors pass |
| Binder.ValidateAllBinding | lib/typedeaf/instancemethods.rb:54-66 | with distinct names, the binding's keys are exactly the parameter names and each maps to the argument at its position (nil past the end) |
| Binder.DefaultsOnlyWhenShort | lib/typedeaf/instancemethods.rb:100-106 | a short call appends the values of the DefaultArguments to the arguments, and nothing else |
| Binder.DefaultValuesInOrder | lib/typedeaf/instancemethods.rb:100-106 | the k-th DefaultArgument of the contract supplies the k-th appended value |
| Binder.BindArityIff | lib/typedeaf.rb:99-114 | ArgumentError is raised iff the count after folding and defaulting differs, and then with exactly those counts |
| Binder.BindOkIff | lib/typedeaf.rb:99-126 | a call binds iff the counts agree and every effective parameter passes its check |
| Binder.BindFirstFailure | lib/typedeaf.rb:116-126 | a type failure is the first failing parameter in declaration order |
| Binder.BindBindsEachParameter | lib/typedeaf.rb:116-127 | a successful bind maps exactly the contract's names, each to the effective argument at its position |
| Binder.WrongCountWithoutDefaults | spec/typedeaf_spec.rb:58-62 | a contract without defaults called with the wrong count raises ArgumentError |
| Binder.TrailingDefaultsFill | lib/typedeaf/instancemethods.rb:96-109 | omitted trailing defaults whose values fit their classes bind to those values, and the required names bind to their arguments |
| Binder.BlockBindsToBlockParameter | lib/typedeaf/instancemethods.rb:89-94 | a given block lands in the trailing `block` parameter, and the other names keep their arguments |
| VarStack.Resolve | lib/typedeaf.rb:37-39 | a bare name resolves iff the top frame binds it, to that frame's value |
| VarStack.Lookup | lib/typedeaf.rb:33-43 | `method_missing` answers only with no arguments on a non-empty stack, iff the top frame binds the name, with that value |
| VarStack.TouchIsolation | lib/typedeaf/instancemethods.rb:34-40 | first access creates the key's stack empty and changes no stack or other key |
| VarStack.LookupIgnoresLowerFrames | lib/typedeaf.rb:36-39 | frames below the top are never consulted |
| VarStack.NestedCallsSeeOwnFrame | lib/typedeaf.rb:127-133 | a nested call resolves against its own frame, and after its pop the caller resolves against the caller's frame again |
| VarStack.VarStacks.Access | lib/typedeaf/instancemethods.rb:34-40 | returns the key's stack, creating it empty on first access, and touches no other key |
| VarStack.VarStacks.Push | lib/typedeaf/classmethods.rb:70-71 | the frame is appended to the caller's stack alone |
| VarStack.VarStacks.Pop | lib/typedeaf/classmethods.rb:76 | the top frame is removed from the caller's stack alone and returned |
| VarStack.VarStacks.MethodMissing | lib/typedeaf.rb:33-43 | answers as Lookup on the stack before the call; the stack is accessed (and so created) only for a call without arguments |
| ClassMethods.BindImmediate | lib/typedeaf/classmethods.rb:66-71 | the split `define`'s checks compute Bind, and the caller's varstack is accessed exactly when the count check passes, before the type checks |
| ClassMethods.RunFrame | lib/typedeaf/classmethods.rb:70-77 | the body sees exactly the pushed frame on top, and the stacks are left as found (apart from lazy creation), whether or not the body raises |
| ClassMethods.RunJob | lib/typedeaf/classmethods.rb:39-48 | the deferred work runs the body with the call's frame on the worker thread's own stack and leaves it as found |
| ClassMethods.TypedClass.MethodParameters | lib/typedeaf/classmethods.rb:95-101 | the registry is created empty on first access and returned unchanged afterwards |
| ClassMethods.TypedClass.Install | lib/typedeaf/classmethods.rb:59 | (re)defines one method in the table of the chosen builder and leaves the other table alone |
| ClassMethods.TypedClass.Register | lib/typedeaf/classmethods.rb:56-59 | a missing body raises MissingMethodException and changes nothing; otherwise the params are recorded and the method installed |
| ClassMethods.TypedClass.Define | lib/typedeaf/classmethods.rb:54-81 | as Register with an immediate method; returns self |
| ClassMethods.TypedClass.Future | lib/typedeaf/classmethods.rb:24-52 | as Register with a method deferred to the given primitive; returns self |
| ClassMethods.TypedClass.Promise | lib/typedeaf/classmethods.rb:12-22 | as Future with Concurrent::Promise |
| ClassMethods.TypedClass.ClassDefine | lib/typedeaf/classmethods.rb:83-85 | Define into the singleton table; instance methods unchanged |
| ClassMethods.TypedClass.ClassFuture | lib/typedeaf/classmethods.rb:87-89 | Future into the singleton table; instance methods unchanged |
| ClassMethods.TypedClass.ClassPromise | lib/typedeaf/classmethods.rb:91-93 | Promise into the singleton table; instance methods unchanged |
| ClassMethods.TypedClass.DefineLegacy | lib/typedeaf.rb:92-98 | a missing body raises and changes nothing; otherwise an instance method is installed, with no registry entry |
| ClassMethods.Invocation | lib/typedeaf/classmethods.rb:59-78 | a defined method never misses; it refuses iff it is not the parameter-less shortcut and binding fails, with that error; it schedules iff it is deferred and binds, and the work carries the call's own frame and object |
| ClassMethods.StacksAfterCall | lib/typedeaf/classmethods.rb:70-71 | a call changes no stack and no other key; its own key is created when absent iff the call accesses the varstack |
| ClassMethods.TypedClass.Invoke | lib/typedeaf/classmethods.rb:59-78 | an undefined name misses; a defined one answers as Invocation on the frame on top before the call; the stacks end as StacksAfterCall: only the caller's key may be created, by a split `define` with parameters once the count check passes (even if a type check then raises), by an older `define` that binds, never by future/promise |
| ClassMethods.BodySeesOwnBinding | lib/typedeaf.rb:116-133 | a call that binds runs the body with its own frame, in which each parameter name resolves to its effective argument and no other name resolves |
| ClassMethods.BindFailureRaisesBeforePush | lib/typedeaf/classmethods.rb:66-71 | a binding failure raises to the caller and no frame is pushed |
| ClassMethods.DeferredBindsSynchronously | lib/typedeaf/classmethods.rb:33-49 | future and promise raise binding errors at once, otherwise return work carrying the call's frame, and never push on the caller's stack |
| ClassMethods.EmptyParamsShortcut | lib/typedeaf/classmethods.rb:60-64 | a parameter-less define runs the body directly on whatever frame is on top, ignoring its arguments, and pushes nothing |
| ClassMethods.CallsOnOtherKeysIsolated | lib/typedeaf/instancemethods.rb:34-40 | a call from one (object, thread) key leaves every other key's stack and presence as they were, and its own stack's contents unchanged |
| ClassMethods.PushImpliesTouch | lib/typedeaf/classmethods.rb:70-77 | every call that pushes a frame has accessed the caller's varstack |
| ClassMethods.TypeFailureCreatesStack | lib/typedeaf/classmethods.rb:70-71 | a split `define` whose arguments have the right count but fail a type check pushes no frame, yet creates the caller's varstack |
| Findings.ResolvedHasNoDefaults | lib/typedeaf.rb:105 | after the in-place rewrite no DefaultArgument is left in the contract |
| Findings.DefaultInPlace | lib/typedeaf/instancemethods.rb:96-109 | as written, the rewrite fails with FrozenError exactly when the contract is frozen, arguments are short and a DefaultArgument is present; otherwise its result is ResolveDefaults |
| Findings.CallAsWritten | lib/typedeaf.rb:99-126 | one call as written: writing defaults into a frozen Hash raises FrozenError and leaves it as it was; otherwise the call answers as the per-call Bind and leaves the Hash in its resolved form |
| Findings.InPlaceDefaultsAreSpent | lib/typedeaf.rb:99-108 | after one short call the shared contract has no defaults left, so any later call with a different count raises ArgumentError |
| Findings.RepeatedDefaultCallAsWritten | spec/typedeaf_spec.rb:101-105 | as written, the first `log('hello')` binds level to :debug and the second raises ArgumentError (1 for 2) |
| Findings.FrozenDefaultCallAsWritten | lib/typedeaf/classmethods.rb:55-67 | as written with the frozen contract, the first `log('hello')` already raises FrozenError |
| Findings.RepeatedDefaultCallCorrected | spec/typedeaf_spec.rb:101-105 | with per-call defaulting, `log('hello')` binds message and level on every call |
| Findings.MethodMissingAsWritten | lib/typedeaf/instancemethods.rb:8-18 | as written, a lookup raises TypeError exactly when there are no arguments and the top frame's head is a Symbol; a hit needs an older-revision frame whose contract has the name |
| Findings.SplitFrameResolutionRaises | lib/typedeaf/instancemethods.rb:12-14 | as written, any bare name looked up under a split-revision frame raises TypeError |
| Findings.PositionalMessageLookup | spec/typedeaf_spec.rb:44-56 | `message` inside `log('world')` raises as written and resolves to 'world' with the corrected lookup |
| Findings.LegacyFrameAgrees | lib/typedeaf.rb:36-40 | testing the older revision's params Hash answers exactly as the corrected Lookup when the binding has the contract's keys |
| Examples.PositionalArguments | spec/typedeaf_spec.rb:44-68 | `log('world')` binds message; `log` raises ArgumentError (0 for 1); `log 4` raises InvalidTypeException |
| Examples.UnionArguments | spec/typedeaf_spec.rb:71-85 | both :world and 'world' bind under [String, Symbol] |
| Examples.DefaultArguments | spec/typedeaf_spec.rb:87-99 | `log('hello')` binds message to 'hello' and level to :debug |
| Examples.SuppliedDefaultRaises | lib/typedeaf.rb:99-121 | `log('hello', :info)` raises TypeError on level, because the DefaultArgument is not resolved |
| Examples.EveryDefaultAppended | lib/typedeaf.rb:99-114 | with two defaults and one supplied, four arguments meet three parameters and ArgumentError (4 for 3) is raised |
| Examples.BlockArgument | spec/typedeaf_spec.rb:128-149 | a given block binds to the `block` parameter |
| Examples.PositionalCall | spec/typedeaf_spec.rb:44-56 | `log('world')` answers 'hello world' and leaves the caller's stack existing and empty |
| Examples.MistypedFirstCall | lib/typedeaf/classmethods.rb:66-71 | a first `log(4)` from a fresh thread raises InvalidTypeException and leaves that thread's varstack created and empty |
| Examples.MissingBody | spec/typedeaf_spec.rb:18-25 | `define :log` without a block raises MissingMethodException and installs nothing |
| Examples.FutureCall | spec/typedeaf_spec.rb:151-181 | a mistyped call raises at once; a good one returns future work that yields 'hello' on the worker thread |
| Examples.Redefinition | lib/typedeaf/classmethods.rb:57-59 | redefining a method replaces its contract: only the newer one is enforced |

## Left out

- Concurrency: Concurrent::Future and Concurrent::Promise state, `execute`, `value` and `reason`. Deferred work is a value run explicitly by `RunJob`, so interleavings of threads are not modelled.
- `Thread.current` and `object_id` are explicit key arguments rather than runtime facilities.
- `define_method`, `define_singleton_method`, `instance_exec` and `super` are metaprogramming. They become two method tables, a body function, and a `NoMethod` answer for a lookup miss.
- The older revision passes `*args` to the block as block parameters. Bodies here see only the frame.
- Bodies are pure functions of the top frame and do not call back into the engine. Recursion is covered by the push, pop and lookup lemmas (`VarStack.NestedCallsSeeOwnFrame`) rather than by running nested calls.
- Lazy creation of a stack by a `method_missing` inside a body is not modelled, because body functions do not touch the stacks.
- `global_install` is left out: it extends `Class` and `inherited`.
- Ruby's class hierarchy and `is_a?` are the parameter `isA`. Exception messages are not modelled.
- Binding order: the binding is a map. Insertion order of the Ruby Hash is not kept, though declaration order is kept for contracts.
- lib/typedeaf/errors.rb and lib/typedeaf/version.rb are not part of this model. The benchmarks and spec helper are left out.
- Binder.Bind: defaults are resolved per call. The in-place rewrite of the shared contract, and the FrozenError of the frozen contract, appear only in the Findings module.
- VarStack.Lookup: tests whether the binding has the name, rather than the split revision's `params[sym]` on a Symbol; see Findings.

## Findings

| source | as written | input that shows it | evidently intended | confidence | as-written member | corrected member |
|---|---|---|---|---|---|---|
| lib/typedeaf.rb:105 | a short call rewrites each DefaultArgument of the shared contract Hash in place (also lib/typedeaf/instancemethods.rb:104); in the split `define` that Hash is frozen (lib/typedeaf/classmethods.rb:55) | `define :log, message: String, level: default(:debug, Symbol)`; `log('hello')` twice: the second call raises ArgumentError (1 for 2), and under the frozen Hash the first call raises FrozenError | defaults filled on every call, leaving the contract untouched | high, not executed | Findings.RepeatedDefaultCallAsWritten | Findings.RepeatedDefaultCallCorrected |
| lib/typedeaf/instancemethods.rb:12-14 | the split revision pushes `[method_sym, binding]` (lib/typedeaf/classmethods.rb:70), and `method_missing` then evaluates `params[sym]` with `params` the method's Symbol | `define :log, message: String do "hello #{message}" end`; `log('world')`: `:log[:message]` raises TypeError | a bare parameter name resolves to its bound value | medium, not executed | Findings.PositionalMessageLookup | VarStack.Lookup |
