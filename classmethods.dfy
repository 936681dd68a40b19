/**
 * Defining contracted methods and running them: the per-class parameter
 * registry, `define`, `future`, `promise` and their `class_*` forms
 * (lib/typedeaf/classmethods.rb), and the older all-in-one `define`
 * (lib/typedeaf.rb).
 *
 * Ruby's `define_method`/`define_singleton_method` become two method tables
 * of explicit records; calling a name that is in neither is a lookup miss
 * (`NoMethod`). A body is the block's behaviour as a function of the frame
 * its bare names resolve against; it leaves the varstack as it found it.
 * Future and Promise scheduling is a deferred `Job`, run by `RunJob` on the
 * worker's thread.
 */
module ClassMethods {
  import opened Wrappers
  import opened Arguments
  import opened Errors
  import opened TypeMatch
  import opened Binder
  import opened VarStack

  /** How a block ends: with a value, or by raising an exception. */
  datatype Completion = Normal(value: Value) | Raised(exception: Value)

  /** A method body, as a function of the frame on top of the varstack when it runs. */
  type Body = Option<Frame> -> Completion

  /** Concurrent::Future or Concurrent::Promise. */
  datatype Primitive = FuturePrimitive | PromisePrimitive

  /** `:define_method` (instance methods) or `:define_singleton_method` (class methods). */
  datatype Builder = DefineMethod | DefineSingletonMethod

  /** `define` of the split revision, `future`/`promise`, or `define` of the older revision. */
  datatype Mode = Immediate | Deferred(primitive: Primitive) | Legacy

  /** What `define_method` installs: the captured params, the mode and the block. */
  datatype MethodRecord = MethodRecord(params: Params, mode: Mode, body: Body)

  /** The work handed to the primitive: push the frame, run the body, pop the frame. */
  datatype Job = Job(primitive: Primitive, obj: ObjId, frame: Frame, body: Body)

  /** What a call of a method name gives the caller. */
  datatype Answer =
    | NoMethod                          // not defined here: the call goes on to `super`
    | Refused(error: Error)             // raised while binding, before any frame was pushed
    | Completed(completion: Completion) // the body ran synchronously
    | Scheduled(job: Job)               // the future/promise handle and the work it runs

  function BindFor(isA: IsA, rec: MethodRecord, args: seq<Value>, blk: Option<Value>): Result<Binding, Error>
  {
    // the older revision's method takes `|*args|` only: a block never reaches it
    Bind(isA, rec.params, args, if rec.mode.Legacy? then None else blk)
  }

  /** Whether a call pushes (and so pops) a frame on the caller's own varstack. */
  predicate PushesFrame(isA: IsA, rec: MethodRecord, args: seq<Value>, blk: Option<Value>)
  {
    match rec.mode
    case Immediate => |rec.params| > 0 && BindFor(isA, rec, args, blk).Ok?
    case Legacy => BindFor(isA, rec, args, blk).Ok?
    case Deferred(_) => false
  }

  /**
   * Whether a call accesses (and so creates) the caller's own varstack. The
   * split `define` evaluates `__typedeaf_varstack__`, the receiver of `<<`,
   * once the count check has passed and before the type checks run, so a
   * type failure still leaves the stack created. The older `define` accesses
   * it only after every check passed, and future/promise only in the worker.
   */
  predicate TouchesStack(isA: IsA, rec: MethodRecord, args: seq<Value>, blk: Option<Value>)
  {
    match rec.mode
    case Immediate => |rec.params| > 0 && CheckArity(rec.params, Effective(rec.params, args, blk).1).None?
    case Legacy => BindFor(isA, rec, args, blk).Ok?
    case Deferred(_) => false
  }

  /** The varstacks after calling `sym` from key `key`: touched at that key or left as they were. */
  function StacksAfterCall(isA: IsA, table: map<Name, MethodRecord>, sym: Name, slots: Slots, key: Key,
                           args: seq<Value>, blk: Option<Value>): (after: Slots)
    ensures forall k :: k != key ==> StackAt(after, k) == StackAt(slots, k) && (k in after <==> k in slots)
    ensures StackAt(after, key) == StackAt(slots, key)
    ensures key in after <==> key in slots || (sym in table && TouchesStack(isA, table[sym], args, blk))
  {
    if sym in table && TouchesStack(isA, table[sym], args, blk) then Touch(slots, key) else slots
  }

  /** The answer of calling method `sym` of record `rec` when `top` is on top of the varstack. */
  function Invocation(isA: IsA, sym: Name, rec: MethodRecord, obj: ObjId, args: seq<Value>,
                      blk: Option<Value>, top: Option<Frame>): (r: Answer)
    ensures !r.NoMethod?
    ensures r.Refused? <==> !(rec.mode.Immediate? && |rec.params| == 0) && BindFor(isA, rec, args, blk).Err?
    ensures r.Refused? ==> r.error == BindFor(isA, rec, args, blk).error
    ensures r.Scheduled? <==> rec.mode.Deferred? && BindFor(isA, rec, args, blk).Ok?
    ensures r.Scheduled? ==> r.job.frame == Frame(sym, BindFor(isA, rec, args, blk).value) && r.job.obj == obj
  {
    if rec.mode.Immediate? && |rec.params| == 0 then
      // the parameter-less shortcut: no checks, no frame, arguments ignored
      Completed(rec.body(top))
    else
      match BindFor(isA, rec, args, blk)
      case Err(e) => Refused(e)
      case Ok(b) =>
        if rec.mode.Deferred? then Scheduled(Job(rec.mode.primitive, obj, Frame(sym, b), rec.body))
        else Completed(rec.body(Some(Frame(sym, b))))
  }

  function RegistryOf(registry: Option<map<Name, Params>>): map<Name, Params>
  {
    if registry.Some? then registry.value else map[]
  }

  /**
   * `push; begin body ensure pop end`: the body sees exactly the pushed
   * frame on top, and the stack is left as it was found whatever the body
   * does (raising included).
   */
  method RunFrame(stacks: VarStacks, obj: ObjId, thread: ThreadId, frame: Frame, body: Body)
    returns (c: Completion)
    modifies stacks
    ensures c == body(Some(frame))
    ensures stacks.slots == Touch(old(stacks.slots), (obj, thread))
  {
    ghost var before := StackAt(stacks.slots, (obj, thread));
    stacks.Push(obj, thread, frame);
    assert stacks.TopFrame((obj, thread)) == Some(frame);
    c := body(stacks.TopFrame((obj, thread)));
    var _ := stacks.Pop(obj, thread);
    assert Popped(before + [frame]) == before;
  }

  /**
   * The checks of the split `define` (lib/typedeaf/classmethods.rb:66-71): in
   * `__typedeaf_varstack__ << [method_sym, __typedeaf_validate_types(...)]`
   * the receiver is evaluated first, so the caller's varstack is accessed
   * after the count check and before the type checks.
   */
  method BindImmediate(isA: IsA, stacks: VarStacks, obj: ObjId, thread: ThreadId,
                       params: Params, args: seq<Value>, blk: Option<Value>) returns (bound: Result<Binding, Error>)
    modifies stacks
    ensures bound == Bind(isA, params, args, blk)
    ensures stacks.slots ==
      if CheckArity(params, Effective(params, args, blk).1).None? then Touch(old(stacks.slots), (obj, thread))
      else old(stacks.slots)
  {
    var folded := FoldBlock(params, args, blk);
    var effective, filled := HandleDefaultParameters(params, folded);
    var arity := CheckArity(params, filled);
    if arity.Some? {
      return Err(arity.value);
    }
    var _ := stacks.Access(obj, thread);
    bound := ValidateTypes(isA, effective, filled);
  }

  /** A scheduled future/promise, run once on the worker thread under the worker's key. */
  method RunJob(stacks: VarStacks, worker: ThreadId, job: Job) returns (c: Completion)
    modifies stacks
    ensures c == job.body(Some(job.frame))
    ensures stacks.slots == Touch(old(stacks.slots), (job.obj, worker))
  {
    c := RunFrame(stacks, job.obj, worker, job.frame, job.body);
  }

  /** A class that includes Typedeaf: its registry and the methods defined on it. */
  class TypedClass {
    const isA: IsA
    var registry: Option<map<Name, Params>>
    var instanceMethods: map<Name, MethodRecord>
    var singletonMethods: map<Name, MethodRecord>

    constructor (isA: IsA)
      ensures this.isA == isA && registry == None
      ensures instanceMethods == map[] && singletonMethods == map[]
    {
      this.isA := isA;
      registry := None;
      instanceMethods, singletonMethods := map[], map[];
    }

    function Methods(builder: Builder): map<Name, MethodRecord>
      reads this
    {
      if builder == DefineMethod then instanceMethods else singletonMethods
    }

    /** `__typedeaf_method_parameters__`: the registry, created empty on first access. */
    method MethodParameters() returns (reg: map<Name, Params>)
      modifies this`registry
      ensures reg == RegistryOf(old(registry)) && registry == Some(reg)
    {
      if registry.None? {
        registry := Some(map[]);
      }
      reg := registry.value;
    }

    /** `send(method_builder, method_sym) { ... }`: (re)define one method. */
    method Install(builder: Builder, sym: Name, rec: MethodRecord)
      modifies this`instanceMethods, this`singletonMethods
      ensures Methods(builder) == old(Methods(builder))[sym := rec]
      ensures builder == DefineMethod ==> singletonMethods == old(singletonMethods)
      ensures builder == DefineSingletonMethod ==> instanceMethods == old(instanceMethods)
    {
      if builder == DefineMethod {
        instanceMethods := instanceMethods[sym := rec];
      } else {
        singletonMethods := singletonMethods[sym := rec];
      }
    }

    /**
     * The common part of `define` and `future`: check the body, then record
     * the params and install the method. Nothing changes when the body is missing.
     */
    method Register(sym: Name, params: Params, builder: Builder, mode: Mode, body: Option<Body>)
      returns (r: Result<TypedClass, Error>)
      modifies this
      ensures body.None? ==> r == Err(MissingMethod(sym)) && unchanged(this)
      ensures body.Some? ==> r == Ok(this)
      ensures body.Some? ==> registry == Some(RegistryOf(old(registry))[sym := params])
      ensures body.Some? ==> Methods(builder) == old(Methods(builder))[sym := MethodRecord(params, mode, body.value)]
      ensures builder == DefineMethod ==> singletonMethods == old(singletonMethods)
      ensures builder == DefineSingletonMethod ==> instanceMethods == old(instanceMethods)
    {
      // __typedeaf_validate_body_for
      if body.None? {
        return Err(MissingMethod(sym));
      }
      var reg := MethodParameters();
      registry := Some(reg[sym := params]);
      Install(builder, sym, MethodRecord(params, mode, body.value));
      r := Ok(this);
    }

    /** `define(method_sym, params, method_builder, &block)`; returns self. */
    method Define(sym: Name, params: Params, builder: Builder, body: Option<Body>)
      returns (r: Result<TypedClass, Error>)
      modifies this
      ensures body.None? ==> r == Err(MissingMethod(sym)) && unchanged(this)
      ensures body.Some? ==> r == Ok(this)
      ensures body.Some? ==> registry == Some(RegistryOf(old(registry))[sym := params])
      ensures body.Some? ==> Methods(builder) == old(Methods(builder))[sym := MethodRecord(params, Immediate, body.value)]
      ensures builder == DefineMethod ==> singletonMethods == old(singletonMethods)
      ensures builder == DefineSingletonMethod ==> instanceMethods == old(instanceMethods)
    {
      r := Register(sym, params, builder, Immediate, body);
    }

    /** `future(method_sym, params, method_builder, primitive, &block)`; returns self. */
    method Future(sym: Name, params: Params, builder: Builder, primitive: Primitive, body: Option<Body>)
      returns (r: Result<TypedClass, Error>)
      modifies this
      ensures body.None? ==> r == Err(MissingMethod(sym)) && unchanged(this)
      ensures body.Some? ==> r == Ok(this)
      ensures body.Some? ==> registry == Some(RegistryOf(old(registry))[sym := params])
      ensures body.Some? ==> Methods(builder) == old(Methods(builder))[sym := MethodRecord(params, Deferred(primitive), body.value)]
      ensures builder == DefineMethod ==> singletonMethods == old(singletonMethods)
      ensures builder == DefineSingletonMethod ==> instanceMethods == old(instanceMethods)
    {
      r := Register(sym, params, builder, Deferred(primitive), body);
    }

    /** `promise`: `future` with Concurrent::Promise as the primitive. */
    method Promise(sym: Name, params: Params, builder: Builder, body: Option<Body>)
      returns (r: Result<TypedClass, Error>)
      modifies this
      ensures body.None? ==> r == Err(MissingMethod(sym)) && unchanged(this)
      ensures body.Some? ==> r == Ok(this)
      ensures body.Some? ==> registry == Some(RegistryOf(old(registry))[sym := params])
      ensures body.Some? ==> Methods(builder) == old(Methods(builder))[sym := MethodRecord(params, Deferred(PromisePrimitive), body.value)]
      ensures builder == DefineMethod ==> singletonMethods == old(singletonMethods)
      ensures builder == DefineSingletonMethod ==> instanceMethods == old(instanceMethods)
    {
      r := Future(sym, params, builder, PromisePrimitive, body);
    }

    /** `class_define`: `define` through `define_singleton_method`. */
    method ClassDefine(sym: Name, params: Params, body: Option<Body>) returns (r: Result<TypedClass, Error>)
      modifies this
      ensures body.None? ==> r == Err(MissingMethod(sym)) && unchanged(this)
      ensures body.Some? ==> r == Ok(this)
      ensures body.Some? ==> registry == Some(RegistryOf(old(registry))[sym := params])
      ensures body.Some? ==> singletonMethods == old(singletonMethods)[sym := MethodRecord(params, Immediate, body.value)]
      ensures instanceMethods == old(instanceMethods)
    {
      r := Define(sym, params, DefineSingletonMethod, body);
    }

    /** `class_future`: `future` through `define_singleton_method`. */
    method ClassFuture(sym: Name, params: Params, body: Option<Body>) returns (r: Result<TypedClass, Error>)
      modifies this
      ensures body.None? ==> r == Err(MissingMethod(sym)) && unchanged(this)
      ensures body.Some? ==> r == Ok(this)
      ensures body.Some? ==> registry == Some(RegistryOf(old(registry))[sym := params])
      ensures body.Some? ==> singletonMethods == old(singletonMethods)[sym := MethodRecord(params, Deferred(FuturePrimitive), body.value)]
      ensures instanceMethods == old(instanceMethods)
    {
      r := Future(sym, params, DefineSingletonMethod, FuturePrimitive, body);
    }

    /** `class_promise`: `promise` through `define_singleton_method`. */
    method ClassPromise(sym: Name, params: Params, body: Option<Body>) returns (r: Result<TypedClass, Error>)
      modifies this
      ensures body.None? ==> r == Err(MissingMethod(sym)) && unchanged(this)
      ensures body.Some? ==> r == Ok(this)
      ensures body.Some? ==> registry == Some(RegistryOf(old(registry))[sym := params])
      ensures body.Some? ==> singletonMethods == old(singletonMethods)[sym := MethodRecord(params, Deferred(PromisePrimitive), body.value)]
      ensures instanceMethods == old(instanceMethods)
    {
      r := Promise(sym, params, DefineSingletonMethod, body);
    }

    /**
     * `define` of the older revision: body check, then `define_method`; it
     * keeps no registry and has no parameter-less shortcut.
     */
    method DefineLegacy(sym: Name, params: Params, body: Option<Body>) returns (r: Result<TypedClass, Error>)
      modifies this`instanceMethods
      ensures body.None? ==> r == Err(MissingMethod(sym)) && unchanged(this)
      ensures body.Some? ==> r == Ok(this)
      ensures body.Some? ==> instanceMethods == old(instanceMethods)[sym := MethodRecord(params, Legacy, body.value)]
    {
      if body.None? {
        return Err(MissingMethod(sym));
      }
      instanceMethods := instanceMethods[sym := MethodRecord(params, Legacy, body.value)];
      r := Ok(this);
    }

    /**
     * Calling method `sym` on object `obj` from thread `thread`: bind, then
     * either run the body between a push and a pop (define), run it directly
     * (parameter-less define), or hand back the scheduled work (future,
     * promise). A failure raises before any frame is pushed. Only the
     * caller's own key is ever touched, as TouchesStack says, and every stack
     * is as it was before the call.
     */
    method Invoke(stacks: VarStacks, builder: Builder, obj: ObjId, thread: ThreadId,
                  sym: Name, args: seq<Value>, blk: Option<Value>) returns (answer: Answer)
      modifies stacks
      ensures sym !in Methods(builder) ==> answer == NoMethod
      ensures sym in Methods(builder) ==>
        answer == Invocation(isA, sym, Methods(builder)[sym], obj, args, blk, old(stacks.TopFrame((obj, thread))))
      ensures stacks.slots == StacksAfterCall(isA, Methods(builder), sym, old(stacks.slots), (obj, thread), args, blk)
    {
      var table := Methods(builder);
      if sym !in table {
        return NoMethod;
      }
      var rec := table[sym];
      if rec.mode.Immediate? && |rec.params| == 0 {
        return Completed(rec.body(stacks.TopFrame((obj, thread))));
      }
      var bound;
      if rec.mode.Immediate? {
        bound := BindImmediate(isA, stacks, obj, thread, rec.params, args, blk);
      } else {
        bound := BindArguments(isA, rec.params, args, if rec.mode.Legacy? then None else blk);
      }
      if bound.Err? {
        return Refused(bound.error);
      }
      var frame := Frame(sym, bound.value);
      if rec.mode.Deferred? {
        // the frame is built now; pushing it is left to the scheduled work
        return Scheduled(Job(rec.mode.primitive, obj, frame, rec.body));
      }
      ghost var touched := stacks.slots;
      var completion := RunFrame(stacks, obj, thread, frame, rec.body);
      assert Touch(touched, (obj, thread)) == Touch(old(stacks.slots), (obj, thread)) by {
        if rec.mode.Immediate? {
          assert touched == Touch(old(stacks.slots), (obj, thread));
        }
      }
      answer := Completed(completion);
    }
  }

  // ---------------------------------------------------------------------------
  // Properties of invocation

  /**
   * A call whose arguments bind runs the body with its own frame on top, in
   * which every parameter name resolves to the effective argument at its
   * position.
   */
  lemma BodySeesOwnBinding(isA: IsA, sym: Name, rec: MethodRecord, obj: ObjId, args: seq<Value>,
                           blk: Option<Value>, top: Option<Frame>)
    requires rec.mode.Immediate? || rec.mode.Legacy?
    requires |rec.params| > 0 && DistinctNames(rec.params)
    requires BindFor(isA, rec, args, blk).Ok?
    ensures var frame := Frame(sym, BindFor(isA, rec, args, blk).value);
      Invocation(isA, sym, rec, obj, args, blk, top) == Completed(rec.body(Some(frame)))
    ensures var filled := Effective(rec.params, args, if rec.mode.Legacy? then None else blk).1;
      forall i :: 0 <= i < |rec.params| ==>
        Resolve(Some(Frame(sym, BindFor(isA, rec, args, blk).value)), rec.params[i].0) == Some(filled[i])
    ensures forall n :: n !in ParamNames(rec.params) ==>
      Resolve(Some(Frame(sym, BindFor(isA, rec, args, blk).value)), n) == None
  {
    BindBindsEachParameter(isA, rec.params, args, if rec.mode.Legacy? then None else blk);
  }

  /** A binding failure raises to the caller in every mode, and no frame is pushed. */
  lemma BindFailureRaisesBeforePush(isA: IsA, sym: Name, rec: MethodRecord, obj: ObjId,
                                    args: seq<Value>, blk: Option<Value>, top: Option<Frame>)
    requires !(rec.mode.Immediate? && |rec.params| == 0)
    requires BindFor(isA, rec, args, blk).Err?
    ensures Invocation(isA, sym, rec, obj, args, blk, top) == Refused(BindFor(isA, rec, args, blk).error)
    ensures !PushesFrame(isA, rec, args, blk)
  {
  }

  /**
   * A future or promise binds synchronously: a malformed call raises to the
   * caller, a well-formed one returns work that carries the call's own frame,
   * and the caller's varstack is never pushed.
   */
  lemma DeferredBindsSynchronously(isA: IsA, sym: Name, rec: MethodRecord, obj: ObjId,
                                   args: seq<Value>, blk: Option<Value>, top: Option<Frame>)
    requires rec.mode.Deferred?
    ensures !PushesFrame(isA, rec, args, blk)
    ensures BindFor(isA, rec, args, blk).Err? ==>
      Invocation(isA, sym, rec, obj, args, blk, top) == Refused(BindFor(isA, rec, args, blk).error)
    ensures BindFor(isA, rec, args, blk).Ok? ==>
      Invocation(isA, sym, rec, obj, args, blk, top) ==
        Scheduled(Job(rec.mode.primitive, obj, Frame(sym, BindFor(isA, rec, args, blk).value), rec.body))
  {
  }

  /** A parameter-less `define` ignores its arguments and sees whatever frame is on top. */
  lemma EmptyParamsShortcut(isA: IsA, sym: Name, body: Body, obj: ObjId, args: seq<Value>,
                            blk: Option<Value>, top: Option<Frame>)
    ensures Invocation(isA, sym, MethodRecord([], Immediate, body), obj, args, blk, top) == Completed(body(top))
    ensures !PushesFrame(isA, MethodRecord([], Immediate, body), args, blk)
  {
  }

  /**
   * A call made from one (object, thread) key neither sees nor changes the
   * stack of any other key, and leaves its own stack's contents as they were.
   */
  lemma CallsOnOtherKeysIsolated(isA: IsA, table: map<Name, MethodRecord>, sym: Name, slots: Slots,
                                 key: Key, other: Key, args: seq<Value>, blk: Option<Value>)
    requires key != other
    ensures StackAt(StacksAfterCall(isA, table, sym, slots, key, args, blk), other) == StackAt(slots, other)
    ensures (other in StacksAfterCall(isA, table, sym, slots, key, args, blk)) == (other in slots)
    ensures StackAt(StacksAfterCall(isA, table, sym, slots, key, args, blk), key) == StackAt(slots, key)
  {
  }

  /** Every frame a call pushes is preceded by an access of the caller's stack. */
  lemma PushImpliesTouch(isA: IsA, rec: MethodRecord, args: seq<Value>, blk: Option<Value>)
    ensures PushesFrame(isA, rec, args, blk) ==> TouchesStack(isA, rec, args, blk)
  {
  }

  /**
   * A split-revision `define` with parameters whose arguments have the right
   * count but fail a type check raises, pushes no frame, and still creates
   * the caller's varstack.
   */
  lemma TypeFailureCreatesStack(isA: IsA, rec: MethodRecord, args: seq<Value>, blk: Option<Value>)
    requires rec.mode.Immediate? && |rec.params| > 0
    requires BindFor(isA, rec, args, blk).Err? && !BindFor(isA, rec, args, blk).error.WrongArity?
    ensures !PushesFrame(isA, rec, args, blk)
    ensures TouchesStack(isA, rec, args, blk)
  {
    BindArityIff(isA, rec.params, args, blk);
  }
}
