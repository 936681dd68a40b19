/**
 * The scenarios of spec/typedeaf_spec.rb, stated over a small `is_a?`
 * relation for the core Ruby classes.
 */
module Examples {
  import opened Wrappers
  import opened Arguments
  import opened Errors
  import opened Binder
  import opened VarStack
  import opened ClassMethods

  /** `is_a?` for the built-in classes the tests use. */
  function RubyIsA(v: Value, cls: ClassName): bool
  {
    cls == "Object" || cls == "BasicObject" || cls == "Kernel" ||
    match v
    case Nil => cls == "NilClass"
    case Str(_) => cls == "String" || cls == "Comparable"
    case Sym(_) => cls == "Symbol" || cls == "Comparable"
    case Int(_) => cls == "Integer" || cls == "Numeric" || cls == "Comparable"
    case List(_) => cls == "Array" || cls == "Enumerable"
    case Proc(_) => cls == "Proc"
    case Object(_) => false
  }

  /** `define :log, message: String` */
  function MessageParams(): Params
  {
    [("message", Single("String"))]
  }

  /** `log('world')` binds message to 'world'; `log` and `log 4` raise. */
  lemma PositionalArguments()
    ensures Bind(RubyIsA, MessageParams(), [Str("world")], None) == Ok(map["message" := Str("world")])
    ensures Bind(RubyIsA, MessageParams(), [], None) == Err(WrongArity(0, 1))
    ensures Bind(RubyIsA, MessageParams(), [Int(4)], None) == Err(InvalidType("message"))
  {
    assert MessageParams()[..0] == [];
  }

  /** `define :log, message: [String, Symbol]` accepts both :world and 'world'. */
  lemma UnionArguments()
    ensures Bind(RubyIsA, [("message", Union(["String", "Symbol"]))], [Sym("world")], None)
      == Ok(map["message" := Sym("world")])
    ensures Bind(RubyIsA, [("message", Union(["String", "Symbol"]))], [Str("world")], None)
      == Ok(map["message" := Str("world")])
  {
    var p: Params := [("message", Union(["String", "Symbol"]))];
    assert p[..0] == [];
  }

  /** `define :log, message: String, level: default(:debug, Symbol)` with `log('hello')`. */
  lemma DefaultArguments()
    ensures Bind(RubyIsA, [("message", Single("String")), ("level", DefaultArgument(Sym("debug"), ["Symbol"]))],
                 [Str("hello")], None)
      == Ok(map["message" := Str("hello"), "level" := Sym("debug")])
  {
    var required: Params := [("message", Single("String"))];
    var defaults: Params := [("level", DefaultArgument(Sym("debug"), ["Symbol"]))];
    assert required + defaults == [("message", Single("String")), ("level", DefaultArgument(Sym("debug"), ["Symbol"]))];
    assert required[..0] == [];
    assert CheckAt(RubyIsA, required, [Str("hello")], 0).None?;
    assert DefaultFits(RubyIsA, defaults[0].1) by {
      assert RubyIsA(Sym("debug"), defaults[0].1.types[0]);
    }
    assert DistinctNames(required + defaults);
    assert !HasParam(required + defaults, "block");
    TrailingDefaultsFill(RubyIsA, required, defaults, [Str("hello")]);
    var b := Bind(RubyIsA, required + defaults, [Str("hello")], None).value;
    BindBindsEachParameter(RubyIsA, required + defaults, [Str("hello")], None);
    assert b.Keys == {"message", "level"} by {
      assert ParamNames(required + defaults) == {"message", "level"} by {
        assert (required + defaults)[0].0 == "message" && (required + defaults)[1].0 == "level";
      }
    }
    assert b["message"] == Str("hello") by { assert required[0].0 == "message"; }
    assert b["level"] == Sym("debug") by { assert defaults[0].0 == "level"; }
    assert b == map["message" := Str("hello"), "level" := Sym("debug")];
  }

  /**
   * Supplying a defaulted argument explicitly, `log('hello', :info)`: the
   * DefaultArgument is not rewritten, so `is_a?` is handed it and raises TypeError.
   */
  lemma SuppliedDefaultRaises()
    ensures Bind(RubyIsA, [("message", Single("String")), ("level", DefaultArgument(Sym("debug"), ["Symbol"]))],
                 [Str("hello"), Sym("info")], None)
      == Err(NotAClass("level"))
  {
    var p: Params := [("message", Single("String")), ("level", DefaultArgument(Sym("debug"), ["Symbol"]))];
    var args := [Str("hello"), Sym("info")];
    assert p[..1] == [("message", Single("String"))];
    assert p[..1][..0] == [];
    assert Effective(p, args, None) == (p, args);
    assert CheckAt(RubyIsA, p[..1], args, 0) == None;
    assert ValidateAll(RubyIsA, p[..1], args) == Ok(map["message" := Str("hello")]);
    assert CheckAt(RubyIsA, p, args, 1) == Some(NotAClass("level"));
  }

  /**
   * Every DefaultArgument's value is appended when any argument is missing:
   * with two defaulted parameters and one of them supplied, four arguments
   * meet three parameters and ArgumentError is raised.
   */
  lemma EveryDefaultAppended()
    ensures Bind(RubyIsA, [("message", Single("String")), ("level", Default(Sym("debug"), ["Symbol"])),
                           ("tag", Default(Sym("none"), ["Symbol"]))],
                 [Str("hello"), Sym("info")], None)
      == Err(WrongArity(4, 3))
  {
    var p: Params := [("message", Single("String")), ("level", Default(Sym("debug"), ["Symbol"])),
                      ("tag", Default(Sym("none"), ["Symbol"]))];
    assert p[..2][..1] == p[..1];
    assert p[..1][..0] == [];
    assert DefaultValues(p[..1]) == [];
    assert DefaultValues(p[..2]) == [Sym("debug")];
    assert DefaultValues(p) == [Sym("debug"), Sym("none")];
    assert !HasParam(p, "block");
    assert Effective(p, [Str("hello"), Sym("info")], None).1 == [Str("hello"), Sym("info"), Sym("debug"), Sym("none")];
  }

  /** `define :log, message: String, block: Proc` called as `log('hello') { ... }`. */
  lemma BlockArgument()
    ensures Bind(RubyIsA, [("message", Single("String")), ("block", Single("Proc"))], [Str("hello")], Some(Proc(1)))
      == Ok(map["message" := Str("hello"), "block" := Proc(1)])
  {
    var p: Params := [("message", Single("String")), ("block", Single("Proc"))];
    var filled := [Str("hello"), Proc(1)];
    assert HasParam(p, "block") by { assert p[1].0 == "block"; }
    assert FoldBlock(p, [Str("hello")], Some(Proc(1))) == filled;
    assert p[..1] == [("message", Single("String"))];
    assert p[..1][..0] == [];
    assert Effective(p, [Str("hello")], Some(Proc(1))) == (p, filled);
    assert CheckAt(RubyIsA, p[..1], filled, 0) == None;
    assert ValidateAll(RubyIsA, p[..1], filled) == Ok(map["message" := Str("hello")]);
    assert CheckAt(RubyIsA, p, filled, 1) == None;
  }

  /** The block `"hello #{message}"`. */
  function HelloBody(): Body
  {
    top => match Resolve(top, "message")
           case Some(Str(s)) => Normal(Str("hello " + s))
           case Some(Sym(s)) => Normal(Str("hello " + s))
           case _ => Raised(Nil)
  }

  /**
   * Defining `log` and calling it on one object from one thread: the body
   * sees 'world', and afterwards that thread's varstack exists and is empty.
   */
  method PositionalCall() returns (answer: Answer, stacks: VarStacks)
    ensures answer == Completed(Normal(Str("hello world")))
    ensures stacks.slots == map[(7, 1) := []]
  {
    var cls := new TypedClass(RubyIsA);
    stacks := new VarStacks();
    var defined := cls.Define("log", MessageParams(), DefineMethod, Some(HelloBody()));
    PositionalArguments();
    var frame := Frame("log", map["message" := Str("world")]);
    assert HelloBody()(Some(frame)) == Normal(Str("hello world")) by {
      assert Resolve(Some(frame), "message") == Some(Str("world"));
      assert "hello " + "world" == "hello world";
    }
    answer := cls.Invoke(stacks, DefineMethod, 7, 1, "log", [Str("world")], None);
  }

  /** `define :log` without a block raises and installs nothing. */
  method MissingBody() returns (r: Result<TypedClass, Error>, installed: bool)
    ensures r == Err(MissingMethod("log"))
    ensures !installed
  {
    var cls := new TypedClass(RubyIsA);
    r := cls.Define("log", [], DefineMethod, None);
    installed := "log" in cls.Methods(DefineMethod) || cls.registry.Some?;
  }

  /**
   * A first, mistyped `log(4)` from a fresh thread raises InvalidTypeException,
   * and that thread's varstack has been created (empty) all the same.
   */
  method MistypedFirstCall() returns (answer: Answer, stacks: VarStacks)
    ensures answer == Refused(InvalidType("message"))
    ensures stacks.slots == map[(7, 1) := []]
  {
    var cls := new TypedClass(RubyIsA);
    stacks := new VarStacks();
    var _ := cls.Define("log", MessageParams(), DefineMethod, Some(HelloBody()));
    PositionalArguments();
    assert MessageParams()[..0] == [];
    answer := cls.Invoke(stacks, DefineMethod, 7, 1, "log", [Int(4)], None);
  }

  /**
   * `future :log, message: String do message end`: a mistyped call raises
   * at once, a good one returns the work, which yields 'hello' when the
   * worker thread runs it; the caller's varstack is never touched.
   */
  method FutureCall() returns (bad: Answer, good: Answer, value: Completion, stacks: VarStacks)
    ensures bad == Refused(InvalidType("message"))
    ensures good.Scheduled? && good.job.primitive == FuturePrimitive
    ensures value == Normal(Str("hello"))
    ensures stacks.slots == map[(7, 2) := []]
  {
    var cls := new TypedClass(RubyIsA);
    stacks := new VarStacks();
    var echo: Body := top => match Resolve(top, "message") case Some(v) => Normal(v) case None => Raised(Nil);
    var defined := cls.Future("log", MessageParams(), DefineMethod, FuturePrimitive, Some(echo));
    assert MessageParams()[..0] == [];
    bad := cls.Invoke(stacks, DefineMethod, 7, 1, "log", [Sym("failboat")], None);
    good := cls.Invoke(stacks, DefineMethod, 7, 1, "log", [Str("hello")], None);
    assert stacks.slots == map[];
    value := RunJob(stacks, 2, good.job);
  }

  /** Proof step for Redefinition: 'world' fails a Symbol-only contract. */
  lemma SymbolOnlyRejectsString()
    ensures Bind(RubyIsA, [("message", Single("Symbol"))], [Str("world")], None) == Err(InvalidType("message"))
  {
    var p: Params := [("message", Single("Symbol"))];
    assert p[..0] == [];
  }

  /** Redefining `log` replaces its contract: the newer one alone is obeyed. */
  method Redefinition() returns (first: Answer, second: Answer)
    ensures first == Completed(Normal(Str("hello world")))
    ensures second == Refused(InvalidType("message"))
  {
    var cls := new TypedClass(RubyIsA);
    var stacks := new VarStacks();
    var _ := cls.Define("log", MessageParams(), DefineMethod, Some(HelloBody()));
    PositionalArguments();
    var frame := Frame("log", map["message" := Str("world")]);
    assert HelloBody()(Some(frame)) == Normal(Str("hello world")) by {
      assert Resolve(Some(frame), "message") == Some(Str("world"));
      assert "hello " + "world" == "hello world";
    }
    first := cls.Invoke(stacks, DefineMethod, 7, 1, "log", [Str("world")], None);
    var _ := cls.Define("log", [("message", Single("Symbol"))], DefineMethod, Some(HelloBody()));
    SymbolOnlyRejectsString();
    second := cls.Invoke(stacks, DefineMethod, 7, 1, "log", [Str("world")], None);
  }
}
