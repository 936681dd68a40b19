/**
 * The variable stacks and bare-name resolution: `__typedeaf_varstack__` and
 * `method_missing` (lib/typedeaf/instancemethods.rb, lib/typedeaf.rb).
 *
 * Ruby keeps one Array per object in each thread's locals, under the key
 * `typedeaf_varstack_<object_id>`. Here all threads' locals are one map keyed
 * by (object id, thread id).
 */
module VarStack {
  import opened Wrappers
  import opened Arguments

  type ObjId = nat
  type ThreadId = nat
  type Key = (ObjId, ThreadId)

  /** What one contracted call pushes: the method's name and its binding. */
  datatype Frame = Frame(methodName: Name, binding: Binding)

  type Slots = map<Key, seq<Frame>>

  /** The stack under a key; a key never accessed reads as empty. */
  function StackAt(slots: Slots, key: Key): seq<Frame>
  {
    if key in slots then slots[key] else []
  }

  /** The slots after `__typedeaf_varstack__` ran for a key: created empty on first access. */
  function Touch(slots: Slots, key: Key): Slots
  {
    slots[key := StackAt(slots, key)]
  }

  function Top(stack: seq<Frame>): Option<Frame>
  {
    if |stack| == 0 then None else Some(stack[|stack| - 1])
  }

  /** Array#pop: the stack without its last frame (an empty stack stays empty). */
  function Popped(stack: seq<Frame>): seq<Frame>
  {
    if |stack| == 0 then [] else stack[..|stack| - 1]
  }

  /** A bare name against the frame on top: hit iff the name is one of its parameters. */
  function Resolve(top: Option<Frame>, sym: Name): (r: Option<Value>)
    ensures r.Some? <==> top.Some? && sym in top.value.binding
    ensures r.Some? ==> r.value == top.value.binding[sym]
  {
    match top
    case Some(f) => if sym in f.binding then Some(f.binding[sym]) else None
    case None => None
  }

  /**
   * `method_missing(sym, *args)`: only a call with no arguments on a
   * non-empty stack peeks, and only at the top frame. None means the call
   * goes on to `super`.
   */
  function Lookup(stack: seq<Frame>, sym: Name, argc: nat): (r: Option<Value>)
    ensures r.Some? <==> argc == 0 && |stack| > 0 && sym in stack[|stack| - 1].binding
    ensures r.Some? ==> r.value == stack[|stack| - 1].binding[sym]
  {
    if argc == 0 then Resolve(Top(stack), sym) else None
  }

  /** Touching a key changes no stack and no other key. */
  lemma TouchIsolation(slots: Slots, key: Key)
    ensures key in Touch(slots, key)
    ensures forall k :: StackAt(Touch(slots, key), k) == StackAt(slots, k)
    ensures forall k :: k != key ==> (k in Touch(slots, key) <==> k in slots)
  {
  }

  /** Frames below the top are never consulted. */
  lemma LookupIgnoresLowerFrames(below: seq<Frame>, top: Frame, sym: Name)
    ensures Lookup(below + [top], sym, 0) == Lookup([top], sym, 0)
  {
  }

  /**
   * A nested (e.g. recursive) call resolves against its own frame, and once
   * its frame is popped the caller resolves against the caller's frame again.
   */
  lemma NestedCallsSeeOwnFrame(stack: seq<Frame>, outer: Frame, inner: Frame, sym: Name)
    ensures Lookup(stack + [outer] + [inner], sym, 0) == Resolve(Some(inner), sym)
    ensures Popped(stack + [outer] + [inner]) == stack + [outer]
    ensures Lookup(Popped(stack + [outer] + [inner]), sym, 0) == Resolve(Some(outer), sym)
    ensures Popped(Popped(stack + [outer] + [inner])) == stack
  {
    assert (stack + [outer] + [inner])[..|stack| + 1] == stack + [outer];
    assert (stack + [outer])[..|stack|] == stack;
  }

  /** All threads' varstacks for all objects. */
  class VarStacks {
    var slots: Slots

    constructor ()
      ensures slots == map[]
    {
      slots := map[];
    }

    /** The frame method_missing would peek at under this key. */
    function TopFrame(key: Key): Option<Frame>
      reads this
    {
      Top(StackAt(slots, key))
    }

    /** `__typedeaf_varstack__`: create the stack empty if absent, then return it. */
    method Access(obj: ObjId, thread: ThreadId) returns (stack: seq<Frame>)
      modifies this
      ensures slots == Touch(old(slots), (obj, thread))
      ensures stack == StackAt(old(slots), (obj, thread))
    {
      var key := (obj, thread);
      if key !in slots {
        slots := slots[key := []];
      }
      stack := slots[key];
    }

    /** `__typedeaf_varstack__ << frame`. */
    method Push(obj: ObjId, thread: ThreadId, frame: Frame)
      modifies this
      ensures slots == old(slots)[(obj, thread) := StackAt(old(slots), (obj, thread)) + [frame]]
    {
      var stack := Access(obj, thread);
      slots := slots[(obj, thread) := stack + [frame]];
    }

    /** `__typedeaf_varstack__.pop`. */
    method Pop(obj: ObjId, thread: ThreadId) returns (popped: Option<Frame>)
      modifies this
      ensures popped == Top(StackAt(old(slots), (obj, thread)))
      ensures slots == old(slots)[(obj, thread) := Popped(StackAt(old(slots), (obj, thread)))]
    {
      var stack := Access(obj, thread);
      popped := Top(stack);
      slots := slots[(obj, thread) := Popped(stack)];
    }

    /**
     * `method_missing`: the varstack is only accessed (and so only created)
     * when there are no arguments.
     */
    method MethodMissing(obj: ObjId, thread: ThreadId, sym: Name, argc: nat) returns (r: Option<Value>)
      modifies this
      ensures r == Lookup(StackAt(old(slots), (obj, thread)), sym, argc)
      ensures slots == if argc == 0 then Touch(old(slots), (obj, thread)) else old(slots)
    {
      r := None;
      if argc == 0 {
        var stack := Access(obj, thread);
        if |stack| > 0 {
          var top := stack[|stack| - 1];
          if sym in top.binding {
            r := Some(top.binding[sym]);
          }
        }
      }
    }
  }
}
