/**
 * `__new__(Constructor, ...args)` from src/new/new.js: a re-implementation
 * of the `new` operator. It rejects a non-function, allocates an object
 * whose prototype is `Constructor.prototype` with `Object.create`, calls
 * the constructor with that object as `this`, and returns the call's result
 * only when `Object.prototype.toString` tags it `[object Object]`.
 */
module NewOperator {
  import opened JsHeap
  import InstanceOf

  /** One call of a function object: the callee, the `this` value and the arguments in order. */
  datatype Invocation = Invocation(callee: ObjId, thisArg: Value, args: seq<Value>)

  /** What a call leaves behind: the heap after it and its completion. */
  datatype CallOutcome = CallOutcome(heap: Heap, completion: Result<Value>)

  predicate InvocationIn(h: Heap, c: Invocation) {
    c.callee < |h| && ValueIn(h, c.thisArg) && ValuesIn(h, c.args)
  }

  /**
   * The rules every ECMAScript function body obeys, whatever it does: the
   * heap stays well formed (prototype links cannot form a cycle), no object
   * disappears, and what it returns or throws is a value of that heap.
   */
  ghost predicate RespectsHeap(call: (Heap, Invocation) -> CallOutcome) {
    forall h, c {:trigger call(h, c)} ::
      Wf(h) && InvocationIn(h, c) ==>
        Wf(call(h, c).heap) && |h| <= |call(h, c).heap| &&
        ResultIn(call(h, c).heap, call(h, c).completion)
  }

  /**
   * The [[Call]] behaviour of function objects, which the model does not
   * interpret: `Constructor.apply(obj, args)` is one application of it.
   */
  type Invoker = call: (Heap, Invocation) -> CallOutcome | RespectsHeap(call)
    witness (h: Heap, c: Invocation) => CallOutcome(h, Ok(Undefined))

  /** The object `Object.create(proto)` makes: no own properties, prototype `proto`. */
  function Created(proto: Value): Obj
    requires proto.Null? || proto.Ref?
  {
    Obj(if proto.Ref? then Some(proto.id) else None, Plain, map[])
  }

  /** `Object.create(proto)`: the heap with the new object appended, and the new object's id. */
  function ObjectCreate(h: Heap, proto: Value): (r: Result<(Heap, ObjId)>)
    requires Wf(h) && ValueIn(h, proto)
    ensures r.Ok? <==> proto.Null? || proto.Ref?
    ensures r.Throw? ==> r.exception == TypeError(PrototypeNotObject)
    ensures r.Ok? ==> r.value.1 == |h| && |r.value.0| == |h| + 1 && r.value.0[..|h|] == h
    ensures r.Ok? ==> GetProto(r.value.0[|h|]) == proto && r.value.0[|h|].kind == Plain
    ensures r.Ok? ==> r.value.0[|h|].fields == map[] && Wf(r.value.0)
  {
    if proto.Null? || proto.Ref? then
      GrowWf(h, Created(proto));
      assert (h + [Created(proto)])[..|h|] == h;
      Ok((h + [Created(proto)], |h|))
    else
      Throw(TypeError(PrototypeNotObject))
  }

  /**
   * The return choice of line 43: the constructor's result when it is a
   * plain record, the created object otherwise.
   */
  function SelectResult(h: Heap, result: Value, obj: ObjId): (r: Value)
    requires ValueIn(h, result)
    ensures r == (if IsPlainRecord(h, result) then result else Ref(obj))
  {
    if ObjectToString(h, result) == "[object Object]" then result else Ref(obj)
  }

  /** What [[Construct]] does with the result (section 10.2.2 of ECMA-262): keep any object. */
  function OrdinaryConstructResult(result: Value, obj: ObjId): Value {
    if result.Ref? then result else Ref(obj)
  }

  /**
   * The tag test is stricter than [[Construct]]: the two differ exactly on
   * a returned object that is not a plain record (an array, a function, a
   * date, ...), which `__new__` replaces by the created object.
   */
  lemma SelectStricterThanConstruct(h: Heap, result: Value, obj: ObjId)
    requires ValueIn(h, result)
    ensures SelectResult(h, result, obj) != OrdinaryConstructResult(result, obj) <==>
            result.Ref? && result != Ref(obj) && !IsPlainRecord(h, result)
  {
  }

  /** A step of the realm: the heap after it, its completion and the calls it made. */
  datatype Step = Step(heap: Heap, result: Result<Value>, calls: seq<Invocation>)

  /** `__new__(Constructor, ...args)` as a function of the heap before the call. */
  function Construct(h: Heap, ctor: Value, args: seq<Value>, call: Invoker): (s: Step)
    requires Wf(h) && ValueIn(h, ctor) && ValuesIn(h, args)
    ensures Wf(s.heap) && |h| <= |s.heap| && ResultIn(s.heap, s.result)
    ensures |s.calls| <= 1
  {
    if TypeOf(h, ctor) != "function" then
      Step(h, Throw(TypeError(NotAConstructor)), [])
    else
      var created := ObjectCreate(h, PrototypeProperty(h, ctor));
      if created.Throw? then
        Step(h, Throw(created.exception), [])
      else
        var (h1, obj) := created.value;
        var c := Invocation(ctor.id, Ref(obj), args);
        assert InvocationIn(h1, c);
        var out := call(h1, c);
        if out.completion.Throw? then
          Step(out.heap, out.completion, [c])
        else
          Step(out.heap, Ok(SelectResult(out.heap, out.completion.value, obj)), [c])
  }

  /** A non-function is rejected before any object is allocated or any code is called. */
  lemma RejectsNonFunction(h: Heap, ctor: Value, args: seq<Value>, call: Invoker)
    requires Wf(h) && ValueIn(h, ctor) && ValuesIn(h, args)
    requires !IsCallable(h, ctor)
    ensures Construct(h, ctor, args, call) == Step(h, Throw(TypeError(NotAConstructor)), [])
  {
  }

  /**
   * A function whose `prototype` is neither an object nor null makes
   * `Object.create` throw, before the function is called.
   */
  lemma RejectsNonObjectPrototype(h: Heap, ctor: Value, args: seq<Value>, call: Invoker)
    requires Wf(h) && ValueIn(h, ctor) && ValuesIn(h, args)
    requires IsCallable(h, ctor) && !(PrototypeProperty(h, ctor).Null? || PrototypeProperty(h, ctor).Ref?)
    ensures Construct(h, ctor, args, call) == Step(h, Throw(TypeError(PrototypeNotObject)), [])
  {
  }

  /**
   * Otherwise the constructor is called exactly once, with `this` bound to
   * a fresh object (an id no pre-existing object has) whose prototype is
   * `Constructor.prototype` and which has no own properties, and with the
   * arguments in order; the heap it runs on is the old heap plus that
   * object. A throw propagates; a plain record returned is returned as it
   * is, anything else is replaced by the fresh object.
   */
  lemma CallsConstructorOnFreshObject(h: Heap, ctor: Value, args: seq<Value>, call: Invoker)
    requires Wf(h) && ValueIn(h, ctor) && ValuesIn(h, args)
    requires IsCallable(h, ctor)
    requires PrototypeProperty(h, ctor).Null? || PrototypeProperty(h, ctor).Ref?
    ensures var s := Construct(h, ctor, args, call);
            var h1 := h + [Created(PrototypeProperty(h, ctor))];
            var out := call(h1, Invocation(ctor.id, Ref(|h|), args));
            && GetProto(h1[|h|]) == PrototypeProperty(h, ctor)
            && s.calls == [Invocation(ctor.id, Ref(|h|), args)]
            && !IsObject(h, s.calls[0].thisArg)
            && h1[..|h|] == h
            && s.heap == out.heap
            && (out.completion.Throw? ==> s.result == out.completion)
            && (out.completion.Ok? && IsPlainRecord(out.heap, out.completion.value) ==>
                  s.result == out.completion)
            && (out.completion.Ok? && !IsPlainRecord(out.heap, out.completion.value) ==>
                  s.result == Ok(Ref(|h|)))
  {
    var created := ObjectCreate(h, PrototypeProperty(h, ctor));
    assert created.value.0 == h + [Created(PrototypeProperty(h, ctor))];
  }

  /**
   * When `__new__` returns the object it created, and neither that object's
   * prototype nor `Constructor.prototype` was reassigned by the constructor
   * body, the result is an instance of the constructor exactly when
   * `Object.prototype` is on the chain of `Constructor.prototype`: without
   * it the new object reads `__proto__` as undefined.
   */
  lemma NewObjectIsInstance(h: Heap, ctor: Value, args: seq<Value>, call: Invoker)
    requires Wf(h) && ValueIn(h, ctor) && ValuesIn(h, args)
    requires IsCallable(h, ctor) && PrototypeProperty(h, ctor).Ref?
    requires Construct(h, ctor, args, call).result == Ok(Ref(|h|))
    requires IsCallable(Construct(h, ctor, args, call).heap, ctor)
    requires PrototypeProperty(Construct(h, ctor, args, call).heap, ctor) == PrototypeProperty(h, ctor)
    requires Construct(h, ctor, args, call).heap[|h|].proto == Some(PrototypeProperty(h, ctor).id)
    ensures InstanceOf.InstanceOfSpec(Construct(h, ctor, args, call).heap, Ref(|h|), ctor) ==
            Ok(ObjectPrototype in ProtoChain(Construct(h, ctor, args, call).heap, PrototypeProperty(h, ctor)))
  {
    var h' := Construct(h, ctor, args, call).heap;
    var p := PrototypeProperty(h, ctor).id;
    ProtoChainStep(h', |h|);
    assert Chain(h', Ref(p), |h'|)[0] == p;
  }

  /** The JavaScript heap that `__new__` allocates in and that called code may change. */
  class Realm {
    var heap: Heap
    /** Every function call made so far, in order. */
    ghost var calls: seq<Invocation>

    ghost predicate Valid()
      reads this
    {
      Wf(heap)
    }

    constructor (h: Heap)
      requires Wf(h)
      ensures Valid() && heap == h && calls == []
    {
      heap := h;
      calls := [];
    }

    /** `__new__(Constructor, ...args)`. */
    method New(ctor: Value, args: seq<Value>, call: Invoker) returns (r: Result<Value>)
      requires Valid() && ValueIn(heap, ctor) && ValuesIn(heap, args)
      modifies this
      ensures Valid() && |old(heap)| <= |heap|
      ensures var s := Construct(old(heap), ctor, args, call);
              heap == s.heap && r == s.result && calls == old(calls) + s.calls
    {
      // 1: only a function can construct
      if TypeOf(heap, ctor) != "function" {
        return Throw(TypeError(NotAConstructor));
      }

      // 2 & 3: a fresh object whose prototype is Constructor.prototype
      var created := ObjectCreate(heap, PrototypeProperty(heap, ctor));
      if created.Throw? {
        return Throw(created.exception);
      }
      var obj;
      heap, obj := created.value.0, created.value.1;

      // 4: Constructor.apply(obj, args)
      var c := Invocation(ctor.id, Ref(obj), args);
      var out := call(heap, c);
      heap := out.heap;
      calls := calls + [c];

      // 5: keep the result only when it is tagged [object Object]
      if out.completion.Throw? {
        return out.completion;
      }
      r := Ok(SelectResult(heap, out.completion.value, obj));
    }
  }
}
