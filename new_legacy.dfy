/**
 * The earlier `__new__` in src/new.js. Its steps are numbered differently
 * (object creation and prototype linking are its step "1 & 2", the call is
 * step 3, the return choice step 4), but it runs the same code, so it is
 * stated once more here and proved to agree with `NewOperator.Construct`
 * on every input.
 */
module NewOperatorLegacy {
  import opened JsHeap
  import NewOperator

  function LegacyConstruct(h: Heap, ctor: Value, args: seq<Value>, call: NewOperator.Invoker)
    : (s: NewOperator.Step)
    requires Wf(h) && ValueIn(h, ctor) && ValuesIn(h, args)
    ensures s == NewOperator.Construct(h, ctor, args, call)
  {
    // the guard ahead of step 1
    if TypeOf(h, ctor) != "function" then
      NewOperator.Step(h, Throw(TypeError(NotAConstructor)), [])
    else
      // steps 1 & 2: Object.create(Constructor.prototype)
      match NewOperator.ObjectCreate(h, PrototypeProperty(h, ctor))
      case Throw(e) => NewOperator.Step(h, Throw(e), [])
      case Ok((h1, obj)) =>
        // step 3: Constructor.apply(obj, args)
        var c := NewOperator.Invocation(ctor.id, Ref(obj), args);
        assert NewOperator.InvocationIn(h1, c);
        var out := call(h1, c);
        // step 4: the result when tagged [object Object], else obj
        match out.completion
        case Throw(_) => NewOperator.Step(out.heap, out.completion, [c])
        case Ok(result) =>
          NewOperator.Step(out.heap,
                           Ok(if ObjectToString(out.heap, result) == "[object Object]" then result else Ref(obj)),
                           [c])
  }
}
