/**
 * Concrete uses of `__new__` followed by `__instanceof__`, on a heap
 * holding `Object.prototype` (id 0), `F.prototype` (id 1) and a function
 * `F` (id 2) whose `prototype` is object 1. `Function.prototype` is left
 * out: `F` links straight to `Object.prototype`.
 */
module Scenarios {
  import opened JsHeap
  import opened NewOperator
  import InstanceOf

  /** The start heap, where `F.prototype` is `Object.create(Object.prototype)` or `Object.create(null)`. */
  function StartWith(fPrototypeLink: Option<ObjId>): Heap {
    [ Obj(None, Plain, map[]),
      Obj(fPrototypeLink, Plain, map[]),
      Obj(Some(0), Function(Some(Ref(1))), map[]) ]
  }

  function Start(): Heap {
    StartWith(Some(0))
  }

  lemma StartWf(fPrototypeLink: Option<ObjId>)
    requires fPrototypeLink == Some(0) || fPrototypeLink == None
    ensures Wf(StartWith(fPrototypeLink))
  {
    var h := StartWith(fPrototypeLink);
    assert ChainEnds(h, Ref(0), 1);
    assert ChainEnds(h, Ref(1), 2);
    assert ChainEnds(h, Ref(2), 2);
    ChainEndsMono(h, Ref(0), 1, 3);
    ChainEndsMono(h, Ref(1), 2, 3);
    ChainEndsMono(h, Ref(2), 2, 3);
  }

  /** `function (a, b) { this.sum = a + b; }` */
  function SumBody(h: Heap, c: Invocation): CallOutcome {
    if c.thisArg.Ref? && c.thisArg.id < |h| && |c.args| == 2 &&
       c.args[0].Prim? && c.args[0].p.Number? && c.args[1].Prim? && c.args[1].p.Number?
    then
      var o := h[c.thisArg.id];
      var sum := Prim(Number(c.args[0].p.n + c.args[1].p.n));
      CallOutcome(h[c.thisArg.id := o.(fields := o.fields["sum" := sum])], Ok(Undefined))
    else
      CallOutcome(h, Ok(Undefined))
  }

  lemma SumBodyRespectsHeap()
    ensures RespectsHeap(SumBody)
  {
    forall h, c | Wf(h) && InvocationIn(h, c)
      ensures Wf(SumBody(h, c).heap)
    {
      if c.thisArg.Ref? && c.thisArg.id < |h| && |c.args| == 2 &&
         c.args[0].Prim? && c.args[0].p.Number? && c.args[1].Prim? && c.args[1].p.Number?
      {
        FieldWriteWf(h, c.thisArg.id, "sum", Prim(Number(c.args[0].p.n + c.args[1].p.n)));
      }
    }
  }

  /** `F` in `__new__(F, 2, 3)` returns the fresh object, its `sum` is 5 and it is an instance of `F`. */
  lemma SumExample()
    ensures Wf(Start())
    ensures RespectsHeap(SumBody)
    ensures var s := Construct(Start(), Ref(2), [Prim(Number(2)), Prim(Number(3))], SumBody);
            && s.result == Ok(Ref(3))
            && |s.heap| == 4
            && s.heap[3].fields == map["sum" := Prim(Number(5))]
            && InstanceOf.InstanceOfSpec(s.heap, Ref(3), Ref(2)) == Ok(true)
  {
    StartWf(Some(0));
    SumBodyRespectsHeap();
    var args := [Prim(Number(2)), Prim(Number(3))];
    CallsConstructorOnFreshObject(Start(), Ref(2), args, SumBody);
    NewObjectIsInstance(Start(), Ref(2), args, SumBody);
  }

  /** `function () { return { tag: 'x' }; }` */
  function RecordBody(h: Heap, c: Invocation): CallOutcome {
    if |h| > 0 then
      CallOutcome(h + [Obj(Some(0), Plain, map["tag" := Prim(String("x"))])], Ok(Ref(|h|)))
    else
      CallOutcome(h, Ok(Undefined))
  }

  lemma RecordBodyRespectsHeap()
    ensures RespectsHeap(RecordBody)
  {
    forall h, c | Wf(h) && InvocationIn(h, c)
      ensures Wf(RecordBody(h, c).heap)
    {
      if |h| > 0 {
        GrowWf(h, Obj(Some(0), Plain, map["tag" := Prim(String("x"))]));
      }
    }
  }

  /**
   * `__new__(F)` with a body that returns its own record yields that record
   * (not the object `__new__` created), and that record is no instance of `F`.
   */
  lemma RecordExample()
    ensures Wf(Start())
    ensures RespectsHeap(RecordBody)
    ensures var s := Construct(Start(), Ref(2), [], RecordBody);
            && s.result == Ok(Ref(4))
            && |s.heap| == 5
            && s.heap[4].fields == map["tag" := Prim(String("x"))]
            && InstanceOf.InstanceOfSpec(s.heap, Ref(4), Ref(2)) == Ok(false)
  {
    StartWf(Some(0));
    RecordBodyRespectsHeap();
    CallsConstructorOnFreshObject(Start(), Ref(2), [], RecordBody);
    var h := Construct(Start(), Ref(2), [], RecordBody).heap;
    assert Ancestors(h, 4) == [0] by {
      assert Chain(h, Ref(0), 5) == [0] + Chain(h, Null, 4);
    }
  }

  /** `function () {}` */
  function EmptyBody(h: Heap, c: Invocation): CallOutcome {
    CallOutcome(h, Ok(Undefined))
  }

  /**
   * With `F.prototype = Object.create(null)`, `__new__(F)` returns the
   * object it created, linked to `F.prototype`, yet it is no instance of
   * `F`: its chain lacks `Object.prototype`, so it reads `__proto__` as
   * undefined and the walk stops at once.
   */
  lemma NullPrototypeExample()
    ensures Wf(StartWith(None))
    ensures var s := Construct(StartWith(None), Ref(2), [], EmptyBody);
            && s.result == Ok(Ref(3))
            && s.heap[3].proto == Some(1)
            && InstanceOf.InstanceOfSpec(s.heap, Ref(3), Ref(2)) == Ok(false)
  {
    StartWf(None);
    CallsConstructorOnFreshObject(StartWith(None), Ref(2), [], EmptyBody);
    NewObjectIsInstance(StartWith(None), Ref(2), [], EmptyBody);
    var h := Construct(StartWith(None), Ref(2), [], EmptyBody).heap;
    assert Chain(h, Ref(1), 4) == [1] + Chain(h, Null, 3);
  }

  /**
   * A function with no own `prototype` (an arrow function `g`) on a heap
   * where `Object.prototype.prototype` is set to `Object.prototype` itself.
   * Object 2 is a plain record.
   */
  function InheritingStart(): Heap {
    [ Obj(None, Plain, map["prototype" := Ref(0)]),
      Obj(Some(0), Function(None), map[]),
      Obj(Some(0), Plain, map[]) ]
  }

  /**
   * `g.prototype` is the inherited `Object.prototype`, so the record is an
   * instance of `g`, and `__new__(g)` allocates an object linked to
   * `Object.prototype` instead of throwing.
   */
  lemma InheritedPrototypeExample()
    ensures Wf(InheritingStart())
    ensures PrototypeProperty(InheritingStart(), Ref(1)) == Ref(0)
    ensures InstanceOf.InstanceOfSpec(InheritingStart(), Ref(2), Ref(1)) == Ok(true)
    ensures var s := Construct(InheritingStart(), Ref(1), [], EmptyBody);
            s.result == Ok(Ref(3)) && s.heap[3].proto == Some(0)
  {
    var h := InheritingStart();
    assert ChainEnds(h, Ref(0), 1);
    assert ChainEnds(h, Ref(1), 2);
    assert ChainEnds(h, Ref(2), 2);
    ChainEndsMono(h, Ref(0), 1, 3);
    ChainEndsMono(h, Ref(1), 2, 3);
    ChainEndsMono(h, Ref(2), 2, 3);
    assert Wf(h);
    assert FindPrototype(h, Ref(0), 2) == Ref(0);
    ProtoChainStep(h, 2);
    CallsConstructorOnFreshObject(h, Ref(1), [], EmptyBody);
  }
}
