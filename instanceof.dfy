/**
 * `__instanceof__(leftOperand, rightOperand)`: a re-implementation of the
 * `instanceof` operator that walks the left operand's prototype chain
 * looking for the right operand's `prototype` object.
 *
 * Unlike InstanceofOperator / OrdinaryHasInstance (section 13.10.2 of
 * ECMA-262) it classifies the left operand before checking that the right
 * one is callable, and it does not throw when `prototype` is not an object.
 */
module InstanceOf {
  import opened JsHeap

  /** `target` is reached from object `id` by following at least one [[Prototype]] link. */
  predicate Inherits(h: Heap, id: ObjId, target: Value)
    requires id < |h|
  {
    target.Ref? && target.id in Ancestors(h, id)
  }

  /**
   * What `__instanceof__` returns or throws, with the chain walk as chain
   * membership. The walk climbs past the left operand only when its chain
   * holds `Object.prototype`, whose accessor answers the `__proto__` reads.
   */
  function InstanceOfSpec(h: Heap, left: Value, right: Value): (r: Result<bool>)
    requires Wf(h) && ValueIn(h, left) && ValueIn(h, right)
    ensures !(left.Null? || left.Ref?) ==> r == Ok(false)
    ensures (left.Null? || left.Ref?) && !IsCallable(h, right) ==> r == Throw(TypeError(NotCallable))
    ensures left.Null? && IsCallable(h, right) ==> r == Throw(TypeError(ReadOfNull))
    ensures left.Ref? && IsCallable(h, right) ==> r.Ok?
    ensures r == Ok(true) ==> left.Ref? && IsCallable(h, right) && PrototypeProperty(h, right).Ref? &&
                              ObjectPrototype in ProtoChain(h, left)
  {
    var typeofLeft := TypeOf(h, left);
    if !(typeofLeft == "object" || typeofLeft == "function") then Ok(false)
    else if TypeOf(h, right) != "function" then Throw(TypeError(NotCallable))
    else if left.Null? then Throw(TypeError(ReadOfNull))
    else Ok(ObjectPrototype in ProtoChain(h, left) && Inherits(h, left.id, PrototypeProperty(h, right)))
  }

  /** The first `__proto__` read leaves the rest of the walk to decide the result. */
  lemma WalkStart(h: Heap, id: ObjId, target: Value)
    requires Wf(h) && id < |h|
    ensures ChainEnds(h, ProtoRead(h, id), |h|)
    ensures (ObjectPrototype in ProtoChain(h, Ref(id)) && Inherits(h, id, target)) ==
            (target.Ref? && target.id in Chain(h, ProtoRead(h, id), |h|))
  {
    assert ChainEnds(h, Ref(id), |h|);
    ChainEndsMono(h, GetProto(h[id]), |h| - 1, |h|);
  }

  /** Past an object that is not the target, the walk continues one link further up. */
  lemma WalkStep(h: Heap, v: Value, fuel: nat, target: Value)
    requires Wf(h) && IsObject(h, v) && ChainEnds(h, v, fuel) && fuel <= |h|
    requires ObjectPrototype in ProtoChain(h, v) && v != target
    ensures fuel > 0 && ProtoRead(h, v.id) == GetProto(h[v.id])
    ensures ChainEnds(h, ProtoRead(h, v.id), fuel - 1)
    ensures (target.Ref? && target.id in Chain(h, v, fuel)) ==
            (target.Ref? && target.id in Chain(h, ProtoRead(h, v.id), fuel - 1))
  {
    ChainEndsMono(h, v, fuel, |h|);
    assert Chain(h, v, fuel) == [v.id] + Chain(h, GetProto(h[v.id]), fuel - 1);
  }

  /** The operator itself: classify the operands, then walk the chain link by link. */
  method InstanceOf(h: Heap, left: Value, right: Value) returns (r: Result<bool>)
    requires Wf(h) && ValueIn(h, left) && ValueIn(h, right)
    ensures r == InstanceOfSpec(h, left, right)
  {
    // 1: a left operand that is not an object or function is no instance
    var typeofLeft := TypeOf(h, left);
    if !(typeofLeft == "object" || typeofLeft == "function") {
      return Ok(false);
    }

    // 2: the right operand must be callable
    if TypeOf(h, right) != "function" {
      return Throw(TypeError(NotCallable));
    }

    // 3: rightOperand['prototype'] and leftOperand['__proto__']
    var rightPrototype := PrototypeProperty(h, right);
    if left.Null? {
      return Throw(TypeError(ReadOfNull));
    }
    var leftProto := ProtoRead(h, left.id);
    ghost var expected := ObjectPrototype in ProtoChain(h, left) && Inherits(h, left.id, rightPrototype);
    WalkStart(h, left.id, rightPrototype);

    // 4: climb the chain until its end or the prototype is met
    ghost var fuel: nat := |h|;
    while true
      invariant ValueIn(h, leftProto) && (leftProto.Undefined? || leftProto.Null? || leftProto.Ref?)
      invariant ChainEnds(h, leftProto, fuel) && fuel <= |h|
      invariant leftProto.Ref? ==> ObjectPrototype in ProtoChain(h, leftProto)
      invariant expected == (rightPrototype.Ref? && rightPrototype.id in Chain(h, leftProto, fuel))
      decreases fuel
    {
      if leftProto == Undefined || leftProto == Null {
        return Ok(false);
      }
      if leftProto == rightPrototype {
        assert Chain(h, leftProto, fuel) == [leftProto.id] + Chain(h, GetProto(h[leftProto.id]), fuel - 1);
        return Ok(true);
      }
      WalkStep(h, leftProto, fuel, rightPrototype);
      leftProto := ProtoRead(h, leftProto.id);
      fuel := fuel - 1;
    }
  }

  /**
   * For an object left operand and a callable right operand, the result is
   * true exactly when `Object.prototype` is on the left operand's chain and
   * following the prototype links some number of times, starting from the
   * left operand's prototype, reaches the `prototype` object.
   */
  lemma InstanceOfIffReachable(h: Heap, id: ObjId, right: Value)
    requires Wf(h) && id < |h| && ValueIn(h, right) && IsCallable(h, right)
    ensures InstanceOfSpec(h, Ref(id), right) ==
            Ok(ObjectPrototype in ProtoChain(h, Ref(id)) &&
               PrototypeProperty(h, right).Ref? &&
               exists k: nat :: Follow(h, GetProto(h[id]), k) == PrototypeProperty(h, right))
  {
    var p := GetProto(h[id]);
    assert ChainEnds(h, Ref(id), |h|);
    ChainEndsMono(h, p, |h| - 1, |h|);
    ReachedIffOnChain(h, p, |h|, PrototypeProperty(h, right));
  }

  /**
   * The walk starts at the left operand's prototype, not at the operand: a
   * function's own `prototype` object is not an instance of that function.
   */
  lemma OwnPrototypeIsNotInstance(h: Heap, f: ObjId)
    requires Wf(h) && f < |h| && IsCallable(h, Ref(f))
    requires PrototypeProperty(h, Ref(f)).Ref?
    ensures InstanceOfSpec(h, PrototypeProperty(h, Ref(f)), Ref(f)) == Ok(false)
  {
    NoSelfAncestor(h, PrototypeProperty(h, Ref(f)).id);
  }

  /**
   * An object whose chain lacks `Object.prototype` reads `__proto__` as
   * undefined, so the walk stops at once and the result is false, whatever
   * its prototype links are.
   */
  lemma NoAccessorGivesFalse(h: Heap, id: ObjId, right: Value)
    requires Wf(h) && id < |h| && ValueIn(h, right) && IsCallable(h, right)
    requires ObjectPrototype !in ProtoChain(h, Ref(id))
    ensures ProtoRead(h, id) == Undefined
    ensures InstanceOfSpec(h, Ref(id), right) == Ok(false)
  {
  }

  /** A `prototype` that is not an object is never met on the chain, so the result is false. */
  lemma NonObjectPrototypeGivesFalse(h: Heap, left: Value, right: Value)
    requires Wf(h) && ValueIn(h, left) && ValueIn(h, right)
    requires left.Ref? && IsCallable(h, right) && !PrototypeProperty(h, right).Ref?
    ensures InstanceOfSpec(h, left, right) == Ok(false)
  {
  }
}
