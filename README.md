# Prototype-chain operators: `__instanceof__` and `__new__`

A Dafny model of two teaching re-implementations of JavaScript operators:

- `__instanceof__(leftOperand, rightOperand)` (src/instanceof/instanceof.js) classifies the left operand by
  `typeof`, checks that the right operand is a function, reads `rightOperand.prototype`, and then climbs the
  left operand's `__proto__` chain, starting at the left operand's prototype. It compares each link by
  identity and stops at `null`/`undefined`.
- `__new__(Constructor, ...args)` (src/new/new.js, and an earlier copy in src/new.js) rejects a non-function.
  It then creates an object with `Object.create(Constructor.prototype)` and calls the constructor with that
  object as `this`. It returns the call's result only when `Object.prototype.toString` tags it
  `[object Object]`; otherwise it returns the created object.

## How the model is built

- `js_heap.dfy` (module `JsHeap`): the JavaScript heap.
  - Values are `Undefined | Null | Prim | Ref(id)`.
  - An object records its `[[Prototype]]` (an optional object id), its kind and its own data properties.
    The kind decides `typeof` and the `Object.prototype.toString` tag. A function carries its own `prototype`
    value when it has one; arrow functions, methods and bound functions have none.
  - The heap is a sequence of objects indexed by id. A newly allocated object gets id `|h|`, so it is
    distinct from every object that existed before.
  - `Wf(h)` is the heap invariant. Every reference points into the heap, and every prototype chain ends
    within `|h|` links. ECMAScript keeps chains acyclic in OrdinarySetPrototypeOf (section 10.1.2 of
    ECMA-262). `NoSelfAncestor` proves that under this invariant no object is its own ancestor.
  - Object 0 is the realm's `Object.prototype`, whose own [[Prototype]] is null.
  - A function's own `prototype` property, when it has one, lives in its kind. `Wf` rules out a second copy
    among its data properties, and rules out an own property named `__proto__` on any object.
  - `f['prototype']` (`PrototypeProperty`) yields the function's own `prototype`. Without one it yields the
    first `prototype` data property met up the [[Prototype]] chain, or `undefined` when there is none.
  - `o['__proto__']` (`ProtoRead`) runs the accessor inherited from `Object.prototype`. It yields the
    [[Prototype]] link (or `null`) when `Object.prototype` is on the object's chain, and `undefined` otherwise.
- `instanceof.dfy` (module `InstanceOf`): the operator is the method `InstanceOf`. Its `while true` loop moves
  the cursor `leftProto` one link at a time; the remaining chain length is the termination measure. The
  method is proved equal to `InstanceOfSpec`, which states the walk as membership in the recursively
  defined chain. The heap is passed by value: the operator changes nothing.
- `new.dfy` (module `NewOperator`): the class `Realm` holds the mutable heap and a log of the calls made.
  - `Realm.New` models `__new__` step by step: the guard, the allocation, the call, then the result choice.
  - `New` is proved equal to the pure function `Construct`. The lemmas about `__new__` are stated about `Construct`.
  - The constructor body is arbitrary code, so it is a parameter of type `Invoker`. An `Invoker` maps the
    heap and an `Invocation` (callee, `this`, arguments in order) to a new heap and a normal or throw completion.
  - The model does not interpret that code. It assumes the rules every ECMAScript function obeys: no object
    disappears, no prototype link closes a cycle, and the returned or thrown value is a heap value.
  - It also assumes one thing the language allows: the body creates no own property named `__proto__`.
    `Wf`, which the heap after the call must satisfy, rules such a property out.
- `new_legacy.dfy` (module `NewOperatorLegacy`): the copy in src/new.js, proved equal to `Construct` on every input.
- `scenarios.dfy` (module `Scenarios`): four concrete runs, each combining `__new__` and `__instanceof__`.
  - `function (a, b) { this.sum = a + b }` called with `2, 3`: the result is the created object, with `sum` 5.
  - `function () { return { tag: 'x' } }`: the result is the returned record, which is not an instance.
  - `function () {}` with `F.prototype = Object.create(null)`: the result is the created object, which is not an instance.
  - An arrow function `g` with no own `prototype`, after `Object.prototype.prototype = Object.prototype`:
    `g.prototype` is inherited, a plain record is an instance of `g`, and `__new__(g)` does not throw.

## Behaviour of the code worth knowing

- A `null` left operand throws. `typeof null` is `'object'`, so `null` passes the test at
  src/instanceof/instanceof.js:26. The code then throws a TypeError when it reads `null['__proto__']` at line 37.
  The model returns `Throw(TypeError(ReadOfNull))` when the right operand is callable. When the right operand
  is not callable, the line-31 TypeError comes first.
- Operand order. The code checks the left operand before the right one. So a primitive or `undefined` left
  operand yields `false` even when the right operand is not callable. ECMA-262's InstanceofOperator (section
  13.10.2) throws in that case.
- `Object.create` can throw. `Object.create(Constructor.prototype)` throws a TypeError when `prototype` is
  neither an object nor `null` (section 20.1.2.2 of ECMA-262). An arrow function, for one, has no own
  `prototype`, so `Constructor.prototype` reads the inherited one, usually `undefined`. The model has this
  error path, and the constructor is not called on it.
- `__proto__` is an inherited accessor. An object whose chain does not reach `Object.prototype` reads
  `__proto__` as `undefined`, so `__instanceof__` returns `false` for it at lines 41-42, whatever its
  prototype links are. For example, take `F.prototype = Object.create(null)`: then
  `__instanceof__(__new__(F), F)` is `false` (`Scenarios.NullPrototypeExample`).
- Instances of a constructor. `NewOperator.NewObjectIsInstance` covers the usual case, which has three parts:
  - the created object is the one returned;
  - `Constructor.prototype` is an object, not `null`;
  - neither link was reassigned by the constructor body.

  In that case the result is an instance exactly when `Object.prototype` is on the chain of
  `Constructor.prototype`. Outside that case the result may or may not be an instance. For example, a body
  that returns `Object.create(F.prototype)` hands back its own record, and that record is an instance.

## Model

| member | source | states |
|---|---|---|
| `JsHeap.TypeOf` | src/instanceof/instanceof.js:25-26 | `typeof` is `'function'` exactly for callable objects, and is `'object'` or `'function'` exactly for `null` and objects |
| `JsHeap.PrototypeProperty` | src/instanceof/instanceof.js:36 | `rightOperand['prototype']` of a function is a heap value: its own `prototype` when it has one (the only one it owns), otherwise the lookup up the chain |
| `JsHeap.FirstPrototypeOwner` | src/instanceof/instanceof.js:36 | the `prototype` lookup answers with the own `prototype` of the first object on the chain that has one, and with `undefined` exactly when no object on the chain has one |
| `JsHeap.ProtoRead` | src/instanceof/instanceof.js:37-49 | `o['__proto__']` is `undefined` exactly when `Object.prototype` is not on the object's chain, and otherwise the object's [[Prototype]] or `null`. When it is an object, reading `__proto__` from that object also finds the accessor |
| `JsHeap.ObjectToString` | src/new/new.js:43 | `Object.prototype.toString` gives `[object Object]` exactly for plain records (kind Plain or tag `Object`); never for `undefined`, `null`, primitives, arrays, functions or dates |
| `JsHeap.Chain` | src/instanceof/instanceof.js:40-50 | the chain walked from a value lists at most `n` heap objects, and is non-empty exactly when `n > 0` and the start is an object |
| `JsHeap.ChainEndsMono` | src/instanceof/instanceof.js:40-50 | once a chain ends within `n` links, more steps change neither that fact nor the chain |
| `JsHeap.ChainDistinct` | src/instanceof/instanceof.js:40 | a chain that ends never visits an object twice |
| `JsHeap.NoSelfAncestor` | src/instanceof/instanceof.js:40 | on a well-formed heap no object is among its own ancestors (the chains the loop walks are acyclic) |
| `JsHeap.ChainMembers` | src/instanceof/instanceof.js:40-49 | an id is on the chain within `n` links exactly when following some number `k < n` of [[Prototype]] links reaches it |
| `JsHeap.ReachedIffOnChain` | src/instanceof/instanceof.js:40-49 | on a chain that ends, a value is reached by following some number of [[Prototype]] links exactly when it is on the chain |
| `JsHeap.FollowPastEnd` | src/instanceof/instanceof.js:41-42 | past the end of a chain that ends, no object is reached |
| `JsHeap.GrowWf` | src/new/new.js:34 | allocating an object whose links point into the heap keeps the heap well formed |
| `InstanceOf.InstanceOfSpec` | src/instanceof/instanceof.js:23-51 | a primitive or `undefined` left operand gives `false` for any right operand; otherwise a non-callable right operand throws "not callable"; a `null` left operand with a callable right operand throws; an object left operand with a callable right operand never throws; `true` only for an object left operand whose chain holds `Object.prototype`, a callable right operand and an object `prototype` |
| `InstanceOf.InstanceOf` | src/instanceof/instanceof.js:23-51 | the loop over `leftProto` terminates and returns exactly what `InstanceOfSpec` gives, on every input of a well-formed heap |
| `InstanceOf.InstanceOfIffReachable` | src/instanceof/instanceof.js:36-49 | for an object left operand and a callable right operand, the result is `true` exactly when `Object.prototype` is on the left operand's chain and `prototype` is an object reached by following prototype links zero or more times from the left operand's prototype |
| `InstanceOf.NoAccessorGivesFalse` | src/instanceof/instanceof.js:37-42 | an object whose chain lacks `Object.prototype` reads `__proto__` as `undefined`, so the result is `false` for every callable right operand |
| `InstanceOf.OwnPrototypeIsNotInstance` | src/instanceof/instanceof.js:37-49 | the search starts at the left operand's prototype: `F.prototype` is never an instance of `F` on a well-formed heap |
| `InstanceOf.NonObjectPrototypeGivesFalse` | src/instanceof/instanceof.js:41-46 | a `prototype` that is `null`, `undefined` or a primitive gives `false` for an object left operand, not a TypeError |
| `NewOperator.ObjectCreate` | src/new/new.js:34 | `Object.create(p)` throws a TypeError unless `p` is an object or `null`; otherwise it adds one object with a new id, prototype `p`, kind Plain and no own properties, leaves the old heap as it was, and keeps the heap well formed |
| `NewOperator.SelectResult` | src/new/new.js:40-43 | the result is returned exactly when it is a plain record, and the created object is returned otherwise |
| `NewOperator.SelectStricterThanConstruct` | src/new/new.js:40-43 | `__new__` and [[Construct]] (section 10.2.2 of ECMA-262) choose differently exactly when the constructor returns an object that is not a plain record (and not the created object) |
| `NewOperator.Construct` | src/new/new.js:20-44 | `__new__` keeps the heap well formed, loses no object, returns or throws a heap value and makes at most one call |
| `NewOperator.RejectsNonFunction` | src/new/new.js:22-24 | a non-function `Constructor` throws "not a constructor" with the heap unchanged and no call made |
| `NewOperator.RejectsNonObjectPrototype` | src/new/new.js:34 | a function whose `prototype`, own or inherited, is neither an object nor `null` makes `Object.create` throw, before any allocation or call |
| `NewOperator.CallsConstructorOnFreshObject` | src/new/new.js:34-43 | otherwise the constructor is called exactly once, with `this` bound to a new object whose prototype is `Constructor.prototype`, and with `args` in order. Its exception propagates; a plain record it returns is returned as is; any other result is replaced by the new object |
| `NewOperator.NewObjectIsInstance` | src/new/new.js:34-43 | when the created object is returned, `Constructor.prototype` is an object, and neither link was reassigned, `__instanceof__(obj, Constructor)` is `true` exactly when `Object.prototype` is on the chain of `Constructor.prototype` |
| `NewOperator.Realm.New` | src/new/new.js:20-44 | the imperative `__new__` leaves the realm's heap, its result and its call log exactly as `Construct` describes, and keeps the heap well formed |
| `NewOperatorLegacy.LegacyConstruct` | src/new.js:17-42 | the copy in src/new.js gives the same error, allocation, call and result as the one in src/new/new.js on every input |
| `Scenarios.SumExample` | src/new/new.js:34-43 | `__new__(F, 2, 3)` with `F = function (a, b) { this.sum = a + b }` returns the new object with `sum` 5, and it is an instance of `F` |
| `Scenarios.RecordExample` | src/new/new.js:43 | a constructor that returns its own `{ tag: 'x' }` record yields that record, which is not an instance of the constructor |
| `Scenarios.InheritedPrototypeExample` | src/instanceof/instanceof.js:36-46 | a function with no own `prototype` reads the inherited one, so a record is an instance of it, and `__new__` links the created object to that inherited value instead of throwing |
| `Scenarios.NullPrototypeExample` | src/new/new.js:34-43 | with `F.prototype = Object.create(null)`, `__new__(F)` returns the created object linked to `F.prototype`, and `__instanceof__` gives `false` for it |

## Left out

- Constructor bodies. The code reached by `Constructor.apply` is not interpreted. It is the `Invoker` parameter,
  constrained only by the heap rules above. Class constructors that throw when called without `new`, and
  other runtime rules outside the shown code, are part of that parameter.
- Error message text. The template-literal messages are not modelled; an error carries only its kind.
  TypeError objects are not allocated in the heap.
- `Symbol.toStringTag`. User-defined overrides and exotic objects such as proxies are not modelled. The tag is
  a property of the object's kind; `Tagged(tag)` stands for built-ins that carry their own tag.
  Every callable object has the kind `Function`.
- Irregular `__proto__` lookups. The model assumes the built-in accessor on `Object.prototype`; replacing or
  deleting it is not modelled. Own properties named `__proto__` are not modelled either. Such a property is
  created by a plain assignment on an object whose chain lacks `Object.prototype`, by a computed key
  `{ ['__proto__']: v }`, by `JSON.parse` and by `Object.defineProperty`. With such properties the walk at
  lines 40-50 could also revisit an object forever.
- NewObjectIsInstance: its "exactly when" relies on the constructor body creating no own `__proto__`
  property. Take `F.prototype = Object.create(null)` and `function F() { this.__proto__ = F.prototype }`.
  Here `this` gets such a property, and the code reads it at src/instanceof/instanceof.js:37 and returns `true`
  at line 46. No `Invoker` can produce that heap, so the lemma does not speak about it.
- Accessor properties named `prototype`. The lookup of `prototype` finds data properties only.
- Assignments to `__proto__` and to a function's `prototype`. These happen only inside constructor bodies,
  which are the `Invoker` parameter. `FieldWriteWf` covers plain data property writes only.
- Cyclic prototype chains. They are excluded by the heap invariant `Wf`, so the non-terminating walk that a
  cycle would cause is not modelled.
- Primitive payloads. Numbers are integers; IEEE 754 arithmetic is not modelled, and neither operator inspects
  a number.
- Garbage collection. Objects are never removed from the heap.
