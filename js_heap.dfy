/**
 * The fragment of an ECMAScript heap that `__instanceof__` and `__new__`
 * touch: values, objects with a [[Prototype]] link, the `typeof` operator,
 * `Object.prototype.toString` and the prototype chain.
 *
 * Objects live in a heap indexed by object id; an id is a position in the
 * heap sequence, so a newly allocated object gets the id `|h|`, distinct
 * from every object that existed before.
 */
module JsHeap {

  datatype Option<T> = None | Some(value: T)

  type ObjId = nat

  /** Primitive values; the operators never look inside them. */
  datatype Primitive =
    | Boolean(b: bool)
    | Number(n: int)
    | String(s: string)
    | Symbol(key: nat)
    | BigInt(i: int)

  /** An ECMAScript language value; `Ref(id)` is an object, compared by identity. */
  datatype Value = Undefined | Null | Prim(p: Primitive) | Ref(id: ObjId)

  /**
   * The kind of an object, which decides its `typeof` and the tag that
   * `Object.prototype.toString` prints. Only function objects are callable.
   * A function carries its own `prototype` property when it has one; arrow
   * functions, methods and bound functions have none.
   * `Tagged` stands for built-ins whose tag comes from `Symbol.toStringTag`
   * (Map, Set, Promise, ...).
   */
  datatype Kind =
    | Plain
    | Array
    | Function(prototype: Option<Value>)
    | Arguments
    | Error
    | BooleanObject
    | NumberObject
    | StringObject
    | Date
    | RegExp
    | Tagged(tag: string)

  /** An object: its [[Prototype]] (None is null), its kind and its own data properties. */
  datatype Obj = Obj(proto: Option<ObjId>, kind: Kind, fields: map<string, Value>)

  type Heap = seq<Obj>

  datatype TypeErrorKind =
    | NotCallable          // right operand of __instanceof__ is not a function
    | NotAConstructor      // Constructor of __new__ is not a function
    | ReadOfNull           // a property read on null
    | PrototypeNotObject   // Object.create given neither an object nor null

  /** An abrupt completion: a TypeError raised by the operators, or a value thrown by called code. */
  datatype Exception = TypeError(kind: TypeErrorKind) | Thrown(value: Value)

  datatype Result<T> = Ok(value: T) | Throw(exception: Exception)

  // ---------------------------------------------------------------------
  // Well-formedness of a heap

  predicate ValueIn(h: Heap, v: Value) {
    v.Ref? ==> v.id < |h|
  }

  predicate ValuesIn(h: Heap, vs: seq<Value>) {
    forall i :: 0 <= i < |vs| ==> ValueIn(h, vs[i])
  }

  predicate ResultIn(h: Heap, r: Result<Value>) {
    (r.Ok? ==> ValueIn(h, r.value)) &&
    (r.Throw? && r.exception.Thrown? ==> ValueIn(h, r.exception.value))
  }

  /**
   * Every reference an object holds points into the heap. The own
   * `prototype` property of a function is the one its kind carries, so its
   * data properties hold no second one; and no object has an own property
   * named `__proto__`, so reading `__proto__` reaches the accessor of
   * `Object.prototype`.
   */
  predicate ObjIn(h: Heap, o: Obj) {
    (o.proto.Some? ==> o.proto.value < |h|) &&
    (o.kind.Function? && o.kind.prototype.Some? ==> ValueIn(h, o.kind.prototype.value)) &&
    (o.kind.Function? ==> "prototype" !in o.fields) &&
    "__proto__" !in o.fields &&
    (forall key :: key in o.fields ==> ValueIn(h, o.fields[key]))
  }

  predicate Closed(h: Heap) {
    forall id: ObjId :: id < |h| ==> ObjIn(h, h[id])
  }

  predicate IsObject(h: Heap, v: Value) {
    v.Ref? && v.id < |h|
  }

  /** An object's [[Prototype]] link as a value: the prototype object, or null. */
  function GetProto(o: Obj): (v: Value)
    ensures v.Null? || v.Ref?
    ensures v.Ref? <==> o.proto.Some?
  {
    match o.proto
    case None => Null
    case Some(p) => Ref(p)
  }

  /** Following [[Prototype]] links from `v`, a non-object is reached within `n` steps. */
  predicate ChainEnds(h: Heap, v: Value, n: nat)
    decreases n
  {
    IsObject(h, v) ==> n > 0 && ChainEnds(h, GetProto(h[v.id]), n - 1)
  }

  /**
   * Every prototype chain ends. This implies that no object is its own
   * ancestor (NoSelfAncestor); ECMAScript keeps it by refusing, in
   * OrdinarySetPrototypeOf, any link that would close a cycle.
   */
  predicate Acyclic(h: Heap) {
    forall id: ObjId :: id < |h| ==> ChainEnds(h, Ref(id), |h|)
  }

  /**
   * The realm's `Object.prototype` is the first object of every heap. Its
   * own [[Prototype]] is null and stays null: it is an immutable prototype
   * exotic object (section 10.4.7 of ECMA-262).
   */
  const ObjectPrototype: ObjId := 0

  predicate Wf(h: Heap) {
    Closed(h) && Acyclic(h) && |h| > 0 && h[ObjectPrototype].proto.None?
  }

  // ---------------------------------------------------------------------
  // typeof and Object.prototype.toString

  predicate IsCallable(h: Heap, v: Value)
    requires ValueIn(h, v)
  {
    v.Ref? && h[v.id].kind.Function?
  }

  /** The `typeof` operator. */
  function TypeOf(h: Heap, v: Value): (t: string)
    requires ValueIn(h, v)
    ensures t == "function" <==> IsCallable(h, v)
    ensures t == "object" || t == "function" <==> v.Null? || v.Ref?
  {
    match v
    case Undefined => "undefined"
    case Null => "object"
    case Prim(p) =>
      (match p
       case Boolean(_) => "boolean"
       case Number(_) => "number"
       case String(_) => "string"
       case Symbol(_) => "symbol"
       case BigInt(_) => "bigint")
    case Ref(id) => if h[id].kind.Function? then "function" else "object"
  }

  /** The own `prototype` property of an object, if it has one. */
  function OwnPrototype(o: Obj): Option<Value> {
    if o.kind.Function? then o.kind.prototype
    else if "prototype" in o.fields then Some(o.fields["prototype"])
    else None
  }

  /**
   * `v['prototype']` looked up among the first `n` objects of the chain of
   * `v`: the first own `prototype` property met, or undefined.
   */
  function FindPrototype(h: Heap, v: Value, n: nat): (r: Value)
    requires Closed(h)
    ensures ValueIn(h, r)
    decreases n
  {
    if n == 0 || !IsObject(h, v) then Undefined
    else
      assert ObjIn(h, h[v.id]);
      match OwnPrototype(h[v.id])
      case Some(p) => p
      case None => FindPrototype(h, GetProto(h[v.id]), n - 1)
  }

  /**
   * `f['prototype']` for a function object `f`: its own `prototype` when it
   * has one, and otherwise the one it inherits, or undefined.
   */
  function PrototypeProperty(h: Heap, f: Value): (v: Value)
    requires Closed(h) && ValueIn(h, f) && IsCallable(h, f)
    ensures ValueIn(h, v)
    ensures h[f.id].kind.prototype.Some? ==> v == h[f.id].kind.prototype.value
    ensures "prototype" !in h[f.id].fields
  {
    assert ObjIn(h, h[f.id]);
    FindPrototype(h, f, |h|)
  }

  /** No object of `c` owns a `prototype`. */
  predicate NoPrototypeOwner(h: Heap, c: seq<ObjId>) {
    forall i :: 0 <= i < |c| ==> c[i] < |h| && OwnPrototype(h[c[i]]).None?
  }

  /** `c[i]` is the first object of `c` that owns a `prototype`, and that property is `r`. */
  predicate FirstOwnerAt(h: Heap, c: seq<ObjId>, i: nat, r: Value) {
    && i < |c| && c[i] < |h| && OwnPrototype(h[c[i]]) == Some(r)
    && NoPrototypeOwner(h, c[..i])
  }

  /**
   * The lookup of `prototype` answers with the first object on the chain
   * that owns one; when none does, it answers undefined.
   */
  lemma {:induction false} FirstPrototypeOwner(h: Heap, v: Value, n: nat)
    requires Closed(h)
    ensures || (FindPrototype(h, v, n) == Undefined && NoPrototypeOwner(h, Chain(h, v, n)))
            || (exists i: nat :: FirstOwnerAt(h, Chain(h, v, n), i, FindPrototype(h, v, n)))
    decreases n
  {
    if n > 0 && IsObject(h, v) {
      var p := GetProto(h[v.id]);
      var c := Chain(h, v, n);
      var c' := Chain(h, p, n - 1);
      var r := FindPrototype(h, v, n);
      assert c == [v.id] + c';
      if OwnPrototype(h[v.id]).Some? {
        assert r == OwnPrototype(h[v.id]).value;
        assert c[..0] == [];
        assert FirstOwnerAt(h, c, 0, r);
        assert exists i: nat :: FirstOwnerAt(h, Chain(h, v, n), i, FindPrototype(h, v, n));
      } else {
        FirstPrototypeOwner(h, p, n - 1);
        assert r == FindPrototype(h, p, n - 1);
        if NoPrototypeOwner(h, c') {
          assert r == Undefined;
          assert NoPrototypeOwner(h, c) by {
            forall i | 0 <= i < |c|
              ensures c[i] < |h| && OwnPrototype(h[c[i]]).None?
            {
              if i > 0 {
                assert c[i] == c'[i - 1];
              }
            }
          }
        } else {
          var i: nat :| FirstOwnerAt(h, c', i, r);
          assert c[i + 1] == c'[i];
          var d, d' := c[..i + 1], c'[..i];
          assert d == [v.id] + d';
          assert NoPrototypeOwner(h, d) by {
            forall j | 0 <= j < |d|
              ensures d[j] < |h| && OwnPrototype(h[d[j]]).None?
            {
              if j > 0 {
                assert d[j] == d'[j - 1];
              }
            }
          }
          assert FirstOwnerAt(h, c, i + 1, r);
          assert exists k: nat :: FirstOwnerAt(h, Chain(h, v, n), k, FindPrototype(h, v, n));
        }
      }
    }
  }

  function KindTag(k: Kind): string {
    match k
    case Plain => "Object"
    case Array => "Array"
    case Function(_) => "Function"
    case Arguments => "Arguments"
    case Error => "Error"
    case BooleanObject => "Boolean"
    case NumberObject => "Number"
    case StringObject => "String"
    case Date => "Date"
    case RegExp => "RegExp"
    case Tagged(tag) => tag
  }

  /** The tag `Object.prototype.toString` puts between `[object ` and `]`. */
  function ClassTag(h: Heap, v: Value): string
    requires ValueIn(h, v)
  {
    match v
    case Undefined => "Undefined"
    case Null => "Null"
    case Prim(p) =>
      (match p
       case Boolean(_) => "Boolean"
       case Number(_) => "Number"
       case String(_) => "String"
       case Symbol(_) => "Symbol"
       case BigInt(_) => "BigInt")
    case Ref(id) => KindTag(h[id].kind)
  }

  /** A plain record: an object whose class tag is the generic `Object`. */
  predicate IsPlainRecord(h: Heap, v: Value)
    requires ValueIn(h, v)
  {
    v.Ref? && (h[v.id].kind.Plain? || h[v.id].kind == Tagged("Object"))
  }

  /** `Object.prototype.toString.call(v)`. */
  function ObjectToString(h: Heap, v: Value): (s: string)
    requires ValueIn(h, v)
    ensures s == "[object Object]" <==> IsPlainRecord(h, v)
  {
    BracketedTag(ClassTag(h, v));
    "[object " + ClassTag(h, v) + "]"
  }

  lemma BracketedTag(t: string)
    ensures "[object " + t + "]" == "[object Object]" <==> t == "Object"
  {
    var s := "[object " + t + "]";
    if s == "[object Object]" {
      assert |t| == 6;
      assert t == s[8..14];
    }
  }

  // ---------------------------------------------------------------------
  // Prototype chains

  /** The ids of the first (at most `n`) objects met following [[Prototype]] links from `v`, `v` included. */
  function Chain(h: Heap, v: Value, n: nat): (c: seq<ObjId>)
    decreases n
    ensures |c| <= n
    ensures forall i :: 0 <= i < |c| ==> c[i] < |h|
    ensures |c| > 0 <==> n > 0 && IsObject(h, v)
  {
    if n == 0 || !IsObject(h, v) then [] else [v.id] + Chain(h, GetProto(h[v.id]), n - 1)
  }

  /** The whole prototype chain from `v`, `v` included. */
  function ProtoChain(h: Heap, v: Value): seq<ObjId> {
    Chain(h, v, |h|)
  }

  /** The objects reached from object `id` by following [[Prototype]] links, `id` excluded. */
  function Ancestors(h: Heap, id: ObjId): seq<ObjId>
    requires id < |h|
  {
    ProtoChain(h, GetProto(h[id]))
  }

  /**
   * `o['__proto__']` for object `id`. The property is the accessor
   * `Object.prototype` holds, so it is found only when `Object.prototype`
   * is on the object's chain; it then yields the object's [[Prototype]]
   * (or null). Any other object reads it as undefined.
   */
  function ProtoRead(h: Heap, id: ObjId): (v: Value)
    requires Wf(h) && id < |h|
    ensures v.Undefined? <==> ObjectPrototype !in ProtoChain(h, Ref(id))
    ensures !v.Undefined? ==> v == GetProto(h[id])
    ensures ValueIn(h, v)
    // the object read next also finds the accessor
    ensures v.Ref? ==> ObjectPrototype in ProtoChain(h, v)
  {
    ProtoChainStep(h, id);
    if ObjectPrototype in ProtoChain(h, Ref(id)) then GetProto(h[id]) else Undefined
  }

  /** The value reached after following `k` [[Prototype]] links; a non-object stays where it is. */
  function Follow(h: Heap, v: Value, k: nat): Value
    decreases k
  {
    if k == 0 || !IsObject(h, v) then v else Follow(h, GetProto(h[v.id]), k - 1)
  }

  /** More fuel changes neither the fact that the chain ends nor the chain itself. */
  lemma {:induction false} ChainEndsMono(h: Heap, v: Value, n: nat, m: nat)
    requires ChainEnds(h, v, n) && n <= m
    ensures ChainEnds(h, v, m)
    ensures Chain(h, v, n) == Chain(h, v, m)
    decreases n
  {
    if IsObject(h, v) {
      ChainEndsMono(h, GetProto(h[v.id]), n - 1, m - 1);
    }
  }

  /** The chain seen from its `i`-th object is the rest of the chain. */
  lemma {:induction false} ChainSuffix(h: Heap, v: Value, n: nat, i: nat)
    requires ChainEnds(h, v, n)
    requires i < |Chain(h, v, n)|
    ensures ChainEnds(h, Ref(Chain(h, v, n)[i]), n - i)
    ensures Chain(h, Ref(Chain(h, v, n)[i]), n - i) == Chain(h, v, n)[i..]
    decreases i
  {
    var c := Chain(h, v, n);
    if i > 0 {
      var p := GetProto(h[v.id]);
      ChainSuffix(h, p, n - 1, i - 1);
      assert c[i..] == Chain(h, p, n - 1)[i - 1..];
    }
  }

  /** A chain that ends never meets the same object twice. */
  lemma ChainDistinct(h: Heap, v: Value, n: nat, i: nat, j: nat)
    requires ChainEnds(h, v, n)
    requires i < j < |Chain(h, v, n)|
    ensures Chain(h, v, n)[i] != Chain(h, v, n)[j]
  {
    var c := Chain(h, v, n);
    ChainSuffix(h, v, n, i);
    ChainSuffix(h, v, n, j);
    ChainEndsMono(h, Ref(c[j]), n - j, n - i);
    // the complete chains from c[i] and from c[j] differ in length
    assert |Chain(h, Ref(c[i]), n - i)| == |c| - i;
    assert |Chain(h, Ref(c[j]), n - i)| == |c| - j;
  }

  /** On a well-formed heap an object's chain is the object followed by its ancestors. */
  lemma ProtoChainStep(h: Heap, id: ObjId)
    requires Wf(h) && id < |h|
    ensures ProtoChain(h, Ref(id)) == [id] + Ancestors(h, id)
  {
    var p := GetProto(h[id]);
    assert ChainEnds(h, Ref(id), |h|);
    ChainEndsMono(h, p, |h| - 1, |h|);
  }

  /** Acyclicity as the source relies on it: no object is its own ancestor. */
  lemma NoSelfAncestor(h: Heap, id: ObjId)
    requires Wf(h) && id < |h|
    ensures id !in Ancestors(h, id)
  {
    ProtoChainStep(h, id);
    var c := ProtoChain(h, Ref(id));
    if id in Ancestors(h, id) {
      var j :| 0 <= j < |Ancestors(h, id)| && Ancestors(h, id)[j] == id;
      assert c[j + 1] == id;
      ChainDistinct(h, Ref(id), |h|, 0, j + 1);
    }
  }

  /** Chain membership is "reached by following some number of [[Prototype]] links". */
  lemma {:induction false} ChainMembers(h: Heap, v: Value, n: nat, t: ObjId)
    ensures t in Chain(h, v, n) <==> t < |h| && exists k :: 0 <= k < n && Follow(h, v, k) == Ref(t)
    decreases n
  {
    if n == 0 {
    } else if !IsObject(h, v) {
      forall k | 0 <= k < n
        ensures Follow(h, v, k) == v
      {
      }
    } else {
      var p := GetProto(h[v.id]);
      ChainMembers(h, p, n - 1, t);
      assert Chain(h, v, n) == [v.id] + Chain(h, p, n - 1);
      if t in Chain(h, v, n) {
        if t == v.id {
          assert Follow(h, v, 0) == Ref(t);
        } else {
          var k :| 0 <= k < n - 1 && Follow(h, p, k) == Ref(t);
          assert Follow(h, v, k + 1) == Ref(t);
        }
        assert t < |h| && exists k :: 0 <= k < n && Follow(h, v, k) == Ref(t);
      }
      if t < |h| && exists k :: 0 <= k < n && Follow(h, v, k) == Ref(t) {
        var k :| 0 <= k < n && Follow(h, v, k) == Ref(t);
        if k == 0 {
          assert t == v.id;
        } else {
          var j: nat := k - 1;
          assert Follow(h, v, k) == Follow(h, p, j);
          assert j < n - 1 && Follow(h, p, j) == Ref(t);
          assert exists i :: 0 <= i < n - 1 && Follow(h, p, i) == Ref(t);
          assert t in Chain(h, p, n - 1);
        }
        assert t in Chain(h, v, n);
      }
    }
  }

  /** Past the end of a chain that ends, no object is reached. */
  lemma {:induction false} FollowPastEnd(h: Heap, v: Value, n: nat, k: nat)
    requires ChainEnds(h, v, n) && n <= k
    ensures !IsObject(h, Follow(h, v, k))
    decreases n
  {
    if IsObject(h, v) {
      FollowPastEnd(h, GetProto(h[v.id]), n - 1, k - 1);
    }
  }

  /** On a chain that ends within `n` steps, an object is reached at all exactly when it is on the chain. */
  lemma ReachedIffOnChain(h: Heap, v: Value, n: nat, t: Value)
    requires ChainEnds(h, v, n) && ValueIn(h, t)
    ensures (t.Ref? && t.id in Chain(h, v, n)) <==> (t.Ref? && exists k: nat :: Follow(h, v, k) == t)
  {
    if t.Ref? {
      ChainMembers(h, v, n, t.id);
      if exists k: nat :: Follow(h, v, k) == t {
        var k: nat :| Follow(h, v, k) == t;
        if k >= n {
          FollowPastEnd(h, v, n, k);
        }
        assert 0 <= k < n && Follow(h, v, k) == Ref(t.id);
        assert exists i :: 0 <= i < n && Follow(h, v, i) == Ref(t.id);
        assert t.id in Chain(h, v, n);
      }
      if t.id in Chain(h, v, n) {
        var k :| 0 <= k < n && Follow(h, v, k) == Ref(t.id);
        assert Follow(h, v, k) == t;
      }
    }
  }

  // ---------------------------------------------------------------------
  // Allocation

  /** Appending an object leaves every old chain as it was. */
  lemma {:induction false} ChainEndsGrow(h: Heap, o: Obj, v: Value, n: nat)
    requires Closed(h) && ValueIn(h, v) && ChainEnds(h, v, n)
    ensures ChainEnds(h + [o], v, n)
    ensures Chain(h + [o], v, n) == Chain(h, v, n)
    decreases n
  {
    if IsObject(h, v) {
      assert (h + [o])[v.id] == h[v.id];
      ChainEndsGrow(h, o, GetProto(h[v.id]), n - 1);
    }
  }

  /** Chains depend only on the prototype links. */
  lemma {:induction false} ChainEndsSameLinks(h: Heap, h': Heap, v: Value, n: nat)
    requires |h| == |h'| && forall id: ObjId :: id < |h| ==> h[id].proto == h'[id].proto
    requires ChainEnds(h, v, n)
    ensures ChainEnds(h', v, n)
    decreases n
  {
    if IsObject(h, v) {
      ChainEndsSameLinks(h, h', GetProto(h[v.id]), n - 1);
    }
  }

  /**
   * Writing an own data property (`o[key] = v`) keeps the heap well formed.
   * Writes to `__proto__` and to a function's `prototype` are not data
   * property writes of the model.
   */
  lemma FieldWriteWf(h: Heap, id: ObjId, key: string, v: Value)
    requires Wf(h) && id < |h| && ValueIn(h, v)
    requires key != "__proto__" && !(h[id].kind.Function? && key == "prototype")
    ensures Wf(h[id := h[id].(fields := h[id].fields[key := v])])
  {
    var h' := h[id := h[id].(fields := h[id].fields[key := v])];
    forall i: ObjId | i < |h'|
      ensures ObjIn(h', h'[i]) && ChainEnds(h', Ref(i), |h'|)
    {
      assert ObjIn(h, h[i]);
      ChainEndsSameLinks(h, h', Ref(i), |h|);
    }
  }

  /** Allocating an object whose references point into the heap keeps the heap well formed. */
  lemma GrowWf(h: Heap, o: Obj)
    requires Wf(h) && ObjIn(h, o)
    ensures Wf(h + [o])
  {
    var h' := h + [o];
    forall id: ObjId | id < |h'|
      ensures ObjIn(h', h'[id])
    {
      var x := h'[id];
      assert ObjIn(h, x);
      assert forall key :: key in x.fields ==> ValueIn(h', x.fields[key]);
    }
    forall id: ObjId | id < |h'|
      ensures ChainEnds(h', Ref(id), |h'|)
    {
      if id < |h| {
        ChainEndsGrow(h, o, Ref(id), |h|);
        ChainEndsMono(h', Ref(id), |h|, |h'|);
      } else {
        var p := GetProto(o);
        if p.Ref? {
          ChainEndsGrow(h, o, p, |h|);
        }
        assert h'[id] == o;
        assert ChainEnds(h', p, |h|);
      }
    }
  }
}
