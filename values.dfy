/** JavaScript values as far as the collection operators, `curry` and the
    chain wrapper of mini-lodash can observe them, and the private helpers
    `isArrayLike`, `getLength` and `getElement` over them. */
module JsValues {

  datatype Option<+T> = None | Some(value: T)

  /** The three library operators that `curriedMethods` and the chain know. */
  datatype Op = MapOp | FilterOp | ReduceOp

  /** The constructor of an error object the library throws (messages are not modelled). */
  datatype ErrorKind = TypeError | PlainError

  datatype JsValue =
    | Undefined
    | Null
      /** a number or a boolean (false as 0, true as 1); it has no `length` */
    | Prim(n: int)
      /** an Array; `None` is a hole, an index the array does not own */
    | Arr(slots: seq<Option<JsValue>>)
      /** a plain object: its `length` property when that is an integer, and its index-keyed properties */
    | Obj(length: Option<int>, elems: map<int, JsValue>)
      /** a user function; `arity` is its `length`, the number of declared parameters */
    | Fn(id: nat, arity: nat)
      /** the library's own `map`, `filter` or `reduce` */
    | Lib(op: Op)
      /** the closure `(...nextArgs) => curryN(arity, [...args, ...nextArgs])` over `target` */
    | Curried(target: JsValue, args: seq<JsValue>)
      /** the `{method, args}` object the chain wrapper records */
    | Descriptor(action: Action)
      /** an Error or TypeError object thrown by the library */
    | Error(kind: ErrorKind)

  datatype Action = Action(op: Op, args: seq<JsValue>)

  /** What a call does: return a value or throw one. */
  datatype Outcome = Ok(value: JsValue) | Throw(error: JsValue)

  /** The behaviour of every function the library calls back: user code. */
  type Host = (JsValue, seq<JsValue>) -> Outcome

  const MAX_SAFE_INTEGER: int := 9007199254740991

  predicate IsNil(v: JsValue) { v.Undefined? || v.Null? }

  predicate IsArray(v: JsValue) { v.Arr? }

  /** `typeof v === 'function'` */
  predicate IsCallable(v: JsValue) { v.Fn? || v.Lib? || v.Curried? }

  /** The `length` the library operators declare: `map(collection, iteratee)`,
      `filter(collection, predicate)`, `reduce(collection, reducer, initialValue)`. */
  function Arity(op: Op): nat {
    match op
    case MapOp => 2
    case FilterOp => 2
    case ReduceOp => 3
  }

  /** `f.length` of a function value; a curried closure has only a rest parameter. */
  function FnLength(f: JsValue): nat
    requires IsCallable(f)
  {
    match f
    case Fn(_, n) => n
    case Lib(op) => Arity(op)
    case Curried(_, _) => 0
  }

  /** `v.length` when it is an integer. */
  function LengthProp(v: JsValue): Option<int> {
    match v
    case Arr(s) => Some(|s|)
    case Obj(len, _) => len
    case Fn(_, _) => Some(FnLength(v))
    case Lib(_) => Some(FnLength(v))
    case Curried(_, _) => Some(FnLength(v))
    case _ => None
  }

  /** isArrayLike: not nil, not an Array, with a safe non-negative integer `length`. */
  predicate IsArrayLike(v: JsValue): (b: bool)
    ensures b <==> (v.Obj? && v.length.Some? && 0 <= v.length.value <= MAX_SAFE_INTEGER) ||
                   (IsCallable(v) && FnLength(v) <= MAX_SAFE_INTEGER)
  {
    !IsNil(v) && !IsArray(v) && LengthProp(v).Some? &&
    0 <= LengthProp(v).value <= MAX_SAFE_INTEGER
  }

  /** The guard of map, filter and reduce. */
  predicate IsCollection(v: JsValue) { IsArray(v) || IsArrayLike(v) }

  /** getLength */
  function GetLength(c: JsValue): (n: nat)
    ensures IsCollection(c) ==> LengthProp(c) == Some(n)
    ensures IsArrayLike(c) ==> n <= MAX_SAFE_INTEGER
    ensures !IsCollection(c) ==> n == 0
  {
    if IsArray(c) then |c.slots|
    else if IsArrayLike(c) then LengthProp(c).value
    else 0
  }

  /** `i in c` for an integer index `i`. */
  predicate Has(c: JsValue, i: int) {
    match c
    case Arr(s) => 0 <= i < |s| && s[i].Some?
    case Obj(_, m) => i in m
    case _ => false
  }

  /** `c[i]` for an index that `c` owns. */
  function Index(c: JsValue, i: int): JsValue
    requires Has(c, i)
  {
    match c
    case Arr(s) => s[i].value
    case Obj(_, m) => m[i]
  }

  /** getElement */
  function GetElement(c: JsValue, i: int): (r: JsValue)
    ensures r != Undefined ==> IsCollection(c) && 0 <= i < GetLength(c) && Has(c, i)
    ensures IsCollection(c) && 0 <= i < GetLength(c) && Has(c, i) ==> r == Index(c, i)
  {
    if IsCollection(c) && 0 <= i < GetLength(c) && Has(c, i) then Index(c, i) else Undefined
  }

  /** A fresh Array holding `xs` without holes. */
  function Dense(xs: seq<JsValue>): JsValue {
    Arr(seq(|xs|, i requires 0 <= i < |xs| => Some(xs[i])))
  }

  /** JavaScript truthiness: nil, false and 0 are falsy, objects and functions truthy. */
  predicate Truthy(v: JsValue) {
    match v
    case Undefined => false
    case Null => false
    case Prim(n) => n != 0
    case _ => true
  }

  /** An Array built by the library reads back element for element. */
  lemma DenseElements(xs: seq<JsValue>)
    ensures IsCollection(Dense(xs)) && GetLength(Dense(xs)) == |xs|
    ensures forall i :: 0 <= i < |xs| ==> Has(Dense(xs), i) && GetElement(Dense(xs), i) == xs[i]
  {
  }

  /** Every function value passes the isArrayLike test, with its declared
      parameter count as length and no elements. */
  lemma FunctionsAreArrayLike(f: JsValue, i: int)
    requires IsCallable(f) && FnLength(f) <= MAX_SAFE_INTEGER
    ensures IsCollection(f) && !IsArray(f)
    ensures GetLength(f) == FnLength(f)
    ensures GetElement(f, i) == Undefined
  {
  }

  /** null, undefined, primitives, error objects, recorded descriptors and
      objects without a numeric `length` (such as `{}`) are not collections. */
  lemma NonCollections(v: JsValue)
    requires IsNil(v) || v.Prim? || v.Error? || v.Descriptor? || (v.Obj? && v.length.None?)
    ensures !IsCollection(v) && GetLength(v) == 0
  {
  }
}
