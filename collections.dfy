/** The collection operators `toArray`, `map`, `filter` and `reduce`: each is
    a method with the source's loop, proved equal to a specification function
    about which the properties are stated as lemmas. A callback is run through
    the `Host`; a callback that throws is an `Outcome.Throw`. */
module Collections {
  import opened JsValues

  // ---------------------------------------------------------------- toArray

  /** The owned elements `c[i]`, `i < n`, in index order. */
  function Present(c: JsValue, n: nat): seq<JsValue> {
    if n == 0 then []
    else Present(c, n - 1) + (if Has(c, n - 1) then [Index(c, n - 1)] else [])
  }

  /** `[...s]`: the iterator of an Array reads a hole as undefined. */
  function Spread(s: seq<Option<JsValue>>): seq<JsValue> {
    seq(|s|, i requires 0 <= i < |s| => if s[i].Some? then s[i].value else Undefined)
  }

  /** toArray: nil gives [], an Array a copy, an array-like its owned
      elements, anything else a one-element Array. */
  function ToArrayResult(v: JsValue): (r: JsValue)
    ensures r.Arr? && forall i :: 0 <= i < |r.slots| ==> r.slots[i].Some?
  {
    if IsNil(v) then Dense([])
    else if IsArray(v) then Dense(Spread(v.slots))
    else if IsArrayLike(v) then Dense(Present(v, GetLength(v)))
    else Dense([v])
  }

  method ToArray(v: JsValue) returns (r: JsValue)
    ensures r == ToArrayResult(v)
  {
    if IsNil(v) {
      return Dense([]);
    }
    if IsArray(v) {
      return Dense(Spread(v.slots));
    }
    if IsArrayLike(v) {
      var arr: seq<JsValue> := [];
      var length := GetLength(v);
      var i := 0;
      while i < length
        invariant 0 <= i <= length
        invariant arr == Present(v, i)
      {
        if Has(v, i) {
          arr := arr + [Index(v, i)];
        }
        i := i + 1;
      }
      return Dense(arr);
    }
    return Dense([v]);
  }

  /** toArray never lengthens an array-like, and keeps its length exactly
      when the object owns every index below it. */
  lemma {:induction false} PresentBounds(c: JsValue, n: nat)
    ensures |Present(c, n)| <= n
    ensures |Present(c, n)| == n <==> forall i :: 0 <= i < n ==> Has(c, i)
  {
    if n > 0 {
      PresentBounds(c, n - 1);
    }
  }

  lemma {:induction false} PresentAllOwned(c: JsValue, n: nat)
    requires IsCollection(c) && n <= GetLength(c)
    requires forall i :: 0 <= i < n ==> Has(c, i)
    ensures Present(c, n) == seq(n, i requires 0 <= i < n => GetElement(c, i))
  {
    if n > 0 {
      PresentAllOwned(c, n - 1);
    }
  }

  /** toArray reads the elements exactly as getElement does, for an Array
      (holes included) and for an array-like that owns every index. */
  lemma ToArrayAgreesWithGetElement(c: JsValue)
    requires IsArray(c) || (IsArrayLike(c) && forall i :: 0 <= i < GetLength(c) ==> Has(c, i))
    ensures ToArrayResult(c) == Dense(seq(GetLength(c), i requires 0 <= i < GetLength(c) => GetElement(c, i)))
  {
    if !IsArray(c) {
      PresentAllOwned(c, GetLength(c));
    }
  }

  /** toArray of an Array without holes is an element-wise copy. */
  lemma ToArrayCopiesDense(xs: seq<JsValue>)
    ensures ToArrayResult(Dense(xs)) == Dense(xs)
  {
  }

  // ---------------------------------------------------------------- map

  /** What a try/catch around a call leaves: the value returned or the value thrown. */
  function Caught(o: Outcome): JsValue {
    match o
    case Ok(v) => v
    case Throw(e) => e
  }

  /** Position `i` of map's result: `iteratee(getElement(c, i), i, c)` or what it threw. */
  function MapAt(c: JsValue, f: JsValue, host: Host, i: nat): JsValue {
    Caught(host(f, [GetElement(c, i), Prim(i), c]))
  }

  function MapResult(c: JsValue, f: JsValue, host: Host): (r: Outcome)
    ensures r.Throw? <==> !IsCollection(c)
    ensures r.Throw? ==> r.error == Error(TypeError)
    ensures r.Ok? ==> r.value.Arr?
  {
    if !IsCollection(c) then Throw(Error(TypeError))
    else if !IsCallable(f) then Ok(ToArrayResult(c))
    else Ok(Dense(seq(GetLength(c), i requires 0 <= i < GetLength(c) => MapAt(c, f, host, i))))
  }

  /** map */
  method Map(c: JsValue, f: JsValue, host: Host) returns (r: Outcome)
    ensures r == MapResult(c, f, host)
  {
    if !IsCollection(c) {
      return Throw(Error(TypeError));
    }
    if !IsCallable(f) {
      var a := ToArray(c);
      return Ok(a);
    }
    var result: seq<JsValue> := [];
    var length := GetLength(c);
    var i := 0;
    while i < length
      invariant 0 <= i <= length
      invariant |result| == i
      invariant forall j :: 0 <= j < i ==> result[j] == MapAt(c, f, host, j)
    {
      var value := GetElement(c, i);
      var o := host(f, [value, Prim(i), c]);
      match o {
        case Ok(v) => result := result + [v];
        case Throw(e) => result := result + [e];
      }
      i := i + 1;
    }
    return Ok(Dense(result));
  }

  /** With a callable iteratee, map's result has one entry per index below
      getLength, each the iteratee's return value or the error it threw. */
  lemma MapPositions(c: JsValue, f: JsValue, host: Host, i: int)
    requires IsCollection(c) && IsCallable(f) && 0 <= i < GetLength(c)
    ensures var r := MapResult(c, f, host).value;
      GetLength(r) == GetLength(c) &&
      GetElement(r, i) == (match host(f, [GetElement(c, i), Prim(i), c])
                           case Ok(v) => v
                           case Throw(e) => e)
  {
  }

  /** With a non-callable iteratee, map of an Array without holes is a copy of it. */
  lemma MapNonCallableCopies(xs: seq<JsValue>, f: JsValue, host: Host)
    requires !IsCallable(f)
    ensures MapResult(Dense(xs), f, host) == Ok(Dense(xs))
  {
  }

  // ---------------------------------------------------------------- filter

  /** The predicate returned a truthy value for index `i` without throwing. */
  predicate Kept(c: JsValue, p: JsValue, host: Host, i: nat) {
    var o := host(p, [GetElement(c, i), Prim(i), c]);
    o.Ok? && Truthy(o.value)
  }

  /** The elements filter keeps among the indices below `n`. */
  function FilterUpTo(c: JsValue, p: JsValue, host: Host, n: nat): seq<JsValue> {
    if n == 0 then []
    else FilterUpTo(c, p, host, n - 1) + (if Kept(c, p, host, n - 1) then [GetElement(c, n - 1)] else [])
  }

  function FilterResult(c: JsValue, p: JsValue, host: Host): (r: Outcome)
    ensures r.Throw? <==> !IsCollection(c)
    ensures r.Throw? ==> r.error == Error(TypeError)
    ensures r.Ok? ==> r.value.Arr? && |r.value.slots| <= GetLength(c)
  {
    if !IsCollection(c) then Throw(Error(TypeError))
    else if !IsCallable(p) then Ok(Dense([]))
    else
      FilterShorter(c, p, host, GetLength(c));
      Ok(Dense(FilterUpTo(c, p, host, GetLength(c))))
  }

  /** filter */
  method Filter(c: JsValue, p: JsValue, host: Host) returns (r: Outcome)
    ensures r == FilterResult(c, p, host)
  {
    if !IsCollection(c) {
      return Throw(Error(TypeError));
    }
    if !IsCallable(p) {
      return Ok(Dense([]));
    }
    var result: seq<JsValue> := [];
    var length := GetLength(c);
    var i := 0;
    while i < length
      invariant 0 <= i <= length
      invariant result == FilterUpTo(c, p, host, i)
    {
      var value := GetElement(c, i);
      var o := host(p, [value, Prim(i), c]);
      if o.Ok? && Truthy(o.value) {
        result := result + [value];
      }
      i := i + 1;
    }
    return Ok(Dense(result));
  }

  /** The indices below `n` whose element filter keeps, ascending. */
  function KeptIndices(c: JsValue, p: JsValue, host: Host, n: nat): seq<nat> {
    if n == 0 then []
    else KeptIndices(c, p, host, n - 1) + (if Kept(c, p, host, n - 1) then [n - 1] else [])
  }

  lemma {:induction false} FilterShorter(c: JsValue, p: JsValue, host: Host, n: nat)
    ensures |FilterUpTo(c, p, host, n)| <= n
  {
    if n > 0 {
      FilterShorter(c, p, host, n - 1);
    }
  }

  /** The kept indices are ascending and below `n`, and an index is among
      them exactly when the predicate returned truthy there without throwing. */
  lemma {:induction false} KeptIndicesExact(c: JsValue, p: JsValue, host: Host, n: nat)
    ensures var ks := KeptIndices(c, p, host, n);
      (forall j :: 0 <= j < |ks| ==> ks[j] < n) &&
      (forall j, k :: 0 <= j < k < |ks| ==> ks[j] < ks[k]) &&
      (forall i: nat :: i in ks <==> i < n && Kept(c, p, host, i))
  {
    if n > 0 {
      KeptIndicesExact(c, p, host, n - 1);
    }
  }

  /** Entry `j` of filter's result is the element at the `j`-th kept index. */
  lemma {:induction false} FilterAtKeptIndices(c: JsValue, p: JsValue, host: Host, n: nat)
    ensures var ks := KeptIndices(c, p, host, n);
      var r := FilterUpTo(c, p, host, n);
      |r| == |ks| && forall j :: 0 <= j < |ks| ==> r[j] == GetElement(c, ks[j])
  {
    if n > 0 {
      FilterAtKeptIndices(c, p, host, n - 1);
    }
  }

  /** filter's result is the order-preserving subsequence of the elements at
      exactly those indices where the predicate returned truthy without throwing. */
  lemma FilterSelectsKept(c: JsValue, p: JsValue, host: Host)
    requires IsCollection(c) && IsCallable(p)
    ensures var ks := KeptIndices(c, p, host, GetLength(c));
      FilterResult(c, p, host) == Ok(Dense(seq(|ks|, j requires 0 <= j < |ks| => GetElement(c, ks[j])))) &&
      (forall j, k :: 0 <= j < k < |ks| ==> ks[j] < ks[k]) &&
      (forall i: nat :: i in ks <==> i < GetLength(c) && Kept(c, p, host, i))
  {
    KeptIndicesExact(c, p, host, GetLength(c));
    FilterAtKeptIndices(c, p, host, GetLength(c));
  }

  /** A predicate that never returns truthy (one that always throws, say) leaves nothing. */
  lemma {:induction false} FilterNothingKept(c: JsValue, p: JsValue, host: Host, n: nat)
    requires forall i: nat :: i < n ==> !Kept(c, p, host, i)
    ensures FilterUpTo(c, p, host, n) == []
  {
    if n > 0 {
      FilterNothingKept(c, p, host, n - 1);
    }
  }

  /** A predicate truthy everywhere keeps every element, in order. */
  lemma {:induction false} FilterEverythingKept(c: JsValue, p: JsValue, host: Host, n: nat)
    requires forall i: nat :: i < n ==> Kept(c, p, host, i)
    ensures FilterUpTo(c, p, host, n) == seq(n, i requires 0 <= i < n => GetElement(c, i))
  {
    if n > 0 {
      FilterEverythingKept(c, p, host, n - 1);
    }
  }

  // ---------------------------------------------------------------- reduce

  /** One reduction step `(accumulator, element, index)`. */
  type Step = (JsValue, JsValue, nat) -> Outcome

  /** Where a fold ends: its accumulator, and whether a throwing step broke it off. */
  datatype Fold = Fold(acc: JsValue, broke: bool)

  /** The loop of reduce over the indices `i` to `n - 1`. */
  function FoldFrom(c: JsValue, step: Step, acc: JsValue, i: nat, n: nat): Fold
    decreases n - i
  {
    if i >= n then Fold(acc, false)
    else
      match step(acc, GetElement(c, i), i)
      case Ok(a) => FoldFrom(c, step, a, i + 1, n)
      case Throw(_) => Fold(acc, true)
  }

  /** reduce once the collection and the reducer have passed their checks:
      choose the seed, then fold. */
  function ReduceFrom(c: JsValue, init: JsValue, step: Step): (r: Outcome)
    ensures r.Throw? <==> init == Undefined && GetLength(c) == 0
    ensures r.Throw? ==> r.error == Error(PlainError)
  {
    var length := GetLength(c);
    if init == Undefined then
      if length == 0 then Throw(Error(PlainError))
      else Ok(FoldFrom(c, step, GetElement(c, 0), 1, length).acc)
    else Ok(FoldFrom(c, step, init, 0, length).acc)
  }

  /** The user reducer as a step: `reducer(accumulator, value, i, collection)`. */
  function ReducerStep(c: JsValue, reducer: JsValue, host: Host): Step {
    (acc: JsValue, v: JsValue, i: nat) => host(reducer, [acc, v, Prim(i), c])
  }

  function ReduceResult(c: JsValue, reducer: JsValue, init: JsValue, host: Host): (r: Outcome)
    ensures r.Throw? <==> !IsCollection(c) || (IsCallable(reducer) && init == Undefined && GetLength(c) == 0)
    ensures !IsCollection(c) ==> r == Throw(Error(TypeError))
    ensures IsCollection(c) && !IsCallable(reducer) ==> r == Ok(init)
  {
    if !IsCollection(c) then Throw(Error(TypeError))
    else if !IsCallable(reducer) then Ok(init)
    else ReduceFrom(c, init, ReducerStep(c, reducer, host))
  }

  /** The loop of reduce, for any step function. */
  method ReduceWith(c: JsValue, init: JsValue, step: Step) returns (r: Outcome)
    ensures r == ReduceFrom(c, init, step)
  {
    var accumulator := init;
    var startIndex := 0;
    var length := GetLength(c);
    if init == Undefined {
      if length == 0 {
        return Throw(Error(PlainError));
      }
      accumulator := GetElement(c, 0);
      startIndex := 1;
    }
    ghost var seed := accumulator;
    var i := startIndex;
    while i < length
      invariant startIndex <= i <= length
      invariant FoldFrom(c, step, accumulator, i, length).acc == FoldFrom(c, step, seed, startIndex, length).acc
    {
      var value := GetElement(c, i);
      var o := step(accumulator, value, i);
      if o.Throw? {
        break;
      }
      accumulator := o.value;
      i := i + 1;
    }
    return Ok(accumulator);
  }

  /** reduce */
  method Reduce(c: JsValue, reducer: JsValue, init: JsValue, host: Host) returns (r: Outcome)
    ensures r == ReduceResult(c, reducer, init, host)
  {
    if !IsCollection(c) {
      return Throw(Error(TypeError));
    }
    if !IsCallable(reducer) {
      return Ok(init);
    }
    r := ReduceWith(c, init, ReducerStep(c, reducer, host));
  }

  /** Folding up to `k` and then on from `k` is folding the whole range. */
  lemma {:induction false} FoldSplit(c: JsValue, step: Step, acc: JsValue, i: nat, k: nat, n: nat)
    requires i <= k <= n
    ensures var s := FoldFrom(c, step, acc, i, k);
      FoldFrom(c, step, acc, i, n) == if s.broke then s else FoldFrom(c, step, s.acc, k, n)
    decreases k - i
  {
    if i < k {
      match step(acc, GetElement(c, i), i)
      case Ok(a) => FoldSplit(c, step, a, i + 1, k, n);
      case Throw(_) =>
    }
  }

  /** If the step throws at index `k`, reduce stops there and returns the
      accumulator computed from the indices before `k`. */
  lemma ReduceStopsAtThrow(c: JsValue, init: JsValue, step: Step, k: nat)
    requires init != Undefined && k < GetLength(c)
    requires !FoldFrom(c, step, init, 0, k).broke
    requires step(FoldFrom(c, step, init, 0, k).acc, GetElement(c, k), k).Throw?
    ensures ReduceFrom(c, init, step) == Ok(FoldFrom(c, step, init, 0, k).acc)
  {
    FoldSplit(c, step, init, 0, k, GetLength(c));
  }

  /** Without a seed, reduce starts from element 0 and stops at the first
      throwing step in the same way. */
  lemma ReduceUnseededStopsAtThrow(c: JsValue, step: Step, k: nat)
    requires 1 <= k < GetLength(c)
    requires !FoldFrom(c, step, GetElement(c, 0), 1, k).broke
    requires step(FoldFrom(c, step, GetElement(c, 0), 1, k).acc, GetElement(c, k), k).Throw?
    ensures ReduceFrom(c, Undefined, step) == Ok(FoldFrom(c, step, GetElement(c, 0), 1, k).acc)
  {
    FoldSplit(c, step, GetElement(c, 0), 1, k, GetLength(c));
  }

  /** A seeded reduce whose reducer throws on its first call returns the seed. */
  lemma ReduceFirstThrowKeepsSeed(c: JsValue, reducer: JsValue, init: JsValue, host: Host)
    requires IsCollection(c) && IsCallable(reducer) && init != Undefined
    requires GetLength(c) > 0 ==> host(reducer, [init, GetElement(c, 0), Prim(0), c]).Throw?
    ensures ReduceResult(c, reducer, init, host) == Ok(init)
  {
  }

  /** map, filter and reduce reject a non-collection with a TypeError before
      any callback runs: the outcome does not depend on the callback at all. */
  lemma NonCollectionsThrow(c: JsValue, f: JsValue, init: JsValue, host: Host, other: Host)
    requires !IsCollection(c)
    ensures MapResult(c, f, host) == MapResult(c, f, other) == Throw(Error(TypeError))
    ensures FilterResult(c, f, host) == FilterResult(c, f, other) == Throw(Error(TypeError))
    ensures ReduceResult(c, f, init, host) == ReduceResult(c, f, init, other) == Throw(Error(TypeError))
  {
  }
}
