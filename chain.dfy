/** The lazy chain: `chain(value)` builds a `Wrapper` whose operator
    methods record `{method, args}` descriptors while it is lazy and apply
    the curried operator at once when it is not; `value()` folds the
    recorded descriptors over the held value with the library's own reduce. */
module Chain {
  import opened JsValues
  import opened Collections
  import opened Currying

  /** The reducer of `value()`: `(acc, {method, args}) => curriedMethods[method](acc, ...args)`.
      A recorded operator runs once it has its arity of arguments (the held
      value counting as the first); otherwise the step yields the curried
      closure still waiting for the rest. Any other item is a TypeError:
      destructuring null or undefined throws, and for other values
      `curriedMethods[undefined]` is not a function. */
  function ChainStep(acc: JsValue, item: JsValue, host: Host): (r: Outcome)
    ensures item.Descriptor? ==>
      r == if 1 + |item.action.args| >= Arity(item.action.op) then ApplyOp(item.action.op, [acc] + item.action.args, host)
           else Ok(Curried(Lib(item.action.op), [acc] + item.action.args))
    ensures !item.Descriptor? ==> r.Throw?
  {
    match item
    case Descriptor(Action(op, args)) =>
      assert [] + ([acc] + args) == [acc] + args;
      Invoke(CurriedMethod(op), [acc] + args, host)
    case _ => Throw(Error(TypeError))
  }

  function ChainStepFn(host: Host): Step {
    (acc: JsValue, item: JsValue, i: nat) => ChainStep(acc, item, host)
  }

  /** `__actions` as the JavaScript Array that `value()` hands to reduce. */
  function ActionsArray(actions: seq<Action>): JsValue {
    Dense(seq(|actions|, i requires 0 <= i < |actions| => Descriptor(actions[i])))
  }

  /** What `value()` returns when it has recorded actions to run:
      `reduce(__actions, reducer, __value)`, which cannot throw here. For a
      held value other than undefined, the recorded operators are applied to
      it in insertion order, each output feeding the next. For an undefined
      one, reduce takes `initialValue === undefined` as "no seed": the fold
      starts from the first descriptor object itself and applies only the
      remaining operators to it. */
  function Evaluate(snapshot: JsValue, actions: seq<Action>, host: Host): (r: JsValue)
    requires actions != []
    ensures snapshot != Undefined ==> r == Pipeline(snapshot, actions, host)
    ensures snapshot == Undefined ==> r == Pipeline(Descriptor(actions[0]), actions[1..], host)
  {
    DenseElements(seq(|actions|, j requires 0 <= j < |actions| => Descriptor(actions[j])));
    FoldIsPipeline(actions, snapshot, 0, host);
    FoldIsPipeline(actions, Descriptor(actions[0]), 1, host);
    assert actions[0..] == actions;
    ReduceFrom(ActionsArray(actions), snapshot, ChainStepFn(host)).value
  }

  /** The intended reading of a chain: each recorded operator applied to the
      previous result in order, stopping at the first that throws. */
  function Pipeline(v: JsValue, actions: seq<Action>, host: Host): JsValue
    decreases |actions|
  {
    if actions == [] then v
    else
      match ChainStep(v, Descriptor(actions[0]), host)
      case Ok(w) => Pipeline(w, actions[1..], host)
      case Throw(_) => v
  }

  /** `.reduce(f)` without a seed gives reduce only two of its three
      arguments: the step yields a partial function, not a reduced value. */
  lemma ChainedReduceWithoutSeedIsPartial(acc: JsValue, f: JsValue, host: Host)
    ensures ChainStep(acc, Descriptor(Action(ReduceOp, [f])), host) == Ok(Curried(Lib(ReduceOp), [acc, f]))
  {
    assert [acc] + [f] == [acc, f];
  }

  /** `.map(f)` and `.filter(p)` are map and filter of the held value;
      `.reduce(f, seed)` is reduce of it. */
  lemma ChainedOperators(acc: JsValue, f: JsValue, seed: JsValue, host: Host)
    ensures ChainStep(acc, Descriptor(Action(MapOp, [f])), host) == MapResult(acc, f, host)
    ensures ChainStep(acc, Descriptor(Action(FilterOp, [f])), host) == FilterResult(acc, f, host)
    ensures ChainStep(acc, Descriptor(Action(ReduceOp, [f, seed])), host) == ReduceResult(acc, f, seed, host)
  {
  }

  lemma {:induction false} FoldIsPipeline(actions: seq<Action>, acc: JsValue, i: nat, host: Host)
    requires i <= |actions|
    ensures FoldFrom(ActionsArray(actions), ChainStepFn(host), acc, i, |actions|).acc == Pipeline(acc, actions[i..], host)
    decreases |actions| - i
  {
    var items := seq(|actions|, j requires 0 <= j < |actions| => Descriptor(actions[j]));
    if i < |actions| {
      DenseElements(items);
      assert GetElement(ActionsArray(actions), i) == Descriptor(actions[i]);
      assert actions[i..][1..] == actions[i + 1..];
      match ChainStep(acc, Descriptor(actions[i]), host)
      case Ok(w) => FoldIsPipeline(actions, w, i + 1, host);
      case Throw(_) =>
    }
  }

  /** User code for the example below: function 0 doubles a number, function 1 tests `n > 5`. */
  function ExampleHost(f: JsValue, args: seq<JsValue>): Outcome {
    var x := Arg(args, 0);
    if f == Fn(0, 1) && x.Prim? then Ok(Prim(2 * x.n))
    else if f == Fn(1, 1) && x.Prim? then Ok(Prim(if x.n > 5 then 1 else 0))
    else Ok(Undefined)
  }

  lemma ExampleMapStep(input: seq<JsValue>, doubled: seq<JsValue>)
    requires input == [Prim(1), Prim(2), Prim(3), Prim(4), Prim(5)]
    requires doubled == [Prim(2), Prim(4), Prim(6), Prim(8), Prim(10)]
    ensures ChainStep(Dense(input), Descriptor(Action(MapOp, [Fn(0, 1)])), ExampleHost) == Ok(Dense(doubled))
  {
  }

  lemma ExampleFilterStep(doubled: seq<JsValue>)
    requires doubled == [Prim(2), Prim(4), Prim(6), Prim(8), Prim(10)]
    ensures ChainStep(Dense(doubled), Descriptor(Action(FilterOp, [Fn(1, 1)])), ExampleHost)
            == Ok(Dense([Prim(6), Prim(8), Prim(10)]))
  {
    ChainedOperators(Dense(doubled), Fn(1, 1), Undefined, ExampleHost);
    DenseElements(doubled);
    var c := Dense(doubled);
    assert !Kept(c, Fn(1, 1), ExampleHost, 0) && !Kept(c, Fn(1, 1), ExampleHost, 1);
    assert FilterUpTo(c, Fn(1, 1), ExampleHost, 1) == [];
    assert FilterUpTo(c, Fn(1, 1), ExampleHost, 2) == [];
    assert Kept(c, Fn(1, 1), ExampleHost, 2) && GetElement(c, 2) == Prim(6);
    assert FilterUpTo(c, Fn(1, 1), ExampleHost, 3) == [Prim(6)];
    assert Kept(c, Fn(1, 1), ExampleHost, 3) && GetElement(c, 3) == Prim(8);
    assert FilterUpTo(c, Fn(1, 1), ExampleHost, 4) == [Prim(6), Prim(8)];
    assert Kept(c, Fn(1, 1), ExampleHost, 4) && GetElement(c, 4) == Prim(10);
    assert FilterUpTo(c, Fn(1, 1), ExampleHost, 5) == [Prim(6), Prim(8), Prim(10)];
  }

  /** `chain([1, 2, 3, 4, 5]).map(n => n * 2).filter(n => n > 5).value()` is `[6, 8, 10]`. */
  lemma ChainMapFilterExample()
    ensures Evaluate(Dense([Prim(1), Prim(2), Prim(3), Prim(4), Prim(5)]),
                     [Action(MapOp, [Fn(0, 1)]), Action(FilterOp, [Fn(1, 1)])], ExampleHost)
            == Dense([Prim(6), Prim(8), Prim(10)])
  {
    var input := [Prim(1), Prim(2), Prim(3), Prim(4), Prim(5)];
    var doubled := [Prim(2), Prim(4), Prim(6), Prim(8), Prim(10)];
    var actions := [Action(MapOp, [Fn(0, 1)]), Action(FilterOp, [Fn(1, 1)])];
    ExampleMapStep(input, doubled);
    ExampleFilterStep(doubled);
    assert actions[1..] == [Action(FilterOp, [Fn(1, 1)])];
    assert actions[1..][1..] == [];
  }

  /** The eager form of a chained operator call:
      `curriedMethods[method](this.__value, ...args)`. */
  method EagerStep(op: Op, acc: JsValue, args: seq<JsValue>, host: Host) returns (r: Outcome)
    ensures r == ChainStep(acc, Descriptor(Action(op, args)), host)
  {
    var all := [acc] + args;
    match CurryN(Arity(op), all)
    case Waiting(_) =>
      r := Ok(Curried(Lib(op), all));
    case Called(_) =>
      match op {
        case MapOp => r := Map(Arg(all, 0), Arg(all, 1), host);
        case FilterOp => r := Filter(Arg(all, 0), Arg(all, 1), host);
        case ReduceOp => r := Reduce(Arg(all, 0), Arg(all, 1), Arg(all, 2), host);
      }
  }

  /** The chain wrapper: `value` is `__value`, `actions` is `__actions`, `lazy` is `__lazy`. */
  class Wrapper {
    var value: JsValue
    var actions: seq<Action>
    var lazy: bool

    /** Actions are recorded only while lazy, and leaving lazy mode clears them. */
    ghost predicate Valid()
      reads this
    {
      !lazy ==> actions == []
    }

    constructor (v: JsValue)
      ensures Valid()
      ensures value == v && actions == [] && lazy
    {
      value := v;
      actions := [];
      lazy := true;
    }

    /** The generated `map`, `filter` and `reduce` methods: `op` names the
        method and `args` are its arguments. The wrapper itself is returned;
        `thrown` is what an eager operator threw, if anything. */
    method Chained(op: Op, args: seq<JsValue>, host: Host) returns (self: Wrapper, thrown: Option<JsValue>)
      requires Valid()
      modifies this
      ensures Valid() && self == this && lazy == old(lazy)
      ensures old(lazy) ==>
        actions == old(actions) + [Action(op, args)] && value == old(value) && thrown == None
      ensures !old(lazy) ==> actions == old(actions)
      ensures !old(lazy) ==>
        var o := ChainStep(old(value), Descriptor(Action(op, args)), host);
        (o.Ok? ==> value == o.value && thrown == None) &&
        (o.Throw? ==> value == old(value) && thrown == Some(o.error))
    {
      self := this;
      if lazy {
        actions := actions + [Action(op, args)];
        return self, None;
      }
      var o := EagerStep(op, value, args, host);
      match o {
        case Ok(v) =>
          value := v;
          thrown := None;
        case Throw(e) =>
          thrown := Some(e);
      }
    }

    /** value(): runs the recorded actions if lazy, clears them and leaves
        lazy mode, but does not store the result in `value`. */
    method Value(host: Host) returns (r: JsValue)
      requires Valid()
      modifies this
      ensures Valid() && value == old(value)
      ensures old(lazy) && old(actions) != [] ==>
        r == Evaluate(old(value), old(actions), host) && actions == [] && !lazy
      ensures !(old(lazy) && old(actions) != []) ==>
        r == value && actions == old(actions) && lazy == old(lazy)
    {
      var result := value;
      if lazy && |actions| > 0 {
        var recorded := actions;
        DenseElements(seq(|recorded|, j requires 0 <= j < |recorded| => Descriptor(recorded[j])));
        var o := ReduceWith(ActionsArray(actions), result, ChainStepFn(host));
        result := o.value;
        actions := [];
        lazy := false;
      }
      r := result;
    }

    /** run(): stores the result of value() and leaves the wrapper eager. */
    method Run(host: Host) returns (self: Wrapper)
      requires Valid()
      modifies this
      ensures Valid() && self == this && !lazy && actions == []
      ensures value == if old(lazy) && old(actions) != [] then Evaluate(old(value), old(actions), host) else old(value)
    {
      var v := Value(host);
      value := v;
      lazy := false;
      self := this;
    }
  }

  /** chain: a lazy wrapper over the value, with nothing recorded. */
  method Chain(v: JsValue) returns (w: Wrapper)
    ensures fresh(w) && w.Valid()
    ensures w.value == v && w.actions == [] && w.lazy
  {
    w := new Wrapper(v);
  }

  /** One chained operator followed by two calls of value(): the first runs
      it, the second returns the value the chain started from. */
  method ValueTwice(v: JsValue, op: Op, args: seq<JsValue>, host: Host) returns (first: JsValue, second: JsValue)
    ensures first == Evaluate(v, [Action(op, args)], host)
    ensures second == v
  {
    var w := Chain(v);
    var self, thrown := w.Chained(op, args, host);
    assert w.actions == [Action(op, args)];
    first := w.Value(host);
    second := w.Value(host);
  }

  /** After run(), an operator call is applied at once to the stored value. */
  method RunThenChained(v: JsValue, op: Op, args: seq<JsValue>, host: Host) returns (held: JsValue, lazy: bool)
    ensures !lazy
    ensures var o := ChainStep(v, Descriptor(Action(op, args)), host);
      held == if o.Ok? then o.value else v
  {
    var w := Chain(v);
    var self := w.Run(host);
    var self2, thrown := w.Chained(op, args, host);
    held, lazy := w.value, w.lazy;
  }
}
