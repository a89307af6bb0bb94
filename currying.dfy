/** `curry`: arguments accumulate until their count reaches the declared
    arity, and then the function is called once with all of them. The first
    half is the state machine of `curryN` over any argument type; the second
    calls JavaScript function values with it, as `curry` and
    `curriedMethods` do. */
module Currying {
  import opened JsValues
  import opened Collections

  /** Where `curryN(arity, args)` stands: still collecting, or calling the function with `args`. */
  datatype Stage<A> = Waiting(args: seq<A>) | Called(args: seq<A>)

  /** curryN */
  function CurryN<A>(arity: nat, args: seq<A>): (s: Stage<A>)
    ensures s.args == args
  {
    if |args| >= arity then Called(args) else Waiting(args)
  }

  function Flatten<A>(gs: seq<seq<A>>): seq<A> {
    if gs == [] then [] else gs[0] + Flatten(gs[1..])
  }

  /** The calls made to the curried function when `curryN(arity, args)` is
      followed by applying each argument group of `gs` to the closure it
      returns, for as long as a closure is returned. */
  function Calls<A>(arity: nat, args: seq<A>, gs: seq<seq<A>>): seq<seq<A>>
    decreases |gs|
  {
    match CurryN(arity, args)
    case Called(all) => [all]
    case Waiting(all) => if gs == [] then [] else Calls(arity, all + gs[0], gs[1..])
  }

  /** The function is called at most once, exactly when enough arguments
      have arrived, and with at least `arity` of them, taken in order. */
  lemma {:induction false} CurryCallsOnce<A>(arity: nat, args: seq<A>, gs: seq<seq<A>>)
    ensures |Calls(arity, args, gs)| <= 1
    ensures |Calls(arity, args, gs)| == 1 <==> |args + Flatten(gs)| >= arity
    ensures |Calls(arity, args, gs)| == 1 ==>
      var call := Calls(arity, args, gs)[0];
      arity <= |call| && call <= args + Flatten(gs)
    decreases |gs|
  {
    if |args| < arity && gs != [] {
      CurryCallsOnce(arity, args + gs[0], gs[1..]);
      assert args + Flatten(gs) == (args + gs[0]) + Flatten(gs[1..]);
    }
  }

  lemma {:induction false} FlattenSnoc<A>(gs: seq<seq<A>>)
    requires gs != []
    ensures Flatten(gs) == Flatten(gs[..|gs| - 1]) + gs[|gs| - 1]
    decreases |gs|
  {
    if |gs| > 1 {
      FlattenSnoc(gs[1..]);
      assert gs[1..][..|gs[1..]| - 1] == gs[..|gs| - 1][1..];
    } else {
      assert gs[..0] == [];
    }
  }

  /** When the last group is the one that reaches the arity, the single call
      receives exactly all the arguments: how they were grouped does not matter. */
  lemma {:induction false} CurryGrouping<A>(arity: nat, args: seq<A>, gs: seq<seq<A>>)
    requires gs != []
    requires |args + Flatten(gs[..|gs| - 1])| < arity <= |args + Flatten(gs)|
    ensures Calls(arity, args, gs) == [args + Flatten(gs)]
    decreases |gs|
  {
    FlattenSnoc(gs);
    if |gs| == 1 {
      assert Flatten(gs) == gs[0];
    } else {
      FlattenSnoc(gs[1..]);
      assert gs[1..][..|gs[1..]| - 1] == gs[..|gs| - 1][1..];
      assert Flatten(gs[..|gs| - 1]) == gs[0] + Flatten(gs[..|gs| - 1][1..]);
      assert args + Flatten(gs) == (args + gs[0]) + Flatten(gs[1..]);
      CurryGrouping(arity, args + gs[0], gs[1..]);
    }
  }

  // ------------------------------------------------------ on function values

  /** The `i`-th argument, undefined when it was not passed. */
  function Arg(args: seq<JsValue>, i: nat): JsValue {
    if i < |args| then args[i] else Undefined
  }

  /** A call of the library's own `map`, `filter` or `reduce`. */
  function ApplyOp(op: Op, args: seq<JsValue>, host: Host): Outcome {
    match op
    case MapOp => MapResult(Arg(args, 0), Arg(args, 1), host)
    case FilterOp => FilterResult(Arg(args, 0), Arg(args, 1), host)
    case ReduceOp => ReduceResult(Arg(args, 0), Arg(args, 1), Arg(args, 2), host)
  }

  /** Calling the value `f` with `args`: user code is the host's, the
      library's operators run, and a curried closure feeds curryN. */
  function Invoke(f: JsValue, args: seq<JsValue>, host: Host): (r: Outcome)
    ensures !IsCallable(f) ==> r == Throw(Error(TypeError))
    decreases f
  {
    match f
    case Fn(_, _) => host(f, args)
    case Lib(op) => ApplyOp(op, args, host)
    case Curried(target, held) =>
      if !IsCallable(target) then Throw(Error(TypeError))
      else
        (match CurryN(FnLength(target), held + args)
         case Called(all) => Invoke(target, all, host)
         case Waiting(all) => Ok(Curried(target, all)))
    case _ => Throw(Error(TypeError))
  }

  /** curry */
  function CurryOf(func: JsValue, host: Host): (r: Outcome)
    ensures !IsCallable(func) ==> r == Throw(Error(TypeError))
  {
    if !IsCallable(func) then Throw(Error(TypeError))
    else
      match CurryN(FnLength(func), [])
      case Called(all) => Invoke(func, all, host)
      case Waiting(all) => Ok(Curried(func, all))
  }

  /** `curriedMethods[op]` */
  function CurriedMethod(op: Op): (m: JsValue)
    ensures IsCallable(m) && FnLength(m) == 0
  {
    Curried(Lib(op), [])
  }

  /** Applying a call result to each argument group in turn, as in `f(1)(2, 3)`. */
  function ApplyGroups(o: Outcome, gs: seq<seq<JsValue>>, host: Host): Outcome
    decreases |gs|
  {
    if gs == [] || o.Throw? then o
    else ApplyGroups(Invoke(o.value, gs[0], host), gs[1..], host)
  }

  /** A function declaring no parameters is called by curry at once. */
  lemma CurryZeroArity(func: JsValue, host: Host)
    requires IsCallable(func) && FnLength(func) == 0
    ensures CurryOf(func, host) == Invoke(func, [], host)
  {
  }

  /** curry of the library operators gives the closures that `curriedMethods` holds. */
  lemma CurriedMethodsAreClosures(op: Op, host: Host)
    ensures CurryOf(Lib(op), host) == Ok(CurriedMethod(op))
  {
  }

  /** Calling `curriedMethods[op]` runs the operator once it gets the
      operator's arity of arguments, and otherwise returns a closure holding them. */
  lemma CurriedMethodCalls(op: Op, args: seq<JsValue>, host: Host)
    ensures Invoke(CurriedMethod(op), args, host) ==
      if |args| >= Arity(op) then ApplyOp(op, args, host) else Ok(Curried(Lib(op), args))
  {
    assert [] + args == args;
  }

  /** A closure whose held and new arguments still fall short of the arity
      calls nothing and returns a closure holding all of them. */
  lemma CurriedWaits(f: JsValue, held: seq<JsValue>, args: seq<JsValue>, host: Host)
    requires IsCallable(f) && |held + args| < FnLength(f)
    ensures Invoke(Curried(f, held), args, host) == Ok(Curried(f, held + args))
  {
  }

  /** Feeding a curried closure groups of arguments until the last one
      reaches the arity calls the function once with all of them. */
  lemma {:induction false} CurriedClosureGrouping(f: JsValue, held: seq<JsValue>, gs: seq<seq<JsValue>>, host: Host)
    requires IsCallable(f) && gs != []
    requires |held + Flatten(gs[..|gs| - 1])| < FnLength(f) <= |held + Flatten(gs)|
    ensures ApplyGroups(Ok(Curried(f, held)), gs, host) == Invoke(f, held + Flatten(gs), host)
    decreases |gs|
  {
    FlattenSnoc(gs);
    if |gs| == 1 {
      assert Flatten(gs) == gs[0];
      assert gs[1..] == [];
    } else {
      FlattenSnoc(gs[1..]);
      assert gs[1..][..|gs[1..]| - 1] == gs[..|gs| - 1][1..];
      assert Flatten(gs[..|gs| - 1]) == gs[0] + Flatten(gs[..|gs| - 1][1..]);
      assert held + Flatten(gs) == (held + gs[0]) + Flatten(gs[1..]);
      CurriedClosureGrouping(f, held + gs[0], gs[1..], host);
    }
  }

  /** `curry(f)` applied to argument groups (`g(1)(2)(3)`, `g(1, 2)(3)`,
      `g(1)(2, 3)`, `g(1, 2, 3)`) calls `f` with the concatenated arguments. */
  lemma CurryGroupingOnValues(f: JsValue, gs: seq<seq<JsValue>>, host: Host)
    requires IsCallable(f) && gs != []
    requires |Flatten(gs[..|gs| - 1])| < FnLength(f) <= |Flatten(gs)|
    ensures ApplyGroups(CurryOf(f, host), gs, host) == Invoke(f, Flatten(gs), host)
  {
    assert [] + Flatten(gs[..|gs| - 1]) == Flatten(gs[..|gs| - 1]);
    assert [] + Flatten(gs) == Flatten(gs);
    CurriedClosureGrouping(f, [], gs, host);
  }
}
