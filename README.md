# mini-lodash core, modelled in Dafny

This project models the core of mini-lodash (`src/lodash.js`), a small JavaScript utility library:

- the collection operators `map`, `filter` and `reduce`;
- the private helpers `isArrayLike`, `toArray`, `getLength` and `getElement`;
- `curry` and the table `curriedMethods`;
- the chain wrapper that `chain(value)` returns. It records operator calls while lazy, runs them on `value()`, and applies them at once after `run()`.

JavaScript values are the datatype `JsValues.JsValue`:

- undefined and null;
- non-string primitives;
- Arrays, whose slots may be holes;
- plain objects with an optional integer `length` and index-keyed properties;
- user functions with a declared parameter count;
- the library's own `map`/`filter`/`reduce`;
- the closures `curryN` returns;
- the `{method, args}` descriptors the wrapper records;
- the Error and TypeError objects the library throws.

A callback is user code. It is run by a `Host`, which maps a function value and its arguments to `Ok(v)` or `Throw(e)`. The source's `try`/`catch` around a callback becomes a case split on that outcome.

`map`, `filter`, `reduce` and the array-like branch of `toArray` are index loops in the source. Here each is a `method` with the same loop, proved equal to a specification function (`MapResult`, `FilterResult`, `ReduceFrom`/`ReduceResult`, `ToArrayResult`). The lemmas state the properties of those functions. The wrapper is the class `Chain.Wrapper`, whose fields `value`, `actions` and `lazy` stand for `__value`, `__actions` and `__lazy`.

Files:

- `values.dfy`: values and the helpers.
- `collections.dfy`: toArray, map, filter, reduce.
- `currying.dfy`: the `curryN` state machine and `curry` on function values.
- `chain.dfy`: the chain.

Behaviour the model keeps as the code has it:

- Functions pass `isArrayLike`, because their `length` is a number. So `map(f, g)` runs over `f.length` missing elements, and a curried closure (whose `length` is 0) is an empty collection.
- `reduce` has three declared parameters. A chained `.reduce(f)` without a seed therefore yields a curried closure, not a reduced value.
- `value()` folds the recorded actions with the library's own `reduce`, seeded with `__value`. When `__value` is undefined, reduce treats that as "no seed". The fold then starts from the first descriptor object and applies only the remaining actions (`Chain.Evaluate`).
- `value()` clears the actions and leaves lazy mode, but does not store its result. Only `run()` stores it, so a second `value()` returns the value the chain started from (`Chain.ValueTwice`).
- `map` with a non-callable iteratee returns toArray's result. For an array-like object that holds only the elements the object owns, without the missing indices.


## Model

| member | source | states |
|---|---|---|
| JsValues.IsArrayLike | src/lodash.js:10-16 | the array-likes are exactly the plain objects whose integer `length` lies in 0..MAX_SAFE_INTEGER, and the functions (whose `length` is their parameter count); Arrays, nil and primitives never are |
| JsValues.GetLength | src/lodash.js:33-34 | getLength is the value's `length` for an Array or array-like (at most MAX_SAFE_INTEGER for an array-like), and 0 for anything else |
| JsValues.GetElement | src/lodash.js:36-42 | getElement is `collection[index]` exactly for an owned index below getLength of an Array or array-like, and undefined otherwise |
| JsValues.FunctionsAreArrayLike | src/lodash.js:10-16 | every function value passes isArrayLike, with its parameter count as length and no elements |
| JsValues.NonCollections | src/lodash.js:10-16 | null, undefined, primitives, errors, descriptors and objects without a numeric length (such as `{}`) are neither Arrays nor array-like, and have length 0 |
| Collections.ToArrayResult | src/lodash.js:19-30 | toArray always returns an Array without holes |
| Collections.ToArray | src/lodash.js:19-30 | the loop over an array-like pushes exactly the owned indices, in order; all branches agree with ToArrayResult |
| Collections.PresentBounds | src/lodash.js:22-27 | toArray of an array-like is never longer than its length, and has exactly that length iff every index below it is owned |
| Collections.ToArrayAgreesWithGetElement | src/lodash.js:19-30 | for an Array (holes read as undefined), or an array-like owning every index, toArray lists getElement at every index below getLength |
| Collections.ToArrayCopiesDense | src/lodash.js:21 | toArray of an Array without holes is an element-wise copy of it |
| Collections.MapResult | src/lodash.js:71-88 | map throws a TypeError exactly when the input is not a collection, and otherwise returns an Array |
| Collections.Map | src/lodash.js:71-88 | the map loop computes MapResult: one entry per index below getLength, each the iteratee's value or the error it threw |
| Collections.MapPositions | src/lodash.js:76-87 | with a callable iteratee the result's length equals getLength, and entry i is what `iteratee(getElement(c, i), i, c)` returned or threw |
| Collections.MapNonCallableCopies | src/lodash.js:74 | with a non-callable iteratee, map of an Array without holes returns an equal Array |
| Collections.FilterResult | src/lodash.js:91-107 | filter throws a TypeError exactly when the input is not a collection; otherwise it returns an Array no longer than getLength |
| Collections.Filter | src/lodash.js:91-107 | the filter loop computes FilterResult; a non-callable predicate gives [] |
| Collections.FilterShorter | src/lodash.js:98-106 | the elements kept among the first n indices are at most n |
| Collections.KeptIndicesExact | src/lodash.js:98-105 | the kept indices are ascending and below n, and i is kept iff the predicate returned truthy for it without throwing |
| Collections.FilterAtKeptIndices | src/lodash.js:98-105 | entry j of filter's result is the element at the j-th kept index |
| Collections.FilterSelectsKept | src/lodash.js:91-107 | filter returns the order-preserving subsequence of the elements at exactly the indices whose predicate call returned truthy without throwing |
| Collections.FilterNothingKept | src/lodash.js:100-104 | a predicate that throws (or is falsy) everywhere leaves an empty result |
| Collections.FilterEverythingKept | src/lodash.js:101 | a predicate truthy everywhere keeps every element, in order |
| Collections.ReduceFrom | src/lodash.js:113-132 | once the checks pass, reduce throws (a plain Error) exactly when there is no seed and the collection is empty; reducer errors never escape |
| Collections.ReduceResult | src/lodash.js:109-133 | reduce throws iff the input is not a collection (TypeError) or is empty with a callable reducer and no seed; a non-callable reducer returns the seed unchanged |
| Collections.ReduceWith | src/lodash.js:113-132 | the reduce loop, with its seed choice and its break on a throwing step, computes ReduceFrom |
| Collections.Reduce | src/lodash.js:109-133 | reduce, with its two checks before the loop, computes ReduceResult |
| Collections.FoldSplit | src/lodash.js:123-130 | folding to index k and then on from k is folding the whole range; a fold that broke off stays broken |
| Collections.ReduceStopsAtThrow | src/lodash.js:123-132 | with a seed, if the reducer throws at index k, reduce returns the accumulator computed from the indices before k |
| Collections.ReduceUnseededStopsAtThrow | src/lodash.js:117-130 | without a seed, the fold starts at element 0 and index 1, and stops at the first throwing step in the same way |
| Collections.ReduceFirstThrowKeepsSeed | src/lodash.js:125-128 | a seeded reduce whose reducer throws on its first call returns the seed |
| Collections.NonCollectionsThrow | src/lodash.js:72 | map, filter and reduce (lines 72, 92, 110) throw a TypeError for a non-collection, and the outcome does not depend on the callback's behaviour |
| Currying.CurryN | src/lodash.js:139-142 | curryN keeps the accumulated arguments, in order, whether it waits or calls |
| Currying.CurryCallsOnce | src/lodash.js:139-144 | the curried function is called at most once, exactly when the accumulated count reaches the arity, with at least arity arguments forming a prefix of all supplied ones |
| Currying.CurryGrouping | src/lodash.js:139-142 | when the last group reaches the arity, the single call receives exactly all supplied arguments, however they were grouped |
| Currying.Invoke | src/lodash.js:141-142 | calling something that is not a function throws a TypeError |
| Currying.CurryOf | src/lodash.js:136-137 | curry of a non-function throws a TypeError |
| Currying.CurryZeroArity | src/lodash.js:144 | curry of a function declaring no parameters calls it at once, with no arguments |
| Currying.CurriedMethod | src/lodash.js:148-152 | each entry of curriedMethods is a function whose `length` is 0 (a rest-parameter closure) |
| Currying.CurriedMethodCalls | src/lodash.js:139-152 | calling `curriedMethods[op]` runs the operator with the arguments once they reach its arity, and otherwise returns a closure holding them |
| Currying.CurriedWaits | src/lodash.js:142 | a closure whose held and new arguments are still fewer than the arity calls nothing and returns a closure holding all of them, in order |
| Currying.CurriedMethodsAreClosures | src/lodash.js:148-152 | curry of the library's map, filter and reduce yields closures holding no arguments yet |
| Currying.CurriedClosureGrouping | src/lodash.js:139-142 | feeding a curried closure argument groups until the last reaches the arity calls the target once with the held and supplied arguments, in order |
| Currying.CurryGroupingOnValues | src/lodash.js:136-145 | `curry(f)` applied to any grouping of arguments whose last group reaches f's arity calls f with their concatenation |
| Chain.ChainStep | src/lodash.js:165-167 | the reducer of value(): a recorded operator call runs the operator when the held value plus its arguments reach the arity, and yields the waiting closure otherwise; any item other than a descriptor throws |
| Chain.ChainedReduceWithoutSeedIsPartial | src/lodash.js:148-152 | `.reduce(f)` without a seed yields a curried closure holding the value and f, not a reduced value |
| Chain.ChainedOperators | src/lodash.js:183-192 | `.map(f)`, `.filter(p)` and `.reduce(f, seed)` are map, filter and reduce of the held value |
| Chain.FoldIsPipeline | src/lodash.js:164-167 | reduce over the recorded descriptors, from index i, is applying actions i onward in order and stopping at the first that throws |
| Chain.Evaluate | src/lodash.js:164-167 | for a held value other than undefined, the fold of value() applies the recorded operators in insertion order, each output feeding the next, and a throwing step ends it with the previous result; for an undefined held value, reduce's seed rule (lines 117-120) starts the fold from the first descriptor object and applies only the remaining actions |
| Chain.ChainMapFilterExample | test/index.test.js:95-101 | `chain([1,2,3,4,5]).map(n => n*2).filter(n => n > 5).value()` is `[6, 8, 10]` |
| Chain.EagerStep | src/lodash.js:190 | the eager operator call, run with the map/filter/reduce loops, computes the same outcome as the recorded step |
| Chain.Wrapper.constructor | src/lodash.js:154-159 | a new wrapper holds the value, no actions, and is lazy |
| Chain.Wrapper.Chained | src/lodash.js:183-193 | lazy: appends exactly one descriptor at the end and leaves the value alone; eager: sets the value to the curried operator's result, or leaves it and reports what was thrown; actions unchanged; returns the same wrapper |
| Chain.Wrapper.Value | src/lodash.js:161-174 | lazy with actions: returns their fold over the value, empties the actions, leaves lazy mode, and keeps the held value; otherwise returns the held value and changes nothing |
| Chain.Wrapper.Run | src/lodash.js:177-181 | stores value()'s result, and leaves the wrapper non-lazy with no actions |
| Chain.Chain | src/lodash.js:203 | chain returns a fresh lazy wrapper holding the value |
| Chain.ValueTwice | src/lodash.js:161-174 | after one recorded operator, the first value() returns its result and a second value() returns the original held value |
| Chain.RunThenChained | src/lodash.js:177-192 | after run(), an operator call is applied at once to the held value |

## Left out

- Chain.Chain and Chain.Wrapper.constructor: hold the value they are given, because deepClone (src/lodash.js:44-68) is not modelled. The source's copy turns an array-like object into a compacted Array; these two members keep it as is. Values here are finite trees without identity, so there is no other aliasing for a copy to break. Self-referential objects cannot be expressed at all (test/index.test.js:150-165).
- Strings are not modelled. A string primitive has a numeric `length`, and `in` throws on it. Prim stands for numbers and booleans only.
- Non-integer, NaN and infinite `length` values are not modelled (the `Math.floor` test, src/lodash.js:15). A length is an integer, checked against `MAX_SAFE_INTEGER`.
- Properties other than integer indices and `length` are not modelled: prototypes, named keys, inherited indices. Neither are JavaScript truthiness of strings, NaN and -0.
- `this` binding in `func.apply(this, args)` is not modelled.
- Callbacks are pure functions of their arguments, given by the `Host`. Their side effects, such as call counts, are not modelled. So "the iteratee is not called in lazy mode" appears only as "a lazy operator call records and evaluates nothing".
- When the library's own functions, or curried closures, are passed as callbacks to map, filter or reduce, they are also run by the `Host`. Their behaviour is therefore not tied to `Invoke`. `Invoke` runs them faithfully when `curry` and the chain call them.
- Error messages are not modelled; only TypeError versus Error is kept.
- Debounce and throttle are not present in src/lodash.js and are not modelled.
- webpack.config.js (build configuration) and test/index.test.js (used only as evidence for properties) are not part of this model.
