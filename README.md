# Curried functional utilities, modelled in Dafny

This project models the curried utility library of `src/exercises/14/index.ts`.
Its exports are `map`, `filter`, `reduce`, `add`, `subtract`, `prop` and `pipe`.
The six curried exports (`map`, `filter`, `reduce`, `add`, `subtract`, `prop`) count the
arguments they were actually given and then do one of three things:

- with no argument, it returns itself;
- with fewer arguments than its arity, it returns a continuation (`subFunction`,
  `subSubFunction`) that holds the arguments given so far and follows the same rule;
- with the full arity or more, it runs its final computation and ignores the excess arguments.

`pipe` is different. `pipe()` returns itself. `pipe(f1, …, fn)` keeps every argument as a stage
and returns a runner. The runner always runs the stages, even when it is called with no
argument.

## How the model is built

- One module per export: `MapOp`, `FilterOp`, `ReduceOp`, `Arithmetic` (`add` and `subtract`),
  `PropOp` and `PipeOp`. `Curry` holds the shared types and `Scenarios` holds concrete calls.
- The callables of each export form a datatype. The export itself is one constructor
  (`MapOp.Map`, `ReduceOp.Reduce`, …). Each continuation is another constructor that holds
  the arguments it closed over (`MapOp.MapSub(mapper)`, `ReduceOp.ReduceSubSub(reducer, init)`, …).
  "Returns itself" is therefore `Callable(f)` for the callee `f`.
- A call is `Call(f, args)`. `args` is the sequence of actual arguments, so its length plays
  the role of `arguments.length`. An omitted argument is simply absent from the sequence. It
  is never confused with an argument that was passed.
- Each argument is a value of a per-operation sum type (a mapper or an array, for example).
  `Fits(f, args)` demands that every argument the computation uses has the kind its position
  expects. Arguments past the arity may be of any kind and are ignored.
- A call's outcome is `Returned<F, R>`: either `Callable(fn)` or `Value(value)`.
- Arrays are `seq`, objects for `prop` are `map<string, V>`, and JavaScript's `undefined` is
  `Option.None`. Numbers for `add` and `subtract` are `int`.
- `map`/`filter` callbacks receive `(value, index, array)`. A filterer's truthiness is
  modelled as a `bool` result. `reduce` callbacks receive `(accumulator, value)`.
- `pipe` stages are functions from their argument list to a value. The runner's `for` loop is
  the method `PipeOp.Run`. It is proved equal to the recursive composition `PipeOp.Compose`:
  the first stage gets the runner's arguments, the remaining pipeline gets that stage's
  result as its only argument.
- In the source, the closure `reduce(r)(i)` (line 169) and the closure `reduce(r, i)`
  (line 180) have identical bodies. Both are modelled by the one constructor
  `ReduceOp.ReduceSubSub`, since closure identity is not modelled (see below).

## Model

| member | source | states |
|---|---|---|
| MapOp.MapFrom | src/exercises/14/index.ts:72-75 | the mapping from index `k` on has one element per remaining index, and element `i` is the mapper applied to `(xs[k+i], k+i, xs)` |
| MapOp.ArrayMap | src/exercises/14/index.ts:75 | `xs.map(m)` has the length of `xs`, and element `i` is `m(xs[i], i, xs)` |
| MapOp.Call | src/exercises/14/index.ts:60-76 | `map` and its continuation return themselves when given no argument; they return a callable exactly when fewer arguments than the remaining arity are given |
| MapOp.MapApplied | src/exercises/14/index.ts:67-75 | `map(m, xs, ...)` is a value of the same length as `xs` with element `i` equal to `m(xs[i], i, xs)`; it is `[]` for `[]` and ignores excess arguments; `map(m)(xs)` equals `map(m, xs)` |
| MapOp.MapCurrying | src/exercises/14/index.ts:64-75 | for every callable and every split of well-formed arguments whose first part leaves a continuation, calling the continuation with the second part equals passing all arguments at once |
| FilterOp.FilterFrom | src/exercises/14/index.ts:117-120 | filtering from index `k` on is no longer than the part of the array it scans |
| FilterOp.ArrayFilter | src/exercises/14/index.ts:120 | `xs.filter(p)` is no longer than `xs` |
| FilterOp.FilterFromSelects | src/exercises/14/index.ts:117-120 | the filtering from index `k` on is exactly the elements at the ascending positions `i >= k` where `p(xs[i], i, xs)` holds, and it misses no such position |
| FilterOp.FilterSelects | src/exercises/14/index.ts:120 | `filter(p, xs)` keeps exactly the elements of `xs` at which `p` is truthy, in their original order (a subsequence of `xs`) |
| FilterOp.Call | src/exercises/14/index.ts:105-121 | `filter` and its continuation return themselves when given no argument; they return a callable exactly when fewer arguments than the remaining arity are given |
| FilterOp.FilterApplied | src/exercises/14/index.ts:112-120 | `filter(p, xs, ...)` is the subsequence selected by `p`, no longer than `xs`, whatever excess arguments follow; `filter(p)(xs)` equals `filter(p, xs)` |
| FilterOp.FilterCurrying | src/exercises/14/index.ts:109-120 | every split of well-formed arguments gives the same outcome as passing them all at once |
| ReduceOp.FoldLeft | src/exercises/14/index.ts:173-187 | `xs.reduce(reducer, init)` as used at lines 173, 176, 184 and 187; it has no contract of its own and is characterised by `ReduceOp.FoldLeftSnoc` and `ReduceOp.FoldLeftAppend` |
| ReduceOp.FoldLeftAppend | src/exercises/14/index.ts:187 | folding `xs + ys` equals folding `ys` from the result of folding `xs` |
| ReduceOp.FoldLeftSnoc | src/exercises/14/index.ts:187 | the fold of `[]` is the initial value; the fold of `xs + [x]` is the reducer applied to the fold of `xs` and `x` (a left fold) |
| ReduceOp.Call | src/exercises/14/index.ts:159-188 | `reduce` and each of its continuations return themselves when given no argument; they return a callable exactly when fewer arguments than the remaining arity are given |
| ReduceOp.ReduceApplied | src/exercises/14/index.ts:163-187 | `reduce(r, i, xs, ...)` is the left fold of `r` over `xs` from `i` (so `i` for `[]`); `reduce(r)(i)(xs)`, `reduce(r)(i, xs)` and `reduce(r, i)(xs)` give the same value |
| ReduceOp.ReduceCurrying | src/exercises/14/index.ts:160-187 | every split of well-formed arguments gives the same outcome as passing them all at once |
| Arithmetic.Call | src/exercises/14/index.ts:212-253 | `add`, `subtract` and their continuations return themselves when given no operand; they return a callable exactly when fewer operands than the remaining arity are given, so two or more operands take the full-application branch |
| Arithmetic.ArithApplied | src/exercises/14/index.ts:212-253 | `add(a, b, ...) = a + b = add(a)(b, ...)` and `subtract(a, b, ...) = a - b = subtract(a)(b, ...)` |
| Arithmetic.ArithCurrying | src/exercises/14/index.ts:213-252 | every split of the operands gives the same outcome as passing them all at once |
| PropOp.Lookup | src/exercises/14/index.ts:285-288 | `obj[name]` gives a value exactly when `name` is a property of `obj`, and that value is the one stored under `name`; otherwise `undefined` |
| PropOp.Call | src/exercises/14/index.ts:276-289 | `prop` and its continuation return themselves when given no argument; they return a callable exactly when fewer arguments than the remaining arity are given |
| PropOp.PropApplied | src/exercises/14/index.ts:280-288 | `prop(obj, name, ...)` is the value stored under `name`, or `undefined` when there is none (never a failure); it equals `prop(obj)(name)` |
| PropOp.PropCurrying | src/exercises/14/index.ts:277-288 | every split of well-formed arguments gives the same outcome as passing them all at once |
| PipeOp.Call | src/exercises/14/index.ts:333-337 | `pipe()` returns `pipe` itself; `pipe(f1, ..., fn)` returns a runner over exactly those stages |
| PipeOp.ComposeAppend | src/exercises/14/index.ts:337-345 | running the stages `s1 + s2` runs `s2` on the single result of `s1` (pipelines associate) |
| PipeOp.ComposeSmall | src/exercises/14/index.ts:337-345 | `pipe(f)(args) = f(args)` and `pipe(f, g, h)(args) = h(g(f(args)))` |
| PipeOp.Run | src/exercises/14/index.ts:337-345 | the runner's loop returns the composition of the stages: the first stage gets the runner's exact arguments, each later stage only the previous result, and the last result is returned; with no stages the result stays `undefined`. The runner changes nothing, so it can be reused across calls |
| Scenarios.MapDoubles | src/exercises/14/index.ts:60-76 | `map(x => x * 2, [1, 2, 3])` is `[2, 4, 6]` and `map(m, [])` is `[]` |
| Scenarios.FilterEvens | src/exercises/14/index.ts:120 | filtering `[1, 2, 3, 4]` for even numbers gives `[2, 4]` |
| Scenarios.FilterEvensCalled | src/exercises/14/index.ts:105-121 | `filter(x => x % 2 === 0, [1, 2, 3, 4])` and `filter(x => x % 2 === 0)([1, 2, 3, 4])`, through the dispatch, are `[2, 4]` |
| Scenarios.ReduceSums | src/exercises/14/index.ts:159-188 | `reduce((a, b) => a + b, 0, [1, 2, 3])` is `6` and `reduce((a, b) => a + b, 10, [])` is `10`, through the dispatch |
| Scenarios.ArithmeticValues | src/exercises/14/index.ts:212-253 | `add(2, 3)` and `add(2)(3)` are `5`, and `subtract(5, 2)` and `subtract(5)(2)` are `3`; the partial calls go through the dispatch |
| Scenarios.PropValues | src/exercises/14/index.ts:276-289 | `prop({a: 1}, 'a')` and `prop({a: 1})('a')` are `1`, and a missing name gives `undefined`; the partial call goes through the dispatch |

## Left out

- Reference identity is not modelled: `map() === map` is stated as `Call(Map, []) == Callable(Map)` on values. So are the distinct closures a JavaScript call creates each time; `reduce(r)(i)` and `reduce(r, i)` share one constructor.
- Host faults are not modelled. These are a callback that is not a function, an input that is not an array, and `prop` on an absent object. They arise at the continuation sites (lines 72, 117, 173, 176, 184, 285) and at the full-application sites (lines 75, 120, 187, 288). `Fits` requires each used argument to have the expected kind.
- JavaScript `number` semantics for `add` and `subtract` are not modelled: IEEE doubles, `NaN`, and string concatenation through `+`. Operands are unbounded integers.
- `prop` reads own properties only. The prototype chain and the coercion of non-string keys are not modelled.
- Callback extras are not modelled. `reduce` callbacks also receive the index and the array in JavaScript, and filterer results are read only for truthiness (a `bool`).
- Sparse arrays and holes, which `Array.prototype.map`/`filter`/`reduce` skip, are not modelled.
- Aliasing of captured arguments is not modelled. Continuations hold the object of `prop(obj)` and the initial value of `reduce(r, init)` / `reduce(r)(init)` as values (`PropOp.PropSub`, `ReduceOp.ReduceSubSub`). So a later mutation of that object through another reference, or of the accumulator by the reducer from one call to the next, is not seen by the model.
- Mutation of the input array by a callback is not modelled, since callbacks are pure functions here.
- The TypeScript overload signatures and type aliases (lines 31-44, 78-87, 123-129, 190-198, 255-260, 291-311) are types only and have no behaviour.
- `src/exercises/11`, `src/exercises/12` and `src/exercises/13` are ambient declarations and module augmentations without executable bodies, so they are not part of this model. This includes the commented-out `getAverageValue` example, which uses floating-point division.
