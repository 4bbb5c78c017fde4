/**
 * `reduce` (arity 3), its continuation `subFunction` holding the reducer and
 * the continuations holding reducer and initial value; the final
 * computation is `Array.prototype.reduce` with an initial value.
 */
module ReduceOp {
  import opened Curry

  /** A reducer takes the accumulator and the next element. */
  type Reducer<!A, !T> = (A, T) -> A

  /** One actual argument of a call: a reducer, an initial value or an input array. */
  datatype ReduceArg<!A, !T> = ReducerArg(reducer: Reducer<A, T>) | InitArg(init: A) | ArrayArg(elems: seq<T>)

  /**
   * `reduce` itself; the continuation holding the reducer; the continuation
   * holding reducer and initial value, which both `reduce(r)(i)` and
   * `reduce(r, i)` return.
   */
  datatype ReduceFn<!A, !T> = Reduce | ReduceSub(reducer: Reducer<A, T>) | ReduceSubSub(reducer: Reducer<A, T>, init: A)

  /** How many more arguments the callable needs before it computes. */
  function Remaining<A, T>(f: ReduceFn<A, T>): nat {
    match f
    case Reduce => 3
    case ReduceSub(_) => 2
    case ReduceSubSub(_, _) => 1
  }

  /** Each argument the callable uses has the kind its position expects. */
  predicate Fits<A, T>(f: ReduceFn<A, T>, args: seq<ReduceArg<A, T>>) {
    match f
    case Reduce =>
      && (|args| > 0 ==> args[0].ReducerArg?)
      && (|args| > 1 ==> args[1].InitArg?)
      && (|args| > 2 ==> args[2].ArrayArg?)
    case ReduceSub(_) => (|args| > 0 ==> args[0].InitArg?) && (|args| > 1 ==> args[1].ArrayArg?)
    case ReduceSubSub(_, _) => |args| > 0 ==> args[0].ArrayArg?
  }

  /**
   * `xs.reduce(r, init)`: starting from `init`, the accumulator is combined
   * with each element from the first to the last.
   */
  function FoldLeft<A, T>(r: Reducer<A, T>, init: A, xs: seq<T>): A
    decreases |xs|
  {
    if xs == [] then init else FoldLeft(r, r(init, xs[0]), xs[1..])
  }

  /** Folding a concatenation folds the second part from the first part's result. */
  lemma {:induction false} FoldLeftAppend<A, T>(r: Reducer<A, T>, init: A, xs: seq<T>, ys: seq<T>)
    ensures FoldLeft(r, init, xs + ys) == FoldLeft(r, FoldLeft(r, init, xs), ys)
    decreases |xs|
  {
    if xs == [] {
      assert xs + ys == ys;
    } else {
      assert (xs + ys)[0] == xs[0] && (xs + ys)[1..] == xs[1..] + ys;
      FoldLeftAppend(r, r(init, xs[0]), xs[1..], ys);
    }
  }

  /**
   * The left-fold law: the result for `xs + [x]` is the reducer applied to
   * the result for `xs` and `x`; for `[]` the result is the initial value.
   */
  lemma FoldLeftSnoc<A, T>(r: Reducer<A, T>, init: A, xs: seq<T>, x: T)
    ensures FoldLeft(r, init, []) == init
    ensures FoldLeft(r, init, xs + [x]) == r(FoldLeft(r, init, xs), x)
  {
    FoldLeftAppend(r, init, xs, [x]);
    assert [x][1..] == [];
  }

  /**
   * Calling `f` with the actual arguments `args`: no argument returns the
   * callee, too few return a continuation, enough run the fold.
   */
  function Call<A, T>(f: ReduceFn<A, T>, args: seq<ReduceArg<A, T>>): (r: Returned<ReduceFn<A, T>, A>)
    requires Fits(f, args)
    ensures args == [] ==> r == Callable(f)
    ensures r.Callable? <==> |args| < Remaining(f)
  {
    match f
    case Reduce =>
      if |args| == 0 then Callable(Reduce)
      else if |args| == 1 then Callable(ReduceSub(args[0].reducer))
      else if |args| == 2 then Callable(ReduceSubSub(args[0].reducer, args[1].init))
      else Value(FoldLeft(args[0].reducer, args[1].init, args[2].elems))
    case ReduceSub(red) =>
      if |args| == 0 then Callable(f)
      else if |args| == 1 then Callable(ReduceSubSub(red, args[0].init))
      else Value(FoldLeft(red, args[0].init, args[1].elems))
    case ReduceSubSub(red, init) =>
      if |args| == 0 then Callable(f)
      else Value(FoldLeft(red, init, args[0].elems))
  }

  /**
   * `reduce(r, i, xs, ...)` is the left fold of `r` over `xs` from `i`
   * (so `i` itself for `[]`), whatever excess arguments follow; and
   * `reduce(r)(i)(xs)`, `reduce(r)(i, xs)`, `reduce(r, i)(xs)` agree with it.
   */
  lemma ReduceApplied<A, T>(r: Reducer<A, T>, i: A, xs: seq<T>, extra: seq<ReduceArg<A, T>>)
    ensures Fits(Reduce, [ReducerArg(r), InitArg(i), ArrayArg(xs)] + extra)
    ensures Call(Reduce, [ReducerArg(r), InitArg(i), ArrayArg(xs)] + extra) == Value(FoldLeft(r, i, xs))
    ensures xs == [] ==> FoldLeft(r, i, xs) == i
    ensures Call(Call(Call(Reduce, [ReducerArg(r)]).fn, [InitArg(i)]).fn, [ArrayArg(xs)]) == Value(FoldLeft(r, i, xs))
    ensures Call(Call(Reduce, [ReducerArg(r)]).fn, [InitArg(i), ArrayArg(xs)]) == Value(FoldLeft(r, i, xs))
    ensures Call(Call(Reduce, [ReducerArg(r), InitArg(i)]).fn, [ArrayArg(xs)]) == Value(FoldLeft(r, i, xs))
  {
  }

  /** Currying law: every split of the arguments gives the same outcome. */
  lemma ReduceCurrying<A, T>(f: ReduceFn<A, T>, a1: seq<ReduceArg<A, T>>, a2: seq<ReduceArg<A, T>>)
    requires Fits(f, a1 + a2)
    requires |a1| < Remaining(f)
    ensures Fits(f, a1) && Call(f, a1).Callable?
    ensures Fits(Call(f, a1).fn, a2)
    ensures Call(Call(f, a1).fn, a2) == Call(f, a1 + a2)
  {
  }
}
