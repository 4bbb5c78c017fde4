/**
 * `filter` (arity 2) and its continuation `subFunction`; the final
 * computation is `Array.prototype.filter`.
 */
module FilterOp {
  import opened Curry

  /**
   * A filterer is called with the element, its index and the whole array;
   * its result is read for truthiness, which is what the `bool` stands for.
   */
  type Filterer<!T> = (T, int, seq<T>) -> bool

  /** One actual argument of a call: a filterer or an input array. */
  datatype FilterArg<!T> = FiltererArg(keep: Filterer<T>) | ArrayArg(elems: seq<T>)

  /** `filter` itself, or the continuation that holds the filterer. */
  datatype FilterFn<!T> = Filter | FilterSub(keep: Filterer<T>)

  /** How many more arguments the callable needs before it computes. */
  function Remaining<T>(f: FilterFn<T>): nat {
    match f
    case Filter => 2
    case FilterSub(_) => 1
  }

  /** Each argument the callable uses has the kind its position expects. */
  predicate Fits<T>(f: FilterFn<T>, args: seq<FilterArg<T>>) {
    match f
    case Filter => (|args| > 0 ==> args[0].FiltererArg?) && (|args| > 1 ==> args[1].ArrayArg?)
    case FilterSub(_) => |args| > 0 ==> args[0].ArrayArg?
  }

  /** `Array.prototype.filter` from index `k` on: tests each index in order. */
  function FilterFrom<T>(p: Filterer<T>, xs: seq<T>, k: nat): (r: seq<T>)
    requires k <= |xs|
    ensures |r| <= |xs| - k
    decreases |xs| - k
  {
    if k == |xs| then []
    else (if p(xs[k], k, xs) then [xs[k]] else []) + FilterFrom(p, xs, k + 1)
  }

  /** `xs.filter(p)`. */
  function ArrayFilter<T>(p: Filterer<T>, xs: seq<T>): (r: seq<T>)
    ensures |r| <= |xs|
  {
    FilterFrom(p, xs, 0)
  }

  /** The indices `i >= k` of `xs` at which `p` holds, in ascending order. */
  ghost function KeptFrom<T>(p: Filterer<T>, xs: seq<T>, k: nat): seq<int>
    requires k <= |xs|
    decreases |xs| - k
  {
    if k == |xs| then []
    else (if p(xs[k], k, xs) then [k] else []) + KeptFrom(p, xs, k + 1)
  }

  /**
   * `r` consists of exactly the elements `xs[i]`, `i >= k`, at which `p`
   * holds, in their original order: `idx` lists their positions, strictly
   * increasing, and misses no position at which `p` holds.
   */
  ghost predicate SelectsFrom<T>(p: Filterer<T>, xs: seq<T>, k: nat, r: seq<T>, idx: seq<int>) {
    && |idx| == |r|
    && (forall j :: 0 <= j < |idx| ==> k <= idx[j] < |xs| && r[j] == xs[idx[j]] && p(xs[idx[j]], idx[j], xs))
    && (forall j, j' :: 0 <= j < j' < |idx| ==> idx[j] < idx[j'])
    && (forall i :: k <= i < |xs| && p(xs[i], i, xs) ==> i in idx)
  }

  lemma {:induction false} FilterFromSelects<T>(p: Filterer<T>, xs: seq<T>, k: nat)
    requires k <= |xs|
    ensures SelectsFrom(p, xs, k, FilterFrom(p, xs, k), KeptFrom(p, xs, k))
    decreases |xs| - k
  {
    if k < |xs| {
      FilterFromSelects(p, xs, k + 1);
      var r', idx' := FilterFrom(p, xs, k + 1), KeptFrom(p, xs, k + 1);
      if p(xs[k], k, xs) {
        assert FilterFrom(p, xs, k) == [xs[k]] + r' && KeptFrom(p, xs, k) == [k] + idx';
        SelectsPrepend(p, xs, k, r', idx');
      } else {
        assert FilterFrom(p, xs, k) == r' && KeptFrom(p, xs, k) == idx';
        SelectsSkip(p, xs, k, r', idx');
      }
    }
  }

  /** The step of `FilterFromSelects` at an index `k` that is dropped. */
  lemma SelectsSkip<T>(p: Filterer<T>, xs: seq<T>, k: nat, r: seq<T>, idx: seq<int>)
    requires k < |xs| && !p(xs[k], k, xs)
    requires SelectsFrom(p, xs, k + 1, r, idx)
    ensures SelectsFrom(p, xs, k, r, idx)
  {
  }

  /** The step of `FilterFromSelects` at an index `k` that is kept. */
  lemma SelectsPrepend<T>(p: Filterer<T>, xs: seq<T>, k: nat, r': seq<T>, idx': seq<int>)
    requires k < |xs| && p(xs[k], k, xs)
    requires SelectsFrom(p, xs, k + 1, r', idx')
    ensures SelectsFrom(p, xs, k, [xs[k]] + r', [k] + idx')
  {
  }

  /**
   * `filter(p, xs)` keeps exactly the elements of `xs` at which `p` is
   * truthy, in their original order: it is the subsequence of `xs` at the
   * positions `KeptFrom(p, xs, 0)`.
   */
  lemma FilterSelects<T>(p: Filterer<T>, xs: seq<T>)
    ensures SelectsFrom(p, xs, 0, ArrayFilter(p, xs), KeptFrom(p, xs, 0))
  {
    FilterFromSelects(p, xs, 0);
  }

  /**
   * Calling `f` with the actual arguments `args`: no argument returns the
   * callee, too few return a continuation, enough run the filtering.
   */
  function Call<T>(f: FilterFn<T>, args: seq<FilterArg<T>>): (r: Returned<FilterFn<T>, seq<T>>)
    requires Fits(f, args)
    ensures args == [] ==> r == Callable(f)
    ensures r.Callable? <==> |args| < Remaining(f)
  {
    match f
    case Filter =>
      if |args| == 0 then Callable(Filter)
      else if |args| == 1 then Callable(FilterSub(args[0].keep))
      else Value(ArrayFilter(args[0].keep, args[1].elems))
    case FilterSub(p) =>
      if |args| == 0 then Callable(f)
      else Value(ArrayFilter(p, args[0].elems))
  }

  /**
   * `filter(p, xs, ...)` is the subsequence of `xs` selected by `p`, no
   * longer than `xs`, whatever excess arguments follow; `filter(p)(xs)`
   * gives the same array.
   */
  lemma FilterApplied<T>(p: Filterer<T>, xs: seq<T>, extra: seq<FilterArg<T>>)
    ensures Fits(Filter, [FiltererArg(p), ArrayArg(xs)] + extra)
    ensures var r := Call(Filter, [FiltererArg(p), ArrayArg(xs)] + extra);
            && r.Value?
            && |r.value| <= |xs|
            && SelectsFrom(p, xs, 0, r.value, KeptFrom(p, xs, 0))
    ensures Call(Call(Filter, [FiltererArg(p)]).fn, [ArrayArg(xs)]) == Call(Filter, [FiltererArg(p), ArrayArg(xs)])
  {
    var args := [FiltererArg(p), ArrayArg(xs)] + extra;
    assert args[0] == FiltererArg(p) && args[1] == ArrayArg(xs);
    FilterSelects(p, xs);
  }

  /** Currying law, as for `map`. */
  lemma FilterCurrying<T>(f: FilterFn<T>, a1: seq<FilterArg<T>>, a2: seq<FilterArg<T>>)
    requires Fits(f, a1 + a2)
    requires |a1| < Remaining(f)
    ensures Fits(f, a1) && Call(f, a1).Callable?
    ensures Fits(Call(f, a1).fn, a2)
    ensures Call(Call(f, a1).fn, a2) == Call(f, a1 + a2)
  {
  }
}
