/**
 * `map` (arity 2) and its continuation `subFunction`; the final computation
 * is `Array.prototype.map`.
 */
module MapOp {
  import opened Curry

  /** A mapper is called with the element, its index and the whole array. */
  type Mapper<!T, U> = (T, int, seq<T>) -> U

  /** One actual argument of a call: a mapper or an input array. */
  datatype MapArg<!T, U> = MapperArg(mapper: Mapper<T, U>) | ArrayArg(elems: seq<T>)

  /** `map` itself, or the continuation that holds the mapper. */
  datatype MapFn<!T, U> = Map | MapSub(mapper: Mapper<T, U>)

  /** How many more arguments the callable needs before it computes. */
  function Remaining<T, U>(f: MapFn<T, U>): nat {
    match f
    case Map => 2
    case MapSub(_) => 1
  }

  /**
   * Each argument the callable uses has the kind its position expects
   * (mapper, then array); arguments beyond the arity are ignored.
   */
  predicate Fits<T, U>(f: MapFn<T, U>, args: seq<MapArg<T, U>>) {
    match f
    case Map => (|args| > 0 ==> args[0].MapperArg?) && (|args| > 1 ==> args[1].ArrayArg?)
    case MapSub(_) => |args| > 0 ==> args[0].ArrayArg?
  }

  /** `Array.prototype.map` from index `k` on: one mapper call per index, in order. */
  function MapFrom<T, U>(m: Mapper<T, U>, xs: seq<T>, k: nat): (r: seq<U>)
    requires k <= |xs|
    ensures |r| == |xs| - k
    ensures forall i :: 0 <= i < |r| ==> r[i] == m(xs[k + i], k + i, xs)
    decreases |xs| - k
  {
    if k == |xs| then [] else [m(xs[k], k, xs)] + MapFrom(m, xs, k + 1)
  }

  /** `xs.map(m)`: same length as `xs`, element `i` is `m(xs[i], i, xs)`. */
  function ArrayMap<T, U>(m: Mapper<T, U>, xs: seq<T>): (r: seq<U>)
    ensures |r| == |xs|
    ensures forall i :: 0 <= i < |xs| ==> r[i] == m(xs[i], i, xs)
  {
    MapFrom(m, xs, 0)
  }

  /**
   * Calling `f` with the actual arguments `args`: no argument returns the
   * callee, too few return a continuation, enough run the mapping.
   */
  function Call<T, U>(f: MapFn<T, U>, args: seq<MapArg<T, U>>): (r: Returned<MapFn<T, U>, seq<U>>)
    requires Fits(f, args)
    ensures args == [] ==> r == Callable(f)
    ensures r.Callable? <==> |args| < Remaining(f)
  {
    match f
    case Map =>
      if |args| == 0 then Callable(Map)
      else if |args| == 1 then Callable(MapSub(args[0].mapper))
      else Value(ArrayMap(args[0].mapper, args[1].elems))
    case MapSub(m) =>
      if |args| == 0 then Callable(f)
      else Value(ArrayMap(m, args[0].elems))
  }

  /**
   * `map(m, xs, ...)` maps every element, keeps the length, ignores excess
   * arguments, and gives `[]` for `[]`; `map(m)(xs)` gives the same array.
   */
  lemma MapApplied<T, U>(m: Mapper<T, U>, xs: seq<T>, extra: seq<MapArg<T, U>>)
    ensures Fits(Map, [MapperArg(m), ArrayArg(xs)] + extra)
    ensures var r := Call(Map, [MapperArg(m), ArrayArg(xs)] + extra);
            && r.Value?
            && |r.value| == |xs|
            && (forall i :: 0 <= i < |xs| ==> r.value[i] == m(xs[i], i, xs))
            && (xs == [] ==> r.value == [])
    ensures Call(Call(Map, [MapperArg(m)]).fn, [ArrayArg(xs)]) == Call(Map, [MapperArg(m), ArrayArg(xs)])
  {
  }

  /**
   * Currying law: splitting the arguments of any callable into a call that
   * yields a continuation and a call of that continuation gives the same
   * outcome as passing them all at once.
   */
  lemma MapCurrying<T, U>(f: MapFn<T, U>, a1: seq<MapArg<T, U>>, a2: seq<MapArg<T, U>>)
    requires Fits(f, a1 + a2)
    requires |a1| < Remaining(f)
    ensures Fits(f, a1) && Call(f, a1).Callable?
    ensures Fits(Call(f, a1).fn, a2)
    ensures Call(Call(f, a1).fn, a2) == Call(f, a1 + a2)
  {
  }
}
