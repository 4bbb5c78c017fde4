/**
 * Concrete calls of the library and their outcomes, checked against the
 * model.
 */
module Scenarios {
  import opened Curry
  import MapOp
  import FilterOp
  import ReduceOp
  import Arithmetic
  import PropOp

  /** `map(x => x * 2, [1, 2, 3])` is `[2, 4, 6]`; `map(m, [])` is `[]`. */
  lemma MapDoubles()
    ensures MapOp.Call(MapOp.Map, [MapOp.MapperArg((x: int, i: int, a: seq<int>) => x * 2), MapOp.ArrayArg([1, 2, 3])])
            == Value([2, 4, 6])
    ensures MapOp.Call(MapOp.Map, [MapOp.MapperArg((x: int, i: int, a: seq<int>) => x * 2), MapOp.ArrayArg([])])
            == Value([])
  {
    var m := (x: int, i: int, a: seq<int>) => x * 2;
    MapOp.MapApplied(m, [1, 2, 3], []);
    assert [MapOp.MapperArg(m), MapOp.ArrayArg([1, 2, 3])] + [] == [MapOp.MapperArg(m), MapOp.ArrayArg([1, 2, 3])];
    var r := MapOp.ArrayMap(m, [1, 2, 3]);
    assert r[0] == 2 && r[1] == 4 && r[2] == 6;
    assert r == [2, 4, 6];
  }

  /** `filter(x => x % 2 === 0, [1, 2, 3, 4])` is `[2, 4]`. */
  lemma FilterEvens()
    ensures FilterOp.ArrayFilter((x: int, i: int, a: seq<int>) => x % 2 == 0, [1, 2, 3, 4]) == [2, 4]
  {
  }

  /** The same through the dispatch: `filter(p, xs)` and `filter(p)(xs)` are `[2, 4]`. */
  lemma FilterEvensCalled()
    ensures FilterOp.Call(FilterOp.Filter, [FilterOp.FiltererArg((x: int, i: int, a: seq<int>) => x % 2 == 0), FilterOp.ArrayArg([1, 2, 3, 4])])
            == Value([2, 4])
    ensures FilterOp.Call(FilterOp.Call(FilterOp.Filter, [FilterOp.FiltererArg((x: int, i: int, a: seq<int>) => x % 2 == 0)]).fn,
                          [FilterOp.ArrayArg([1, 2, 3, 4])])
            == Value([2, 4])
  {
    FilterEvens();
  }

  /** `reduce((a, b) => a + b, 0, [1, 2, 3])` is `6`; `reduce((a, b) => a + b, 10, [])` is `10`. */
  lemma ReduceSums()
    ensures ReduceOp.Call(ReduceOp.Reduce, [ReduceOp.ReducerArg((a: int, b: int) => a + b), ReduceOp.InitArg(0), ReduceOp.ArrayArg([1, 2, 3])])
            == Value(6)
    ensures ReduceOp.Call(ReduceOp.Reduce, [ReduceOp.ReducerArg((a: int, b: int) => a + b), ReduceOp.InitArg(10), ReduceOp.ArrayArg([])])
            == Value(10)
  {
  }

  /** `add(2, 3)` and `add(2)(3)` are `5`; `subtract(5, 2)` and `subtract(5)(2)` are `3`. */
  lemma ArithmeticValues()
    ensures Arithmetic.Call(Arithmetic.Add, [2, 3]) == Value(5)
    ensures Arithmetic.Call(Arithmetic.Call(Arithmetic.Add, [2]).fn, [3]) == Value(5)
    ensures Arithmetic.Call(Arithmetic.Subtract, [5, 2]) == Value(3)
    ensures Arithmetic.Call(Arithmetic.Call(Arithmetic.Subtract, [5]).fn, [2]) == Value(3)
  {
  }

  /** `prop({a: 1}, 'a')` and `prop({a: 1})('a')` are `1`; `prop({a: 1}, 'b')` is `undefined`. */
  lemma PropValues()
    ensures PropOp.Call(PropOp.Prop, [PropOp.ObjectArg(map["a" := 1]), PropOp.NameArg("a")]) == Value(Some(1))
    ensures PropOp.Call(PropOp.Call(PropOp.Prop, [PropOp.ObjectArg(map["a" := 1])]).fn, [PropOp.NameArg("a")])
            == Value(Some(1))
    ensures PropOp.Call(PropOp.Prop, [PropOp.ObjectArg(map["a" := 1]), PropOp.NameArg("b")]) == Value(None)
  {
  }
}
