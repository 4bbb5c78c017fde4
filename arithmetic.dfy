/**
 * `add` and `subtract` (arity 2 each) and their continuations
 * `subFunction` holding the first operand. Operands are integers.
 */
module Arithmetic {
  import opened Curry

  /** `add` and `subtract` themselves, and the continuations holding `a`. */
  datatype ArithFn = Add | AddSub(a: int) | Subtract | SubtractSub(a: int)

  /** How many more operands the callable needs before it computes. */
  function Remaining(f: ArithFn): nat {
    if f.Add? || f.Subtract? then 2 else 1
  }

  /**
   * Calling `f` with the actual operands `args`: no operand returns the
   * callee, a single operand given to `add` or `subtract` returns a
   * continuation, and any further operands beyond the arity are ignored.
   */
  function Call(f: ArithFn, args: seq<int>): (r: Returned<ArithFn, int>)
    ensures args == [] ==> r == Callable(f)
    ensures r.Callable? <==> |args| < Remaining(f)
  {
    if |args| == 0 then Callable(f)
    else match f
      case Add => if |args| == 1 then Callable(AddSub(args[0])) else Value(args[0] + args[1])
      case AddSub(a) => Value(a + args[0])
      case Subtract => if |args| == 1 then Callable(SubtractSub(args[0])) else Value(args[0] - args[1])
      case SubtractSub(a) => Value(a - args[0])
  }

  /**
   * `add(a, b, ...) = a + b = add(a)(b, ...)` and
   * `subtract(a, b, ...) = a - b = subtract(a)(b, ...)`.
   */
  lemma ArithApplied(a: int, b: int, extra: seq<int>)
    ensures Call(Add, [a, b] + extra) == Value(a + b)
    ensures Call(Call(Add, [a]).fn, [b] + extra) == Value(a + b)
    ensures Call(Subtract, [a, b] + extra) == Value(a - b)
    ensures Call(Call(Subtract, [a]).fn, [b] + extra) == Value(a - b)
  {
  }

  /** Currying law: every split of the operands gives the same outcome. */
  lemma ArithCurrying(f: ArithFn, a1: seq<int>, a2: seq<int>)
    requires |a1| < Remaining(f)
    ensures Call(f, a1).Callable?
    ensures Call(Call(f, a1).fn, a2) == Call(f, a1 + a2)
  {
  }
}
