/**
 * `prop` (arity 2) and its continuation `subFunction` holding the object;
 * the final computation is a property lookup. Objects are maps from
 * property names to values.
 */
module PropOp {
  import opened Curry

  /** One actual argument of a call: an object or a property name. */
  datatype PropArg<V> = ObjectArg(obj: map<string, V>) | NameArg(name: string)

  /** `prop` itself, or the continuation that holds the object. */
  datatype PropFn<V> = Prop | PropSub(obj: map<string, V>)

  /** How many more arguments the callable needs before it computes. */
  function Remaining<V>(f: PropFn<V>): nat {
    match f
    case Prop => 2
    case PropSub(_) => 1
  }

  /** Each argument the callable uses has the kind its position expects. */
  predicate Fits<V>(f: PropFn<V>, args: seq<PropArg<V>>) {
    match f
    case Prop => (|args| > 0 ==> args[0].ObjectArg?) && (|args| > 1 ==> args[1].NameArg?)
    case PropSub(_) => |args| > 0 ==> args[0].NameArg?
  }

  /** `obj[name]`: the stored value, or `undefined` (`None`) for a missing name. */
  function Lookup<V>(obj: map<string, V>, name: string): (r: Option<V>)
    ensures r.Some? <==> name in obj
    ensures r.Some? ==> r.value == obj[name]
  {
    if name in obj then Some(obj[name]) else None
  }

  /**
   * Calling `f` with the actual arguments `args`: no argument returns the
   * callee, too few return a continuation, enough look the property up.
   */
  function Call<V>(f: PropFn<V>, args: seq<PropArg<V>>): (r: Returned<PropFn<V>, Option<V>>)
    requires Fits(f, args)
    ensures args == [] ==> r == Callable(f)
    ensures r.Callable? <==> |args| < Remaining(f)
  {
    match f
    case Prop =>
      if |args| == 0 then Callable(Prop)
      else if |args| == 1 then Callable(PropSub(args[0].obj))
      else Value(Lookup(args[0].obj, args[1].name))
    case PropSub(obj) =>
      if |args| == 0 then Callable(f)
      else Value(Lookup(obj, args[0].name))
  }

  /**
   * `prop(obj, name, ...)` is the value stored under `name`, or `undefined`
   * when `obj` has no such property (never a failure), and equals
   * `prop(obj)(name)`.
   */
  lemma PropApplied<V>(obj: map<string, V>, name: string, extra: seq<PropArg<V>>)
    ensures Fits(Prop, [ObjectArg(obj), NameArg(name)] + extra)
    ensures var r := Call(Prop, [ObjectArg(obj), NameArg(name)] + extra);
            && r.Value?
            && (name in obj ==> r.value == Some(obj[name]))
            && (name !in obj ==> r.value == None)
    ensures Call(Call(Prop, [ObjectArg(obj)]).fn, [NameArg(name)]) == Call(Prop, [ObjectArg(obj), NameArg(name)])
  {
  }

  /** Currying law: every split of the arguments gives the same outcome. */
  lemma PropCurrying<V>(f: PropFn<V>, a1: seq<PropArg<V>>, a2: seq<PropArg<V>>)
    requires Fits(f, a1 + a2)
    requires |a1| < Remaining(f)
    ensures Fits(f, a1) && Call(f, a1).Callable?
    ensures Fits(Call(f, a1).fn, a2)
    ensures Call(Call(f, a1).fn, a2) == Call(f, a1 + a2)
  {
  }
}
