/**
 * `pipe` and the runner it returns. A stage receives its whole argument
 * list; the runner hands its own arguments to the first stage and each
 * later stage only the previous stage's result.
 */
module PipeOp {
  import opened Curry

  /** A stage function, called with the list of its actual arguments. */
  type Stage<!V> = seq<V> -> V

  /** `pipe` itself, or the runner that holds the stages it was given. */
  datatype PipeFn<!V> = Pipe | Runner(stages: seq<Stage<V>>)

  /** `pipe(f1, ..., fn)`: itself when given no function, otherwise a runner over them. */
  function Call<V>(fns: seq<Stage<V>>): (r: PipeFn<V>)
    ensures fns == [] ==> r == Pipe
    ensures fns != [] ==> r == Runner(fns)
  {
    if |fns| == 0 then Pipe else Runner(fns)
  }

  /**
   * Reference composition: the first stage gets `args`, and the pipeline of
   * the remaining stages gets that stage's result as its only argument.
   */
  function Compose<V>(stages: seq<Stage<V>>, args: seq<V>): V
    requires stages != []
    decreases |stages|
  {
    if |stages| == 1 then stages[0](args) else Compose(stages[1..], [stages[0](args)])
  }

  /** Pipelines associate: running `s1 + s2` runs `s2` on the result of `s1`. */
  lemma {:induction false} ComposeAppend<V>(s1: seq<Stage<V>>, s2: seq<Stage<V>>, args: seq<V>)
    requires s1 != [] && s2 != []
    ensures Compose(s1 + s2, args) == Compose(s2, [Compose(s1, args)])
    decreases |s1|
  {
    var s := s1 + s2;
    assert s[0] == s1[0];
    if |s1| == 1 {
      assert s[1..] == s2;
    } else {
      assert s[1..] == s1[1..] + s2;
      ComposeAppend(s1[1..], s2, [s1[0](args)]);
    }
  }

  /** `pipe(f)(args) = f(args)` and `pipe(f, g, h)(args) = h(g(f(args)))`. */
  lemma ComposeSmall<V>(f: Stage<V>, g: Stage<V>, h: Stage<V>, args: seq<V>)
    ensures Compose([f], args) == f(args)
    ensures Compose([f, g, h], args) == h([g([f(args)])])
  {
    assert [f, g, h][1..] == [g, h] && [g, h][1..] == [h];
    assert Compose([f, g, h], args) == Compose([g, h], [f(args)]);
    assert Compose([g, h], [f(args)]) == Compose([h], [g([f(args)])]);
  }

  /**
   * The runner's body: `nextArguments` starts as the runner's own
   * arguments; each stage in turn is called with it, and its result
   * becomes both `result` and the sole next argument. The result is
   * `undefined` (`None`) only when there are no stages, which a runner
   * built by `Call` never has.
   */
  method Run<V>(stages: seq<Stage<V>>, args: seq<V>) returns (result: Option<V>)
    ensures stages == [] ==> result == None
    ensures stages != [] ==> result == Some(Compose(stages, args))
  {
    var nextArguments := args;
    result := None;
    for i := 0 to |stages|
      invariant i == 0 ==> result == None && nextArguments == args
      invariant i > 0 ==> result == Some(Compose(stages[..i], args)) && nextArguments == [result.value]
    {
      var r := stages[i](nextArguments);
      if i > 0 {
        assert stages[..i + 1] == stages[..i] + [stages[i]];
        ComposeAppend(stages[..i], [stages[i]], args);
      }
      result := Some(r);
      nextArguments := [r];
    }
    assert stages[..|stages|] == stages;
  }
}
