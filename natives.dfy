/** The native functions the call nodes name. They are outside the model:
    what a native function returns may depend on every invocation made
    before (a counter, a clock, a file), so a behaviour maps the history of
    invocations, the method name and the arguments to an outcome. */
module Natives {
  import opened Arith
  import opened Expressions

  datatype Invocation = Invocation(name: string, args: seq<int32>)

  datatype NativeResult = Returned(value: Value) | Threw

  type Behaviour = (seq<Invocation>, string, seq<int32>) -> NativeResult

  /** The natives never look at what was invoked before. */
  ghost predicate Deterministic(behaviour: Behaviour) {
    forall h, name, args :: behaviour(h, name, args) == behaviour([], name, args)
  }

  /** How many of the invocations were of `name`. */
  function CountOf(history: seq<Invocation>, name: string): (n: nat)
    ensures n <= |history|
  {
    if history == [] then 0
    else CountOf(history[..|history| - 1], name) + (if history[|history| - 1].name == name then 1 else 0)
  }

  /** The native functions of one process, with the invocations made so far. */
  class Registry {
    const behaviour: Behaviour
    var history: seq<Invocation>

    constructor(behaviour: Behaviour)
      ensures this.behaviour == behaviour && history == []
    {
      this.behaviour := behaviour;
      history := [];
    }

    /** Runs the native function `name` on `args` once. */
    method Invoke(name: string, args: seq<int32>) returns (r: NativeResult)
      modifies this
      ensures r == behaviour(old(history), name, args)
      ensures history == old(history) + [Invocation(name, args)]
    {
      r := behaviour(history, name, args);
      history := history + [Invocation(name, args)];
    }
  }
}
