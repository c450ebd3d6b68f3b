/** The entry point: a caller object that owns one visitor, and so one
    cache, for all of its calls. */
module Caller {
  import opened Arith
  import opened Expressions
  import opened Natives
  import opened Visitor
  import opened VisitorProperties

  /** One call on a root node, from state `s`: a root that is not a lambda
      is refused before anything is visited; otherwise the lambda is
      visited and its reduced body is the result. */
  function CallSpec(root: Expr, s: State, b: Behaviour): (r: Step<int32>)
    ensures Memoised(s, r)
  {
    if !root.Lambda? then Step(Err(NotALambda), s) else Eval(root, s, b)
  }

  class MyCaller {
    const visitor: ReplacingMethodsExpressionVisitor

    constructor()
      ensures fresh(visitor) && visitor.cache == map[]
    {
      visitor := new ReplacingMethodsExpressionVisitor();
    }

    method Call(root: Expr, natives: Registry) returns (r: Result<int32>)
      modifies visitor, natives
      ensures Step(r, State(visitor.cache, natives.history))
           == CallSpec(root, State(old(visitor.cache), old(natives.history)), natives.behaviour)
    {
      if !root.Lambda? {
        return Err(NotALambda);
      }
      r := visitor.Visit(root, natives);
    }
  }

  /** A root that is not a lambda fails and leaves the cache and the
      natives untouched. */
  lemma NonLambdaRejected(root: Expr, s: State, b: Behaviour)
    requires !root.Lambda?
    ensures CallSpec(root, s, b) == Step(Err(NotALambda), s)
  {
  }

  /** A call on a lambda returns exactly what its body reduces to: its
      value on success, and its error, unchanged, on failure. */
  lemma CallIsBody(body: Expr, s: State, b: Behaviour)
    ensures CallSpec(Lambda(body), s, b) == Eval(body, s, b)
  {
    assert NodeTypeOf(Lambda(body)) in AllowedExpressionTypes;
    assert Eval(Lambda(body), s, b) == Dispatch(Lambda(body), s, b);
  }

  /** Calling again with the same tree on the same caller returns the same
      integer, invokes no native function and leaves the cache as it was,
      even when the natives would now answer differently. */
  lemma RepeatedCall(root: Expr, s: State, b: Behaviour, b2: Behaviour)
    requires CallSpec(root, s, b).result.Ok?
    ensures var first := CallSpec(root, s, b);
            CallSpec(root, first.state, b2) == first
  {
    var first := CallSpec(root, s, b);
    CachedRerun(root, s, b, first.state, b2);
  }

  /** Whatever a call left in the cache answers a later call on the same
      caller: a later call on any tree whose body once reduced successfully
      under a cache that the current one extends invokes nothing. */
  lemma LaterCallHitsCache(root: Expr, s: State, b: Behaviour, later: State, b2: Behaviour)
    requires CallSpec(root, s, b).result.Ok?
    requires Extends(CallSpec(root, s, b).state.cache, later.cache)
    ensures CallSpec(root, later, b2) == Step(CallSpec(root, s, b).result, later)
  {
    CachedRerun(root, s, b, later, b2);
  }

  /** Whatever the tree, a call on a caller whose cache holds a key never
      invokes a native function under that key, and invokes each native
      function at most once per key; every key the call adds to the cache
      is the key of an invocation it made. */
  lemma CallInvokesOncePerKey(root: Expr, s: State, b: Behaviour)
    ensures var r := CallSpec(root, s, b);
      && s.history <= r.state.history
      && (forall j :: |s.history| <= j < |r.state.history| ==> KeyOf(r.state.history[j]) !in s.cache)
      && (forall j, k :: |s.history| <= j < k < |r.state.history| ==>
            KeyOf(r.state.history[j]) != KeyOf(r.state.history[k]))
      && r.state.cache.Keys <= s.cache.Keys + KeysOf(r.state.history[|s.history|..])
  {
    var r := CallSpec(root, s, b);
    if root.Lambda? {
      EvalOncePerKey(root, s, b);
      var made := r.state.history[|s.history|..];
      forall j | |s.history| <= j < |r.state.history|
        ensures KeyOf(r.state.history[j]) !in s.cache
      {
        assert r.state.history[j] == made[j - |s.history|];
      }
      forall j, k | |s.history| <= j < k < |r.state.history|
        ensures KeyOf(r.state.history[j]) != KeyOf(r.state.history[k])
      {
        assert r.state.history[j] == made[j - |s.history|];
        assert r.state.history[k] == made[k - |s.history|];
      }
      var stored := made[..|made| - Unstored(r.result)];
      assert made == stored + made[|stored|..];
      KeysOfAppend(stored, made[|stored|..]);
    } else {
      assert r.state.history[|s.history|..] == [];
    }
  }

  /** Two callers, each with a fresh cache, agree on the result of a tree
      when the natives do not depend on what was invoked before. */
  lemma FreshCallersAgree(root: Expr, h1: seq<Invocation>, h2: seq<Invocation>, b: Behaviour)
    requires Deterministic(b)
    ensures CallSpec(root, State(map[], h1), b).result == CallSpec(root, State(map[], h2), b).result
  {
    HistoryIrrelevant(root, map[], h1, h2, b);
  }
}
