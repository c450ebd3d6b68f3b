/** What the visitor promises about each node kind, about its cache, and
    about evaluating again with a cache that already holds the answers. */
module VisitorProperties {
  import opened Arith
  import opened Expressions
  import opened Natives
  import opened CacheKeys
  import opened Visitor

  /** A node of a type outside the allowed set fails at once: nothing inside
      it is visited, no native function runs and the cache is unchanged. */
  lemma RejectedBeforeChildren(e: Expr, s: State, b: Behaviour)
    requires NodeTypeOf(e) !in AllowedExpressionTypes
    ensures Eval(e, s, b) == Step(Err(UnsupportedExpressionType(NodeTypeOf(e))), s)
  {
  }

  /** An `int` constant reduces to itself; any other constant is an error. */
  lemma ConstantReduces(v: Value, s: State, b: Behaviour)
    ensures Eval(Const(v), s, b).state == s
    ensures Eval(Const(v), s, b).result.Ok? <==> v.Int?
    ensures v.Int? ==> Eval(Const(v), s, b).result.value == v.i
    ensures !v.Int? ==> Eval(Const(v), s, b).result == Err(NotAnInt)
  {
  }

  /** Negation (checked or not) reduces to the negated operand, wrapping on
      the one value whose negation is not an `int`; an operand's failure is
      the negation's failure. */
  lemma NegationReduces(op: UnaryKind, operand: Expr, s: State, b: Behaviour)
    requires op == Negate || op == NegateChecked
    ensures var o, r := Eval(operand, s, b), Eval(Unary(op, operand), s, b);
      && r.state == o.state
      && (r.result.Ok? <==> o.result.Ok?)
      && (o.result.Err? ==> r.result == o.result)
      && (o.result.Ok? && o.result.value != MinInt32 ==> r.result.value == -o.result.value)
      && (o.result == Ok(MinInt32) ==> r.result == Ok(MinInt32))
  {
    var e := Unary(op, operand);
    assert NodeTypeOf(e) in AllowedExpressionTypes;
    assert Eval(e, s, b) == Dispatch(e, s, b);
    var o := Eval(operand, s, b);
    if o.result.Ok? && o.result.value != MinInt32 {
      assert InRange(-(o.result.value as int));
    } else if o.result == Ok(MinInt32) {
      assert Wrap(0x8000_0000) == MinInt32;
    }
  }

  /** An arithmetic node reduces its left operand, then its right operand
      from the state the left one left, then applies the operator; a failure
      on the left means the right operand is never visited. */
  lemma BinaryReduces(kind: BinaryKind, left: Expr, right: Expr, s: State, b: Behaviour)
    requires BinaryNode(kind) in AllowedExpressionTypes
    ensures var l := Eval(left, s, b);
            var r := Eval(Binary(kind, left, right), s, b);
      && (l.result.Err? ==> r == l)
      && (l.result.Ok? ==>
            var rr := Eval(right, l.state, b);
            && r.state == rr.state
            && (rr.result.Err? ==> r.result == rr.result)
            && (rr.result.Ok? ==> r.result == Arithmetic(kind, l.result.value, rr.result.value)))
  {
  }

  /** Dividing or taking the remainder by an operand that reduces to zero
      fails with DivideByZero. */
  lemma DivisionByZero(kind: BinaryKind, left: Expr, right: Expr, s: State, b: Behaviour)
    requires kind == Divide || kind == Modulo
    requires Eval(left, s, b).result.Ok?
    requires Eval(right, Eval(left, s, b).state, b).result == Ok(0)
    ensures Eval(Binary(kind, left, right), s, b).result == Err(DivideByZero)
  {
  }

  /** A call with more than five arguments fails before any argument is
      visited: no native function runs and the cache is unchanged. */
  lemma TooManyArgumentsRejected(name: string, args: seq<Expr>, s: State, b: Behaviour)
    requires |args| > MaxArguments
    ensures Eval(Call(name, args), s, b) == Step(Err(TooManyArguments), s)
  {
  }

  /** A call with at most five arguments reduces its arguments and then
      gives exactly what the cached invocation on their values gives. */
  lemma CallReduces(name: string, args: seq<Expr>, s: State, b: Behaviour)
    requires |args| <= MaxArguments
    ensures var a := EvalArgs(args, s, b);
            var r := Eval(Call(name, args), s, b);
      && (a.result.Err? ==> r == Step(Err(a.result.error), a.state))
      && (a.result.Ok? ==> r == CachedInvoke(name, a.result.value, a.state, b))
  {
  }

  /** A hit returns the stored value, invokes nothing and changes nothing. */
  lemma CacheHit(name: string, args: seq<int32>, s: State, b: Behaviour)
    requires CacheKey(name, args) in s.cache
    ensures CachedInvoke(name, args, s, b) == Step(Ok(s.cache[CacheKey(name, args)]), s)
  {
  }

  /** A miss invokes the native function exactly once, with the reduced
      arguments; an `int` result is returned and stored under exactly that
      one new key, any other outcome fails and stores nothing. */
  lemma CacheMiss(name: string, args: seq<int32>, s: State, b: Behaviour)
    requires CacheKey(name, args) !in s.cache
    ensures var r := CachedInvoke(name, args, s, b);
            var key := CacheKey(name, args);
      && r.state.history == s.history + [Invocation(name, args)]
      && (r.result.Ok? <==> b(s.history, name, args).Returned? && b(s.history, name, args).value.Int?)
      && (r.result.Ok? ==>
            && r.result.value == b(s.history, name, args).value.i
            && r.state.cache == s.cache[key := r.result.value]
            && r.state.cache.Keys == s.cache.Keys + {key}
            && |r.state.cache| == |s.cache| + 1)
      && (r.result.Err? ==> r.state.cache == s.cache && r.result.error.AfterInvocation())
  {
  }

  /** The cache key of an invocation. */
  function KeyOf(i: Invocation): string {
    CacheKey(i.name, i.args)
  }

  /** The keys of a sequence of invocations. */
  function KeysOf(invs: seq<Invocation>): (keys: set<string>)
    ensures forall j :: 0 <= j < |invs| ==> KeyOf(invs[j]) in keys
  {
    if invs == [] then {} else {KeyOf(invs[0])} + KeysOf(invs[1..])
  }

  lemma {:induction false} KeysOfAppend(p: seq<Invocation>, q: seq<Invocation>)
    ensures KeysOf(p + q) == KeysOf(p) + KeysOf(q)
    decreases |p|
  {
    if p != [] {
      assert (p + q)[1..] == p[1..] + q;
      KeysOfAppend(p[1..], q);
    } else {
      assert p + q == q;
    }
  }

  /** Invocations `made` from cache `start` to cache `final`: none under a
      key `start` held, no two under the same key, and `final` holds the keys
      of `start` and those of all invocations but the last `unstored`. */
  ghost predicate KeysFresh(start: map<string, int32>, made: seq<Invocation>, unstored: nat, final: map<string, int32>) {
    && unstored <= |made|
    && (forall j :: 0 <= j < |made| ==> KeyOf(made[j]) !in start)
    && (forall j, k :: 0 <= j < k < |made| ==> KeyOf(made[j]) != KeyOf(made[k]))
    && final.Keys == start.Keys + KeysOf(made[..|made| - unstored])
  }

  /** From `s` to the state of `r`, no native function was invoked under a
      key the starting cache already held, no two invocations share a key,
      and the cache gained exactly the keys of the invocations made, except
      a last one that failed. */
  ghost predicate OncePerKey<T>(s: State, r: Step<T>) {
    && s.history <= r.state.history
    && KeysFresh(s.cache, r.state.history[|s.history|..], Unstored(r.result), r.state.cache)
  }

  lemma OncePerKeyStay<T>(s: State, z: Result<T>)
    requires Unstored(z) == 0
    ensures OncePerKey(s, Step(z, s))
  {
    assert s.history[|s.history|..] == [];
  }

  lemma KeysFreshDistinct(c0: map<string, int32>, p: seq<Invocation>, c1: map<string, int32>, q: seq<Invocation>, u: nat, c2: map<string, int32>)
    requires KeysFresh(c0, p, 0, c1) && KeysFresh(c1, q, u, c2)
    ensures forall j, k :: 0 <= j < k < |p + q| ==> KeyOf((p + q)[j]) != KeyOf((p + q)[k])
  {
    assert p[..|p| - 0] == p;
    forall j, k | 0 <= j < k < |p + q|
      ensures KeyOf((p + q)[j]) != KeyOf((p + q)[k])
    {
      if j < |p| <= k {
        assert KeyOf(p[j]) in c1;
        assert (p + q)[k] == q[k - |p|];
      }
    }
  }

  /** Invocations in two stages, the first of which stored all it made. */
  lemma KeysFreshConcat(c0: map<string, int32>, p: seq<Invocation>, c1: map<string, int32>, q: seq<Invocation>, u: nat, c2: map<string, int32>)
    requires KeysFresh(c0, p, 0, c1) && KeysFresh(c1, q, u, c2)
    ensures KeysFresh(c0, p + q, u, c2)
  {
    assert p[..|p| - 0] == p;
    KeysFreshDistinct(c0, p, c1, q, u, c2);
    forall j | 0 <= j < |p + q|
      ensures KeyOf((p + q)[j]) !in c0
    {
      if j >= |p| {
        assert (p + q)[j] == q[j - |p|];
      }
    }
    assert (p + q)[..|p + q| - u] == p + q[..|q| - u];
    KeysOfAppend(p, q[..|q| - u]);
  }

  /** A successful stage from `s` to `m`, then a stage from `m` to the state
      of `r`, ending with result `z`. */
  lemma OncePerKeyThen<T, U, V>(s: State, m: Step<T>, r: Step<U>, z: Result<V>)
    requires m.result.Ok? && OncePerKey(s, m) && OncePerKey(m.state, r)
    requires Unstored(z) == Unstored(r.result)
    ensures OncePerKey(s, Step(z, r.state))
  {
    var h, mh, rh := s.history, m.state.history, r.state.history;
    SuffixSplit(h, mh, rh);
    KeysFreshConcat(s.cache, mh[|h|..], m.state.cache, rh[|mh|..], Unstored(z), r.state.cache);
  }

  /** One invocation under a key the cache did not hold. */
  lemma KeysFreshOne(c0: map<string, int32>, i: Invocation, u: nat, c1: map<string, int32>)
    requires KeyOf(i) !in c0 && u <= 1
    requires c1.Keys == if u == 0 then c0.Keys + {KeyOf(i)} else c0.Keys
    ensures KeysFresh(c0, [i], u, c1)
  {
    assert [i][..0] == [];
    assert KeysOf([i]) == {KeyOf(i)} by {
      assert [i][1..] == [];
    }
  }

  lemma CachedInvokeOncePerKey(name: string, args: seq<int32>, s: State, b: Behaviour)
    ensures OncePerKey(s, CachedInvoke(name, args, s, b))
  {
    var r := CachedInvoke(name, args, s, b);
    if CacheKey(name, args) in s.cache {
      OncePerKeyStay(s, r.result);
    } else {
      var i := Invocation(name, args);
      assert r.state.history == s.history + [i];
      assert r.state.history[|s.history|..] == [i];
      KeysFreshOne(s.cache, i, Unstored(r.result), r.state.cache);
    }
  }

  /** Any evaluation, from any cache, makes at most one invocation per key
      and none under a key it already held (see `OncePerKey`). */
  lemma {:induction false} EvalOncePerKey(e: Expr, s: State, b: Behaviour)
    ensures OncePerKey(s, Eval(e, s, b))
    decreases e, 2
  {
    if NodeTypeOf(e) !in AllowedExpressionTypes {
      OncePerKeyStay(s, Eval(e, s, b).result);
    } else {
      assert Eval(e, s, b) == Dispatch(e, s, b);
      DispatchOncePerKey(e, s, b);
    }
  }

  lemma {:induction false} DispatchOncePerKey(e: Expr, s: State, b: Behaviour)
    ensures OncePerKey(s, Dispatch(e, s, b))
    decreases e, 1
  {
    match e
    case Unary(_, operand) =>
      EvalOncePerKey(operand, s, b);
    case Binary(_, _, _) =>
      BinaryOncePerKey(e, s, b);
    case Call(_, _) =>
      CallOncePerKey(e, s, b);
    case Lambda(body) =>
      EvalOncePerKey(body, s, b);
    case _ =>
      OncePerKeyStay(s, Dispatch(e, s, b).result);
  }

  lemma {:induction false} BinaryOncePerKey(e: Expr, s: State, b: Behaviour)
    requires e.Binary?
    ensures OncePerKey(s, Dispatch(e, s, b))
    decreases e, 0
  {
    var r := Dispatch(e, s, b);
    if BinaryNode(e.kind) !in AllowedExpressionTypes {
      OncePerKeyStay(s, r.result);
    } else {
      var l := Eval(e.left, s, b);
      EvalOncePerKey(e.left, s, b);
      if l.result.Ok? {
        EvalOncePerKey(e.right, l.state, b);
        OncePerKeyThen(s, l, Eval(e.right, l.state, b), r.result);
      }
    }
  }

  lemma {:induction false} CallOncePerKey(e: Expr, s: State, b: Behaviour)
    requires e.Call?
    ensures OncePerKey(s, Dispatch(e, s, b))
    decreases e, 0
  {
    var r := Dispatch(e, s, b);
    if |e.args| > MaxArguments {
      OncePerKeyStay(s, r.result);
    } else {
      var a := EvalArgs(e.args, s, b);
      EvalArgsOncePerKey(e.args, s, b);
      if a.result.Ok? {
        CachedInvokeOncePerKey(e.name, a.result.value, a.state, b);
        OncePerKeyThen(s, a, r, r.result);
      }
    }
  }

  lemma {:induction false} EvalArgsOncePerKey(args: seq<Expr>, s: State, b: Behaviour)
    ensures OncePerKey(s, EvalArgs(args, s, b))
    decreases args, 0
  {
    var r := EvalArgs(args, s, b);
    if args == [] {
      OncePerKeyStay(s, r.result);
    } else {
      var first := Eval(args[0], s, b);
      EvalOncePerKey(args[0], s, b);
      if first.result.Ok? {
        var rest := EvalArgs(args[1..], first.state, b);
        EvalArgsOncePerKey(args[1..], first.state, b);
        OncePerKeyThen(s, first, rest, r.result);
      }
    }
  }

  /** Evaluating from an empty cache, no two invocations share a key, the
      cache ends up holding exactly the keys of the invocations made (all of
      them on success, all but the last on a failure after an invocation),
      and so there are as many invocations as keys, plus at most one. */
  lemma InvocationsAreDistinctKeys(e: Expr, h: seq<Invocation>, b: Behaviour)
    ensures var r := Eval(e, State(map[], h), b);
            var made := r.state.history[|h|..];
      && h <= r.state.history
      && (forall j, k :: 0 <= j < k < |made| ==> KeyOf(made[j]) != KeyOf(made[k]))
      && (r.result.Ok? ==> r.state.cache.Keys == KeysOf(made))
      && (r.result.Err? && !r.result.error.AfterInvocation() ==> r.state.cache.Keys == KeysOf(made))
      && (r.result.Err? && r.result.error.AfterInvocation() ==>
            |made| >= 1 && r.state.cache.Keys == KeysOf(made[..|made| - 1]))
      && (r.result.Ok? ==> |made| == |r.state.cache.Keys|)
      && (r.result.Err? ==> |r.state.cache.Keys| <= |made| <= |r.state.cache.Keys| + 1)
  {
    EvalOncePerKey(e, State(map[], h), b);
    FromEmpty(h, Eval(e, State(map[], h), b));
  }

  lemma FromEmpty<T>(h: seq<Invocation>, r: Step<T>)
    requires Memoised(State(map[], h), r) && OncePerKey(State(map[], h), r)
    ensures var made := r.state.history[|h|..];
      && h <= r.state.history
      && (forall j, k :: 0 <= j < k < |made| ==> KeyOf(made[j]) != KeyOf(made[k]))
      && (r.result.Ok? ==> r.state.cache.Keys == KeysOf(made))
      && (r.result.Err? && !r.result.error.AfterInvocation() ==> r.state.cache.Keys == KeysOf(made))
      && (r.result.Err? && r.result.error.AfterInvocation() ==>
            |made| >= 1 && r.state.cache.Keys == KeysOf(made[..|made| - 1]))
      && (r.result.Ok? ==> |made| == |r.state.cache.Keys|)
      && (r.result.Err? ==> |r.state.cache.Keys| <= |made| <= |r.state.cache.Keys| + 1)
  {
    var none: map<string, int32> := map[];
    var made := r.state.history[|h|..];
    var u := Unstored(r.result);
    var stored := made[..|made| - u];
    assert r.state.cache.Keys == none.Keys + KeysOf(stored);
    assert none.Keys == {} && |none| == 0;
    if u == 0 {
      assert stored == made;
    }
  }

  lemma ExtendsTransitive(a: map<string, int32>, m: map<string, int32>, c: map<string, int32>)
    requires Extends(a, m) && Extends(m, c)
    ensures Extends(a, c)
  {
  }

  /** Re-evaluating a node that once reduced to `v`, with a cache that holds
      everything that evaluation left in it, gives `v` again without invoking
      any native function and without changing the cache, whatever the
      natives would now return. */
  lemma {:induction false} CachedRerun(e: Expr, s: State, b: Behaviour, s2: State, b2: Behaviour)
    requires Eval(e, s, b).result.Ok?
    requires Extends(Eval(e, s, b).state.cache, s2.cache)
    ensures Eval(e, s2, b2) == Step(Eval(e, s, b).result, s2)
    decreases e, 1
  {
    if NodeTypeOf(e) in AllowedExpressionTypes {
      match e
      case Const(_) =>
      case Unary(_, operand) =>
        CachedRerun(operand, s, b, s2, b2);
      case Binary(kind, left, right) =>
        var l := Eval(left, s, b);
        ExtendsTransitive(l.state.cache, Eval(right, l.state, b).state.cache, s2.cache);
        CachedRerun(left, s, b, s2, b2);
        CachedRerun(right, l.state, b, s2, b2);
      case Call(name, args) =>
        var a := EvalArgs(args, s, b);
        var t := CachedInvoke(name, a.result.value, a.state, b);
        ExtendsTransitive(a.state.cache, t.state.cache, s2.cache);
        CachedRerunArgs(args, s, b, s2, b2);
      case Lambda(body) =>
        CachedRerun(body, s, b, s2, b2);
    }
  }

  lemma {:induction false} CachedRerunArgs(args: seq<Expr>, s: State, b: Behaviour, s2: State, b2: Behaviour)
    requires EvalArgs(args, s, b).result.Ok?
    requires Extends(EvalArgs(args, s, b).state.cache, s2.cache)
    ensures EvalArgs(args, s2, b2) == Step(EvalArgs(args, s, b).result, s2)
    decreases args, 0
  {
    if args != [] {
      var first := Eval(args[0], s, b);
      ExtendsTransitive(first.state.cache, EvalArgs(args[1..], first.state, b).state.cache, s2.cache);
      CachedRerun(args[0], s, b, s2, b2);
      CachedRerunArgs(args[1..], first.state, b, s2, b2);
    }
  }

  /** Two evaluations agree: same result, same cache, and the same
      invocations made after their starting histories `h1` and `h2`. */
  ghost predicate Agree<T>(h1: seq<Invocation>, r1: Step<T>, h2: seq<Invocation>, r2: Step<T>) {
    && h1 <= r1.state.history && h2 <= r2.state.history
    && r1.result == r2.result && r1.state.cache == r2.state.cache
    && r1.state.history[|h1|..] == r2.state.history[|h2|..]
  }

  lemma SuffixSplit(h: seq<Invocation>, m: seq<Invocation>, t: seq<Invocation>)
    requires h <= m <= t
    ensures t[|h|..] == m[|h|..] + t[|m|..]
  {
  }

  lemma AgreeThen<T, U>(h1: seq<Invocation>, m1: Step<T>, r1: Step<U>, h2: seq<Invocation>, m2: Step<T>, r2: Step<U>)
    requires Agree(h1, m1, h2, m2)
    requires Agree(m1.state.history, r1, m2.state.history, r2)
    ensures Agree(h1, r1, h2, r2)
  {
    SuffixSplit(h1, m1.state.history, r1.state.history);
    SuffixSplit(h2, m2.state.history, r2.state.history);
  }

  /** When the native functions do not depend on what was invoked before,
      the outcome of an evaluation does not depend on the history either. */
  lemma {:induction false} HistoryIrrelevant(e: Expr, c: map<string, int32>, h1: seq<Invocation>, h2: seq<Invocation>, b: Behaviour)
    requires Deterministic(b)
    ensures Agree(h1, Eval(e, State(c, h1), b), h2, Eval(e, State(c, h2), b))
    decreases e, 3
  {
    if NodeTypeOf(e) in AllowedExpressionTypes {
      HistoryIrrelevantDispatch(e, c, h1, h2, b);
    }
  }

  lemma {:induction false} HistoryIrrelevantDispatch(e: Expr, c: map<string, int32>, h1: seq<Invocation>, h2: seq<Invocation>, b: Behaviour)
    requires NodeTypeOf(e) in AllowedExpressionTypes
    requires Deterministic(b)
    ensures Agree(h1, Dispatch(e, State(c, h1), b), h2, Dispatch(e, State(c, h2), b))
    decreases e, 2
  {
    match e
    case Const(_) =>
    case Unary(_, _) =>
      HistoryIrrelevantUnary(e, c, h1, h2, b);
    case Binary(_, _, _) =>
      HistoryIrrelevantBinary(e, c, h1, h2, b);
    case Call(_, _) =>
      HistoryIrrelevantCall(e, c, h1, h2, b);
    case Lambda(body) =>
      HistoryIrrelevant(body, c, h1, h2, b);
  }

  lemma {:induction false} HistoryIrrelevantUnary(e: Expr, c: map<string, int32>, h1: seq<Invocation>, h2: seq<Invocation>, b: Behaviour)
    requires e.Unary?
    requires Deterministic(b)
    ensures Agree(h1, Dispatch(e, State(c, h1), b), h2, Dispatch(e, State(c, h2), b))
    decreases e, 1
  {
    HistoryIrrelevant(e.operand, c, h1, h2, b);
  }

  lemma {:induction false} HistoryIrrelevantBinary(e: Expr, c: map<string, int32>, h1: seq<Invocation>, h2: seq<Invocation>, b: Behaviour)
    requires e.Binary? && BinaryNode(e.kind) in AllowedExpressionTypes
    requires Deterministic(b)
    ensures Agree(h1, Dispatch(e, State(c, h1), b), h2, Dispatch(e, State(c, h2), b))
    decreases e, 1
  {
    var l1, l2 := Eval(e.left, State(c, h1), b), Eval(e.left, State(c, h2), b);
    HistoryIrrelevant(e.left, c, h1, h2, b);
    if l1.result.Ok? {
      var r1, r2 := Eval(e.right, l1.state, b), Eval(e.right, l2.state, b);
      HistoryIrrelevant(e.right, l1.state.cache, l1.state.history, l2.state.history, b);
      AgreeThen(h1, l1, r1, h2, l2, r2);
      if r1.result.Ok? {
        var z := Arithmetic(e.kind, l1.result.value, r1.result.value);
        assert Dispatch(e, State(c, h1), b) == Step(z, r1.state);
        assert Dispatch(e, State(c, h2), b) == Step(z, r2.state);
      }
    }
  }

  lemma {:induction false} HistoryIrrelevantCall(e: Expr, c: map<string, int32>, h1: seq<Invocation>, h2: seq<Invocation>, b: Behaviour)
    requires e.Call?
    requires Deterministic(b)
    ensures Agree(h1, Dispatch(e, State(c, h1), b), h2, Dispatch(e, State(c, h2), b))
    decreases e, 1
  {
    if |e.args| <= MaxArguments {
      var a1, a2 := EvalArgs(e.args, State(c, h1), b), EvalArgs(e.args, State(c, h2), b);
      HistoryIrrelevantArgs(e.args, c, h1, h2, b);
      if a1.result.Ok? {
        var vals := a1.result.value;
        var t1, t2 := CachedInvoke(e.name, vals, a1.state, b), CachedInvoke(e.name, vals, a2.state, b);
        assert b(a1.state.history, e.name, vals) == b(a2.state.history, e.name, vals) by {
          assert b(a1.state.history, e.name, vals) == b([], e.name, vals);
          assert b(a2.state.history, e.name, vals) == b([], e.name, vals);
        }
        assert Agree(a1.state.history, t1, a2.state.history, t2);
        AgreeThen(h1, a1, t1, h2, a2, t2);
      }
    }
  }

  lemma {:induction false} HistoryIrrelevantArgs(args: seq<Expr>, c: map<string, int32>, h1: seq<Invocation>, h2: seq<Invocation>, b: Behaviour)
    requires Deterministic(b)
    ensures Agree(h1, EvalArgs(args, State(c, h1), b), h2, EvalArgs(args, State(c, h2), b))
    decreases args, 0
  {
    if args != [] {
      var f1, f2 := Eval(args[0], State(c, h1), b), Eval(args[0], State(c, h2), b);
      HistoryIrrelevant(args[0], c, h1, h2, b);
      if f1.result.Ok? {
        var r1, r2 := EvalArgs(args[1..], f1.state, b), EvalArgs(args[1..], f2.state, b);
        HistoryIrrelevantArgs(args[1..], f1.state.cache, f1.state.history, f2.state.history, b);
        AgreeThen(h1, f1, r1, h2, f2, r2);
      }
    }
  }
}
