/** The memoising visitor: it reduces every allowed node to an `int`
    constant, bottom-up, and answers a call whose key it has seen before from
    its cache instead of invoking the native function again. `Eval` is the
    reduction as a function of the node, the cache and the invocation history;
    the class `ReplacingMethodsExpressionVisitor` performs it in place on its
    `cache` field and is proved to agree with `Eval`. */
module Visitor {
  import opened Arith
  import opened Expressions
  import opened Natives
  import opened CacheKeys

  /** The most arguments a call node may carry. */
  const MaxArguments: nat := 5

  /** The visitor's cache together with the natives' invocation history. */
  datatype State = State(cache: map<string, int32>, history: seq<Invocation>)

  datatype Step<T> = Step(result: Result<T>, state: State)

  /** Every entry of `small` is in `big` with the same value. */
  predicate Extends(small: map<string, int32>, big: map<string, int32>) {
    forall k :: k in small ==> k in big && big[k] == small[k]
  }

  /** Entries are only ever added to the cache, invocations only appended. */
  predicate Grows(s: State, t: State) {
    Extends(s.cache, t.cache) && s.history <= t.history
  }

  /** 1 when the evaluation ended on an invocation whose result was not stored. */
  function Unstored<T>(r: Result<T>): nat {
    if r.Err? && r.error.AfterInvocation() then 1 else 0
  }

  /** From `s` to the state of `r`, the cache only grew, and every native
      invocation made stored one new key, except a last one that failed. */
  predicate Memoised<T>(s: State, r: Step<T>) {
    && Grows(s, r.state)
    && |r.state.history| - |s.history| == |r.state.cache| - |s.cache| + Unstored(r.result)
  }

  /** The mathematical value of an arithmetic operator. */
  function Exact(kind: BinaryKind, x: int, y: int): int
    requires y != 0 || !(kind.Divide? || kind.Modulo?)
  {
    match kind
    case Add | AddChecked => x + y
    case Subtract | SubtractChecked => x - y
    case Multiply | MultiplyChecked => x * y
    case Divide => TruncDiv(x, y)
    case Modulo => TruncMod(x, y)
    case _ => 0
  }

  /** One compiled arithmetic node applied to two `int` constants. */
  function Arithmetic(kind: BinaryKind, x: int32, y: int32): (r: Result<int32>)
    requires BinaryNode(kind) in AllowedExpressionTypes
    ensures (kind.Add? || kind.Subtract? || kind.Multiply?) ==>
              r.Ok? && (r.value - Exact(kind, x, y)) % Modulus == 0
    ensures (kind.AddChecked? || kind.SubtractChecked? || kind.MultiplyChecked?) ==>
              (r.Ok? <==> InRange(Exact(kind, x, y))) && (r.Ok? ==> r.value == Exact(kind, x, y))
              && (r.Err? ==> r.error == Overflow)
    ensures (kind.Divide? || kind.Modulo?) ==>
              && (r == Err(DivideByZero) <==> y == 0)
              && (r == Err(Overflow) <==> y == -1 && x == MinInt32)
              && (r.Ok? <==> y != 0 && !(y == -1 && x == MinInt32))
              && (r.Ok? ==> r.value == Exact(kind, x, y))
  {
    match kind
    case Add => Ok(Wrap(x + y))
    case Subtract => Ok(Wrap(x - y))
    case Multiply => Ok(Wrap(x * y))
    case AddChecked => if InRange(x + y) then Ok(x + y) else Err(Overflow)
    case SubtractChecked => if InRange(x - y) then Ok(x - y) else Err(Overflow)
    case MultiplyChecked => if InRange(x * y) then Ok(x * y) else Err(Overflow)
    case Divide =>
      if y == 0 then Err(DivideByZero)
      else if x == MinInt32 && y == -1 then Err(Overflow)
      else TruncDivInRange(x, y); Ok(TruncDiv(x, y))
    case Modulo =>
      if y == 0 then Err(DivideByZero)
      else if x == MinInt32 && y == -1 then Err(Overflow)
      else TruncModInRange(x, y); Ok(TruncMod(x, y))
  }

  /** The reduction of one node, starting from state `s`: a node outside
      the allowed set is refused before anything inside it is looked at. */
  function Eval(e: Expr, s: State, b: Behaviour): (r: Step<int32>)
    ensures Memoised(s, r)
    ensures r.result.Err? ==> !r.result.error.UnsupportedOperation?
    decreases e, 2
  {
    if NodeTypeOf(e) !in AllowedExpressionTypes then
      Step(Err(UnsupportedExpressionType(NodeTypeOf(e))), s)
    else
      Dispatch(e, s, b)
  }

  /** The reduction of a node by its shape, once the node type was accepted. */
  function Dispatch(e: Expr, s: State, b: Behaviour): (r: Step<int32>)
    ensures Memoised(s, r)
    ensures r.result.Err? && r.result.error.UnsupportedOperation? ==> NodeTypeOf(e) !in AllowedExpressionTypes
    decreases e, 1
  {
    match e
    case Const(v) =>
      if v.Int? then Step(Ok(v.i), s) else Step(Err(NotAnInt), s)
    case Unary(_, operand) =>
      var o := Eval(operand, s, b);
      if o.result.Err? then o else Step(Ok(Wrap(-(o.result.value as int))), o.state)
    case Binary(kind, left, right) =>
      if BinaryNode(kind) !in AllowedExpressionTypes then
        Step(Err(UnsupportedOperation(BinaryNode(kind))), s)
      else
        var l := Eval(left, s, b);
        if l.result.Err? then l
        else
          var r := Eval(right, l.state, b);
          if r.result.Err? then r
          else Step(Arithmetic(kind, l.result.value, r.result.value), r.state)
    case Call(name, args) =>
      if |args| > MaxArguments then Step(Err(TooManyArguments), s)
      else
        var a := EvalArgs(args, s, b);
        if a.result.Err? then Step(Err(a.result.error), a.state)
        else CachedInvoke(name, a.result.value, a.state, b)
    case Lambda(body) =>
      Eval(body, s, b)
    case Other(k) =>
      // never reached from Eval: no such node type is allowed
      Step(Err(UnsupportedExpressionType(OtherNode(k))), s)
  }

  /** The reduction of call arguments, left to right, up to the first failure. */
  function EvalArgs(args: seq<Expr>, s: State, b: Behaviour): (r: Step<seq<int32>>)
    ensures Memoised(s, r)
    ensures r.result.Ok? ==> |r.result.value| == |args|
    ensures r.result.Err? ==> !r.result.error.UnsupportedOperation?
    decreases args, 0
  {
    if args == [] then Step(Ok([]), s)
    else
      var first := Eval(args[0], s, b);
      if first.result.Err? then Step(Err(first.result.error), first.state)
      else
        var rest := EvalArgs(args[1..], first.state, b);
        if rest.result.Err? then rest
        else Step(Ok([first.result.value] + rest.result.value), rest.state)
  }

  /** A reduced call: answered from the cache when its key is there,
      otherwise the native function is invoked and an `int` result stored. */
  function CachedInvoke(name: string, args: seq<int32>, s: State, b: Behaviour): (r: Step<int32>)
    ensures Memoised(s, r)
    ensures r.result.Ok? ==> CacheKey(name, args) in r.state.cache && r.state.cache[CacheKey(name, args)] == r.result.value
  {
    var key := CacheKey(name, args);
    if key in s.cache then Step(Ok(s.cache[key]), s)
    else
      var history := s.history + [Invocation(name, args)];
      match b(s.history, name, args)
      case Returned(Int(v)) => Step(Ok(v), State(s.cache[key := v], history))
      case Returned(NonInt) => Step(Err(NonIntResult), State(s.cache, history))
      case Threw => Step(Err(NativeThrew), State(s.cache, history))
  }

  /** The arguments reduced so far, followed by the reduction of the rest. */
  ghost function Prepend(done: seq<int32>, rest: Step<seq<int32>>): Step<seq<int32>> {
    if rest.result.Ok? then Step(Ok(done + rest.result.value), rest.state) else rest
  }

  lemma PrependNothing(rest: Step<seq<int32>>)
    ensures Prepend([], rest) == rest
  {
    if rest.result.Ok? {
      assert [] + rest.result.value == rest.result.value;
    }
  }

  lemma PrependTwice(done: seq<int32>, v: int32, rest: Step<seq<int32>>)
    ensures Prepend(done, Prepend([v], rest)) == Prepend(done + [v], rest)
  {
    if rest.result.Ok? {
      assert done + ([v] + rest.result.value) == (done + [v]) + rest.result.value;
    }
  }

  /** Reducing the arguments from position `i` on reduces the one at `i`
      first, then the rest from the state it leaves. */
  lemma EvalArgsFrom(args: seq<Expr>, i: nat, s: State, b: Behaviour)
    requires i < |args|
    ensures EvalArgs(args[i..], s, b)
         == var first := Eval(args[i], s, b);
            if first.result.Err? then Step(Err(first.result.error), first.state)
            else Prepend([first.result.value], EvalArgs(args[i + 1..], first.state, b))
  {
    assert args[i..][0] == args[i] && args[i..][1..] == args[i + 1..];
  }

  /** The visitor object; its cache lives as long as the object does. */
  class ReplacingMethodsExpressionVisitor {
    var cache: map<string, int32>

    constructor()
      ensures cache == map[]
    {
      cache := map[];
    }

    /** Rejects a node outside the allowed set before looking inside it,
        and otherwise dispatches on its shape. */
    method Visit(e: Expr, natives: Registry) returns (r: Result<int32>)
      modifies this, natives
      ensures Step(r, State(cache, natives.history)) == Eval(e, State(old(cache), old(natives.history)), natives.behaviour)
      decreases e, 2
    {
      if NodeTypeOf(e) !in AllowedExpressionTypes {
        return Err(UnsupportedExpressionType(NodeTypeOf(e)));
      }
      match e
      case Const(v) => r := VisitConstant(v);
      case Unary(_, _) => r := VisitUnary(e, natives);
      case Binary(_, _, _) => r := VisitBinary(e, natives);
      case Call(_, _) => r := VisitMethodCall(e, natives);
      case Lambda(_) => r := VisitLambda(e, natives);
      case Other(_) => assert false;
    }

    /** A constant is kept when it is an `int` and refused otherwise. */
    method VisitConstant(v: Value) returns (r: Result<int32>)
      ensures r.Ok? <==> v.Int?
      ensures r.Ok? ==> r.value == v.i
      ensures r.Err? ==> r.error == NotAnInt
    {
      if !v.Int? {
        return Err(NotAnInt);
      }
      r := Ok(v.i);
    }

    /** Negates the reduced operand, with the wrap-around of unchecked `-`. */
    method VisitUnary(e: Expr, natives: Registry) returns (r: Result<int32>)
      requires e.Unary?
      modifies this, natives
      ensures Step(r, State(cache, natives.history)) == Dispatch(e, State(old(cache), old(natives.history)), natives.behaviour)
      decreases e, 1
    {
      var operand := Visit(e.operand, natives);
      if operand.Err? {
        return operand;
      }
      r := Ok(Wrap(-(operand.value as int)));
    }

    /** Reduces the body of a lambda. */
    method VisitLambda(e: Expr, natives: Registry) returns (r: Result<int32>)
      requires e.Lambda?
      modifies this, natives
      ensures Step(r, State(cache, natives.history)) == Dispatch(e, State(old(cache), old(natives.history)), natives.behaviour)
      decreases e, 1
    {
      r := Visit(e.body, natives);
    }

    /** Reduces the left operand, then the right, then applies the operator. */
    method VisitBinary(e: Expr, natives: Registry) returns (r: Result<int32>)
      requires e.Binary?
      modifies this, natives
      ensures Step(r, State(cache, natives.history)) == Dispatch(e, State(old(cache), old(natives.history)), natives.behaviour)
      decreases e, 1
    {
      if BinaryNode(e.kind) !in AllowedExpressionTypes {
        return Err(UnsupportedOperation(BinaryNode(e.kind)));
      }
      var left := Visit(e.left, natives);
      if left.Err? {
        return left;
      }
      var right := Visit(e.right, natives);
      if right.Err? {
        return right;
      }
      r := Arithmetic(e.kind, left.value, right.value);
    }

    /** Refuses more than five arguments, reduces the arguments, then
        answers the reduced call. */
    method VisitMethodCall(e: Expr, natives: Registry) returns (r: Result<int32>)
      requires e.Call?
      modifies this, natives
      ensures Step(r, State(cache, natives.history)) == Dispatch(e, State(old(cache), old(natives.history)), natives.behaviour)
      decreases e, 1
    {
      if |e.args| > MaxArguments {
        return Err(TooManyArguments);
      }
      var arguments := VisitArguments(e, natives);
      if arguments.Err? {
        return Err(arguments.error);
      }
      r := InvokeCached(e.name, arguments.value, natives);
    }

    /** Reduces the arguments of a call left to right, stopping at the first
        failure. */
    method VisitArguments(e: Expr, natives: Registry) returns (r: Result<seq<int32>>)
      requires e.Call?
      modifies this, natives
      ensures Step(r, State(cache, natives.history)) == EvalArgs(e.args, State(old(cache), old(natives.history)), natives.behaviour)
      decreases e, 0
    {
      ghost var s0 := State(cache, natives.history);
      var arguments: seq<int32> := [];
      var i := 0;
      assert e.args[i..] == e.args;
      PrependNothing(EvalArgs(e.args, s0, natives.behaviour));
      while i < |e.args|
        invariant 0 <= i <= |e.args|
        invariant EvalArgs(e.args, s0, natives.behaviour)
               == Prepend(arguments, EvalArgs(e.args[i..], State(cache, natives.history), natives.behaviour))
        decreases |e.args| - i
      {
        EvalArgsFrom(e.args, i, State(cache, natives.history), natives.behaviour);
        var argument := Visit(e.args[i], natives);
        if argument.Err? {
          assert EvalArgs(e.args, s0, natives.behaviour) == Step(Err(argument.error), State(cache, natives.history));
          return Err(argument.error);
        }
        ghost var rest := EvalArgs(e.args[i + 1..], State(cache, natives.history), natives.behaviour);
        PrependTwice(arguments, argument.value, rest);
        arguments := arguments + [argument.value];
        i := i + 1;
      }
      assert e.args[i..] == [];
      assert arguments + [] == arguments;
      r := Ok(arguments);
    }

    /** Answers a reduced call from the cache, or invokes the native function
        once and stores an `int` result under the call's key. */
    method InvokeCached(name: string, arguments: seq<int32>, natives: Registry) returns (r: Result<int32>)
      modifies this, natives
      ensures Step(r, State(cache, natives.history)) == CachedInvoke(name, arguments, State(old(cache), old(natives.history)), natives.behaviour)
    {
      var key := CacheKey(name, arguments);
      if key in cache {
        return Ok(cache[key]);
      }
      var result := natives.Invoke(name, arguments);
      match result
      case Returned(Int(v)) =>
        cache := cache[key := v];
        r := Ok(v);
      case Returned(NonInt) =>
        r := Err(NonIntResult);
      case Threw =>
        r := Err(NativeThrew);
    }
  }
}
