/** The trees of the caller's unit tests, with the test class's native
    functions, and what the model says each call returns. */
module Examples {
  import opened Arith
  import opened Expressions
  import opened Natives
  import opened Decimal
  import opened CacheKeys
  import opened Visitor
  import opened VisitorProperties
  import opened Caller

  /** The static methods of the test class: A(a) = 5 + a, B(a, b) = b / a + b * a,
      C() = 2, D(a) = a - 8, F(a) = 0.7 * a (a `double`), and Big(a, ..., f). */
  function TestNatives(history: seq<Invocation>, name: string, args: seq<int32>): NativeResult {
    if name == "A" && |args| == 1 then Returned(Int(Wrap(5 + args[0] as int)))
    else if name == "B" && |args| == 2 then
      if args[0] == 0 || (args[1] == MinInt32 && args[0] == -1) then Threw
      else Returned(Int(Wrap(TruncDiv(args[1], args[0]) + (args[1] as int) * (args[0] as int))))
    else if name == "C" && |args| == 0 then Returned(Int(2))
    else if name == "D" && |args| == 1 then Returned(Int(Wrap(args[0] as int - 8)))
    else if name == "F" && |args| == 1 then Returned(NonInt)
    else if name == "Big" && |args| == 6 then
      Returned(Int(Wrap(args[0] as int + args[1] - args[2] + args[3] - args[4] + args[5])))
    else Threw
  }

  function N(i: int32): Expr {
    Const(Int(i))
  }

  const Empty: State := State(map[], [])

  /** The state after a native invocation whose `int` result was stored. */
  function Stored(s: State, key: string, v: int32, inv: Invocation): State {
    State(s.cache[key := v], s.history + [inv])
  }

  function AfterC(s: State): State {
    Stored(s, "C", 2, Invocation("C", []))
  }

  function AfterB(s: State): State {
    Stored(s, "B,4,3", 12, Invocation("B", [4, 3]))
  }

  function AfterD(s: State): State {
    Stored(s, "D,5", -3, Invocation("D", [5]))
  }

  function AfterA(s: State, a: int32, key: string): State {
    Stored(s, key, Wrap(5 + a as int), Invocation("A", [a]))
  }

  /** Reducing a one-argument list is reducing the argument. */
  lemma OneArgument(x: Expr, s: State, b: Behaviour)
    ensures var f := Eval(x, s, b);
      EvalArgs([x], s, b) == if f.result.Ok? then Step(Ok([f.result.value]), f.state) else Step(Err(f.result.error), f.state)
  {
    var f := Eval(x, s, b);
    assert [x][0] == x && [x][1..] == [];
    assert EvalArgs([], f.state, b) == Step(Ok([]), f.state);
    if f.result.Ok? {
      assert [f.result.value] + [] == [f.result.value];
    }
  }

  /** Reducing a two-argument list reduces the first, then the second. */
  lemma TwoArguments(x: Expr, y: Expr, s: State, b: Behaviour)
    requires Eval(x, s, b).result.Ok?
    ensures var f := Eval(x, s, b);
            var g := Eval(y, f.state, b);
      EvalArgs([x, y], s, b) == if g.result.Ok? then Step(Ok([f.result.value, g.result.value]), g.state) else Step(Err(g.result.error), g.state)
  {
    var f := Eval(x, s, b);
    assert [x, y][0] == x && [x, y][1..] == [y];
    OneArgument(y, f.state, b);
    var g := Eval(y, f.state, b);
    if g.result.Ok? {
      assert [f.result.value] + [g.result.value] == [f.result.value, g.result.value];
    }
  }

  /** The key of a call whose arguments are one-digit numbers. */
  lemma OneDigitKeys(name: string, x: int32, y: int32)
    requires 0 <= x < 10 && 0 <= y < 10
    ensures CacheKey(name, [x]) == name + "," + [DigitChar(x as nat)]
    ensures CacheKey(name, [x, y]) == name + "," + [DigitChar(x as nat)] + "," + [DigitChar(y as nat)]
  {
    assert Render([x]) == [IntToString(x)];
    var parts := [IntToString(x), IntToString(y)];
    assert Render([x, y]) == parts;
    assert parts[1..] == [IntToString(y)];
    assert Join(parts) == IntToString(x) + "," + IntToString(y);
  }

  lemma Evaluates(e: Expr, s: State, b: Behaviour)
    requires NodeTypeOf(e) in AllowedExpressionTypes
    ensures Eval(e, s, b) == Dispatch(e, s, b)
  {
  }

  /** A call whose key is missing invokes the native, which here returns `v`. */
  lemma CallMissing(name: string, args: seq<Expr>, vals: seq<int32>, key: string, v: int32, s: State, t: State, b: Behaviour)
    requires |args| <= MaxArguments
    requires EvalArgs(args, s, b) == Step(Ok(vals), t)
    requires CacheKey(name, vals) == key && key !in t.cache
    requires b(t.history, name, vals) == Returned(Int(v))
    ensures Eval(Call(name, args), s, b) == Step(Ok(v), Stored(t, key, v, Invocation(name, vals)))
  {
    CallReduces(name, args, s, b);
  }

  /** A call whose key is cached is answered from the cache. */
  lemma CallCached(name: string, args: seq<Expr>, vals: seq<int32>, key: string, s: State, t: State, b: Behaviour)
    requires |args| <= MaxArguments
    requires EvalArgs(args, s, b) == Step(Ok(vals), t)
    requires CacheKey(name, vals) == key && key in t.cache
    ensures Eval(Call(name, args), s, b) == Step(Ok(t.cache[key]), t)
  {
    CallReduces(name, args, s, b);
  }

  /** `C()` on a cache without its key. */
  lemma CallC(s: State)
    requires "C" !in s.cache
    ensures Eval(Call("C", []), s, TestNatives) == Step(Ok(2), AfterC(s))
  {
    assert TestNatives(s.history, "C", []) == Returned(Int(2));
    CallMissing("C", [], [], "C", 2, s, s, TestNatives);
  }

  /** An argument list of one constant. */
  lemma OneConstant(x: int32, s: State, b: Behaviour)
    ensures EvalArgs([N(x)], s, b) == Step(Ok([x]), s)
  {
    Evaluates(N(x), s, b);
    OneArgument(N(x), s, b);
  }

  /** `A(a)` on a cache without its key. */
  lemma CallA(s: State, a: int32, key: string)
    requires CacheKey("A", [a]) == key && key !in s.cache
    ensures Eval(Call("A", [N(a)]), s, TestNatives) == Step(Ok(Wrap(5 + a as int)), AfterA(s, a, key))
  {
    OneConstant(a, s, TestNatives);
    assert TestNatives(s.history, "A", [a]) == Returned(Int(Wrap(5 + a as int)));
    CallMissing("A", [N(a)], [a], key, Wrap(5 + a as int), s, s, TestNatives);
  }

  lemma TwoPlusC(s: State)
    requires "C" !in s.cache
    ensures Eval(Binary(Add, N(2), Call("C", [])), s, TestNatives) == Step(Ok(4), AfterC(s))
  {
    CallC(s);
    Evaluates(N(2), s, TestNatives);
    Evaluates(Binary(Add, N(2), Call("C", [])), s, TestNatives);
  }

  lemma KeyB43()
    ensures CacheKey("B", [4, 3]) == "B,4,3"
  {
    OneDigitKeys("B", 4, 3);
  }

  lemma NativeB43(h: seq<Invocation>)
    ensures TestNatives(h, "B", [4, 3]) == Returned(Int(12))
  {
    assert TruncDiv(3, 4) == 0;
  }

  /** The first `B(4, 3)` is a miss. */
  lemma FirstB(s: State)
    requires "C" !in s.cache && "B,4,3" !in s.cache
    ensures Eval(Call("B", [Binary(Add, N(2), Call("C", [])), N(3)]), s, TestNatives) == Step(Ok(12), AfterB(AfterC(s)))
  {
    var args := [Binary(Add, N(2), Call("C", [])), N(3)];
    TwoPlusC(s);
    Evaluates(N(3), AfterC(s), TestNatives);
    TwoArguments(args[0], args[1], s, TestNatives);
    KeyB43();
    NativeB43(AfterC(s).history);
    CallMissing("B", args, [4, 3], "B,4,3", 12, s, AfterC(s), TestNatives);
  }

  lemma CallD(s: State)
    requires "D,5" !in s.cache
    ensures Eval(Call("D", [N(5)]), s, TestNatives) == Step(Ok(-3), AfterD(s))
  {
    OneConstant(5, s, TestNatives);
    OneDigitKeys("D", 5, 0);
    assert CacheKey("D", [5]) == "D,5";
    assert TestNatives(s.history, "D", [5]) == Returned(Int(-3));
    CallMissing("D", [N(5)], [5], "D,5", -3, s, s, TestNatives);
  }

  lemma MinusD(s: State)
    requires "D,5" !in s.cache
    ensures Eval(Unary(Negate, Call("D", [N(5)])), s, TestNatives) == Step(Ok(3), AfterD(s))
  {
    CallD(s);
    NegationReduces(Negate, Call("D", [N(5)]), s, TestNatives);
  }

  /** A call of `B` whose arguments reduce to 4 and 3 once `B(4, 3)` is
      cached: nothing is invoked. */
  lemma HitB(x: Expr, y: Expr, s: State, t: State, u: State)
    requires Eval(x, s, TestNatives) == Step(Ok(4), t)
    requires Eval(y, t, TestNatives) == Step(Ok(3), u)
    requires "B,4,3" in u.cache && u.cache["B,4,3"] == 12
    ensures Eval(Call("B", [x, y]), s, TestNatives) == Step(Ok(12), u)
  {
    TwoArguments(x, y, s, TestNatives);
    KeyB43();
    CallCached("B", [x, y], [4, 3], "B,4,3", s, u, TestNatives);
  }

  lemma SecondB(s: State)
    requires "B,4,3" in s.cache && s.cache["B,4,3"] == 12 && "D,5" !in s.cache
    ensures Eval(Call("B", [N(4), Unary(Negate, Call("D", [N(5)]))]), s, TestNatives) == Step(Ok(12), AfterD(s))
  {
    Evaluates(N(4), s, TestNatives);
    MinusD(s);
    HitB(N(4), Unary(Negate, Call("D", [N(5)])), s, s, AfterD(s));
  }

  /** `B(2 + C(), 3) * B(4, -D(5))` */
  const Product: Expr :=
    Binary(Multiply,
      Call("B", [Binary(Add, N(2), Call("C", [])), N(3)]),
      Call("B", [N(4), Unary(Negate, Call("D", [N(5)]))]))

  /** An arithmetic node whose operands reduce to `x` and then `y`. */
  lemma Operands(kind: BinaryKind, l: Expr, r: Expr, x: int32, y: int32, s: State, t: State, u: State, b: Behaviour)
    requires BinaryNode(kind) in AllowedExpressionTypes
    requires Eval(l, s, b) == Step(Ok(x), t) && Eval(r, t, b) == Step(Ok(y), u)
    ensures Eval(Binary(kind, l, r), s, b) == Step(Arithmetic(kind, x, y), u)
  {
    BinaryReduces(kind, l, r, s, b);
  }

  lemma ProductIs144(s: State)
    requires "C" !in s.cache && "B,4,3" !in s.cache && "D,5" !in s.cache
    ensures Eval(Product, s, TestNatives) == Step(Ok(144), AfterD(AfterB(AfterC(s))))
  {
    var t := AfterB(AfterC(s));
    FirstB(s);
    assert "B,4,3" in t.cache && t.cache["B,4,3"] == 12 && "D,5" !in t.cache;
    SecondB(t);
    Operands(Multiply, Product.left, Product.right, 12, 12, s, t, AfterD(t), TestNatives);
    assert Wrap(12 * 12) == 144;
  }

  /** `() => A(1) + B(2 + C(), 3) * B(4, -D(5))` */
  const Folding: Expr := Lambda(Binary(Add, Call("A", [N(1)]), Product))

  lemma FoldingBody()
    ensures Eval(Folding.body, Empty, TestNatives)
         == Step(Ok(150), AfterD(AfterB(AfterC(AfterA(Empty, 1, "A,1")))))
  {
    var s1 := AfterA(Empty, 1, "A,1");
    OneDigitKeys("A", 1, 0);
    assert CacheKey("A", [1]) == "A,1";
    CallA(Empty, 1, "A,1");
    assert Eval(Call("A", [N(1)]), Empty, TestNatives) == Step(Ok(6), s1);
    ProductIs144(s1);
    Operands(Add, Call("A", [N(1)]), Product, 6, 144, Empty, s1, AfterD(AfterB(AfterC(s1))), TestNatives);
    assert Wrap(6 + 144) == 150;
  }

  lemma FoldingHistory()
    ensures var h := AfterD(AfterB(AfterC(AfterA(Empty, 1, "A,1")))).history;
      && h == [Invocation("A", [1]), Invocation("C", []), Invocation("B", [4, 3]), Invocation("D", [5])]
      && CountOf(h, "B") == 1
  {
    OneB([Invocation("A", [1])], Invocation("C", []), Invocation("D", [5]));
    assert [Invocation("A", [1])] + [Invocation("C", []), Invocation("B", [4, 3]), Invocation("D", [5])]
        == [Invocation("A", [1]), Invocation("C", []), Invocation("B", [4, 3]), Invocation("D", [5])];
  }

  /** Counting over a history one invocation longer. */
  lemma CountAppend(h: seq<Invocation>, i: Invocation, name: string)
    ensures CountOf(h + [i], name) == CountOf(h, name) + (if i.name == name then 1 else 0)
  {
    assert (h + [i])[..|h|] == h;
  }

  /** One invocation of `B` among three of other methods. */
  lemma OneB(h: seq<Invocation>, x: Invocation, z: Invocation)
    requires CountOf(h, "B") == 0 && x.name != "B" && z.name != "B"
    ensures CountOf(h + [x, Invocation("B", [4, 3]), z], "B") == 1
  {
    CountAppend(h, x, "B");
    CountAppend(h + [x], Invocation("B", [4, 3]), "B");
    CountAppend(h + [x] + [Invocation("B", [4, 3])], z, "B");
    assert h + [x] + [Invocation("B", [4, 3])] + [z] == h + [x, Invocation("B", [4, 3]), z];
  }

  /** The first test: the tree folds to 150, and the second `B(4, 3)` is
      answered from the cache, so `B` runs once. */
  lemma FoldingReturns150()
    ensures var r := CallSpec(Folding, Empty, TestNatives);
      && r.result == Ok(150)
      && r.state.history == [Invocation("A", [1]), Invocation("C", []), Invocation("B", [4, 3]), Invocation("D", [5])]
      && CountOf(r.state.history, "B") == 1
  {
    FoldingBody();
    CallIsBody(Folding.body, Empty, TestNatives);
    FoldingHistory();
  }

  /** `() => -(-(-(-(-C()))))` */
  const Negations: Expr :=
    Lambda(Unary(Negate, Unary(Negate, Unary(Negate, Unary(Negate, Unary(Negate, Call("C", [])))))))

  /** Five negations of `C()` give -2. */
  lemma NegationsReturnMinus2()
    ensures CallSpec(Negations, Empty, TestNatives) == Step(Ok(-2), AfterC(Empty))
  {
    var c := Call("C", []);
    CallC(Empty);
    NegationReduces(Negate, c, Empty, TestNatives);
    NegationReduces(Negate, Unary(Negate, c), Empty, TestNatives);
    NegationReduces(Negate, Unary(Negate, Unary(Negate, c)), Empty, TestNatives);
    NegationReduces(Negate, Unary(Negate, Unary(Negate, Unary(Negate, c))), Empty, TestNatives);
    NegationReduces(Negate, Unary(Negate, Unary(Negate, Unary(Negate, Unary(Negate, c)))), Empty, TestNatives);
    CallIsBody(Negations.body, Empty, TestNatives);
  }

  /** `() => 2 + C() ^ 2`, where `^` binds looser than `+` */
  const ExclusiveOrTree: Expr :=
    Lambda(Binary(ExclusiveOr, Binary(Add, N(2), Call("C", [])), N(2)))

  /** An exclusive or is refused before `C` is invoked. */
  lemma ExclusiveOrRefused()
    ensures CallSpec(ExclusiveOrTree, Empty, TestNatives) == Step(Err(UnsupportedExpressionType(BinaryNode(ExclusiveOr))), Empty)
  {
    CallIsBody(ExclusiveOrTree.body, Empty, TestNatives);
    RejectedBeforeChildren(ExclusiveOrTree.body, Empty, TestNatives);
  }

  /** `() => B(2 + C(), 3) * B(4, -D(5)) / B(4, 3) + B(81 / A(22) + 1, 6 * C() / 4)` */
  const Caching: Expr :=
    Lambda(Binary(Add,
      Binary(Divide, Product, Call("B", [N(4), N(3)])),
      Call("B", [Binary(Add, Binary(Divide, N(81), Call("A", [N(22)])), N(1)),
                 Binary(Divide, Binary(Multiply, N(6), Call("C", [])), N(4))])))

  lemma Key22()
    ensures CacheKey("A", [22]) == "A,22"
  {
    assert DigitChar(2) == '2';
    assert NatToString(2) == "2";
    assert NatToString(22) == "22";
    assert IntToString(22) == "22";
    assert Render([22]) == ["22"];
  }

  /** `81 / A(22)`, invoking `A`. */
  lemma EightyOneOverA(s: State)
    requires "A,22" !in s.cache
    ensures Eval(Binary(Divide, N(81), Call("A", [N(22)])), s, TestNatives) == Step(Ok(3), AfterA(s, 22, "A,22"))
  {
    Key22();
    CallA(s, 22, "A,22");
    Evaluates(N(81), s, TestNatives);
    assert TruncDiv(81, 27) == 3;
    Evaluates(Binary(Divide, N(81), Call("A", [N(22)])), s, TestNatives);
  }

  /** `81 / A(22) + 1` once the cache holds `C`, `B(4, 3)` and `D(5)`. */
  lemma FirstArgumentOfLastB(s: State)
    requires "A,22" !in s.cache
    ensures Eval(Binary(Add, Binary(Divide, N(81), Call("A", [N(22)])), N(1)), s, TestNatives)
         == Step(Ok(4), AfterA(s, 22, "A,22"))
  {
    var t := AfterA(s, 22, "A,22");
    EightyOneOverA(s);
    Evaluates(N(1), t, TestNatives);
    Evaluates(Binary(Add, Binary(Divide, N(81), Call("A", [N(22)])), N(1)), s, TestNatives);
  }

  /** `6 * C() / 4` with `C` cached. */
  lemma SecondArgumentOfLastB(s: State)
    requires "C" in s.cache && s.cache["C"] == 2
    ensures Eval(Binary(Divide, Binary(Multiply, N(6), Call("C", [])), N(4)), s, TestNatives) == Step(Ok(3), s)
  {
    Evaluates(Call("C", []), s, TestNatives);
    Evaluates(Binary(Multiply, N(6), Call("C", [])), s, TestNatives);
    assert TruncDiv(12, 4) == 3;
    Evaluates(Binary(Divide, Binary(Multiply, N(6), Call("C", [])), N(4)), s, TestNatives);
  }

  /** `B(2 + C(), 3) * B(4, -D(5)) / B(4, 3)` from an empty cache. */
  lemma QuotientIs12()
    ensures Eval(Binary(Divide, Product, Call("B", [N(4), N(3)])), Empty, TestNatives)
         == Step(Ok(12), AfterD(AfterB(AfterC(Empty))))
  {
    var s3 := AfterD(AfterB(AfterC(Empty)));
    ProductIs144(Empty);
    ThirdB(s3);
    TwelfthOf(Product, Call("B", [N(4), N(3)]), Empty, s3);
  }

  /** 144 divided by 12. */
  lemma TwelfthOf(p: Expr, q: Expr, s: State, t: State)
    requires Eval(p, s, TestNatives) == Step(Ok(144), t) && Eval(q, t, TestNatives) == Step(Ok(12), t)
    ensures Eval(Binary(Divide, p, q), s, TestNatives) == Step(Ok(12), t)
  {
    Operands(Divide, p, q, 144, 12, s, t, t, TestNatives);
    assert TruncDiv(144, 12) == 12;
  }

  /** `B(4, 3)` once its key is cached. */
  lemma ThirdB(s: State)
    requires "B,4,3" in s.cache && s.cache["B,4,3"] == 12
    ensures Eval(Call("B", [N(4), N(3)]), s, TestNatives) == Step(Ok(12), s)
  {
    Evaluates(N(4), s, TestNatives);
    Evaluates(N(3), s, TestNatives);
    HitB(N(4), N(3), s, s, s);
  }


  /** `B(81 / A(22) + 1, 6 * C() / 4)` after the quotient. */
  lemma LastBIs12()
    ensures Eval(Caching.body.right, AfterD(AfterB(AfterC(Empty))), TestNatives)
         == Step(Ok(12), AfterA(AfterD(AfterB(AfterC(Empty))), 22, "A,22"))
  {
    var s3 := AfterD(AfterB(AfterC(Empty)));
    var s4 := AfterA(s3, 22, "A,22");
    FirstArgumentOfLastB(s3);
    SecondArgumentOfLastB(s4);
    HitB(Binary(Add, Binary(Divide, N(81), Call("A", [N(22)])), N(1)),
         Binary(Divide, Binary(Multiply, N(6), Call("C", [])), N(4)), s3, s4, s4);
  }

  lemma CachingBody()
    ensures Eval(Caching.body, Empty, TestNatives) == Step(Ok(24), AfterA(AfterD(AfterB(AfterC(Empty))), 22, "A,22"))
  {
    QuotientIs12();
    LastBIs12();
    Evaluates(Caching.body, Empty, TestNatives);
  }

  /** The caching test: `B` runs once, though four calls of `B(4, 3)` are
      reduced, and the tree reduces to 24. */
  lemma CachingRunsBOnce()
    ensures var r := CallSpec(Caching, Empty, TestNatives);
      && r.result == Ok(24)
      && r.state.history == [Invocation("C", []), Invocation("B", [4, 3]), Invocation("D", [5]), Invocation("A", [22])]
      && CountOf(r.state.history, "B") == 1
  {
    var final := AfterA(AfterD(AfterB(AfterC(Empty))), 22, "A,22");
    CachingBody();
    CallIsBody(Caching.body, Empty, TestNatives);
    assert CallSpec(Caching, Empty, TestNatives) == Step(Ok(24), final);
    CachingHistory();
  }

  lemma CachingHistory()
    ensures var h := AfterA(AfterD(AfterB(AfterC(Empty))), 22, "A,22").history;
      && h == [Invocation("C", []), Invocation("B", [4, 3]), Invocation("D", [5]), Invocation("A", [22])]
      && CountOf(h, "B") == 1
  {
    var h := [Invocation("C", []), Invocation("B", [4, 3]), Invocation("D", [5])];
    OneB([], Invocation("C", []), Invocation("D", [5]));
    assert [] + h == h;
    CountAppend(h, Invocation("A", [22]), "B");
    assert h + [Invocation("A", [22])] == [Invocation("C", []), Invocation("B", [4, 3]), Invocation("D", [5]), Invocation("A", [22])];
  }

  /** `() => E(5.78, 2)`: a `double` argument is refused and `E` never runs. */
  lemma DoubleArgumentRefused()
    ensures CallSpec(Lambda(Call("E", [Const(NonInt), N(2)])), Empty, TestNatives) == Step(Err(NotAnInt), Empty)
  {
    Evaluates(Const(NonInt), Empty, TestNatives);
    assert [Const(NonInt), N(2)][0] == Const(NonInt);
    Evaluates(Call("E", [Const(NonInt), N(2)]), Empty, TestNatives);
    CallIsBody(Call("E", [Const(NonInt), N(2)]), Empty, TestNatives);
  }

  /** `() => Big(1, 2, 3, 4, 5, 6)`: six arguments are refused and `Big`
      never runs. */
  lemma SixArgumentsRefused()
    ensures CallSpec(Lambda(Call("Big", [N(1), N(2), N(3), N(4), N(5), N(6)])), Empty, TestNatives)
         == Step(Err(TooManyArguments), Empty)
  {
    TooManyArgumentsRejected("Big", [N(1), N(2), N(3), N(4), N(5), N(6)], Empty, TestNatives);
    CallIsBody(Call("Big", [N(1), N(2), N(3), N(4), N(5), N(6)]), Empty, TestNatives);
  }

  /** `() => (int)F(5)`: the conversion node is refused and `F` never runs. */
  lemma ConversionRefused()
    ensures CallSpec(Lambda(Unary(Convert, Call("F", [N(5)]))), Empty, TestNatives)
         == Step(Err(UnsupportedExpressionType(UnaryNode(Convert))), Empty)
  {
    RejectedBeforeChildren(Unary(Convert, Call("F", [N(5)])), Empty, TestNatives);
    CallIsBody(Unary(Convert, Call("F", [N(5)])), Empty, TestNatives);
  }
}
