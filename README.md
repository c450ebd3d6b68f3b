# LambdaInvoker: a memoising evaluator of expression trees

`MyCaller.Call` receives a parameterless lambda `() => ...` as an
expression tree. It walks the tree with a `ReplacingMethodsExpressionVisitor`
and returns the `int` the tree reduces to. The visitor works bottom-up:

- it refuses every node whose type is not one of thirteen allowed node types;
- it keeps `int` constants and refuses any other constant;
- it negates a reduced operand;
- it applies `+`, `-`, `*` (each plain or checked), `/` and `%` to the
  reduced operands, left first;
- it answers a static method call from a cache keyed by the text
  `Name,arg1,...,argn` (or `Name` when there are no arguments). Only when the
  key is missing is the native method invoked, and an `int` result is then
  stored.

The visitor, and with it the cache, lives as long as the `MyCaller` object.

The project models this in Dafny. The modules are:

- `Arith`: C#'s 32-bit `int`. Unchecked `+ - *` and negation wrap around.
  Checked forms overflow. `/` and `%` truncate toward zero. Division or
  remainder by zero fails, and so does `MinValue / -1` (and `% -1`).
- `Decimal`: the decimal text of an `int`, with its inverse.
- `CacheKeys`: the cache key and the ways to read it back. The key is
  proved injective for comma-free method names.
- `Expressions`: trees, node types, the allowed set and the failures.
- `Natives`: the native methods. They are an oracle whose answer may depend
  on every invocation made before (a counter, like the test's `CountOfB`).
  The `Registry` class records the invocations.
- `Visitor`:
  - `Eval`, `Dispatch`, `EvalArgs` and `CachedInvoke` specify one reduction
    as a function of the node, the cache and the invocation history.
  - The class `ReplacingMethodsExpressionVisitor` has a `cache` field. Its
    `Visit*` methods change that field in place, and each is proved equal to
    its specification function.
- `VisitorProperties`: what each node kind does. It also covers cache hits
  and misses, the count of invocations and their distinct keys, re-evaluation against a warm cache,
  and the irrelevance of the history for deterministic natives.
- `Caller`: the `MyCaller` class and its `Call` method. Also the lemmas
  about calls repeated on one caller.
- `Examples`: the seven trees of the unit tests, evaluated with the test
  class's static methods.

Behaviour of the code that is easy to misread:

- The cache is not reset between calls. It persists for the lifetime of the
  `MyCaller` object, since the visitor is created once per caller.
- The operator check inside `VisitBinary` (lines 45-46) can never fail. Every
  binary node reaching it has already passed the same check in `Visit`. The
  model keeps the check in `Dispatch`. `Eval` is proved never to fail with
  `UnsupportedOperation`.
- `NegateChecked` is allowed, but it negates with unchecked `-`. A checked
  negation of `int.MinValue` therefore gives `int.MinValue`, not an overflow.
- Entries stored before a failure stay in the cache.

## Model

| member | source | states |
|---|---|---|
| Arith.Wrap | LambdaInvoker/LambdaInvoker/sources/ReplacingMethodsExpressionVisitor.cs:34 | the 32-bit result equals its argument when the argument is an `int`, and is congruent to it modulo 2^32 otherwise |
| Arith.TruncDiv | LambdaInvoker/LambdaInvoker/sources/ReplacingMethodsExpressionVisitor.cs:49 | C#'s `/`: the quotient is at most the dividend in magnitude, is non-negative when the signs agree and non-positive when they differ, and is 0 when the dividend is smaller than the divisor in magnitude |
| Arith.TruncMod | LambdaInvoker/LambdaInvoker/sources/ReplacingMethodsExpressionVisitor.cs:49 | C#'s `%`: the remainder is smaller than the divisor and at most the dividend in magnitude, has the dividend's sign, and is the dividend itself when that is smaller than the divisor in magnitude |
| Arith.TruncDivMod | LambdaInvoker/LambdaInvoker/sources/ReplacingMethodsExpressionVisitor.cs:49 | C# quotient and remainder recompose the dividend; the remainder is smaller than the divisor in magnitude and has the dividend's sign; the quotient's magnitude is the quotient of the magnitudes |
| Arith.TruncDivInRange | LambdaInvoker/LambdaInvoker/sources/ReplacingMethodsExpressionVisitor.cs:49 | `int / int` is an `int` for every divisor except `MinValue / -1` |
| Arith.TruncModInRange | LambdaInvoker/LambdaInvoker/sources/ReplacingMethodsExpressionVisitor.cs:49 | `int % int` is an `int` |
| Decimal.NatToString | LambdaInvoker/LambdaInvoker/sources/ReplacingMethodsExpressionVisitor.cs:86 | the text of a natural number is a nonempty string of digits |
| Decimal.IntToString | LambdaInvoker/LambdaInvoker/sources/ReplacingMethodsExpressionVisitor.cs:86 | the text of a constant is nonempty and has no comma |
| Decimal.ParseIntToString | LambdaInvoker/LambdaInvoker/sources/ReplacingMethodsExpressionVisitor.cs:86 | reading the text of an integer back gives the integer, so distinct argument values render differently |
| CacheKeys.Split | LambdaInvoker/LambdaInvoker/sources/ReplacingMethodsExpressionVisitor.cs:86 | splitting at commas always yields at least one piece |
| CacheKeys.Render | LambdaInvoker/LambdaInvoker/sources/ReplacingMethodsExpressionVisitor.cs:86 | one text per argument, in order, each the decimal text of that argument |
| CacheKeys.SplitJoin | LambdaInvoker/LambdaInvoker/sources/ReplacingMethodsExpressionVisitor.cs:86 | splitting the comma join of comma-free pieces returns the pieces |
| CacheKeys.ParseAllRender | LambdaInvoker/LambdaInvoker/sources/ReplacingMethodsExpressionVisitor.cs:86 | reading the argument texts back gives the arguments |
| CacheKeys.CacheKey | LambdaInvoker/LambdaInvoker/sources/ReplacingMethodsExpressionVisitor.cs:81-88 | the key starts with the method name; it is the name alone exactly when there are no arguments, and otherwise a comma follows the name (see also KeyIsJoin, CacheKeyRoundTrip, CacheKeyInjective) |
| CacheKeys.KeyIsJoin | LambdaInvoker/LambdaInvoker/sources/ReplacingMethodsExpressionVisitor.cs:81-88 | with or without arguments, the key is the comma join of the name and the argument texts |
| CacheKeys.CacheKeyRoundTrip | LambdaInvoker/LambdaInvoker/sources/ReplacingMethodsExpressionVisitor.cs:81-88 | a key built from a comma-free name parses back into that name and those arguments |
| CacheKeys.CacheKeyInjective | LambdaInvoker/LambdaInvoker/sources/ReplacingMethodsExpressionVisitor.cs:16 | for comma-free names, two calls have the same key if and only if they have the same name and the same reduced arguments |
| CacheKeys.CommaInNameCollides | LambdaInvoker/LambdaInvoker/sources/ReplacingMethodsExpressionVisitor.cs:81-88 | without the comma-free condition the keys collide: `B,4` with no arguments and `B` with argument 4 share a key |
| Expressions.NodeTypeOf | LambdaInvoker/LambdaInvoker/sources/ReplacingMethodsExpressionVisitor.cs:22 | the node type tells a lambda, a constant, a call, a unary, a binary and any other node apart, each exactly |
| Expressions.AcceptedNodes | LambdaInvoker/LambdaInvoker/sources/ReplacingMethodsExpressionVisitor.cs:12-14 | a node's type is in the allowed set if and only if the node is a constant, a call, a lambda, one of the two negations or one of the eight arithmetic operators |
| Natives.Registry.constructor | LambdaInvoker/LambdaInvoker/sources/ReplacingMethodsExpressionVisitor.cs:75 | a fresh registry has the given behaviour and has run nothing |
| Natives.Registry.Invoke | LambdaInvoker/LambdaInvoker/sources/ReplacingMethodsExpressionVisitor.cs:75 | running a native returns its behaviour on the history so far, and appends exactly one invocation with that name and those arguments |
| Visitor.Arithmetic | LambdaInvoker/LambdaInvoker/sources/ReplacingMethodsExpressionVisitor.cs:49-50 | unchecked `+ - *` always succeed, congruent to the exact value modulo 2^32; checked ones succeed if and only if the exact value is an `int`, and yield it, otherwise Overflow; `/` and `%` fail with DivideByZero exactly on a zero divisor and with Overflow exactly on `MinValue` by -1, and otherwise yield the truncating quotient or remainder |
| Visitor.Eval | LambdaInvoker/LambdaInvoker/sources/ReplacingMethodsExpressionVisitor.cs:17-26 | a reduction only adds cache entries and appends invocations; as many invocations as new keys, plus at most one final failed invocation; it never fails with UnsupportedOperation |
| Visitor.Dispatch | LambdaInvoker/LambdaInvoker/sources/ReplacingMethodsExpressionVisitor.cs:28-79 | the same growth and counting of invocations for each node shape; UnsupportedOperation only for a node type outside the allowed set |
| Visitor.EvalArgs | LambdaInvoker/LambdaInvoker/sources/ReplacingMethodsExpressionVisitor.cs:66 | reducing the arguments left to right grows the state as above, and on success gives one value per argument |
| Visitor.CachedInvoke | LambdaInvoker/LambdaInvoker/sources/ReplacingMethodsExpressionVisitor.cs:70-78 | a reduced call grows the state as above, and on success its key is in the cache, mapped to the returned value |
| Visitor.EvalArgsFrom | LambdaInvoker/LambdaInvoker/sources/ReplacingMethodsExpressionVisitor.cs:66 | reducing the arguments from position i reduces argument i first, then the rest from the state it leaves |
| Visitor.ReplacingMethodsExpressionVisitor.constructor | LambdaInvoker/LambdaInvoker/sources/ReplacingMethodsExpressionVisitor.cs:17 | a new visitor has an empty cache |
| Visitor.ReplacingMethodsExpressionVisitor.Visit | LambdaInvoker/LambdaInvoker/sources/ReplacingMethodsExpressionVisitor.cs:19-26 | the result, the new cache and the new invocation history are exactly those of `Eval` on the old cache and history |
| Visitor.ReplacingMethodsExpressionVisitor.VisitConstant | LambdaInvoker/LambdaInvoker/sources/ReplacingMethodsExpressionVisitor.cs:53-58 | succeeds if and only if the constant is an `int`, with that `int`; fails with NotAnInt otherwise |
| Visitor.ReplacingMethodsExpressionVisitor.VisitUnary | LambdaInvoker/LambdaInvoker/sources/ReplacingMethodsExpressionVisitor.cs:28-35 | result and new state are those of `Dispatch` on the negation |
| Visitor.ReplacingMethodsExpressionVisitor.VisitLambda | LambdaInvoker/LambdaInvoker/sources/ReplacingMethodsExpressionVisitor.cs:37-40 | result and new state are those of `Dispatch` on the lambda, i.e. of its body |
| Visitor.ReplacingMethodsExpressionVisitor.VisitBinary | LambdaInvoker/LambdaInvoker/sources/ReplacingMethodsExpressionVisitor.cs:42-51 | result and new state are those of `Dispatch` on the binary node |
| Visitor.ReplacingMethodsExpressionVisitor.VisitMethodCall | LambdaInvoker/LambdaInvoker/sources/ReplacingMethodsExpressionVisitor.cs:60-79 | result and new state are those of `Dispatch` on the call |
| Visitor.ReplacingMethodsExpressionVisitor.VisitArguments | LambdaInvoker/LambdaInvoker/sources/ReplacingMethodsExpressionVisitor.cs:66 | the loop over the arguments gives the result and state of `EvalArgs` |
| Visitor.ReplacingMethodsExpressionVisitor.InvokeCached | LambdaInvoker/LambdaInvoker/sources/ReplacingMethodsExpressionVisitor.cs:70-78 | the cache lookup or invocation and store gives the result and state of `CachedInvoke` |
| VisitorProperties.RejectedBeforeChildren | LambdaInvoker/LambdaInvoker/sources/ReplacingMethodsExpressionVisitor.cs:22-25 | a node outside the allowed set fails with its node type and leaves the cache and the history unchanged, so none of its children are visited |
| VisitorProperties.ConstantReduces | LambdaInvoker/LambdaInvoker/sources/ReplacingMethodsExpressionVisitor.cs:53-57 | a constant changes nothing, and reduces to itself if and only if it is an `int`; otherwise NotAnInt |
| VisitorProperties.NegationReduces | LambdaInvoker/LambdaInvoker/sources/ReplacingMethodsExpressionVisitor.cs:28-35 | a negation (checked or not) succeeds exactly when its operand does, with the negated value, `MinValue` wrapping to itself; an operand's failure passes through and the state is the operand's |
| VisitorProperties.BinaryReduces | LambdaInvoker/LambdaInvoker/sources/ReplacingMethodsExpressionVisitor.cs:42-51 | the left operand is reduced first, and its failure is the node's; the right one is then reduced from the state the left one left; the operator is applied to both values |
| VisitorProperties.DivisionByZero | LambdaInvoker/LambdaInvoker/sources/ReplacingMethodsExpressionVisitor.cs:49 | `/` or `%` with a right operand that reduces to 0 fails with DivideByZero |
| VisitorProperties.TooManyArgumentsRejected | LambdaInvoker/LambdaInvoker/sources/ReplacingMethodsExpressionVisitor.cs:62-63 | a call with more than five arguments fails and leaves the cache and the history unchanged |
| VisitorProperties.CallReduces | LambdaInvoker/LambdaInvoker/sources/ReplacingMethodsExpressionVisitor.cs:60-71 | a call with at most five arguments reduces its arguments, then stops with their failure or continues as the cached invocation on their values |
| VisitorProperties.CacheHit | LambdaInvoker/LambdaInvoker/sources/ReplacingMethodsExpressionVisitor.cs:70-71 | a cached key returns the stored value with the cache and history unchanged |
| VisitorProperties.CacheMiss | LambdaInvoker/LambdaInvoker/sources/ReplacingMethodsExpressionVisitor.cs:70-78 | a missing key invokes the native exactly once with the reduced arguments; it succeeds if and only if the native returned an `int`, storing exactly that one new key; otherwise the cache is unchanged |
| VisitorProperties.InvocationsAreDistinctKeys | LambdaInvoker/LambdaInvoker/sources/ReplacingMethodsExpressionVisitor.cs:66-76 | from an empty cache, no two invocations share a key, and the final cache holds exactly the keys of the invocations made: all of them, except the last one when the evaluation failed on a native's outcome; so a successful evaluation invokes natives exactly as often as there are keys in the cache, and a failed one at most once more |
| VisitorProperties.EvalOncePerKey | LambdaInvoker/LambdaInvoker/sources/ReplacingMethodsExpressionVisitor.cs:19-79 | from any cache: no native is invoked under a key the cache already holds, no two invocations share a key, and the cache gains exactly the keys of the invocations made, except a final failed one |
| VisitorProperties.DispatchOncePerKey | LambdaInvoker/LambdaInvoker/sources/ReplacingMethodsExpressionVisitor.cs:28-79 | the same for an allowed node, by shape |
| VisitorProperties.BinaryOncePerKey | LambdaInvoker/LambdaInvoker/sources/ReplacingMethodsExpressionVisitor.cs:42-51 | the same for an arithmetic node: the right operand invokes nothing under a key the left one stored |
| VisitorProperties.CallOncePerKey | LambdaInvoker/LambdaInvoker/sources/ReplacingMethodsExpressionVisitor.cs:60-79 | the same for a call: the call's own invocation comes after those of its arguments, under a key none of them stored |
| VisitorProperties.EvalArgsOncePerKey | LambdaInvoker/LambdaInvoker/sources/ReplacingMethodsExpressionVisitor.cs:66 | the same for an argument list |
| VisitorProperties.CachedInvokeOncePerKey | LambdaInvoker/LambdaInvoker/sources/ReplacingMethodsExpressionVisitor.cs:70-78 | a reduced call invokes a native only under a missing key, and stores that key exactly when the native returned an `int` |
| VisitorProperties.KeysFreshConcat | LambdaInvoker/LambdaInvoker/sources/ReplacingMethodsExpressionVisitor.cs:66-76 | two stages, the first of which stored every key it invoked, together invoke each key at most once and never under a key the starting cache held |
| VisitorProperties.CachedRerun | LambdaInvoker/LambdaInvoker/sources/ReplacingMethodsExpressionVisitor.cs:70-71 | a node that once reduced to a value reduces to it again under any cache holding what that evaluation stored, leaving the cache and history unchanged, whatever the natives now do |
| VisitorProperties.CachedRerunArgs | LambdaInvoker/LambdaInvoker/sources/ReplacingMethodsExpressionVisitor.cs:66 | the same for an argument list |
| VisitorProperties.HistoryIrrelevant | LambdaInvoker/LambdaInvoker/sources/ReplacingMethodsExpressionVisitor.cs:19-79 | with natives that ignore the history, two evaluations from the same cache give the same result and cache, and make the same invocations |
| VisitorProperties.HistoryIrrelevantDispatch | LambdaInvoker/LambdaInvoker/sources/ReplacingMethodsExpressionVisitor.cs:28-79 | the same for an allowed node, by shape |
| VisitorProperties.HistoryIrrelevantUnary | LambdaInvoker/LambdaInvoker/sources/ReplacingMethodsExpressionVisitor.cs:28-35 | the same for a negation |
| VisitorProperties.HistoryIrrelevantBinary | LambdaInvoker/LambdaInvoker/sources/ReplacingMethodsExpressionVisitor.cs:42-51 | the same for an arithmetic node |
| VisitorProperties.HistoryIrrelevantCall | LambdaInvoker/LambdaInvoker/sources/ReplacingMethodsExpressionVisitor.cs:60-79 | the same for a call |
| VisitorProperties.HistoryIrrelevantArgs | LambdaInvoker/LambdaInvoker/sources/ReplacingMethodsExpressionVisitor.cs:66 | the same for an argument list |
| Caller.CallSpec | LambdaInvoker/LambdaInvoker/sources/MyCaller.cs:11-22 | a call only grows the cache and the history, with as many invocations as new keys, plus at most one final failed invocation |
| Caller.MyCaller.constructor | LambdaInvoker/LambdaInvoker/sources/MyCaller.cs:9 | a new caller owns a fresh visitor with an empty cache |
| Caller.MyCaller.Call | LambdaInvoker/LambdaInvoker/sources/MyCaller.cs:11-22 | the result, the visitor's new cache and the new history are exactly those of `CallSpec` on the old cache and history |
| Caller.NonLambdaRejected | LambdaInvoker/LambdaInvoker/sources/MyCaller.cs:13-14 | a root that is not a lambda fails with NotALambda and changes nothing |
| Caller.CallIsBody | LambdaInvoker/LambdaInvoker/sources/MyCaller.cs:17-21 | a call on a lambda gives exactly its body's reduction: the value on success, the same error on failure |
| Caller.RepeatedCall | LambdaInvoker/LambdaInvoker/sources/MyCaller.cs:9 | after a successful call, the same tree on the same caller returns the same value, invokes nothing and leaves the cache unchanged, whatever the natives now do |
| Caller.LaterCallHitsCache | LambdaInvoker/LambdaInvoker/sources/MyCaller.cs:9 | a later call finds a tree's answer in any cache that extends what its first successful call left, and invokes nothing |
| Caller.CallInvokesOncePerKey | LambdaInvoker/LambdaInvoker/sources/MyCaller.cs:9 | on a caller whose cache holds a key, a later call on any tree never invokes a native under that key, invokes under each key at most once, and adds only keys of invocations it made |
| Caller.FreshCallersAgree | LambdaInvoker/LambdaInvoker/sources/MyCaller.cs:9 | with natives that ignore the history, two fresh callers return the same result for a tree |
| Examples.FoldingReturns150 | LambdaInvoker/Tests/sources/MyCallerTests.cs:14-19 | `A(1) + B(2 + C(), 3) * B(4, -D(5))` gives 150; the invocations are A(1), C(), B(4,3), D(5), so `B` runs once |
| Examples.NegationsReturnMinus2 | LambdaInvoker/Tests/sources/MyCallerTests.cs:22-27 | five negations of `C()` give -2 |
| Examples.ExclusiveOrRefused | LambdaInvoker/Tests/sources/MyCallerTests.cs:29-35 | `2 + C() ^ 2` fails on the ExclusiveOr node before `C` runs |
| Examples.CachingRunsBOnce | LambdaInvoker/Tests/sources/MyCallerTests.cs:37-44 | `B(2 + C(), 3) * B(4, -D(5)) / B(4, 3) + B(81 / A(22) + 1, 6 * C() / 4)` gives 24, and `B` is invoked exactly once |
| Examples.DoubleArgumentRefused | LambdaInvoker/Tests/sources/MyCallerTests.cs:46-52 | `E(5.78, 2)` fails with NotAnInt and invokes nothing |
| Examples.SixArgumentsRefused | LambdaInvoker/Tests/sources/MyCallerTests.cs:54-60 | `Big(1, 2, 3, 4, 5, 6)` fails with TooManyArguments and invokes nothing |
| Examples.ConversionRefused | LambdaInvoker/Tests/sources/MyCallerTests.cs:62-68 | `(int)F(5)` fails on the Convert node and invokes nothing |

## Left out

- Runtime code generation and reflection (`Compile().DynamicInvoke()`) are
  not modelled. Arithmetic is computed directly, and method calls go to the
  native oracle.
- The native methods are parameters, not code. A native either returns a
  value, or an exception escapes from it (`Threw`).
- The framework's visitor double dispatch, `node.Update` and the rebuilt
  trees are not modelled. A node reduces to its `int` value, not to a new
  constant node.
- Floating point is not modelled. A `double` (or any non-`int`) constant
  or native result is a tag without a value.
- A lambda below the root is reduced to the value of its body. A tree can
  carry one only as an argument to a delegate-typed parameter. In that case
  the source passes a delegate and keys it by its text; the model does not.
- Instance methods are not modelled. A call has no receiver (`node.Object`),
  and a method is known only by its name. Methods with one name in
  different classes therefore share keys, as they do in the source. The
  source never visits a receiver either (line 67 hands `node.Object` to
  `Update` untouched), so a receiver escapes both the allowed-type check and
  the cache, and calls that differ only in their receiver share a key:
  `A(1).CompareTo(5)` and `A(2).CompareTo(5)` are both cached as `CompareTo,5`.
- `ConstantExpression.ToString` is modelled as plain decimal text, with a
  leading `-` for negative values. Culture settings are not modelled.
- Exception types and messages are not modelled. Each failure is one value
  of `Error`, and a failing call returns no integer.
- Thread safety of the shared dictionary is not modelled: the model is
  sequential.
- The test framework (attributes, `ExpectedException`) is not modelled. The
  test class's static methods appear only as the oracle `TestNatives` of
  the examples, with the counter `CountOfB` read off the invocation history.
- The natives' own arithmetic is not modelled. In the examples, the test
  methods are written out with the same 32-bit rules.
