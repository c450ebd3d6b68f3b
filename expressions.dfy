/** The expression trees the caller receives, the node kinds the visitor
    tells apart, and its failures. */
module Expressions {
  import opened Arith

  /** The value of a constant node or of a native result: an `int`, or a
      value of some other type (a `double`, say), of which nothing is kept. */
  datatype Value = Int(i: int32) | NonInt

  datatype UnaryKind = Negate | NegateChecked | Convert | ConvertChecked | Not | UnaryPlus | Quote

  datatype BinaryKind =
    | Add | AddChecked | Subtract | SubtractChecked | Multiply | MultiplyChecked | Divide | Modulo
    | ExclusiveOr | And | Or | LeftShift | RightShift | Power

  /** Node shapes whose children the visitor never reaches. */
  datatype OtherKind = Parameter | Conditional | MemberAccess | Invoke | New

  /** An expression tree. A call names a static method and carries its
      argument nodes; a lambda has no parameters (the root is a `Func<int>`). */
  datatype Expr =
    | Const(value: Value)
    | Unary(op: UnaryKind, operand: Expr)
    | Binary(kind: BinaryKind, left: Expr, right: Expr)
    | Call(name: string, args: seq<Expr>)
    | Lambda(body: Expr)
    | Other(other: OtherKind)

  /** The framework's node type of a node. */
  datatype NodeType =
    | LambdaNode | ConstantNode | CallNode
    | UnaryNode(u: UnaryKind) | BinaryNode(b: BinaryKind) | OtherNode(o: OtherKind)

  function NodeTypeOf(e: Expr): (t: NodeType)
    ensures t == LambdaNode <==> e.Lambda?
    ensures t == ConstantNode <==> e.Const?
    ensures t == CallNode <==> e.Call?
    ensures t.UnaryNode? <==> e.Unary?
    ensures t.BinaryNode? <==> e.Binary?
    ensures t.OtherNode? <==> e.Other?
  {
    match e
    case Const(_) => ConstantNode
    case Unary(op, _) => UnaryNode(op)
    case Binary(kind, _, _) => BinaryNode(kind)
    case Call(_, _) => CallNode
    case Lambda(_) => LambdaNode
    case Other(k) => OtherNode(k)
  }

  /** The thirteen node types the visitor accepts. */
  const AllowedExpressionTypes: set<NodeType> := {
    LambdaNode, ConstantNode, CallNode,
    BinaryNode(Add), BinaryNode(AddChecked), BinaryNode(Subtract), BinaryNode(SubtractChecked),
    BinaryNode(Divide), BinaryNode(Multiply), BinaryNode(MultiplyChecked), BinaryNode(Modulo),
    UnaryNode(Negate), UnaryNode(NegateChecked)
  }

  /** The nodes the visitor accepts: constants, calls, lambdas, the two
      negations and the eight arithmetic operators, and nothing else. */
  lemma AcceptedNodes(e: Expr)
    ensures NodeTypeOf(e) in AllowedExpressionTypes <==>
      || e.Const? || e.Call? || e.Lambda?
      || (e.Unary? && (e.op == Negate || e.op == NegateChecked))
      || (e.Binary? && (e.kind == Add || e.kind == AddChecked || e.kind == Subtract || e.kind == SubtractChecked
                        || e.kind == Multiply || e.kind == MultiplyChecked || e.kind == Divide || e.kind == Modulo))
  {
  }

  /** Why an evaluation stops. */
  datatype Error =
    | UnsupportedExpressionType(nodeType: NodeType)  // a node outside the allowed set
    | UnsupportedOperation(operation: NodeType)      // the binary-operator check
    | NotAnInt                                       // a constant that is not an `int`
    | TooManyArguments                               // a call with more than five arguments
    | DivideByZero                                   // `/` or `%` by zero
    | Overflow                                       // a checked operation or MinValue / -1
    | NonIntResult                                   // a native result that is not an `int`
    | NativeThrew                                    // the native function itself raised
    | NotALambda                                     // the root is not a lambda
  {
    /** The failures that happen after a native function was invoked. */
    predicate AfterInvocation() {
      NonIntResult? || NativeThrew?
    }
  }

  datatype Result<T> = Ok(value: T) | Err(error: Error)
}
