/** The syntax tree the parser builds: the literal-only object type and the
    expression and statement variants of the parser's own modules. */
module Syntax {
  import opened Results
  import opened Tokens

  /** A literal value. `NilObject` carries an optional tag that takes part
      in equality; the parser always builds it untagged. */
  datatype Object =
    | StringObject(str: string)
    | NumberObject(num: real)
    | BoolObject(truth: bool)
    | NilObject(tag: Option<nat>)

  /** The twelve expression variants, in declaration order. `Assign` and
      `Set` call their right-hand side `newValue`, and `Get` and `Set` call
      the instance expression `target`. */
  datatype Expr =
    | Assign(name: Token, newValue: Expr)
    | Binary(left: Expr, operator: Token, right: Expr)
    | Call(callee: Expr, paren: Token, arguments: seq<Expr>)
    | Get(target: Expr, name: Token)
    | Grouping(expression: Expr)
    | Literal(value: Object)
    | Logical(left: Expr, operator: Token, right: Expr)
    | Set(target: Expr, name: Token, newValue: Expr)
    | Super(keyword: Token, methodName: Token)
    | This(keyword: Token)
    | Unary(operator: Token, right: Expr)
    | Variable(name: Token)

  /** The statement variants. The declaration gives `Variable` a plain
      initializer, but the parser builds it with an optional one, which is
      what is modelled. */
  datatype Stmt =
    | Block(statements: seq<Stmt>)
    | Class(name: Token, superclass: Expr, methods: seq<Stmt>)
    | ExpressionStmt(expression: Expr)
    | Function(name: Token, params: seq<Token>, body: seq<Stmt>)
    | If(condition: Expr, thenBranch: Stmt, elseBranch: Stmt)
    | Print(expression: Expr)
    | Return(keyword: Token, value: Expr)
    | Variable(name: Token, init: Option<Expr>)
    | While(condition: Expr, loopBody: Stmt)

  /** The product of two numbers. The interpreters' numbers are `f64`;
      here they are `real`, so the product carries no rounding. */
  function Product(x: real, y: real): (p: real)
    ensures x == 0.0 || y == 0.0 ==> p == 0.0
    ensures x == 1.0 ==> p == y
    ensures y == 1.0 ==> p == x
    ensures x > 0.0 && y > 0.0 ==> p > 0.0
    ensures x != 0.0 ==> Quotient(p, x) == y
  {
    x * y
  }

  /** The quotient of two numbers. Division by zero, which gives an
      infinity or NaN in `f64`, has no `real` counterpart and yields `0.0`
      here. */
  function Quotient(x: real, y: real): (q: real)
    ensures y != 0.0 ==> q * y == x
    ensures y == 0.0 ==> q == 0.0
  {
    if y == 0.0 then 0.0 else x / y
  }
}
