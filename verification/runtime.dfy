/** The run-time values, scopes and trees of the tree-walking interpreter.
    Objects, scopes and trees refer to one another (a function object holds
    its body, a class holds its environment, an instance holds its fields),
    so they are declared together. */
module Runtime {
  import opened Results
  import opened Tokens

  /** Whether a function object is a plain function or a method. */
  datatype FunctionType = Function | Method

  /** A run-time value. Numbers are `real` (see `Syntax.Quotient` for the
      one place `f64` and `real` part ways). */
  datatype Object =
    | StringObject(str: string)
    | NumberObject(num: real)
    | BoolObject(truth: bool)
    | FunctionObject(name: Token, parameters: seq<Token>, body: Stmt, captures: seq<(Token, Object)>, functype: FunctionType)
    | Class(name: Token, classEnv: Environment)
    | ClassInstance(name: Token, classValue: Object, memory: Memory)
    | NilObject

  /** One scope: the bindings, keyed by lexeme, and the function and
      instance flags the scope was entered with. */
  datatype Memory = Memory(vars: map<string, Object>, inFunction: Option<FunctionType>, classInstance: Option<Token>)

  /** The scope stack, innermost last, with the return latch, the bindings
      waiting for the next scope push, and the flags that scope will get. */
  datatype Environment = Environment(
    stack: seq<Memory>,
    returnSwitch: bool,
    returnValue: Object,
    injects: seq<(Token, Object)>,
    inFunction: Option<FunctionType>,
    classInstance: Option<Token>)

  /** The interpreter's expression variants. */
  datatype Expr =
    | Assign(name: Token, newValue: Expr)
    | Binary(left: Expr, operator: Token, right: Expr)
    | Call(callee: Expr, paren: Token, arguments: seq<Expr>)
    | Get(target: Expr, name: Token)
    | Grouping(expression: Expr)
    | Literal(value: Object)
    | Logical(left: Expr, operator: Token, right: Expr)
    | Set(target: Expr, name: Token, newValue: Expr)
    | Super(keyword: Token, methodName: Token)
    | This(keyword: Token)
    | Unary(operator: Token, right: Expr)
    | Variable(name: Token)

  /** The interpreter's statement variants. */
  datatype Stmt =
    | Block(statements: seq<Stmt>)
    | ClassStmt(name: Token, superclass: Expr, methods: seq<Stmt>)
    | ExpressionStmt(expression: Expr)
    | FunctionStmt(name: Token, params: seq<Token>, body: seq<Stmt>)
    | If(condition: Expr, thenBranch: Stmt, elseBranch: Stmt)
    | Print(expression: Expr)
    | Return(keyword: Token, value: Expr)
    | VarStmt(name: Token, init: Option<Expr>)
    | While(condition: Expr, loopBody: Stmt)

  /** The variant of an object, which is what `mem::discriminant` compares. */
  datatype Kind = StringKind | NumberKind | BoolKind | FunctionKind | ClassKind | InstanceKind | NilKind

  function KindOf(o: Object): (k: Kind)
    ensures k == NilKind <==> o.NilObject?
    ensures k == NumberKind <==> o.NumberObject?
    ensures k == StringKind <==> o.StringObject?
    ensures k == BoolKind <==> o.BoolObject?
  {
    match o
    case StringObject(_) => StringKind
    case NumberObject(_) => NumberKind
    case BoolObject(_) => BoolKind
    case FunctionObject(_, _, _, _, _) => FunctionKind
    case Class(_, _) => ClassKind
    case ClassInstance(_, _, _) => InstanceKind
    case NilObject => NilKind
  }

  /** Why the interpreter panics. */
  datatype RuntimeError =
    | KindMismatch
    | InvalidOperands(op: TokenType)
    | InvalidOperator(op: TokenType)
    | Undefined(name: string)
    | WrongArity
    | NotCallable
    | NotAnInstance
    | NotAClass
    | NotAVariable
    | InvalidThis
    | NoImplementation
    | InvalidStatement
    | OutOfFuel
}
