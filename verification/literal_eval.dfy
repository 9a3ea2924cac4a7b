/** The pure evaluator of the parser's expressions: literals, groupings and
    the unary and binary operators, with dynamic kind checks; every other
    variant is not implemented. */
module LiteralEval {
  import opened Results
  import opened Tokens
  import opened Syntax

  /** The variant of an object, which is what `mem::discriminant` compares. */
  datatype Kind = StringKind | NumberKind | BoolKind | NilKind

  function KindOf(o: Object): Kind {
    match o
    case StringObject(_) => StringKind
    case NumberObject(_) => NumberKind
    case BoolObject(_) => BoolKind
    case NilObject(_) => NilKind
  }

  /** Why an evaluation panics. */
  datatype EvalError =
    | KindMismatch
    | InvalidOperands(op: TokenType)
    | InvalidOperator(op: TokenType)
    | NoImplementation

  /** The operator dispatch of a Binary, once both operands are known to
      be of the same kind. */
  function ApplyBinary(op: TokenType, l: Object, r: Object): (res: Result<Object, EvalError>)
    requires KindOf(l) == KindOf(r)
    ensures res.Ok? ==> !res.value.NilObject?
    ensures op == EqualEqual ==> res == Ok(BoolObject(l == r))
    ensures op == BangEqual ==> res == Ok(BoolObject(l != r))
    ensures op == Plus && l.StringObject? ==> res == Ok(StringObject(l.str + r.str))
    ensures op == Less && l.NumberObject? ==> res == Ok(BoolObject(l.num < r.num))
    ensures op == LessEqual && l.NumberObject? ==> res == Ok(BoolObject(l.num <= r.num))
    ensures op == Greater && l.NumberObject? ==> res == Ok(BoolObject(l.num > r.num))
    ensures op == GreaterEqual && l.NumberObject? ==> res == Ok(BoolObject(l.num >= r.num))
    ensures op == Plus && l.NumberObject? ==> res == Ok(NumberObject(l.num + r.num))
    ensures op == Minus && l.NumberObject? ==> res == Ok(NumberObject(l.num - r.num))
    ensures op == Star && l.NumberObject? ==> res == Ok(NumberObject(Product(l.num, r.num)))
    ensures op == Slash && l.NumberObject? ==> res == Ok(NumberObject(Quotient(l.num, r.num)))
  {
    var numbers := l.NumberObject? && r.NumberObject?;
    match op
    case EqualEqual => Ok(BoolObject(l == r))
    case BangEqual => Ok(BoolObject(l != r))
    case GreaterEqual => if numbers then Ok(BoolObject(l.num >= r.num)) else Err(InvalidOperands(op))
    case Greater => if numbers then Ok(BoolObject(l.num > r.num)) else Err(InvalidOperands(op))
    case LessEqual => if numbers then Ok(BoolObject(l.num <= r.num)) else Err(InvalidOperands(op))
    case Less => if numbers then Ok(BoolObject(l.num < r.num)) else Err(InvalidOperands(op))
    case Plus =>
      if numbers then Ok(NumberObject(l.num + r.num))
      else if l.StringObject? && r.StringObject? then Ok(StringObject(l.str + r.str))
      else Err(InvalidOperands(op))
    case Minus => if numbers then Ok(NumberObject(l.num - r.num)) else Err(InvalidOperands(op))
    case Slash => if numbers then Ok(NumberObject(Quotient(l.num, r.num))) else Err(InvalidOperands(op))
    case Star => if numbers then Ok(NumberObject(Product(l.num, r.num))) else Err(InvalidOperands(op))
    case _ => Err(InvalidOperator(op))
  }

  /** The operator dispatch of a Unary. */
  function ApplyUnary(op: TokenType, v: Object): (res: Result<Object, EvalError>)
    ensures res.Ok? <==> (op == Bang && v.BoolObject?) || (op == Minus && v.NumberObject?)
    ensures res.Ok? && op == Bang ==> res.value == BoolObject(!v.truth)
    ensures res.Ok? && op == Minus ==> res.value == NumberObject(-v.num)
  {
    match op
    case Bang => if v.BoolObject? then Ok(BoolObject(!v.truth)) else Err(InvalidOperands(op))
    case Minus => if v.NumberObject? then Ok(NumberObject(-v.num)) else Err(InvalidOperands(op))
    case _ => Err(InvalidOperator(op))
  }

  /** `Expression::evaluate`: operands left then right, then the kind
      check, then the operator. */
  function Evaluate(e: Expr): Result<Object, EvalError> {
    match e
    case Binary(left, op, right) =>
      var lv :- Evaluate(left);
      var rv :- Evaluate(right);
      if KindOf(lv) != KindOf(rv) then Err(KindMismatch) else ApplyBinary(op.tokenType, lv, rv)
    case Unary(op, right) =>
      var v :- Evaluate(right);
      ApplyUnary(op.tokenType, v)
    case Literal(v) => Ok(v)
    case Grouping(inner) => Evaluate(inner)
    case _ => Err(NoImplementation)
  }

  // A static reading of the same rules: the kind an expression has, if any.

  /** The kind a binary operator yields on two operands of kind `k`. */
  function BinaryKind(op: TokenType, k: Kind): Option<Kind> {
    if op == EqualEqual || op == BangEqual then Some(BoolKind)
    else if op in {Greater, GreaterEqual, Less, LessEqual} then (if k == NumberKind then Some(BoolKind) else None)
    else if op in {Minus, Slash, Star} then (if k == NumberKind then Some(NumberKind) else None)
    else if op == Plus then (if k == NumberKind || k == StringKind then Some(k) else None)
    else None
  }

  /** The kind a unary operator yields on an operand of kind `k`. */
  function UnaryKind(op: TokenType, k: Kind): Option<Kind> {
    if op == Bang && k == BoolKind then Some(BoolKind)
    else if op == Minus && k == NumberKind then Some(NumberKind)
    else None
  }

  /** The kind of an expression: both operands of a Binary must have the
      same kind and the operator must accept it. */
  function TypeOf(e: Expr): Option<Kind> {
    match e
    case Binary(left, op, right) =>
      if TypeOf(left).Some? && TypeOf(left) == TypeOf(right) then BinaryKind(op.tokenType, TypeOf(left).value) else None
    case Unary(op, right) =>
      if TypeOf(right).Some? then UnaryKind(op.tokenType, TypeOf(right).value) else None
    case Literal(v) => Some(KindOf(v))
    case Grouping(inner) => TypeOf(inner)
    case _ => None
  }

  lemma ApplyBinaryKind(op: TokenType, l: Object, r: Object)
    requires KindOf(l) == KindOf(r)
    ensures ApplyBinary(op, l, r).Ok? <==> BinaryKind(op, KindOf(l)).Some?
    ensures ApplyBinary(op, l, r).Ok? ==> KindOf(ApplyBinary(op, l, r).value) == BinaryKind(op, KindOf(l)).value
  {
  }

  lemma ApplyUnaryKind(op: TokenType, v: Object)
    ensures ApplyUnary(op, v).Ok? <==> UnaryKind(op, KindOf(v)).Some?
    ensures ApplyUnary(op, v).Ok? ==> KindOf(ApplyUnary(op, v).value) == UnaryKind(op, KindOf(v)).value
  {
  }

  /** Evaluation succeeds exactly on the expressions that have a kind, and
      then yields an object of that kind. */
  lemma {:induction false} TypeSound(e: Expr)
    ensures Evaluate(e).Ok? <==> TypeOf(e).Some?
    ensures Evaluate(e).Ok? ==> KindOf(Evaluate(e).value) == TypeOf(e).value
  {
    match e
    case Binary(left, op, right) =>
      TypeSound(left);
      TypeSound(right);
      if Evaluate(left).Ok? && Evaluate(right).Ok? && KindOf(Evaluate(left).value) == KindOf(Evaluate(right).value) {
        ApplyBinaryKind(op.tokenType, Evaluate(left).value, Evaluate(right).value);
      }
    case Unary(op, right) =>
      TypeSound(right);
      if Evaluate(right).Ok? {
        ApplyUnaryKind(op.tokenType, Evaluate(right).value);
      }
    case Literal(v) =>
    case Grouping(inner) =>
      TypeSound(inner);
    case _ =>
  }

  /** Operands that evaluate to objects of different kinds fail the kind
      check, whatever the operator. */
  lemma MismatchFails(l: Expr, op: Token, r: Expr)
    requires Evaluate(l).Ok? && Evaluate(r).Ok?
    requires KindOf(Evaluate(l).value) != KindOf(Evaluate(r).value)
    ensures Evaluate(Binary(l, op, r)) == Err(KindMismatch)
  {
  }

  /** `==` is true exactly when both sides evaluate to the same object,
      the Nil tag included, and `!=` is its negation. */
  lemma EqualityStructural(l: Expr, eq: Token, ne: Token, r: Expr)
    requires eq.tokenType == EqualEqual && ne.tokenType == BangEqual
    ensures Evaluate(Binary(l, eq, r)) == Ok(BoolObject(true))
            <==> Evaluate(l).Ok? && Evaluate(r).Ok? && Evaluate(l).value == Evaluate(r).value
    ensures Evaluate(Binary(l, eq, r)).Ok? <==> Evaluate(Binary(l, ne, r)).Ok?
    ensures Evaluate(Binary(l, eq, r)).Ok? ==>
              Evaluate(Binary(l, ne, r)).value.truth == !Evaluate(Binary(l, eq, r)).value.truth
  {
  }

  /** `NilObject(None)` and `NilObject(Some(0))` are of the same kind but
      unequal. */
  lemma NilTagCounts(eq: Token)
    requires eq.tokenType == EqualEqual
    ensures Evaluate(Binary(Literal(NilObject(None)), eq, Literal(NilObject(Some(0))))) == Ok(BoolObject(false))
  {
  }

  /** `+` on strings is concatenation, left then right, so it does not
      matter how a chain of string additions is grouped. */
  lemma StringPlusAssociates(a: string, b: string, c: string, plus: Token)
    requires plus.tokenType == Plus
    ensures Evaluate(Binary(Literal(StringObject(a)), plus, Literal(StringObject(b)))) == Ok(StringObject(a + b))
    ensures Evaluate(Binary(Binary(Literal(StringObject(a)), plus, Literal(StringObject(b))), plus, Literal(StringObject(c))))
            == Evaluate(Binary(Literal(StringObject(a)), plus, Binary(Literal(StringObject(b)), plus, Literal(StringObject(c)))))
  {
    assert (a + b) + c == a + (b + c);
  }

  /** On numbers `<` is the negation of `>=` and `>` of `<=`; on any other
      kind both fail. */
  lemma ComparisonDuality(l: Expr, r: Expr, lt: Token, ge: Token)
    requires lt.tokenType == Less && ge.tokenType == GreaterEqual
    ensures Evaluate(Binary(l, lt, r)).Ok? <==> Evaluate(Binary(l, ge, r)).Ok?
    ensures Evaluate(Binary(l, lt, r)).Ok? <==> TypeOf(l) == TypeOf(r) == Some(NumberKind)
    ensures Evaluate(Binary(l, lt, r)).Ok? ==>
              Evaluate(Binary(l, lt, r)).value.truth == !Evaluate(Binary(l, ge, r)).value.truth
  {
    TypeSound(l);
    TypeSound(r);
  }

  /** `!` and `-` are involutions on the operands they accept. */
  lemma UnaryInvolution(op: Token, e: Expr)
    requires op.tokenType == Bang || op.tokenType == Minus
    requires Evaluate(Unary(op, e)).Ok?
    ensures Evaluate(Unary(op, Unary(op, e))) == Evaluate(e)
  {
    var v := Evaluate(e).value;
    var w := ApplyUnary(op.tokenType, v).value;
    assert Evaluate(Unary(op, e)) == Ok(w);
    assert ApplyUnary(op.tokenType, w) == Ok(v);
  }

  /** Only literals, groupings and operators are evaluated. */
  lemma OthersFail(e: Expr)
    requires !e.Binary? && !e.Unary? && !e.Literal? && !e.Grouping?
    ensures Evaluate(e) == Err(NoImplementation)
  {
  }
}
