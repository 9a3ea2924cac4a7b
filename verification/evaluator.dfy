/** The tree-walking interpreter: expressions are evaluated against the
    scope stack, statements executed for their effect on it and on the
    printed output. A function call runs the callee's body, which need not
    be smaller than the call, so evaluation carries a `fuel` bound that
    each call spends one of; running out is an error of its own. */
module Evaluator {
  import opened Results
  import opened Tokens
  import opened Runtime
  import opened Environments
  import Syntax

  /** The interpreter's state: the environment and the values printed so
      far, in order. */
  datatype Machine = Machine(env: Environment, out: seq<Object>)

  /** What every evaluation leaves alone: the depth of the scope stack, the
      names of every scope but the innermost, the names already in the
      innermost scope, and the output printed so far. */
  predicate Keeps(m: Machine, m2: Machine) {
    var ok :=
      && |m2.env.stack| == |m.env.stack|
      && m.out <= m2.out
      && (forall i :: 0 <= i < |m.env.stack| - 1 ==> m2.env.stack[i].vars.Keys == m.env.stack[i].vars.Keys)
      && (|m.env.stack| > 0 ==> Top(m.env).vars.Keys <= Top(m2.env).vars.Keys);
    ok
  }

  /** Only `false` and `nil` are falsy. */
  predicate Truthy(o: Object) {
    o != BoolObject(false) && !o.NilObject?
  }

  /** The operator dispatch of a Binary, once both operands are known to
      be of the same kind. */
  function ApplyBinary(op: TokenType, l: Object, r: Object): (res: Result<Object, RuntimeError>)
    requires KindOf(l) == KindOf(r)
    ensures op == EqualEqual ==> res == Ok(BoolObject(l == r))
    ensures op == BangEqual ==> res == Ok(BoolObject(l != r))
    ensures op in {Greater, GreaterEqual, Less, LessEqual} ==> (res.Ok? <==> l.NumberObject?)
    ensures op in {Greater, GreaterEqual, Less, LessEqual} && res.Ok? ==> res.value.BoolObject?
    ensures op in {Minus, Slash, Star} ==> (res.Ok? <==> l.NumberObject?)
    ensures op in {Minus, Slash, Star} && res.Ok? ==> res.value.NumberObject?
    ensures op == Plus ==> (res.Ok? <==> l.NumberObject? || l.StringObject?)
    ensures op == Plus && l.StringObject? ==> res == Ok(StringObject(l.str + r.str))
    ensures op !in {EqualEqual, BangEqual, Greater, GreaterEqual, Less, LessEqual, Minus, Slash, Star, Plus} ==>
      res == Err(InvalidOperator(op))
  {
    var numbers := l.NumberObject? && r.NumberObject?;
    match op
    case EqualEqual => Ok(BoolObject(l == r))
    case BangEqual => Ok(BoolObject(l != r))
    case GreaterEqual => if numbers then Ok(BoolObject(l.num >= r.num)) else Err(InvalidOperands(op))
    case Greater => if numbers then Ok(BoolObject(l.num > r.num)) else Err(InvalidOperands(op))
    case LessEqual => if numbers then Ok(BoolObject(l.num <= r.num)) else Err(InvalidOperands(op))
    case Less => if numbers then Ok(BoolObject(l.num < r.num)) else Err(InvalidOperands(op))
    case Plus =>
      if numbers then Ok(NumberObject(l.num + r.num))
      else if l.StringObject? && r.StringObject? then Ok(StringObject(l.str + r.str))
      else Err(InvalidOperands(op))
    case Minus => if numbers then Ok(NumberObject(l.num - r.num)) else Err(InvalidOperands(op))
    case Slash => if numbers then Ok(NumberObject(Syntax.Quotient(l.num, r.num))) else Err(InvalidOperands(op))
    case Star => if numbers then Ok(NumberObject(Syntax.Product(l.num, r.num))) else Err(InvalidOperands(op))
    case _ => Err(InvalidOperator(op))
  }

  /** What the arithmetic and comparison operators compute on two numbers:
      the comparisons of their values, their sum and difference, and the
      product and quotient of `Syntax`. */
  lemma ApplyBinaryValues(op: TokenType, l: Object, r: Object)
    requires l.NumberObject? && r.NumberObject?
    ensures op == Less ==> ApplyBinary(op, l, r) == Ok(BoolObject(l.num < r.num))
    ensures op == LessEqual ==> ApplyBinary(op, l, r) == Ok(BoolObject(l.num <= r.num))
    ensures op == Greater ==> ApplyBinary(op, l, r) == Ok(BoolObject(l.num > r.num))
    ensures op == GreaterEqual ==> ApplyBinary(op, l, r) == Ok(BoolObject(l.num >= r.num))
    ensures op == Plus ==> ApplyBinary(op, l, r) == Ok(NumberObject(l.num + r.num))
    ensures op == Minus ==> ApplyBinary(op, l, r) == Ok(NumberObject(l.num - r.num))
    ensures op == Star ==> ApplyBinary(op, l, r) == Ok(NumberObject(Syntax.Product(l.num, r.num)))
    ensures op == Slash ==> ApplyBinary(op, l, r) == Ok(NumberObject(Syntax.Quotient(l.num, r.num)))
  {
  }

  /** The operator dispatch of a Unary. */
  function ApplyUnary(op: TokenType, v: Object): (res: Result<Object, RuntimeError>)
    ensures res.Ok? <==> (op == Bang && v.BoolObject?) || (op == Minus && v.NumberObject?)
    ensures res.Ok? && op == Bang ==> res.value == BoolObject(!v.truth)
    ensures res.Ok? && op == Minus ==> res.value == NumberObject(-v.num)
  {
    match op
    case Bang => if v.BoolObject? then Ok(BoolObject(!v.truth)) else Err(InvalidOperands(op))
    case Minus => if v.NumberObject? then Ok(NumberObject(-v.num)) else Err(InvalidOperands(op))
    case _ => Err(InvalidOperator(op))
  }

  /** `Expression::evaluate`. */
  function Eval(e: Expr, m: Machine, fuel: nat): (r: Result<(Object, Machine), RuntimeError>)
    requires |m.env.stack| > 0
    ensures r.Ok? ==> Keeps(m, r.value.1)
    decreases fuel, e, 1
  {
    match e
    case Binary(left, op, right) =>
      var (lv, m1) :- Eval(left, m, fuel);
      var (rv, m2) :- Eval(right, m1, fuel);
      if KindOf(lv) != KindOf(rv) then Err(KindMismatch)
      else
        var v :- ApplyBinary(op.tokenType, lv, rv);
        Ok((v, m2))
    case Unary(op, right) =>
      var (v, m1) :- Eval(right, m, fuel);
      var u :- ApplyUnary(op.tokenType, v);
      Ok((u, m1))
    case Variable(name) =>
      var v :- Environments.Get(m.env, name);
      Ok((v, m))
    case Literal(v) => Ok((v, m))
    case Grouping(inner) => Eval(inner, m, fuel)
    case Assign(_, _) => EvalAssign(e, m, fuel)
    case Logical(_, _, _) => EvalLogical(e, m, fuel)
    case Call(_, _, _) => EvalCall(e, m, fuel)
    case Get(_, _) => EvalGet(e, m, fuel)
    case Set(_, _, _) => EvalSet(e, m, fuel)
    case This(_) =>
      var inst := IsClassInstance(m.env);
      if inst.Some? && IsInMethod(m.env) then
        var v :- Environments.Get(m.env, inst.value);
        Ok((v, m))
      else Err(InvalidThis)
    case Super(_, _) => Err(NoImplementation)
  }

  /** Assign: the value, renamed to the target when it is an instance, is
      stored where the name is bound and is also the result. */
  function EvalAssign(e: Expr, m: Machine, fuel: nat): (r: Result<(Object, Machine), RuntimeError>)
    requires e.Assign? && |m.env.stack| > 0
    ensures r.Ok? ==> Keeps(m, r.value.1)
    decreases fuel, e, 0
  {
    var (v, m1) :- Eval(e.newValue, m, fuel);
    var stored := if v.ClassInstance? then ClassInstance(e.name, v.classValue, v.memory) else v;
    var env :- Environments.Assign(m1.env, e.name, stored);
    var m2 := m1.(env := env);
    SameKeysKeeps(m1, m2);
    KeepsTrans(m, m1, m2);
    Ok((stored, m2))
  }

  /** Logical: the left operand decides whether the right one is
      evaluated. */
  function EvalLogical(e: Expr, m: Machine, fuel: nat): (r: Result<(Object, Machine), RuntimeError>)
    requires e.Logical? && |m.env.stack| > 0
    ensures r.Ok? ==> Keeps(m, r.value.1)
    decreases fuel, e, 0
  {
    var (lv, m1) :- Eval(e.left, m, fuel);
    if !Truthy(lv) then
      var (rv, m2) :- Eval(e.right, m1, fuel);
      if e.operator.tokenType == And then Ok((BoolObject(false), m2))
      else if e.operator.tokenType == Or then Ok((if Truthy(rv) then rv else BoolObject(false), m2))
      else Err(InvalidOperator(e.operator.tokenType))
    else if e.operator.tokenType == Or then Ok((lv, m1))
    else if e.operator.tokenType == And then
      var (rv, m2) :- Eval(e.right, m1, fuel);
      Ok((if Truthy(rv) then lv else BoolObject(false), m2))
    else Err(InvalidOperator(e.operator.tokenType))
  }

  /** The arguments of a call, left to right. */
  function EvalArgs(args: seq<Expr>, m: Machine, fuel: nat): (r: Result<(seq<Object>, Machine), RuntimeError>)
    requires |m.env.stack| > 0
    ensures r.Ok? ==> |r.value.0| == |args| && Keeps(m, r.value.1)
    decreases fuel, args
  {
    if |args| == 0 then Ok(([], m))
    else
      var (v, m1) :- Eval(args[0], m, fuel);
      var (vs, m2) :- EvalArgs(args[1..], m1, fuel);
      Ok(([v] + vs, m2))
  }

  /** Queues `(names[i], values[i])` for every `i`, in order. */
  function InjectAll(env: Environment, names: seq<Token>, values: seq<Object>): (r: Environment)
    requires |names| == |values|
    ensures r.injects == env.injects + Zip(names, values)
    ensures r == env.(injects := r.injects)
    decreases |names|
  {
    if |names| == 0 then env
    else InjectAll(Inject(env, names[0], values[0]), names[1..], values[1..])
  }

  function Zip(names: seq<Token>, values: seq<Object>): (r: seq<(Token, Object)>)
    requires |names| == |values|
    ensures |r| == |names| && forall i :: 0 <= i < |r| ==> r[i] == (names[i], values[i])
  {
    if |names| == 0 then [] else [(names[0], values[0])] + Zip(names[1..], values[1..])
  }

  /** Call: a function object checks the argument count, queues its
      captures and then its parameters bound to the argument values for
      the next scope push, runs its body and hands back the latched return
      value; a class makes a fresh instance of itself with no fields; any
      other callee fails. */
  function EvalCall(e: Expr, m: Machine, fuel: nat): (r: Result<(Object, Machine), RuntimeError>)
    requires e.Call? && |m.env.stack| > 0
    ensures r.Ok? ==> Keeps(m, r.value.1)
    decreases fuel, e, 0
  {
    var (callee, m1) :- Eval(e.callee, m, fuel);
    match callee
    case FunctionObject(_, params, body, captures, functype) =>
      if |e.arguments| != |params| then Err(WrongArity)
      else if fuel == 0 then Err(OutOfFuel)
      else
        var m2 := m1.(env := m1.env.(injects := m1.env.injects + captures));
        var (args, m3) :- EvalArgs(e.arguments, m2, fuel);
        var env := SetInFunction(InjectAll(m3.env, params, args), Some(functype));
        var m4 :- Exec(body, m3.(env := env), fuel - 1);
        var (v, env5) := UnsetReturn(m4.env);
        Ok((v, m4.(env := env5)))
    case Class(name, _) => Ok((ClassInstance(name, callee, NewMemory()), m1))
    case _ => Err(NotCallable)
  }

  /** Get: the target must be written as a variable or `this`; the field
      is read from the instance's fields pushed onto its class's
      environment, and the environment remembers the instance's name. */
  function EvalGet(e: Expr, m: Machine, fuel: nat): (r: Result<(Object, Machine), RuntimeError>)
    requires e.Get? && |m.env.stack| > 0
    ensures r.Ok? ==> Keeps(m, r.value.1)
    decreases fuel, e, 0
  {
    if !(e.target.Variable? || e.target.This?) then Err(NotAVariable)
    else
      var envName := if e.target.Variable? then e.target.name else e.target.keyword;
      var (inst, m1) :- Eval(e.target, m, fuel);
      if !inst.ClassInstance? then Err(NotAnInstance)
      else if !inst.classValue.Class? then Err(NotAClass)
      else
        var v :- Environments.Get(StackPush(inst.classValue.classEnv, inst.memory), e.name);
        var m2 := m1.(env := SetClassInstance(m1.env, Some(envName)));
        SameStackKeeps(m1, m2);
        KeepsTrans(m, m1, m2);
        Ok((v, m2))
  }

  /** `Keeps` composes. */
  lemma KeepsTrans(m1: Machine, m2: Machine, m3: Machine)
    requires Keeps(m1, m2) && Keeps(m2, m3)
    ensures Keeps(m1, m3)
  {
  }

  /** A step that keeps every scope's names keeps the machine. */
  lemma SameKeysKeeps(m: Machine, m2: Machine)
    requires |m2.env.stack| == |m.env.stack| && m.out <= m2.out
    requires forall i :: 0 <= i < |m.env.stack| ==> m2.env.stack[i].vars.Keys == m.env.stack[i].vars.Keys
    ensures Keeps(m, m2)
  {
    if |m.env.stack| > 0 {
      var n := |m.env.stack| - 1;
      assert m2.env.stack[n].vars.Keys == m.env.stack[n].vars.Keys;
    }
  }

  /** A step that leaves the scopes as they were keeps the machine. */
  lemma SameStackKeeps(m: Machine, m2: Machine)
    requires m2.env.stack == m.env.stack && m.out <= m2.out
    ensures Keeps(m, m2)
  {
    SameKeysKeeps(m, m2);
  }

  /** The last step of Set: the updated instance is assigned back to the
      variable, and the environment forgets the instance name. */
  function WriteBack(m: Machine, name: Token, updated: Object): (r: Result<Machine, RuntimeError>)
    requires |m.env.stack| > 0
    ensures r.Ok? <==> Bound(m.env.stack, name.lexeme)
    ensures r.Ok? ==> Keeps(m, r.value) && r.value.out == m.out
    ensures r.Ok? ==> Environments.Get(r.value.env, name) == Ok(updated) && r.value.env.classInstance.None?
  {
    var env :- Environments.Assign(m.env, name, updated);
    GetAfterAssign(m.env, name, updated, name);
    var m2 := m.(env := SetClassInstance(env, None));
    assert m2.env.stack == env.stack;
    SameKeysKeeps(m, m2);
    Ok(m2)
  }

  /** Set: the target must be written as a variable; the field is defined
      in a copy of the instance, which is assigned back to that variable,
      and the result is Nil. */
  function EvalSet(e: Expr, m: Machine, fuel: nat): (r: Result<(Object, Machine), RuntimeError>)
    requires e.Set? && |m.env.stack| > 0
    ensures r.Ok? ==> Keeps(m, r.value.1)
    decreases fuel, e, 0
  {
    if !e.target.Variable? then Err(NotAVariable)
    else
      var (inst, m1) :- Eval(e.target, m, fuel);
      var (v, m2) :- Eval(e.newValue, m1, fuel);
      if !inst.ClassInstance? then Err(NotAnInstance)
      else
        var updated := ClassInstance(inst.name, inst.classValue, MemDefine(inst.memory, e.name, v));
        var m3 :- WriteBack(m2, e.target.name, updated);
        KeepsTrans(m, m1, m2);
        KeepsTrans(m, m2, m3);
        Ok((NilObject, m3))
  }

  /** `Statement::evaluate` for the four statements it implements. */
  function Exec(s: Stmt, m: Machine, fuel: nat): (r: Result<Machine, RuntimeError>)
    requires |m.env.stack| > 0
    ensures r.Ok? ==> Keeps(m, r.value)
    decreases fuel, s
  {
    match s
    case Print(e) =>
      var (v, m1) :- Eval(e, m, fuel);
      Ok(m1.(out := m1.out + [v]))
    case ExpressionStmt(e) =>
      var (v, m1) :- Eval(e, m, fuel);
      Ok(m1.(out := m1.out + [v]))
    case VarStmt(name, init) =>
      if init.None? then Ok(m.(env := Define(m.env, name, NilObject)))
      else
        var (v, m1) :- Eval(init.value, m, fuel);
        Ok(m1.(env := Define(m1.env, name, v)))
    case Block(ss) =>
      var inner :- ExecAll(ss, m.(env := StackPush(m.env, NewMemory())), fuel);
      Ok(inner.(env := StackPop(inner.env).0))
    case _ => Err(InvalidStatement)
  }

  /** The statements of a block, in order. */
  function ExecAll(ss: seq<Stmt>, m: Machine, fuel: nat): (r: Result<Machine, RuntimeError>)
    requires |m.env.stack| > 0
    ensures r.Ok? ==> Keeps(m, r.value)
    decreases fuel, ss
  {
    if |ss| == 0 then Ok(m)
    else
      var m1 :- Exec(ss[0], m, fuel);
      ExecAll(ss[1..], m1, fuel)
  }

  // Closure capture.

  /** The names a Variable or an Assign mentions, in the order `resolve`
      visits them: an Assign's value before its own name, operands left to
      right, a callee before its arguments. */
  function Names(e: Expr): seq<Token>
    decreases e
  {
    match e
    case Assign(name, v) => Names(v) + [name]
    case Binary(l, _, r) => Names(l) + Names(r)
    case Call(callee, _, args) => Names(callee) + NamesAll(args)
    case Get(target, _) => Names(target)
    case Grouping(inner) => Names(inner)
    case Literal(_) => []
    case Logical(l, _, r) => Names(l) + Names(r)
    case Set(target, _, v) => Names(target) + Names(v)
    case Super(_, _) => []
    case This(_) => []
    case Unary(_, r) => Names(r)
    case Variable(name) => [name]
  }

  function NamesAll(es: seq<Expr>): seq<Token>
    decreases es
  {
    if |es| == 0 then [] else Names(es[0]) + NamesAll(es[1..])
  }

  /** Whether `super` occurs in `e`, where `resolve` stops unfinished. */
  predicate HasSuper(e: Expr)
    decreases e
  {
    match e
    case Assign(_, v) => HasSuper(v)
    case Binary(l, _, r) => HasSuper(l) || HasSuper(r)
    case Call(callee, _, args) => HasSuper(callee) || HasSuperAll(args)
    case Get(target, _) => HasSuper(target)
    case Grouping(inner) => HasSuper(inner)
    case Logical(l, _, r) => HasSuper(l) || HasSuper(r)
    case Set(target, _, v) => HasSuper(target) || HasSuper(v)
    case Super(_, _) => true
    case Unary(_, r) => HasSuper(r)
    case _ => false
  }

  predicate HasSuperAll(es: seq<Expr>)
    decreases es
  {
    |es| > 0 && (HasSuper(es[0]) || HasSuperAll(es[1..]))
  }

  /** Every name in `ns` is bound somewhere. */
  predicate AllBound(ns: seq<Token>, env: Environment) {
    forall i :: 0 <= i < |ns| ==> Bound(env.stack, ns[i].lexeme)
  }

  /** The names of `ns` bound only outside the innermost scope, in order,
      each with its value. */
  function Captured(ns: seq<Token>, env: Environment): (r: seq<(Token, Object)>)
    requires |env.stack| > 0 && AllBound(ns, env)
    ensures forall c :: c in r ==> NeedToCapture(env, c.0) == Ok(true) && Environments.Get(env, c.0) == Ok(c.1)
    ensures |r| <= |ns|
  {
    if |ns| == 0 then []
    else
      var rest := Captured(ns[1..], env);
      if NeedToCapture(env, ns[0]) == Ok(true) then [(ns[0], Environments.Get(env, ns[0]).value)] + rest else rest
  }

  /** One name's part of `resolve`: the name with its value when only an
      outer scope binds it, nothing when the innermost one does. */
  function CaptureOf(name: Token, env: Environment): (r: Result<seq<(Token, Object)>, RuntimeError>)
    requires |env.stack| > 0
    ensures r.Ok? <==> Bound(env.stack, name.lexeme)
    ensures r.Ok? ==> r.value == Captured([name], env)
  {
    var need :- NeedToCapture(env, name);
    if need then Ok([(name, Environments.Get(env, name).value)]) else Ok([])
  }

  /** `resolve`: what it appends to the capture list. */
  function Resolve(e: Expr, env: Environment): (r: Result<seq<(Token, Object)>, RuntimeError>)
    requires |env.stack| > 0
    ensures r.Ok? ==> forall c :: c in r.value ==> NeedToCapture(env, c.0) == Ok(true) && Environments.Get(env, c.0) == Ok(c.1)
    decreases e
  {
    match e
    case Assign(name, v) =>
      var a :- Resolve(v, env);
      var b :- CaptureOf(name, env);
      Ok(a + b)
    case Binary(l, _, r) =>
      var a :- Resolve(l, env);
      var b :- Resolve(r, env);
      Ok(a + b)
    case Call(callee, _, args) =>
      var a :- Resolve(callee, env);
      var b :- ResolveAll(args, env);
      Ok(a + b)
    case Get(target, _) => Resolve(target, env)
    case Grouping(inner) => Resolve(inner, env)
    case Literal(_) => Ok([])
    case Logical(l, _, r) =>
      var a :- Resolve(l, env);
      var b :- Resolve(r, env);
      Ok(a + b)
    case Set(target, _, v) =>
      var a :- Resolve(target, env);
      var b :- Resolve(v, env);
      Ok(a + b)
    case Super(_, _) => Err(NoImplementation)
    case This(_) => Ok([])
    case Unary(_, r) => Resolve(r, env)
    case Variable(name) => CaptureOf(name, env)
  }

  /** The loop of `resolve` over a call's arguments. */
  function ResolveAll(es: seq<Expr>, env: Environment): (r: Result<seq<(Token, Object)>, RuntimeError>)
    requires |env.stack| > 0
    ensures r.Ok? ==> forall c :: c in r.value ==> NeedToCapture(env, c.0) == Ok(true) && Environments.Get(env, c.0) == Ok(c.1)
    decreases es
  {
    if |es| == 0 then Ok([])
    else
      var a :- Resolve(es[0], env);
      var b :- ResolveAll(es[1..], env);
      Ok(a + b)
  }
}
