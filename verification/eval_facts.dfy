/** What the interpreter's evaluation promises: the short-circuit truth
    table, assignment and field stores that read back, call dispatch,
    scoping of blocks, exact closure capture, and agreement with the
    literal evaluator on the expressions both evaluate. */
module EvalFacts {
  import opened Results
  import opened Tokens
  import opened Runtime
  import opened Environments
  import opened Evaluator
  import Syntax
  import LiteralEval

  // Operators.

  /** Operands of different kinds fail before the operator is looked at. */
  lemma BinaryKindMismatch(l: Expr, op: Token, r: Expr, m: Machine, fuel: nat)
    requires |m.env.stack| > 0 && Eval(l, m, fuel).Ok?
    requires Eval(r, Eval(l, m, fuel).value.1, fuel).Ok?
    requires KindOf(Eval(l, m, fuel).value.0) != KindOf(Eval(r, Eval(l, m, fuel).value.1, fuel).value.0)
    ensures Eval(Binary(l, op, r), m, fuel) == Err(KindMismatch)
  {
  }

  /** `and` and `or` yield a value whose truth is the conjunction or the
      disjunction of their operands' truth (a true `and` yields its left
      operand, a true `or` the operand that was true); `or` with a true left operand
      never evaluates the right one, and otherwise the right one is always
      evaluated. */
  lemma LogicalTruthTable(l: Expr, op: Token, r: Expr, m: Machine, fuel: nat)
    requires |m.env.stack| > 0 && op.tokenType in {And, Or} && Eval(l, m, fuel).Ok?
    ensures var (lv, m1) := Eval(l, m, fuel).value;
      var res := EvalLogical(Logical(l, op, r), m, fuel);
      && (op.tokenType == Or && Truthy(lv) ==> res == Ok((lv, m1)))
      && (op.tokenType == And || !Truthy(lv) ==>
            && (res.Ok? <==> Eval(r, m1, fuel).Ok?)
            && (res.Ok? ==> res.value.1 == Eval(r, m1, fuel).value.1)
            && (res.Ok? && op.tokenType == And ==>
                  Truthy(res.value.0) == (Truthy(lv) && Truthy(Eval(r, m1, fuel).value.0)))
            && (res.Ok? && op.tokenType == And && Truthy(res.value.0) ==> res.value.0 == lv)
            && (res.Ok? && op.tokenType == Or ==>
                  res.value.0 == if Truthy(Eval(r, m1, fuel).value.0) then Eval(r, m1, fuel).value.0 else BoolObject(false)))
  {
    var (lv, m1) := Eval(l, m, fuel).value;
    if op.tokenType == And || !Truthy(lv) {
      var rr := Eval(r, m1, fuel);
      if rr.Ok? {
        var rv := rr.value.0;
        if Truthy(lv) {
          assert EvalLogical(Logical(l, op, r), m, fuel) == Ok((if Truthy(rv) then lv else BoolObject(false), rr.value.1));
        } else if op.tokenType == And {
          assert EvalLogical(Logical(l, op, r), m, fuel) == Ok((BoolObject(false), rr.value.1));
        } else {
          assert EvalLogical(Logical(l, op, r), m, fuel) == Ok((if Truthy(rv) then rv else BoolObject(false), rr.value.1));
        }
      }
    }
  }

  /** `==` is true exactly when the two values are the same object. */
  lemma EqualityStructural(l: Expr, op: Token, r: Expr, m: Machine, fuel: nat)
    requires |m.env.stack| > 0 && op.tokenType == EqualEqual
    requires Eval(l, m, fuel).Ok? && Eval(r, Eval(l, m, fuel).value.1, fuel).Ok?
    ensures var lv := Eval(l, m, fuel).value.0;
      var rv := Eval(r, Eval(l, m, fuel).value.1, fuel).value.0;
      Eval(Binary(l, op, r), m, fuel) == if KindOf(lv) != KindOf(rv) then Err(KindMismatch)
        else Ok((BoolObject(lv == rv), Eval(r, Eval(l, m, fuel).value.1, fuel).value.1))
  {
  }

  // Assignment and fields.

  /** Assign stores its result where the name is bound: reading the name
      afterwards gives it back. An instance is stored under the assigned
      name; any other value is stored as it is. */
  lemma AssignReadsBack(name: Token, x: Expr, m: Machine, fuel: nat)
    requires |m.env.stack| > 0 && Eval(Assign(name, x), m, fuel).Ok?
    ensures var (v, m2) := Eval(Assign(name, x), m, fuel).value;
      && Environments.Get(m2.env, name) == Ok(v)
      && Eval(x, m, fuel).Ok?
      && (v.ClassInstance? ==> v.name == name)
      && (!Eval(x, m, fuel).value.0.ClassInstance? ==> v == Eval(x, m, fuel).value.0)
  {
    var (xv, m1) := Eval(x, m, fuel).value;
    var stored := if xv.ClassInstance? then ClassInstance(name, xv.classValue, xv.memory) else xv;
    GetAfterAssign(m1.env, name, stored, name);
  }

  /** Set on a target not written as a variable fails before anything
      is evaluated. */
  lemma SetNeedsVariable(target: Expr, name: Token, x: Expr, m: Machine, fuel: nat)
    requires |m.env.stack| > 0 && !target.Variable?
    ensures Eval(Set(target, name, x), m, fuel) == Err(NotAVariable)
  {
  }

  /** Set yields Nil and leaves the variable holding the instance with the
      field defined as the new value; it fails when the target's value is
      not an instance. */
  lemma SetStoresField(target: Expr, name: Token, x: Expr, m: Machine, fuel: nat)
    requires |m.env.stack| > 0 && target.Variable?
    requires Eval(target, m, fuel).Ok? && Eval(x, Eval(target, m, fuel).value.1, fuel).Ok?
    ensures var inst := Eval(target, m, fuel).value.0;
      var v := Eval(x, Eval(target, m, fuel).value.1, fuel).value.0;
      var res := EvalSet(Set(target, name, x), m, fuel);
      && (!inst.ClassInstance? ==> res == Err(NotAnInstance))
      && (res.Ok? ==>
            && res.value.0 == NilObject
            && Environments.Get(res.value.1.env, target.name)
                 == Ok(ClassInstance(inst.name, inst.classValue, MemDefine(inst.memory, name, v))))
  {
    var (inst, m1) := Eval(target, m, fuel).value;
    var (v, m2) := Eval(x, m1, fuel).value;
    if inst.ClassInstance? {
      var updated := ClassInstance(inst.name, inst.classValue, MemDefine(inst.memory, name, v));
      assert WriteBack(m2, target.name, updated).Ok? ==>
        EvalSet(Set(target, name, x), m, fuel) == Ok((NilObject, WriteBack(m2, target.name, updated).value));
    }
  }

  /** A field read from an instance whose class environment has nothing
      pending gives the instance's own field. */
  lemma GetReadsField(target: Expr, name: Token, m: Machine, fuel: nat)
    requires |m.env.stack| > 0 && (target.Variable? || target.This?)
    requires Eval(target, m, fuel).Ok?
    requires var inst := Eval(target, m, fuel).value.0;
      inst.ClassInstance? && inst.classValue.Class? && inst.classValue.classEnv.injects == []
      && name.lexeme in inst.memory.vars
    ensures Eval(Get(target, name), m, fuel).Ok?
    ensures Eval(Get(target, name), m, fuel).value.0 == Eval(target, m, fuel).value.0.memory.vars[name.lexeme]
  {
    var inst := Eval(target, m, fuel).value.0;
    var pushed := StackPush(inst.classValue.classEnv, inst.memory);
    assert Innermost(pushed.stack, name.lexeme, |pushed.stack| - 1);
  }

  // Calls.

  /** `this` is the value bound to the instance name the innermost scope
      was entered with, and only inside a method; a variable is its
      innermost binding. Neither changes the machine. */
  lemma ThisAndVariableRead(k: Token, name: Token, m: Machine, fuel: nat)
    requires |m.env.stack| > 0
    ensures var inst := Top(m.env).classInstance;
      Eval(Expr.This(k), m, fuel).Ok? <==>
        inst.Some? && Top(m.env).inFunction == Some(Method) && Bound(m.env.stack, inst.value.lexeme)
    ensures Eval(Expr.This(k), m, fuel).Ok? ==>
      Eval(Expr.This(k), m, fuel).value == (Environments.Get(m.env, Top(m.env).classInstance.value).value, m)
    ensures Eval(Variable(name), m, fuel).Ok? <==> Bound(m.env.stack, name.lexeme)
    ensures Eval(Variable(name), m, fuel).Ok? ==>
      && Eval(Variable(name), m, fuel).value.1 == m
      && forall i: nat :: Innermost(m.env.stack, name.lexeme, i) ==>
           Eval(Variable(name), m, fuel).value.0 == m.env.stack[i].vars[name.lexeme]
  {
  }

  /** A function object is called only with as many arguments as it has
      parameters; a class called makes a fresh instance of itself with no
      fields and evaluates no arguments; anything else is not callable. */
  lemma CallDispatch(callee: Expr, paren: Token, args: seq<Expr>, m: Machine, fuel: nat)
    requires |m.env.stack| > 0 && Eval(callee, m, fuel).Ok?
    ensures var (f, m1) := Eval(callee, m, fuel).value;
      var res := Eval(Call(callee, paren, args), m, fuel);
      && (f.FunctionObject? && |args| != |f.parameters| ==> res == Err(WrongArity))
      && (f.Class? ==> res == Ok((ClassInstance(f.name, f, NewMemory()), m1)))
      && (!f.FunctionObject? && !f.Class? ==> res == Err(NotCallable))
  {
  }

  /** The argument list that writes each of `vs` as a literal. */
  function Literals(vs: seq<Object>): (es: seq<Expr>)
    ensures |es| == |vs| && forall i :: 0 <= i < |es| ==> es[i] == Literal(vs[i])
  {
    if |vs| == 0 then [] else [Literal(vs[0])] + Literals(vs[1..])
  }

  /** Literal arguments evaluate to their values and change nothing. */
  lemma {:induction false} LiteralArgs(vs: seq<Object>, m: Machine, fuel: nat)
    requires |m.env.stack| > 0
    ensures EvalArgs(Literals(vs), m, fuel) == Ok((vs, m))
    decreases |vs|
  {
    if |vs| > 0 {
      LiteralArgs(vs[1..], m, fuel);
      assert Literals(vs)[1..] == Literals(vs[1..]);
      assert [vs[0]] + vs[1..] == vs;
    }
  }

  /** The scope stack a function's block body runs on when the function
      is called from `m` with the values `vs`: the captures, then the
      parameters bound to the values, are queued after whatever was
      pending, the function's kind is set, and the block pushes an empty
      scope, which takes them all. */
  function CalleeScope(f: Object, m: Machine, vs: seq<Object>): (env: Environment)
    requires f.FunctionObject? && |vs| == |f.parameters|
    ensures |env.stack| == |m.env.stack| + 1 && env.stack[..|m.env.stack|] == m.env.stack
    ensures Top(env).inFunction == Some(f.functype) && Top(env).classInstance == m.env.classInstance
    ensures env.injects == [] && env.inFunction.None? && env.classInstance.None?
  {
    var queued := InjectAll(m.env.(injects := m.env.injects + f.captures), f.parameters, vs);
    StackPush(SetInFunction(queued, Some(f.functype)), NewMemory())
  }

  /** In the callee's scope a parameter that no earlier parameter,
      capture or pending inject names reads as its argument. */
  lemma CalleeScopeBinds(f: Object, m: Machine, vs: seq<Object>, p: nat)
    requires f.FunctionObject? && |vs| == |f.parameters| && p < |f.parameters|
    requires forall j :: 0 <= j < p ==> f.parameters[j].lexeme != f.parameters[p].lexeme
    requires forall c :: c in m.env.injects + f.captures ==> c.0.lexeme != f.parameters[p].lexeme
    ensures Environments.Get(CalleeScope(f, m, vs), f.parameters[p]) == Ok(vs[p])
  {
    var pending := m.env.injects + f.captures;
    var queued := InjectAll(m.env.(injects := pending), f.parameters, vs);
    var z := Zip(f.parameters, vs);
    assert queued.injects == pending + z;
    forall j | 0 <= j < |pending| + p
      ensures (pending + z)[j].0.lexeme != f.parameters[p].lexeme
    {
      if j < |pending| {
        assert (pending + z)[j] == pending[j];
        assert pending[j] in pending;
      } else {
        assert (pending + z)[j] == z[j - |pending|];
      }
    }
    assert (pending + z)[|pending| + p] == z[p];
    FirstInjectAt(pending + z, |pending| + p, f.parameters[p].lexeme);
    GetInjected(SetInFunction(queued, Some(f.functype)), NewMemory(), f.parameters[p]);
  }

  /** A block runs its statements on a pushed empty scope and pops it. */
  lemma BlockRuns(ss: seq<Stmt>, m: Machine, fuel: nat)
    requires |m.env.stack| > 0
    ensures var inner := ExecAll(ss, m.(env := StackPush(m.env, NewMemory())), fuel);
      Exec(Block(ss), m, fuel) == if inner.Ok? then Ok(inner.value.(env := StackPop(inner.value.env).0)) else Err(inner.error)
  {
  }

  /** The steps of a call to a literal function object with literal
      arguments. */
  lemma CallSteps(f: Object, paren: Token, vs: seq<Object>, m: Machine, fuel: nat, inner: nat)
    requires |m.env.stack| > 0 && f.FunctionObject? && |vs| == |f.parameters| && fuel == inner + 1
    ensures var m2 := m.(env := m.env.(injects := m.env.injects + f.captures));
      var env := SetInFunction(InjectAll(m2.env, f.parameters, vs), Some(f.functype));
      var b := Exec(f.body, m2.(env := env), inner);
      EvalCall(Call(Literal(f), paren, Literals(vs)), m, fuel)
        == if b.Ok? then Ok((b.value.env.returnValue, b.value.(env := UnsetReturn(b.value.env).1))) else Err(b.error)
  {
    var e := Call(Literal(f), paren, Literals(vs));
    assert Eval(e.callee, m, fuel) == Ok((f, m));
    var m2 := m.(env := m.env.(injects := m.env.injects + f.captures));
    LiteralArgs(vs, m2, fuel);
  }

  /** Calling a function object whose body is a block, with as many
      arguments as it has parameters and fuel to spare, runs the block's
      statements on the callee's scope; the call fails exactly when they
      do, prints what they print, and leaves the caller the scopes below
      the callee's. */
  lemma CallRunsBody(f: Object, paren: Token, vs: seq<Object>, m: Machine, fuel: nat, inner: nat)
    requires |m.env.stack| > 0 && f.FunctionObject? && f.body.Block?
    requires |vs| == |f.parameters| && fuel == inner + 1
    ensures var r := Eval(Call(Literal(f), paren, Literals(vs)), m, fuel);
      var body := ExecAll(f.body.statements, m.(env := CalleeScope(f, m, vs)), inner);
      && (r.Ok? <==> body.Ok?)
      && (r.Ok? ==> r.value.1.out == body.value.out)
      && (r.Ok? ==> r.value.1.env.stack == body.value.env.stack[..|m.env.stack|])
  {
    var e := Call(Literal(f), paren, Literals(vs));
    assert Eval(e, m, fuel) == EvalCall(e, m, fuel);
    var m2 := m.(env := m.env.(injects := m.env.injects + f.captures));
    var env := SetInFunction(InjectAll(m2.env, f.parameters, vs), Some(f.functype));
    CallSteps(f, paren, vs, m, fuel, inner);
    BlockRuns(f.body.statements, m2.(env := env), inner);
    assert m2.(env := env).(env := StackPush(env, NewMemory())) == m.(env := CalleeScope(f, m, vs));
  }

  /** A called function reads its parameters: a one-statement body that
      prints a parameter prints the argument given for it. */
  lemma CallBindsParameters(f: Object, paren: Token, vs: seq<Object>, p: nat, m: Machine, fuel: nat)
    requires |m.env.stack| > 0 && f.FunctionObject? && |vs| == |f.parameters| && fuel > 0
    requires p < |f.parameters| && f.body == Block([Stmt.Print(Variable(f.parameters[p]))])
    requires forall j :: 0 <= j < p ==> f.parameters[j].lexeme != f.parameters[p].lexeme
    requires forall c :: c in m.env.injects + f.captures ==> c.0.lexeme != f.parameters[p].lexeme
    ensures Eval(Call(Literal(f), paren, Literals(vs)), m, fuel).Ok?
    ensures Eval(Call(Literal(f), paren, Literals(vs)), m, fuel).value.1.out == m.out + [vs[p]]
  {
    CalleeScopeBinds(f, m, vs, p);
    CallPrints(f, paren, vs, f.parameters[p], vs[p], m, fuel);
  }

  /** A call whose body prints one variable prints that variable's value
      in the callee's scope. */
  lemma CallPrints(f: Object, paren: Token, vs: seq<Object>, x: Token, v: Object, m: Machine, fuel: nat)
    requires |m.env.stack| > 0 && f.FunctionObject? && |vs| == |f.parameters| && fuel > 0
    requires f.body == Block([Stmt.Print(Variable(x))])
    requires Environments.Get(CalleeScope(f, m, vs), x) == Ok(v)
    ensures Eval(Call(Literal(f), paren, Literals(vs)), m, fuel).Ok?
    ensures Eval(Call(Literal(f), paren, Literals(vs)), m, fuel).value.1.out == m.out + [v]
  {
    var callee, inner := m.(env := CalleeScope(f, m, vs)), fuel - 1;
    PrintOne([Stmt.Print(Variable(x))], x, v, callee, inner);
    CallOutput(f, paren, vs, m, fuel, inner, m.out + [v]);
  }

  /** A call whose body's statements succeed in the callee's scope with
      some output succeeds with that output. */
  lemma CallOutput(f: Object, paren: Token, vs: seq<Object>, m: Machine, fuel: nat, inner: nat, out: seq<Object>)
    requires |m.env.stack| > 0 && f.FunctionObject? && f.body.Block? && |vs| == |f.parameters| && fuel == inner + 1
    requires ExecAll(f.body.statements, m.(env := CalleeScope(f, m, vs)), inner).Ok?
    requires ExecAll(f.body.statements, m.(env := CalleeScope(f, m, vs)), inner).value.out == out
    ensures Eval(Call(Literal(f), paren, Literals(vs)), m, fuel).Ok?
    ensures Eval(Call(Literal(f), paren, Literals(vs)), m, fuel).value.1.out == out
  {
    CallRunsBody(f, paren, vs, m, fuel, inner);
  }

  /** Printing a bound variable, as the only statement, adds its value to
      the output and changes nothing else. */
  lemma PrintOne(ss: seq<Stmt>, x: Token, v: Object, m: Machine, fuel: nat)
    requires |m.env.stack| > 0 && Environments.Get(m.env, x) == Ok(v)
    requires ss == [Stmt.Print(Variable(x))]
    ensures ExecAll(ss, m, fuel).Ok? && ExecAll(ss, m, fuel).value.out == m.out + [v]
  {
    assert Eval(Variable(x), m, fuel) == Ok((v, m));
    assert Exec(Stmt.Print(Variable(x)), m, fuel) == Ok(m.(out := m.out + [v]));
  }

  /** The inject at `k`, when no earlier one has its name, is the one a
      push defines. */
  lemma {:induction false} FirstInjectAt(injects: seq<(Token, Object)>, k: nat, name: string)
    requires k < |injects| && injects[k].0.lexeme == name
    requires forall j :: 0 <= j < k ==> injects[j].0.lexeme != name
    ensures FirstInject(injects, name) == Some(injects[k].1)
  {
    if k > 0 {
      assert forall j :: 0 <= j < k - 1 ==> injects[1..][j] == injects[j + 1];
      FirstInjectAt(injects[1..], k - 1, name);
    }
  }

  // Statements.

  /** `var x;` binds `x` to Nil in the innermost scope and `var x = e;` to
      the value of `e`; reading `x` afterwards gives that value. */
  lemma VarDefines(name: Token, init: Option<Expr>, m: Machine, fuel: nat)
    requires |m.env.stack| > 0
    ensures init.None? ==> Exec(VarStmt(name, init), m, fuel).Ok?
    ensures Exec(VarStmt(name, init), m, fuel).Ok? ==>
      var m2 := Exec(VarStmt(name, init), m, fuel).value;
      && name.lexeme in Top(m2.env).vars
      && Environments.Get(m2.env, name)
           == Ok(if init.None? then NilObject else Eval(init.value, m, fuel).value.0)
  {
    if init.None? {
      GetAfterDefine(m.env, name, NilObject, name);
    } else if Eval(init.value, m, fuel).Ok? {
      var (v, m1) := Eval(init.value, m, fuel).value;
      GetAfterDefine(m1.env, name, v, name);
    }
  }

  /** A block leaves the stack as deep as it found it and every scope with
      the names it had: what the block defines is gone afterwards. */
  lemma BlockScoped(ss: seq<Stmt>, m: Machine, fuel: nat)
    requires |m.env.stack| > 0 && Exec(Block(ss), m, fuel).Ok?
    ensures var m2 := Exec(Block(ss), m, fuel).value;
      && |m2.env.stack| == |m.env.stack|
      && forall i :: 0 <= i < |m.env.stack| ==> m2.env.stack[i].vars.Keys == m.env.stack[i].vars.Keys
  {
    var pushed := m.(env := StackPush(m.env, NewMemory()));
    var inner := ExecAll(ss, pushed, fuel).value;
    assert Keeps(pushed, inner);
    forall i | 0 <= i < |m.env.stack|
      ensures inner.env.stack[i].vars.Keys == m.env.stack[i].vars.Keys
    {
      assert pushed.env.stack[..|m.env.stack|][i] == pushed.env.stack[i];
    }
  }

  /** A name bound nowhere before a block is bound nowhere after it. */
  lemma BlockHides(ss: seq<Stmt>, m: Machine, fuel: nat, t: Token)
    requires |m.env.stack| > 0 && Exec(Block(ss), m, fuel).Ok?
    requires !Bound(m.env.stack, t.lexeme)
    ensures Environments.Get(Exec(Block(ss), m, fuel).value.env, t) == Err(Undefined(t.lexeme))
  {
    BlockScoped(ss, m, fuel);
  }

  /** Print and expression statements evaluate their expression once and
      add its value to the output, and fail exactly when it does. */
  lemma PrintEmits(e: Expr, m: Machine, fuel: nat)
    requires |m.env.stack| > 0
    ensures Exec(Stmt.Print(e), m, fuel).Ok? <==> Eval(e, m, fuel).Ok?
    ensures Exec(Stmt.Print(e), m, fuel) == Exec(ExpressionStmt(e), m, fuel)
    ensures Exec(Stmt.Print(e), m, fuel).Ok? ==>
      var (v, m1) := Eval(e, m, fuel).value;
      Exec(Stmt.Print(e), m, fuel).value.out == m1.out + [v] && Exec(Stmt.Print(e), m, fuel).value.env == m1.env
  {
  }

  /** Every other statement fails. */
  lemma OtherStatementsFail(s: Stmt, m: Machine, fuel: nat)
    requires |m.env.stack| > 0 && !s.Print? && !s.ExpressionStmt? && !s.VarStmt? && !s.Block?
    ensures Exec(s, m, fuel) == Err(InvalidStatement)
  {
  }

  // Capture.

  /** Binding every name of `a + b` is binding every name of each. */
  lemma AllBoundAppend(a: seq<Token>, b: seq<Token>, env: Environment)
    ensures AllBound(a + b, env) <==> AllBound(a, env) && AllBound(b, env)
  {
    assert forall i :: 0 <= i < |a| ==> (a + b)[i] == a[i];
    assert forall i :: 0 <= i < |b| ==> (a + b)[|a| + i] == b[i];
  }

  lemma AllBoundOne(name: Token, env: Environment)
    ensures AllBound([name], env) <==> Bound(env.stack, name.lexeme)
  {
    assert [name][0] == name;
  }

  lemma TailAppend<T>(a: seq<T>, b: seq<T>)
    ensures |a| > 0 ==> (a + b)[0] == a[0] && (a + b)[1..] == a[1..] + b
    ensures |a| == 0 ==> a + b == b
  {
  }

  lemma AppendAssociates<T>(x: seq<T>, y: seq<T>, z: seq<T>)
    ensures x + (y + z) == (x + y) + z
  {
  }

  /** Capturing from `a + b` is capturing from `a`, then from `b`. */
  lemma {:induction false} CapturedAppend(a: seq<Token>, b: seq<Token>, env: Environment)
    requires |env.stack| > 0 && AllBound(a, env) && AllBound(b, env)
    ensures AllBound(a + b, env)
    ensures Captured(a + b, env) == Captured(a, env) + Captured(b, env)
  {
    AllBoundAppend(a, b, env);
    if |a| > 0 {
      TailAppend(a, b);
      assert AllBound(a[1..], env) by {
        assert forall i :: 0 <= i < |a| - 1 ==> a[1..][i] == a[i + 1];
      }
      CapturedAppend(a[1..], b, env);
      CapturedAppendStep(a, b, env);
    } else {
      TailAppend(a, b);
    }
  }

  /** The first name's part is the same on both sides, once the rest of
      `a` is known to capture with `b` as the whole does. */
  lemma CapturedAppendStep(a: seq<Token>, b: seq<Token>, env: Environment)
    requires |env.stack| > 0 && |a| > 0 && AllBound(a, env) && AllBound(b, env)
    requires AllBound(a + b, env) && AllBound(a[1..], env) && AllBound(a[1..] + b, env)
    requires (a + b)[0] == a[0] && (a + b)[1..] == a[1..] + b
    requires Captured(a[1..] + b, env) == Captured(a[1..], env) + Captured(b, env)
    ensures Captured(a + b, env) == Captured(a, env) + Captured(b, env)
  {
    var head := if NeedToCapture(env, a[0]) == Ok(true) then [(a[0], Environments.Get(env, a[0]).value)] else [];
    assert Captured(a, env) == head + Captured(a[1..], env);
    assert Captured(a + b, env) == head + Captured(a[1..] + b, env);
    AppendAssociates(head, Captured(a[1..], env), Captured(b, env));
  }

  /** Two resolutions run one after the other, as `resolve` does for the
      two operands of a node. */
  function Then(ra: Result<seq<(Token, Object)>, RuntimeError>, rb: Result<seq<(Token, Object)>, RuntimeError>): Result<seq<(Token, Object)>, RuntimeError> {
    if ra.Err? then ra else if rb.Err? then rb else Ok(ra.value + rb.value)
  }

  /** The capture list for `na` followed by the one for `nb` is the one
      for `na + nb`. */
  lemma ThenCaptured(ra: Result<seq<(Token, Object)>, RuntimeError>, rb: Result<seq<(Token, Object)>, RuntimeError>,
                     na: seq<Token>, nb: seq<Token>, sa: bool, sb: bool, env: Environment)
    requires |env.stack| > 0
    requires (ra.Ok? <==> !sa && AllBound(na, env)) && (ra.Ok? ==> ra.value == Captured(na, env))
    requires (rb.Ok? <==> !sb && AllBound(nb, env)) && (rb.Ok? ==> rb.value == Captured(nb, env))
    ensures Then(ra, rb).Ok? <==> !(sa || sb) && AllBound(na + nb, env)
    ensures Then(ra, rb).Ok? ==> Then(ra, rb).value == Captured(na + nb, env)
  {
    AllBoundAppend(na, nb, env);
    if ra.Ok? && rb.Ok? {
      CapturedAppend(na, nb, env);
    }
  }

  /** `resolve` succeeds exactly when `super` does not occur and every
      name is bound, and then appends exactly the names bound only outside
      the innermost scope, in visiting order, each with its value. */
  lemma {:induction false} ResolveExact(e: Expr, env: Environment)
    requires |env.stack| > 0
    ensures Resolve(e, env).Ok? <==> !HasSuper(e) && AllBound(Names(e), env)
    ensures Resolve(e, env).Ok? ==> Resolve(e, env).value == Captured(Names(e), env)
    decreases e
  {
    match e
    case Assign(name, v) =>
      ResolveExact(v, env);
      AllBoundOne(name, env);
      assert Resolve(e, env) == Then(Resolve(v, env), CaptureOf(name, env));
      ThenCaptured(Resolve(v, env), CaptureOf(name, env), Names(v), [name], HasSuper(v), false, env);
    case Binary(l, _, r) =>
      ResolveExact(l, env);
      ResolveExact(r, env);
      assert Resolve(e, env) == Then(Resolve(l, env), Resolve(r, env));
      ThenCaptured(Resolve(l, env), Resolve(r, env), Names(l), Names(r), HasSuper(l), HasSuper(r), env);
    case Call(callee, _, args) =>
      ResolveExact(callee, env);
      ResolveAllExact(args, env);
      assert Resolve(e, env) == Then(Resolve(callee, env), ResolveAll(args, env));
      ThenCaptured(Resolve(callee, env), ResolveAll(args, env), Names(callee), NamesAll(args), HasSuper(callee), HasSuperAll(args), env);
    case Get(target, _) =>
      ResolveExact(target, env);
    case Grouping(inner) =>
      ResolveExact(inner, env);
    case Literal(_) =>
    case Logical(l, _, r) =>
      ResolveExact(l, env);
      ResolveExact(r, env);
      assert Resolve(e, env) == Then(Resolve(l, env), Resolve(r, env));
      ThenCaptured(Resolve(l, env), Resolve(r, env), Names(l), Names(r), HasSuper(l), HasSuper(r), env);
    case Set(target, _, v) =>
      ResolveExact(target, env);
      ResolveExact(v, env);
      assert Resolve(e, env) == Then(Resolve(target, env), Resolve(v, env));
      ThenCaptured(Resolve(target, env), Resolve(v, env), Names(target), Names(v), HasSuper(target), HasSuper(v), env);
    case Super(_, _) =>
    case This(_) =>
    case Unary(_, r) =>
      ResolveExact(r, env);
    case Variable(name) =>
      AllBoundOne(name, env);
  }

  lemma {:induction false} ResolveAllExact(es: seq<Expr>, env: Environment)
    requires |env.stack| > 0
    ensures ResolveAll(es, env).Ok? <==> !HasSuperAll(es) && AllBound(NamesAll(es), env)
    ensures ResolveAll(es, env).Ok? ==> ResolveAll(es, env).value == Captured(NamesAll(es), env)
    decreases es
  {
    if |es| > 0 {
      ResolveExact(es[0], env);
      ResolveAllExact(es[1..], env);
      assert ResolveAll(es, env) == Then(Resolve(es[0], env), ResolveAll(es[1..], env));
      ThenCaptured(Resolve(es[0], env), ResolveAll(es[1..], env), Names(es[0]), NamesAll(es[1..]), HasSuper(es[0]), HasSuperAll(es[1..]), env);
    }
  }

  // Agreement with the literal evaluator.

  /** The run-time object a literal object stands for. */
  function Lift(o: Syntax.Object): (r: Object)
    ensures KindOf(r) == NilKind <==> o.NilObject?
  {
    match o
    case StringObject(s) => StringObject(s)
    case NumberObject(n) => NumberObject(n)
    case BoolObject(b) => BoolObject(b)
    case NilObject(_) => NilObject
  }

  /** The run-time error a literal-evaluation error stands for. */
  function LiftError(err: LiteralEval.EvalError): RuntimeError {
    match err
    case KindMismatch => KindMismatch
    case InvalidOperands(op) => InvalidOperands(op)
    case InvalidOperator(op) => InvalidOperator(op)
    case NoImplementation => NoImplementation
  }

  /** A Nil without a tag, or any other literal object: the only Nil the
      parser makes. */
  predicate Untagged(o: Syntax.Object) {
    o.NilObject? ==> o.tag.None?
  }

  /** Trees both evaluators evaluate: operators, groupings and untagged
      literals. */
  predicate Pure(e: Syntax.Expr)
    decreases e
  {
    match e
    case Binary(l, _, r) => Pure(l) && Pure(r)
    case Unary(_, r) => Pure(r)
    case Literal(v) => Untagged(v)
    case Grouping(inner) => Pure(inner)
    case _ => false
  }

  /** The interpreter's tree for a pure tree of the parser. */
  function Lower(e: Syntax.Expr): Expr
    requires Pure(e)
    decreases e
  {
    match e
    case Binary(l, op, r) => Binary(Lower(l), op, Lower(r))
    case Unary(op, r) => Unary(op, Lower(r))
    case Literal(v) => Literal(Lift(v))
    case Grouping(inner) => Grouping(Lower(inner))
  }

  /** On untagged objects the two equalities agree. */
  lemma LiftInjective(a: Syntax.Object, b: Syntax.Object)
    requires Untagged(a) && Untagged(b)
    ensures Lift(a) == Lift(b) <==> a == b
  {
  }

  /** A literal evaluator's result as the interpreter would report it. */
  function LiftResult(lit: Result<Syntax.Object, LiteralEval.EvalError>): (r: Result<Object, RuntimeError>)
    ensures r.Ok? <==> lit.Ok?
  {
    if lit.Ok? then Ok(Lift(lit.value)) else Err(LiftError(lit.error))
  }

  /** A literal evaluator's result as the interpreter would report it,
      with the machine it leaves. */
  function LiftPair(lit: Result<Syntax.Object, LiteralEval.EvalError>, m: Machine): (r: Result<(Object, Machine), RuntimeError>)
    ensures r.Ok? <==> lit.Ok?
    ensures r.Ok? ==> r.value.1 == m
  {
    if lit.Ok? then Ok((Lift(lit.value), m)) else Err(LiftError(lit.error))
  }

  lemma ApplyAgreeNumbers(op: TokenType, x: real, y: real)
    ensures ApplyBinary(op, NumberObject(x), NumberObject(y))
      == LiftResult(LiteralEval.ApplyBinary(op, Syntax.NumberObject(x), Syntax.NumberObject(y)))
  {
  }

  lemma ApplyAgreeStrings(op: TokenType, x: string, y: string)
    ensures ApplyBinary(op, StringObject(x), StringObject(y))
      == LiftResult(LiteralEval.ApplyBinary(op, Syntax.StringObject(x), Syntax.StringObject(y)))
  {
    var lit := LiteralEval.ApplyBinary(op, Syntax.StringObject(x), Syntax.StringObject(y));
    if op == EqualEqual || op == BangEqual {
      assert lit == Ok(Syntax.BoolObject((x == y) == (op == EqualEqual)));
    } else if op == Plus {
      assert lit == Ok(Syntax.StringObject(x + y));
    } else {
      assert lit.Err?;
    }
  }

  lemma ApplyAgreeBools(op: TokenType, x: bool, y: bool)
    ensures ApplyBinary(op, BoolObject(x), BoolObject(y))
      == LiftResult(LiteralEval.ApplyBinary(op, Syntax.BoolObject(x), Syntax.BoolObject(y)))
  {
    var lit := LiteralEval.ApplyBinary(op, Syntax.BoolObject(x), Syntax.BoolObject(y));
    if op == EqualEqual || op == BangEqual {
      assert lit == Ok(Syntax.BoolObject((x == y) == (op == EqualEqual)));
    } else {
      assert lit.Err?;
    }
  }

  lemma ApplyAgreeNils(op: TokenType)
    ensures ApplyBinary(op, NilObject, NilObject)
      == LiftResult(LiteralEval.ApplyBinary(op, Syntax.NilObject(None), Syntax.NilObject(None)))
  {
    var lit := LiteralEval.ApplyBinary(op, Syntax.NilObject(None), Syntax.NilObject(None));
    if op == EqualEqual || op == BangEqual {
      assert lit == Ok(Syntax.BoolObject(op == EqualEqual));
    } else {
      assert lit.Err?;
    }
  }

  /** The two operator dispatches agree on untagged objects. */
  lemma ApplyAgree(op: TokenType, a: Syntax.Object, b: Syntax.Object)
    requires Untagged(a) && Untagged(b) && LiteralEval.KindOf(a) == LiteralEval.KindOf(b)
    ensures KindOf(Lift(a)) == KindOf(Lift(b))
    ensures ApplyBinary(op, Lift(a), Lift(b)) == LiftResult(LiteralEval.ApplyBinary(op, a, b))
    ensures LiteralEval.ApplyBinary(op, a, b).Ok? ==> Untagged(LiteralEval.ApplyBinary(op, a, b).value)
  {
    match a
    case NumberObject(x) => ApplyAgreeNumbers(op, x, b.num);
    case StringObject(s) => ApplyAgreeStrings(op, s, b.str);
    case BoolObject(t) => ApplyAgreeBools(op, t, b.truth);
    case NilObject(_) => ApplyAgreeNils(op);
  }

  /** The Binary step of `EvaluatorsAgree`, given agreement on the operands. */
  lemma BinaryAgree(x: Expr, l: Syntax.Expr, op: Token, y: Expr, r: Syntax.Expr, m: Machine, fuel: nat)
    requires |m.env.stack| > 0
    requires Eval(x, m, fuel) == LiftPair(LiteralEval.Evaluate(l), m)
    requires Eval(y, m, fuel) == LiftPair(LiteralEval.Evaluate(r), m)
    requires LiteralEval.Evaluate(l).Ok? ==> Untagged(LiteralEval.Evaluate(l).value)
    requires LiteralEval.Evaluate(r).Ok? ==> Untagged(LiteralEval.Evaluate(r).value)
    ensures Eval(Binary(x, op, y), m, fuel)
      == LiftPair(LiteralEval.Evaluate(Syntax.Binary(l, op, r)), m)
    ensures LiteralEval.Evaluate(Syntax.Binary(l, op, r)).Ok? ==>
      Untagged(LiteralEval.Evaluate(Syntax.Binary(l, op, r)).value)
  {
    var a := LiteralEval.Evaluate(l);
    var b := LiteralEval.Evaluate(r);
    if a.Ok? && b.Ok? {
      var (la, lb) := (Lift(a.value), Lift(b.value));
      if LiteralEval.KindOf(a.value) == LiteralEval.KindOf(b.value) {
        ApplyAgree(op.tokenType, a.value, b.value);
      } else {
        assert KindOf(la) != KindOf(lb);
      }
    }
  }

  /** The two unary dispatches agree. */
  lemma UnaryApplyAgree(op: TokenType, a: Syntax.Object)
    ensures ApplyUnary(op, Lift(a)) == LiftResult(LiteralEval.ApplyUnary(op, a))
    ensures LiteralEval.ApplyUnary(op, a).Ok? ==> Untagged(LiteralEval.ApplyUnary(op, a).value)
  {
    match a
    case NumberObject(x) => assert Lift(a) == NumberObject(x);
    case BoolObject(t) => assert Lift(a) == BoolObject(t);
    case StringObject(_) =>
    case NilObject(_) =>
  }

  /** The Unary step of `EvaluatorsAgree`, given agreement on the operand. */
  lemma UnaryAgree(op: Token, x: Expr, r: Syntax.Expr, m: Machine, fuel: nat)
    requires |m.env.stack| > 0
    requires Eval(x, m, fuel) == LiftPair(LiteralEval.Evaluate(r), m)
    ensures Eval(Unary(op, x), m, fuel) == LiftPair(LiteralEval.Evaluate(Syntax.Unary(op, r)), m)
    ensures LiteralEval.Evaluate(Syntax.Unary(op, r)).Ok? ==>
      Untagged(LiteralEval.Evaluate(Syntax.Unary(op, r)).value)
  {
    var a := LiteralEval.Evaluate(r);
    if a.Ok? {
      var lit := LiteralEval.ApplyUnary(op.tokenType, a.value);
      var u := ApplyUnary(op.tokenType, Lift(a.value));
      UnaryApplyAgree(op.tokenType, a.value);
      assert LiteralEval.Evaluate(Syntax.Unary(op, r)) == lit;
      assert Eval(x, m, fuel) == Ok((Lift(a.value), m));
      assert Eval(Unary(op, x), m, fuel) == if u.Ok? then Ok((u.value, m)) else Err(u.error);
    } else {
      assert Eval(x, m, fuel) == Err(LiftError(a.error));
    }
  }

  /** The Grouping step of `EvaluatorsAgree`, given agreement inside. */
  lemma GroupingAgree(x: Expr, inner: Syntax.Expr, m: Machine, fuel: nat)
    requires |m.env.stack| > 0
    requires Eval(x, m, fuel) == LiftPair(LiteralEval.Evaluate(inner), m)
    ensures Eval(Grouping(x), m, fuel) == LiftPair(LiteralEval.Evaluate(Syntax.Grouping(inner)), m)
  {
  }

  /** A literal evaluates to itself in both evaluators. */
  lemma LiteralAgree(v: Syntax.Object, m: Machine, fuel: nat)
    requires |m.env.stack| > 0
    ensures Eval(Literal(Lift(v)), m, fuel) == LiftPair(LiteralEval.Evaluate(Syntax.Literal(v)), m)
  {
  }

  /** On a pure tree the interpreter does what the literal evaluator does,
      and leaves the machine as it was. */
  lemma {:induction false} EvaluatorsAgree(e: Syntax.Expr, m: Machine, fuel: nat)
    requires |m.env.stack| > 0 && Pure(e)
    ensures Eval(Lower(e), m, fuel) == LiftPair(LiteralEval.Evaluate(e), m)
    ensures LiteralEval.Evaluate(e).Ok? ==> Untagged(LiteralEval.Evaluate(e).value)
    decreases e
  {
    match e
    case Binary(l, op, r) =>
      EvaluatorsAgree(l, m, fuel);
      EvaluatorsAgree(r, m, fuel);
      BinaryAgree(Lower(l), l, op, Lower(r), r, m, fuel);
    case Unary(op, r) =>
      EvaluatorsAgree(r, m, fuel);
      UnaryAgree(op, Lower(r), r, m, fuel);
    case Literal(v) =>
      LiteralAgree(v, m, fuel);
    case Grouping(inner) =>
      EvaluatorsAgree(inner, m, fuel);
      GroupingAgree(Lower(inner), inner, m, fuel);
  }
}
