/** Scopes: one `Memory` is a map from lexeme to value, and the
    `Environment` is a stack of them, innermost last. Definitions go into
    the innermost scope; lookups and assignments search from the innermost
    scope outwards. */
module Environments {
  import opened Results
  import opened Tokens
  import opened Runtime

  // One scope.

  /** `Memory::new`: no bindings, no flags. */
  function NewMemory(): (m: Memory)
    ensures |m.vars| == 0 && m.inFunction.None? && m.classInstance.None?
  {
    Memory(map[], None, None)
  }

  /** `Memory::define`: binds the lexeme of `k`, replacing any earlier
      binding of it; every other binding and the flags stay. */
  function MemDefine(m: Memory, k: Token, v: Object): (r: Memory)
    ensures r.vars.Keys == m.vars.Keys + {k.lexeme}
    ensures k.lexeme in r.vars && r.vars[k.lexeme] == v
    ensures forall x :: x in m.vars && x != k.lexeme ==> r.vars[x] == m.vars[x]
    ensures r.inFunction == m.inFunction && r.classInstance == m.classInstance
  {
    m.(vars := m.vars[k.lexeme := v])
  }

  /** `Memory::get`. */
  function MemGet(m: Memory, t: Token): (r: Option<Object>)
    ensures r.Some? <==> t.lexeme in m.vars
    ensures r.Some? ==> r.value == m.vars[t.lexeme]
  {
    if t.lexeme in m.vars then Some(m.vars[t.lexeme]) else None
  }

  /** `Memory::assign`: replaces an existing binding and fails on a name
      the scope does not bind, so it never adds a name. */
  function MemAssign(m: Memory, t: Token, v: Object): (r: Result<Memory, ()>)
    ensures r.Ok? <==> t.lexeme in m.vars
    ensures r.Ok? ==> r.value.vars.Keys == m.vars.Keys && r.value == MemDefine(m, t, v)
  {
    if t.lexeme in m.vars then Ok(MemDefine(m, t, v)) else Err(())
  }

  /** Reading a scope after a definition: the defined name gives the new
      value, every other name what it gave before. */
  lemma MemGetDefine(m: Memory, k: Token, v: Object, t: Token)
    ensures MemGet(MemDefine(m, k, v), t) == if t.lexeme == k.lexeme then Some(v) else MemGet(m, t)
  {
  }

  // The scope stack.

  /** The innermost scope. */
  function Top(env: Environment): Memory
    requires |env.stack| > 0
  {
    env.stack[|env.stack| - 1]
  }

  /** `i` is the innermost scope binding `name`. */
  predicate Innermost(stack: seq<Memory>, name: string, i: nat) {
    && i < |stack| && name in stack[i].vars
    && forall j :: i < j < |stack| ==> name !in stack[j].vars
  }

  /** Some scope binds `name`. */
  predicate Bound(stack: seq<Memory>, name: string) {
    exists j :: 0 <= j < |stack| && name in stack[j].vars
  }

  /** The search loop of `get`, `assign` and `need_to_capture`: from scope
      `i` down to the outermost, the first scope that binds `name`. */
  function FindFrom(stack: seq<Memory>, name: string, i: nat): (r: Option<nat>)
    requires i < |stack|
    ensures r.Some? ==> r.value <= i && name in stack[r.value].vars
    ensures r.Some? ==> forall j :: r.value < j <= i ==> name !in stack[j].vars
    ensures r.None? ==> forall j :: 0 <= j <= i ==> name !in stack[j].vars
  {
    if name in stack[i].vars then Some(i)
    else if i == 0 then None
    else FindFrom(stack, name, i - 1)
  }

  /** The scope `get` and `assign` act on. */
  function Frame(env: Environment, name: string): (r: Option<nat>)
    requires |env.stack| > 0
    ensures r.Some? <==> Bound(env.stack, name)
    ensures r.Some? ==> Innermost(env.stack, name, r.value)
  {
    FindFrom(env.stack, name, |env.stack| - 1)
  }

  /** `Environment::new`: one empty scope, the latch off with Nil, no
      injects, no flags. */
  function New(): (env: Environment)
    ensures env.stack == [NewMemory()]
    ensures !env.returnSwitch && env.returnValue == NilObject
    ensures env.injects == [] && env.inFunction.None? && env.classInstance.None?
  {
    Environment([NewMemory()], false, NilObject, [], None, None)
  }

  /** `define`: into the innermost scope only. */
  function Define(env: Environment, k: Token, v: Object): (r: Environment)
    requires |env.stack| > 0
    ensures |r.stack| == |env.stack|
    ensures r.stack[..|env.stack| - 1] == env.stack[..|env.stack| - 1]
    ensures Top(r) == MemDefine(Top(env), k, v)
    ensures r == env.(stack := r.stack)
  {
    env.(stack := env.stack[|env.stack| - 1 := MemDefine(Top(env), k, v)])
  }

  /** `get`: the binding in the innermost scope that has one; fails when
      no scope does. */
  function Get(env: Environment, t: Token): (r: Result<Object, RuntimeError>)
    requires |env.stack| > 0
    ensures r.Err? <==> !Bound(env.stack, t.lexeme)
    ensures r.Err? ==> r.error == Undefined(t.lexeme)
    ensures r.Ok? ==> forall i: nat :: Innermost(env.stack, t.lexeme, i) ==> r.value == env.stack[i].vars[t.lexeme]
  {
    var i := Frame(env, t.lexeme);
    if i.None? then Err(Undefined(t.lexeme)) else Ok(env.stack[i.value].vars[t.lexeme])
  }

  /** `assign`: replaces the binding in the innermost scope that has one;
      every other scope, and every other name, is left alone. Fails when no
      scope binds the name, so it never creates a binding. */
  function Assign(env: Environment, t: Token, v: Object): (r: Result<Environment, RuntimeError>)
    requires |env.stack| > 0
    ensures r.Err? <==> !Bound(env.stack, t.lexeme)
    ensures r.Err? ==> r.error == Undefined(t.lexeme)
    ensures r.Ok? ==> |r.value.stack| == |env.stack| && r.value == env.(stack := r.value.stack)
    ensures r.Ok? ==> forall i :: 0 <= i < |env.stack| ==> r.value.stack[i].vars.Keys == env.stack[i].vars.Keys
    ensures r.Ok? ==> forall i: nat :: Innermost(env.stack, t.lexeme, i) ==>
      && r.value.stack[i] == MemDefine(env.stack[i], t, v)
      && forall j :: 0 <= j < |env.stack| && j != i ==> r.value.stack[j] == env.stack[j]
  {
    var i := Frame(env, t.lexeme);
    if i.None? then Err(Undefined(t.lexeme))
    else Ok(env.(stack := env.stack[i.value := MemDefine(env.stack[i.value], t, v)]))
  }

  /** `need_to_capture`: false when the innermost scope binds the name,
      true when only an outer scope does, a failure when none does. */
  function NeedToCapture(env: Environment, t: Token): (r: Result<bool, RuntimeError>)
    requires |env.stack| > 0
    ensures r.Err? <==> !Bound(env.stack, t.lexeme)
    ensures r == Ok(false) <==> t.lexeme in Top(env).vars
    ensures r == Ok(true) <==> t.lexeme !in Top(env).vars && Bound(env.stack[..|env.stack| - 1], t.lexeme)
  {
    var i := Frame(env, t.lexeme);
    if i.None? then Err(Undefined(t.lexeme))
    else
      assert i.value < |env.stack| - 1 ==> env.stack[..|env.stack| - 1][i.value] == env.stack[i.value];
      Ok(i.value != |env.stack| - 1)
  }

  // Injects and scope push and pop.

  /** `inject`: queued for the next `stackpush`. */
  function Inject(env: Environment, t: Token, v: Object): (r: Environment)
    ensures r.injects == env.injects + [(t, v)]
    ensures r == env.(injects := r.injects)
  {
    env.(injects := env.injects + [(t, v)])
  }

  /** The value of the earliest inject of `name`, if any. */
  function FirstInject(injects: seq<(Token, Object)>, name: string): (r: Option<Object>)
    ensures r.None? <==> forall i :: 0 <= i < |injects| ==> injects[i].0.lexeme != name
    ensures r.Some? ==> exists i :: (0 <= i < |injects| && injects[i].0.lexeme == name && injects[i].1 == r.value
      && forall j :: 0 <= j < i ==> injects[j].0.lexeme != name)
  {
    if |injects| == 0 then None
    else if injects[0].0.lexeme == name then Some(injects[0].1)
    else
      var r := FirstInject(injects[1..], name);
      assert forall i :: 1 <= i < |injects| ==> injects[i] == injects[1..][i - 1];
      r
  }

  /** Adding an inject at the end matters only to a name no earlier inject
      has. */
  lemma {:induction false} FirstInjectSnoc(injects: seq<(Token, Object)>, b: (Token, Object), name: string)
    ensures FirstInject(injects + [b], name) ==
      if FirstInject(injects, name).Some? then FirstInject(injects, name)
      else if b.0.lexeme == name then Some(b.1) else None
  {
    if |injects| > 0 {
      assert (injects + [b])[1..] == injects[1..] + [b];
      FirstInjectSnoc(injects[1..], b, name);
    }
  }

  /** `r` is `m` with the injects defined over it, the earliest inject of
      a name winning over later ones and over `m`'s own binding. */
  ghost predicate Overlaid(r: Memory, m: Memory, injects: seq<(Token, Object)>) {
    && (forall x :: x in r.vars <==> x in m.vars || FirstInject(injects, x).Some?)
    && (forall x :: x in r.vars ==>
          r.vars[x] == if FirstInject(injects, x).Some? then FirstInject(injects, x).value else m.vars[x])
  }

  lemma SplitLast<T>(s: seq<T>)
    requires |s| > 0
    ensures s == s[..|s| - 1] + [s[|s| - 1]]
  {
  }

  /** Defining the last inject first and then the others over it is
      overlaying them all. */
  lemma OverlaidSnoc(r: Memory, m: Memory, injects: seq<(Token, Object)>, b: (Token, Object))
    ensures Overlaid(r, MemDefine(m, b.0, b.1), injects) ==> Overlaid(r, m, injects + [b])
  {
    forall x {
      FirstInjectSnoc(injects, b, x);
    }
  }

  /** The loop of `stackpush` that empties the injects: it pops the last
      one and defines it in the innermost scope until none are left, so of
      two injects of one name the earlier one is defined last and wins. */
  function FlushInjects(env: Environment): (r: Environment)
    requires |env.stack| > 0
    ensures |r.stack| == |env.stack| && r.stack[..|r.stack| - 1] == env.stack[..|env.stack| - 1]
    ensures r == env.(stack := r.stack, injects := [])
    ensures Top(r).inFunction == Top(env).inFunction && Top(r).classInstance == Top(env).classInstance
    ensures Overlaid(Top(r), Top(env), env.injects)
    decreases |env.injects|
  {
    if |env.injects| == 0 then env
    else
      var n := |env.injects| - 1;
      var last := env.injects[n];
      var next := Define(env, last.0, last.1).(injects := env.injects[..n]);
      var r := FlushInjects(next);
      SplitLast(env.injects);
      OverlaidSnoc(Top(r), Top(env), env.injects[..n], last);
      r
  }

  /** `stackpush(memory)`: the environment's flags move into `memory`,
      which becomes the innermost scope, and the pending injects are
      defined in it, the earliest inject of a name winning over later ones
      and over `memory`'s own binding. */
  function StackPush(env: Environment, memory: Memory): (r: Environment)
    ensures |r.stack| == |env.stack| + 1 && r.stack[..|env.stack|] == env.stack
    ensures r.injects == [] && r.inFunction.None? && r.classInstance.None?
    ensures r.returnSwitch == env.returnSwitch && r.returnValue == env.returnValue
    ensures Top(r).inFunction == env.inFunction && Top(r).classInstance == env.classInstance
    ensures Overlaid(Top(r), memory, env.injects)
  {
    var top := memory.(inFunction := env.inFunction, classInstance := env.classInstance);
    var pushed := env.(stack := env.stack + [top], inFunction := None, classInstance := None);
    assert pushed.stack[..|pushed.stack| - 1] == env.stack;
    FlushInjects(pushed)
  }

  /** `stackpop`: drops the pending injects and removes the innermost
      scope, returning it; an empty stack gives nothing back. */
  function StackPop(env: Environment): (r: (Environment, Option<Memory>))
    ensures r.0.injects == []
    ensures |env.stack| == 0 ==> r.1.None? && r.0.stack == []
    ensures |env.stack| > 0 ==> r.1 == Some(Top(env)) && r.0.stack == env.stack[..|env.stack| - 1]
    ensures r.0 == env.(stack := r.0.stack, injects := [])
  {
    var cleared := env.(injects := []);
    if |env.stack| == 0 then (cleared, None)
    else (cleared.(stack := env.stack[..|env.stack| - 1]), Some(Top(env)))
  }

  /** `stack_temp_push`: an empty scope, with no flags moved and no
      injects flushed. */
  function StackTempPush(env: Environment): (r: Environment)
    ensures r.stack == env.stack + [NewMemory()] && r == env.(stack := r.stack)
  {
    env.(stack := env.stack + [NewMemory()])
  }

  /** `stack_temp_pop`: removes the innermost scope and keeps the injects. */
  function StackTempPop(env: Environment): (r: Environment)
    ensures |env.stack| > 0 ==> r.stack == env.stack[..|env.stack| - 1]
    ensures r == env.(stack := r.stack)
  {
    if |env.stack| == 0 then env else env.(stack := env.stack[..|env.stack| - 1])
  }

  // The return latch and the flags.

  /** `set_return`. */
  function SetReturn(env: Environment, v: Object): (r: Environment)
    ensures r.returnSwitch && r.returnValue == v
    ensures r == env.(returnSwitch := true, returnValue := v)
  {
    env.(returnSwitch := true, returnValue := v)
  }

  /** `unset_return`: hands back the latched value and resets the latch to
      off with Nil. */
  function UnsetReturn(env: Environment): (r: (Object, Environment))
    ensures r.0 == env.returnValue
    ensures !r.1.returnSwitch && r.1.returnValue == NilObject
    ensures r.1 == env.(returnSwitch := false, returnValue := NilObject)
  {
    (env.returnValue, env.(returnSwitch := false, returnValue := NilObject))
  }

  /** `set_in_function`. */
  function SetInFunction(env: Environment, f: Option<FunctionType>): (r: Environment)
    ensures r.inFunction == f && r == env.(inFunction := f)
  {
    env.(inFunction := f)
  }

  /** `set_class_instance`; `clear_class_instance` is this with `None`. */
  function SetClassInstance(env: Environment, c: Option<Token>): (r: Environment)
    ensures r.classInstance == c && r == env.(classInstance := c)
  {
    env.(classInstance := c)
  }

  /** `is_in_function`, `is_in_method` and `is_class_instance` read the
      flags the innermost scope was entered with, not the environment's
      pending ones. */
  predicate IsInFunction(env: Environment)
    requires |env.stack| > 0
  {
    Top(env).inFunction == Some(Function)
  }

  predicate IsInMethod(env: Environment)
    requires |env.stack| > 0
  {
    Top(env).inFunction == Some(Method)
  }

  function IsClassInstance(env: Environment): Option<Token>
    requires |env.stack| > 0
  {
    Top(env).classInstance
  }

  // What the operations promise together.

  /** A fresh environment binds nothing. */
  lemma NewBindsNothing(t: Token)
    ensures Get(New(), t) == Err(Undefined(t.lexeme))
    ensures NeedToCapture(New(), t).Err?
    ensures Assign(New(), t, NilObject).Err?
  {
    assert !Bound(New().stack, t.lexeme);
  }

  /** Reading after `define`: the defined name gives the new value, every
      other name what it gave before, however deep its binding. */
  lemma GetAfterDefine(env: Environment, k: Token, v: Object, t: Token)
    requires |env.stack| > 0
    ensures Get(Define(env, k, v), t) == if t.lexeme == k.lexeme then Ok(v) else Get(env, t)
  {
    var d := Define(env, k, v);
    var n := |env.stack| - 1;
    if t.lexeme == k.lexeme {
      assert Innermost(d.stack, t.lexeme, n);
    } else {
      assert forall j :: 0 <= j < |env.stack| ==> (t.lexeme in d.stack[j].vars <==> t.lexeme in env.stack[j].vars) by {
        forall j | 0 <= j < |env.stack| ensures (t.lexeme in d.stack[j].vars <==> t.lexeme in env.stack[j].vars) {
          if j < n { assert d.stack[..n][j] == env.stack[..n][j]; }
        }
      }
      if Bound(env.stack, t.lexeme) {
        var i := Frame(env, t.lexeme).value;
        if i < n { assert d.stack[..n][i] == env.stack[..n][i]; }
        assert Innermost(d.stack, t.lexeme, i);
      }
    }
  }

  /** Reading after `assign`: the assigned name gives the new value, every
      other name what it gave before. */
  lemma GetAfterAssign(env: Environment, t: Token, v: Object, u: Token)
    requires |env.stack| > 0 && Assign(env, t, v).Ok?
    ensures Get(Assign(env, t, v).value, u) == if u.lexeme == t.lexeme then Ok(v) else Get(env, u)
  {
    var a := Assign(env, t, v).value;
    var i := Frame(env, t.lexeme).value;
    assert Innermost(env.stack, t.lexeme, i);
    if u.lexeme == t.lexeme {
      assert Innermost(a.stack, u.lexeme, i);
    } else if Bound(env.stack, u.lexeme) {
      var k := Frame(env, u.lexeme).value;
      assert Innermost(a.stack, u.lexeme, k);
    } else {
      assert !Bound(a.stack, u.lexeme);
    }
  }

  /** Popping what was pushed gives back the scopes below, unchanged. */
  lemma PushPop(env: Environment, memory: Memory)
    ensures StackPop(StackPush(env, memory)).0.stack == env.stack
    ensures StackPop(StackPush(env, memory)).1.Some?
  {
  }

  /** A pushed empty scope with no injects pending hides nothing: every
      name reads as it did before the push. */
  lemma GetAfterEmptyPush(env: Environment, t: Token)
    requires |env.stack| > 0 && env.injects == []
    ensures Get(StackPush(env, NewMemory()), t) == Get(env, t)
  {
    var p := StackPush(env, NewMemory());
    assert t.lexeme !in Top(p).vars;
    assert forall j :: 0 <= j < |env.stack| ==> p.stack[j] == env.stack[j];
    if Bound(env.stack, t.lexeme) {
      var i := Frame(env, t.lexeme).value;
      assert Innermost(p.stack, t.lexeme, i);
    } else {
      assert !Bound(p.stack, t.lexeme);
    }
  }

  /** After a push, an injected name reads as its earliest inject. */
  lemma GetInjected(env: Environment, memory: Memory, t: Token)
    requires FirstInject(env.injects, t.lexeme).Some?
    ensures Get(StackPush(env, memory), t) == Ok(FirstInject(env.injects, t.lexeme).value)
  {
    var p := StackPush(env, memory);
    assert Innermost(p.stack, t.lexeme, |p.stack| - 1);
  }

  /** Setting then unsetting the latch gives back the value set and leaves
      the latch off with Nil. */
  lemma UnsetAfterSet(env: Environment, v: Object)
    ensures UnsetReturn(SetReturn(env, v)) == (v, env.(returnSwitch := false, returnValue := NilObject))
  {
  }
}
