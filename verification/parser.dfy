/** The recursive-descent parser: a cursor over the token list and one
    function per precedence level, from `expression` down to `primary`,
    then the statement rules. Each `while matches(..)` loop of a binary
    level is a tail function that folds the operands into a left-nested
    tree. A panic is an `Err`. */
module Parser {
  import opened Results
  import opened Tokens
  import Decimal
  import opened Syntax

  /** A token list the parser can walk: it ends with an Eof token, which
      `peek` then always finds before running off the end. The scanner's
      output is one. */
  predicate Stream(toks: seq<Token>) {
    |toks| > 0 && toks[|toks| - 1].tokenType == Eof
  }

  datatype ParseError =
    | Expected(tokenType: TokenType)   // `consume` found another kind
    | NoPrimary(at: nat)               // `primary` found no expression
    | BadNumber(literal: string)       // a Number literal that does not parse
    | NoPrevious                       // `previous` before the first token

  /** `at_end`. */
  predicate AtEnd(toks: seq<Token>, pos: nat)
    requires pos < |toks|
  {
    toks[pos].tokenType == Eof
  }

  /** `advance`: the cursor after it. It stays put on Eof, and otherwise
      moves by one, never past the Eof token. */
  function Advance(toks: seq<Token>, pos: nat): (p: nat)
    requires Stream(toks) && pos < |toks|
    ensures p < |toks|
    ensures p == pos <==> AtEnd(toks, pos)
    ensures p == pos || p == pos + 1
  {
    if AtEnd(toks, pos) then pos else pos + 1
  }

  /** `check`. */
  predicate Check(toks: seq<Token>, pos: nat, t: TokenType)
    requires pos < |toks|
  {
    !AtEnd(toks, pos) && toks[pos].tokenType == t
  }

  /** `matches`: whether the current token is of one of the given kinds,
      and the cursor after it (one further on a match). */
  function Matches(toks: seq<Token>, pos: nat, types: set<TokenType>): (r: (bool, nat))
    requires Stream(toks) && pos < |toks|
    ensures r.0 <==> exists t :: t in types && Check(toks, pos, t)
    ensures r.0 <==> !AtEnd(toks, pos) && toks[pos].tokenType in types
    ensures r.1 == if r.0 then pos + 1 else pos
    ensures r.0 ==> pos + 1 < |toks|
  {
    var t := toks[pos].tokenType;
    if t in types && Check(toks, pos, t) then (true, Advance(toks, pos)) else (false, pos)
  }

  /** The loop of `matches` as written: try the kinds of the slice in
      order and advance on the first that `check` accepts. All of them are
      compared with the same token, so only membership matters and the
      loop agrees with `Matches` on the set of the slice's kinds. */
  function MatchesInOrder(toks: seq<Token>, pos: nat, types: seq<TokenType>): (r: (bool, nat))
    requires Stream(toks) && pos < |toks|
    ensures r == Matches(toks, pos, set t | t in types)
    decreases |types|
  {
    if |types| == 0 then (false, pos)
    else if Check(toks, pos, types[0]) then (true, Advance(toks, pos))
    else MatchesInOrder(toks, pos, types[1..])
  }

  /** `consume`: the current token and the cursor after it when the kind
      matches; a failure otherwise. */
  function Consume(toks: seq<Token>, pos: nat, t: TokenType): (r: Result<(Token, nat), ParseError>)
    requires Stream(toks) && pos < |toks|
    ensures r.Ok? <==> Check(toks, pos, t)
    ensures r.Ok? ==> r.value == (toks[pos], pos + 1) && pos + 1 < |toks|
    ensures r.Err? ==> r.error == Expected(t)
  {
    if Check(toks, pos, t) then Ok((toks[Advance(toks, pos) - 1], Advance(toks, pos)))
    else Err(Expected(t))
  }

  /** The operators of each binary level and the prefix operators, in the
      order `matches` tries them. */
  const EqualityOps: set<TokenType> := {BangEqual, EqualEqual}
  const ComparisonOps: set<TokenType> := {Greater, GreaterEqual, Less, LessEqual}
  const TermOps: set<TokenType> := {Minus, Plus}
  const FactorOps: set<TokenType> := {Slash, Star}
  const UnaryOps: set<TokenType> := {Bang, Minus}

  // Precedence. Every operator the parser puts in a Binary has a level;
  // every other node binds tightest.

  function OpLevel(t: TokenType): (k: nat)
    ensures k <= 4
  {
    if t in EqualityOps then 1
    else if t in ComparisonOps then 2
    else if t in TermOps then 3
    else if t in FactorOps then 4
    else 0
  }

  const AtomLevel: nat := 5

  /** Each level's operators have that level. */
  lemma OpLevels(t: TokenType)
    ensures t in EqualityOps ==> OpLevel(t) == 1
    ensures t in ComparisonOps ==> OpLevel(t) == 2
    ensures t in TermOps ==> OpLevel(t) == 3
    ensures t in FactorOps ==> OpLevel(t) == 4
  {
  }

  function Level(e: Expr): (k: nat)
    ensures k <= AtomLevel
  {
    if e.Binary? then OpLevel(e.operator.tokenType) else AtomLevel
  }

  /** The shape precedence climbing gives: a Binary's left operand binds
      at least as tightly as its operator and its right operand strictly
      more tightly (so equal operators nest to the left), and a Unary's
      operand is not a Binary. Parentheses start afresh. */
  predicate Nested(e: Expr) {
    match e
    case Binary(l, op, r) =>
      && 0 < OpLevel(op.tokenType)
      && Nested(l) && Level(l) >= OpLevel(op.tokenType)
      && Nested(r) && Level(r) > OpLevel(op.tokenType)
    case Unary(_, r) => Nested(r) && Level(r) == AtomLevel
    case Grouping(inner) => Nested(inner)
    case _ => true
  }

  /** The tokens `primary` turns into an expression on their own. */
  predicate IsAtomToken(t: TokenType) {
    t in {False, True, Nil, Number, String, Var}
  }

  /** `expression`. */
  function Expression(toks: seq<Token>, pos: nat): (r: Result<(Expr, nat), ParseError>)
    requires Stream(toks) && pos < |toks|
    ensures r.Ok? ==> pos < r.value.1 < |toks|
    ensures r.Ok? ==> Nested(r.value.0)
    decreases |toks| - pos, 7
  {
    Equality(toks, pos)
  }

  /** `equality`: comparisons separated by `!=` or `==`. */
  function Equality(toks: seq<Token>, pos: nat): (r: Result<(Expr, nat), ParseError>)
    requires Stream(toks) && pos < |toks|
    ensures r.Ok? ==> pos < r.value.1 < |toks|
    ensures r.Ok? ==> Nested(r.value.0) && Level(r.value.0) >= 1
    decreases |toks| - pos, 6
  {
    var (left, p) :- Comparison(toks, pos);
    EqualityTail(toks, p, left)
  }

  function EqualityTail(toks: seq<Token>, pos: nat, left: Expr): (r: Result<(Expr, nat), ParseError>)
    requires Stream(toks) && pos < |toks|
    ensures r.Ok? ==> pos <= r.value.1 < |toks|
    ensures r.Ok? && Nested(left) && Level(left) >= 1 ==> Nested(r.value.0) && Level(r.value.0) >= 1
    decreases |toks| - pos, 6
  {
    if Matches(toks, pos, EqualityOps).0 then
      var (right, p) :- Comparison(toks, pos + 1);
      OpLevels(toks[pos].tokenType);
      EqualityTail(toks, p, Binary(left, toks[pos], right))
    else
      Ok((left, pos))
  }

  /** `comparison`: terms separated by `>`, `>=`, `<` or `<=`. */
  function Comparison(toks: seq<Token>, pos: nat): (r: Result<(Expr, nat), ParseError>)
    requires Stream(toks) && pos < |toks|
    ensures r.Ok? ==> pos < r.value.1 < |toks|
    ensures r.Ok? ==> Nested(r.value.0) && Level(r.value.0) >= 2
    decreases |toks| - pos, 5
  {
    var (left, p) :- Term(toks, pos);
    ComparisonTail(toks, p, left)
  }

  function ComparisonTail(toks: seq<Token>, pos: nat, left: Expr): (r: Result<(Expr, nat), ParseError>)
    requires Stream(toks) && pos < |toks|
    ensures r.Ok? ==> pos <= r.value.1 < |toks|
    ensures r.Ok? && Nested(left) && Level(left) >= 2 ==> Nested(r.value.0) && Level(r.value.0) >= 2
    decreases |toks| - pos, 5
  {
    if Matches(toks, pos, ComparisonOps).0 then
      var (right, p) :- Term(toks, pos + 1);
      OpLevels(toks[pos].tokenType);
      ComparisonTail(toks, p, Binary(left, toks[pos], right))
    else
      Ok((left, pos))
  }

  /** `term`: factors separated by `-` or `+`. */
  function Term(toks: seq<Token>, pos: nat): (r: Result<(Expr, nat), ParseError>)
    requires Stream(toks) && pos < |toks|
    ensures r.Ok? ==> pos < r.value.1 < |toks|
    ensures r.Ok? ==> Nested(r.value.0) && Level(r.value.0) >= 3
    decreases |toks| - pos, 4
  {
    var (left, p) :- Factor(toks, pos);
    TermTail(toks, p, left)
  }

  function TermTail(toks: seq<Token>, pos: nat, left: Expr): (r: Result<(Expr, nat), ParseError>)
    requires Stream(toks) && pos < |toks|
    ensures r.Ok? ==> pos <= r.value.1 < |toks|
    ensures r.Ok? && Nested(left) && Level(left) >= 3 ==> Nested(r.value.0) && Level(r.value.0) >= 3
    decreases |toks| - pos, 4
  {
    if Matches(toks, pos, TermOps).0 then
      var (right, p) :- Factor(toks, pos + 1);
      OpLevels(toks[pos].tokenType);
      TermTail(toks, p, Binary(left, toks[pos], right))
    else
      Ok((left, pos))
  }

  /** `factor`: unary expressions separated by `/` or `*`. */
  function Factor(toks: seq<Token>, pos: nat): (r: Result<(Expr, nat), ParseError>)
    requires Stream(toks) && pos < |toks|
    ensures r.Ok? ==> pos < r.value.1 < |toks|
    ensures r.Ok? ==> Nested(r.value.0) && Level(r.value.0) >= 4
    decreases |toks| - pos, 3
  {
    var (left, p) :- Unary(toks, pos);
    FactorTail(toks, p, left)
  }

  function FactorTail(toks: seq<Token>, pos: nat, left: Expr): (r: Result<(Expr, nat), ParseError>)
    requires Stream(toks) && pos < |toks|
    ensures r.Ok? ==> pos <= r.value.1 < |toks|
    ensures r.Ok? && Nested(left) && Level(left) >= 4 ==> Nested(r.value.0) && Level(r.value.0) >= 4
    decreases |toks| - pos, 3
  {
    if Matches(toks, pos, FactorOps).0 then
      var (right, p) :- Unary(toks, pos + 1);
      OpLevels(toks[pos].tokenType);
      FactorTail(toks, p, Binary(left, toks[pos], right))
    else
      Ok((left, pos))
  }

  /** `unary`: prefix `!` and `-` nest to the right over a primary. */
  function Unary(toks: seq<Token>, pos: nat): (r: Result<(Expr, nat), ParseError>)
    requires Stream(toks) && pos < |toks|
    ensures r.Ok? ==> pos < r.value.1 < |toks|
    ensures r.Ok? ==> Nested(r.value.0) && Level(r.value.0) == AtomLevel
    decreases |toks| - pos, 2
  {
    if Matches(toks, pos, UnaryOps).0 then
      var (right, p) :- Unary(toks, pos + 1);
      Ok((Expr.Unary(toks[pos], right), p))
    else
      Primary(toks, pos)
  }

  /** What `primary` makes of a single literal, `var`, or name token:
      `false`, `true` and `nil` become literals, a String its literal text
      and a Number the value of its literal. The `var` keyword, not an
      identifier, is what makes a Variable expression (naming the `var`
      token itself); an Identifier token is not a primary expression. */
  function Atom(t: Token): (r: Result<Expr, ParseError>)
    requires IsAtomToken(t.tokenType)
    ensures r.Ok? ==> r.value.Literal? || r.value.Variable?
    ensures r.Ok? ==> (r.value.Variable? <==> t.tokenType == Var)
    ensures r.Err? <==> t.tokenType == Number && Decimal.ParseNumber(t.literal).None?
  {
    match t.tokenType
    case False => Ok(Literal(BoolObject(false)))
    case True => Ok(Literal(BoolObject(true)))
    case Nil => Ok(Literal(NilObject(None)))
    case String => Ok(Literal(StringObject(t.literal)))
    case Number =>
      var v := Decimal.ParseNumber(t.literal);
      if v.Some? then Ok(Literal(NumberObject(v.value))) else Err(BadNumber(t.literal))
    case Var => Ok(Expr.Variable(t))
  }

  /** `primary`: the `matches` tests for `false`, `true`, `nil`, a
      Number or String, and `var` all look at the one current token, so
      they are one test here; then a parenthesized expression, which must
      be closed. */
  function Primary(toks: seq<Token>, pos: nat): (r: Result<(Expr, nat), ParseError>)
    requires Stream(toks) && pos < |toks|
    ensures r.Ok? ==> pos < r.value.1 < |toks|
    ensures r.Ok? ==> Nested(r.value.0) && Level(r.value.0) == AtomLevel
    decreases |toks| - pos, 1
  {
    if IsAtomToken(toks[pos].tokenType) then
      var e :- Atom(toks[pos]);
      Ok((e, pos + 1))
    else if Matches(toks, pos, {LeftParen}).0 then
      var inner := Expression(toks, pos + 1);
      if inner.Err? then Err(inner.error)
      else
        var close := Consume(toks, inner.value.1, RightParen);
        if close.Err? then Err(close.error)
        else Ok((Grouping(inner.value.0), close.value.1))
    else
      Err(NoPrimary(pos))
  }

  // Statements. Each statement rule returns the statement and the cursor
  // after its closing `;`.

  predicate AfterSemicolon(toks: seq<Token>, p: nat)
    requires 0 < p <= |toks|
  {
    toks[p - 1].tokenType == SemiColon
  }

  /** `print_statement`, entered after `print`. */
  function PrintStatement(toks: seq<Token>, pos: nat): (r: Result<(Stmt, nat), ParseError>)
    requires Stream(toks) && pos < |toks|
    ensures r.Ok? ==> pos < r.value.1 < |toks| && AfterSemicolon(toks, r.value.1)
    ensures r.Ok? ==> r.value.0.Print?
  {
    var e := Expression(toks, pos);
    if e.Err? then Err(e.error)
    else
      var semi := Consume(toks, e.value.1, SemiColon);
      if semi.Err? then Err(semi.error)
      else Ok((Stmt.Print(e.value.0), semi.value.1))
  }

  /** `expr_statement`. */
  function ExprStatement(toks: seq<Token>, pos: nat): (r: Result<(Stmt, nat), ParseError>)
    requires Stream(toks) && pos < |toks|
    ensures r.Ok? ==> pos < r.value.1 < |toks| && AfterSemicolon(toks, r.value.1)
    ensures r.Ok? ==> r.value.0.ExpressionStmt?
  {
    var e := Expression(toks, pos);
    if e.Err? then Err(e.error)
    else
      var semi := Consume(toks, e.value.1, SemiColon);
      if semi.Err? then Err(semi.error)
      else Ok((ExpressionStmt(e.value.0), semi.value.1))
  }

  /** `statement`. */
  function Statement(toks: seq<Token>, pos: nat): (r: Result<(Stmt, nat), ParseError>)
    requires Stream(toks) && pos < |toks|
    ensures r.Ok? ==> pos < r.value.1 < |toks| && AfterSemicolon(toks, r.value.1)
    ensures r.Ok? ==> (r.value.0.Print? <==> toks[pos].tokenType == TokenType.Print)
    ensures r.Ok? ==> r.value.0.Print? || r.value.0.ExpressionStmt?
  {
    if Matches(toks, pos, {TokenType.Print}).0 then PrintStatement(toks, pos + 1)
    else ExprStatement(toks, pos)
  }

  /** `var_declaration`, entered after `var`: an Identifier, an optional
      `= expression`, then `;`. */
  function VarDeclaration(toks: seq<Token>, pos: nat): (r: Result<(Stmt, nat), ParseError>)
    requires Stream(toks) && pos < |toks|
    ensures r.Ok? ==> pos < r.value.1 < |toks| && AfterSemicolon(toks, r.value.1)
    ensures r.Ok? ==> r.value.0.Variable? && r.value.0.name == toks[pos]
    ensures r.Ok? ==> toks[pos].tokenType == Identifier
    ensures r.Ok? ==> (r.value.0.init.Some? <==> toks[pos + 1].tokenType == Equal)
  {
    var name := Consume(toks, pos, Identifier);
    if name.Err? then Err(name.error)
    else VarInitializer(toks, name.value.1, name.value.0)
  }

  /** The rest of `var_declaration` once the name is read. */
  function VarInitializer(toks: seq<Token>, pos: nat, name: Token): (r: Result<(Stmt, nat), ParseError>)
    requires Stream(toks) && pos < |toks|
    ensures r.Ok? ==> pos < r.value.1 < |toks| && AfterSemicolon(toks, r.value.1)
    ensures r.Ok? ==> r.value.0.Variable? && r.value.0.name == name
    ensures r.Ok? ==> (r.value.0.init.Some? <==> toks[pos].tokenType == Equal)
  {
    if Matches(toks, pos, {Equal}).0 then
      var init := Expression(toks, pos + 1);
      if init.Err? then Err(init.error)
      else
        var semi := Consume(toks, init.value.1, SemiColon);
        if semi.Err? then Err(semi.error)
        else Ok((Stmt.Variable(name, Some(init.value.0)), semi.value.1))
    else
      var semi := Consume(toks, pos, SemiColon);
      if semi.Err? then Err(semi.error)
      else Ok((Stmt.Variable(name, None), semi.value.1))
  }

  /** `declaration`. */
  function Declaration(toks: seq<Token>, pos: nat): (r: Result<(Stmt, nat), ParseError>)
    requires Stream(toks) && pos < |toks|
    ensures r.Ok? ==> pos < r.value.1 < |toks| && AfterSemicolon(toks, r.value.1)
    ensures r.Ok? ==> (r.value.0.Variable? <==> toks[pos].tokenType == Var)
  {
    if Matches(toks, pos, {Var}).0 then VarDeclaration(toks, pos + 1)
    else Statement(toks, pos)
  }

  /** The `parse` loop from `pos`: declarations until the Eof token. */
  function ParseFrom(toks: seq<Token>, pos: nat): (r: Result<seq<Stmt>, ParseError>)
    requires Stream(toks) && pos < |toks|
    ensures r.Ok? ==> (|r.value| == 0 <==> AtEnd(toks, pos))
    ensures r.Ok? ==> |r.value| < |toks| - pos
    decreases |toks| - pos
  {
    if AtEnd(toks, pos) then Ok([])
    else
      var (s, p) :- Declaration(toks, pos);
      var rest :- ParseFrom(toks, p);
      Ok([s] + rest)
  }

  /** `parse`. */
  function Parse(toks: seq<Token>): (r: Result<seq<Stmt>, ParseError>)
    requires Stream(toks)
    ensures r.Ok? ==> |r.value| < |toks|
  {
    ParseFrom(toks, 0)
  }

  // Error recovery.

  /** The statement keywords `synchronize` stops in front of. */
  predicate IsStatementStart(t: TokenType) {
    t in {TokenType.Class, Fun, Var, For, TokenType.If, TokenType.While, TokenType.Print, TokenType.Return}
  }

  /** Where `synchronize` may stop: at Eof, just after a `;`, or in front
      of a statement keyword. */
  predicate SyncPoint(toks: seq<Token>, p: nat)
    requires 0 < p < |toks|
  {
    AtEnd(toks, p) || toks[p - 1].tokenType == SemiColon || IsStatementStart(toks[p].tokenType)
  }

  /** The loop of `synchronize`. */
  function SyncLoop(toks: seq<Token>, p: nat): (r: nat)
    requires Stream(toks) && 0 < p < |toks|
    ensures p <= r < |toks| && SyncPoint(toks, r)
    ensures forall j :: p <= j < r ==> !SyncPoint(toks, j)
    decreases |toks| - p
  {
    if AtEnd(toks, p) then p
    else if toks[p - 1].tokenType == SemiColon then p
    else if IsStatementStart(toks[p].tokenType) then p
    else SyncLoop(toks, Advance(toks, p))
  }

  /** `synchronize`: skip one token, then stop at the first point where a
      new statement may begin. On an Eof-only list the first `advance`
      asks for the token before the first one, which panics. The parser
      never calls it. */
  function Synchronize(toks: seq<Token>, pos: nat): (r: Result<nat, ParseError>)
    requires Stream(toks) && pos < |toks|
    ensures r.Err? <==> pos == 0 && AtEnd(toks, 0)
    ensures r.Ok? ==> pos < r.value || AtEnd(toks, pos)
    ensures r.Ok? ==> 0 < r.value < |toks| && SyncPoint(toks, r.value)
    ensures r.Ok? ==> forall j :: pos < j < r.value ==> !SyncPoint(toks, j)
  {
    var p := Advance(toks, pos);
    if p == 0 then Err(NoPrevious) else Ok(SyncLoop(toks, p))
  }
}
