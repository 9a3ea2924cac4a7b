/** What a parsed tree says about the tokens it came from. */
module Readback {
  import opened Results
  import opened Tokens
  import opened Syntax
  import opened Parser

  /** The number of tokens an expression the parser builds is written
      with; a grouping adds its two parentheses. */
  function Width(e: Expr): (w: nat)
    ensures w >= 1
  {
    if e.Binary? then Width(e.left) + 1 + Width(e.right)
    else if e.Unary? then 1 + Width(e.right)
    else if e.Grouping? then Width(e.expression) + 2
    else 1
  }

  /** `e` is what the tokens from `pos` on say, read left to right: every
      operator node sits on its operator token, every parenthesis is where
      a grouping says, and every leaf is what its token denotes. Only the
      expression variants the parser builds can be read. */
  predicate Reads(toks: seq<Token>, pos: nat, e: Expr)
    decreases e
  {
    var ok := (match e
    case Binary(l, op, r) =>
      && pos + Width(e) <= |toks|
      && Reads(toks, pos, l) && toks[pos + Width(l)] == op && Reads(toks, pos + Width(l) + 1, r)
    case Unary(op, r) =>
      && pos + Width(e) <= |toks|
      && toks[pos] == op && op.tokenType in UnaryOps && Reads(toks, pos + 1, r)
    case Grouping(inner) =>
      && pos + Width(e) <= |toks|
      && toks[pos].tokenType == LeftParen && Reads(toks, pos + 1, inner)
      && toks[pos + 1 + Width(inner)].tokenType == RightParen
    case Literal(_) => pos < |toks| && IsAtomToken(toks[pos].tokenType) && Atom(toks[pos]) == Ok(e)
    case Variable(_) => pos < |toks| && IsAtomToken(toks[pos].tokenType) && Atom(toks[pos]) == Ok(e)
    case _ => false);
    ok
  }

  /** A successful expression parse from `pos` read exactly the tokens up
      to the cursor it returned. */
  predicate ReadsAll(toks: seq<Token>, pos: nat, r: Result<(Expr, nat), ParseError>) {
    r.Ok? ==> Reads(toks, pos, r.value.0) && r.value.1 == pos + Width(r.value.0)
  }

  /** The number of tokens a statement the parser builds is written with,
      its closing `;` included. */
  function StmtWidth(s: Stmt): nat {
    if s.Print? then Width(s.expression) + 2
    else if s.ExpressionStmt? then Width(s.expression) + 1
    else if s.Variable? && s.init.Some? then Width(s.init.value) + 4
    else 3
  }

  /** `s` is what the tokens from `pos` say: `print e ;`, `e ;`,
      `var name ;` or `var name = e ;`. */
  predicate StmtReads(toks: seq<Token>, pos: nat, s: Stmt) {
    var ok := (match s
    case Print(e) =>
      && pos + StmtWidth(s) <= |toks| && toks[pos + StmtWidth(s) - 1].tokenType == SemiColon
      && toks[pos].tokenType == TokenType.Print && Reads(toks, pos + 1, e)
    case ExpressionStmt(e) =>
      && pos + StmtWidth(s) <= |toks| && toks[pos + StmtWidth(s) - 1].tokenType == SemiColon
      && Reads(toks, pos, e)
    case Variable(name, init) =>
      && pos + StmtWidth(s) <= |toks| && toks[pos + StmtWidth(s) - 1].tokenType == SemiColon
      && toks[pos].tokenType == Var && toks[pos + 1] == name && name.tokenType == Identifier
      && (init.Some? ==> toks[pos + 2].tokenType == Equal && Reads(toks, pos + 3, init.value))
    case _ => false);
    ok
  }

  /** A successful statement parse from `pos` read exactly the tokens up
      to the cursor it returned. */
  predicate StmtReadsAll(toks: seq<Token>, pos: nat, r: Result<(Stmt, nat), ParseError>) {
    r.Ok? ==> StmtReads(toks, pos, r.value.0) && r.value.1 == pos + StmtWidth(r.value.0)
  }

  /** `ss` is what the tokens from `pos` say: its statements back to back,
      then the Eof token. */
  predicate ProgramReads(toks: seq<Token>, pos: nat, ss: seq<Stmt>)
    decreases |ss|
  {
    var ok :=
      && pos < |toks|
      && if |ss| == 0 then AtEnd(toks, pos)
         else StmtReads(toks, pos, ss[0]) && ProgramReads(toks, pos + StmtWidth(ss[0]), ss[1..]);
    ok
  }

}
