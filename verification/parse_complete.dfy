/** The converse of the readback facts: a token list that reads as a
    tree the precedence chain can build is parsed to exactly that tree.
    Parsing is left to right with one token of lookahead, so a tree is
    parsed only up to the first token that cannot continue it; at the top
    of an expression that is any token that is not a binary operator. */
module ParseComplete {
  import opened Results
  import opened Tokens
  import opened Syntax
  import opened Parser
  import opened Readback
  import ParserFacts
  import Scanner

  /** The node that starts an expression's text: the leftmost operand of
      a chain of binary operators, or the expression itself. */
  function Leftmost(e: Expr): Expr {
    if e.Binary? then Leftmost(e.left) else e
  }

  /** A statement the parser can produce: its expressions are nested as
      the precedence chain builds them, and an expression statement does
      not start with `var`, which `declaration` takes for a variable
      declaration. */
  predicate Parsable(s: Stmt) {
    match s
    case Print(e) => Nested(e)
    case ExpressionStmt(e) => Nested(e) && !Leftmost(e).Variable?
    case Variable(_, init) => init.Some? ==> Nested(init.value)
    case _ => false
  }

  /** The first token of an expression's text is never Eof or `print`,
      and it is `var` exactly when the expression starts with a
      Variable. */
  lemma {:induction false} ReadsFirst(toks: seq<Token>, pos: nat, e: Expr)
    requires Reads(toks, pos, e)
    ensures pos < |toks| && toks[pos].tokenType != Eof && toks[pos].tokenType != TokenType.Print
    ensures toks[pos].tokenType == Var <==> Leftmost(e).Variable?
    decreases e
  {
    if e.Binary? {
      ReadsFirst(toks, pos, e.left);
    }
  }

  // Expressions, one lemma per precedence level. A level's lemma says
  // that when the token after the tree cannot continue a tighter level,
  // the level's parser reaches its loop with the whole tree as the left
  // operand; when it cannot continue this level either, the parser stops
  // there with the tree. The lemmas state parser outcomes through the
  // predicates below, one per level, so that each outcome is one fact.

  /** Each binary level's operators are exactly the kinds of that level. */
  lemma OpLevelExact(t: TokenType)
    ensures OpLevel(t) == 1 <==> t in EqualityOps
    ensures OpLevel(t) == 2 <==> t in ComparisonOps
    ensures OpLevel(t) == 3 <==> t in TermOps
    ensures OpLevel(t) == 4 <==> t in FactorOps
  {
  }

  /** What reading a Binary says about its parts, with `mid` the position
      of its operator and `end` the position after it. */
  lemma BinaryParts(toks: seq<Token>, pos: nat, e: Expr, mid: nat, end: nat)
    requires Reads(toks, pos, e) && Nested(e) && e.Binary?
    requires mid == pos + Width(e.left) && end == pos + Width(e)
    ensures end <= |toks| && end == mid + 1 + Width(e.right)
    ensures Reads(toks, pos, e.left) && Nested(e.left) && Level(e.left) >= Level(e)
    ensures toks[mid] == e.operator
    ensures Reads(toks, mid + 1, e.right) && Nested(e.right) && Level(e.right) > Level(e)
  {
  }

  /** `expression` parses `e` from `pos`, leaving the cursor at `end`. */
  predicate ExpressionParses(toks: seq<Token>, pos: nat, e: Expr, end: nat)
    requires Stream(toks) && pos < |toks|
  {
    Expression(toks, pos) == Ok((e, end))
  }

  /** `unary` parses `e` from `pos`, leaving the cursor at `end`. */
  predicate UnaryParses(toks: seq<Token>, pos: nat, e: Expr, end: nat)
    requires Stream(toks) && pos < |toks|
  {
    Parser.Unary(toks, pos) == Ok((e, end))
  }

  /** `primary` on a parenthesis, once the inner expression is parsed. */
  lemma GroupingStep(toks: seq<Token>, pos: nat, inner: Expr, end: nat)
    requires Stream(toks) && Reads(toks, pos, Grouping(inner)) && end == pos + Width(Grouping(inner))
    requires end < |toks| && ExpressionParses(toks, pos + 1, inner, end - 1)
    ensures UnaryParses(toks, pos, Grouping(inner), end)
  {
    assert Primary(toks, pos) == Ok((Grouping(inner), end));
  }

  /** `unary` on a prefix operator, once the operand is parsed. */
  lemma PrefixStep(toks: seq<Token>, pos: nat, op: Token, r: Expr, end: nat)
    requires Stream(toks) && Reads(toks, pos, Expr.Unary(op, r)) && end == pos + Width(Expr.Unary(op, r))
    requires end < |toks| && UnaryParses(toks, pos + 1, r, end)
    ensures UnaryParses(toks, pos, Expr.Unary(op, r), end)
  {
  }

  /** `unary` on an atom token. */
  lemma AtomStep(toks: seq<Token>, pos: nat, e: Expr, end: nat)
    requires Stream(toks) && Reads(toks, pos, e) && (e.Literal? || e.Variable?) && end == pos + Width(e)
    ensures UnaryParses(toks, pos, e, end)
  {
    assert Primary(toks, pos) == Ok((e, pos + 1));
  }

  /** A tree of the tightest level, followed by any token, is what
      `unary` parses. */
  lemma {:induction false} UnaryComplete(toks: seq<Token>, pos: nat, e: Expr, end: nat)
    requires Stream(toks) && Reads(toks, pos, e) && Nested(e) && Level(e) == AtomLevel
    requires end == pos + Width(e) && end < |toks|
    ensures UnaryParses(toks, pos, e, end)
    decreases e, 0, 2
  {
    match e
    case Unary(op, r) => PrefixComplete(toks, pos, op, r, end);
    case Grouping(inner) => GroupingComplete(toks, pos, inner, end);
    case Literal(_) => AtomStep(toks, pos, e, end);
    case Variable(_) => AtomStep(toks, pos, e, end);
  }

  lemma {:induction false} PrefixComplete(toks: seq<Token>, pos: nat, op: Token, r: Expr, end: nat)
    requires Stream(toks) && Reads(toks, pos, Expr.Unary(op, r)) && Nested(Expr.Unary(op, r))
    requires end == pos + Width(Expr.Unary(op, r)) && end < |toks|
    ensures UnaryParses(toks, pos, Expr.Unary(op, r), end)
    decreases Expr.Unary(op, r), 0, 1
  {
    UnaryComplete(toks, pos + 1, r, end);
    PrefixStep(toks, pos, op, r, end);
  }

  lemma {:induction false} GroupingComplete(toks: seq<Token>, pos: nat, inner: Expr, end: nat)
    requires Stream(toks) && Reads(toks, pos, Grouping(inner)) && Nested(Grouping(inner))
    requires end == pos + Width(Grouping(inner)) && end < |toks|
    ensures UnaryParses(toks, pos, Grouping(inner), end)
    decreases Grouping(inner), 0, 1
  {
    ExpressionComplete(toks, pos + 1, inner, end - 1);
    GroupingStep(toks, pos, inner, end);
  }

  /** `factor` parses `e` from `pos`, leaving the cursor at `end`. */
  predicate FactorParses(toks: seq<Token>, pos: nat, e: Expr, end: nat)
    requires Stream(toks) && pos < |toks|
  {
    Factor(toks, pos) == Ok((e, end))
  }

  /** `factor` from `pos` ends as its loop does from `end` with `e` as the
      left operand. */
  predicate FactorLoops(toks: seq<Token>, pos: nat, e: Expr, end: nat)
    requires Stream(toks) && pos < |toks| && end < |toks|
  {
    Factor(toks, pos) == FactorTail(toks, end, e)
  }

  /** The first operand of `factor`. */
  lemma FactorStart(toks: seq<Token>, pos: nat, e: Expr, end: nat)
    requires Stream(toks) && pos < end < |toks| && UnaryParses(toks, pos, e, end)
    ensures FactorLoops(toks, pos, e, end)
  {
  }

  /** One round of the `factor` loop. */
  lemma FactorStep(toks: seq<Token>, mid: nat, l: Expr, r: Expr, end: nat)
    requires Stream(toks) && mid + 1 < |toks| && end < |toks| && toks[mid].tokenType in FactorOps
    requires UnaryParses(toks, mid + 1, r, end)
    ensures FactorTail(toks, mid, l) == FactorTail(toks, end, Binary(l, toks[mid], r))
  {
  }

  /** The loop of `factor` extended by one operator and operand. */
  lemma FactorJoin(toks: seq<Token>, pos: nat, l: Expr, op: Token, r: Expr, mid: nat, end: nat)
    requires Stream(toks) && pos < |toks| && mid + 1 < |toks| && end < |toks| && toks[mid] == op && OpLevel(op.tokenType) == 4
    requires FactorLoops(toks, pos, l, mid) && UnaryParses(toks, mid + 1, r, end)
    ensures FactorLoops(toks, pos, Binary(l, op, r), end)
  {
    OpLevelExact(op.tokenType);
    FactorStep(toks, mid, l, r, end);
  }

  /** The exit of the `factor` loop. */
  lemma FactorStop(toks: seq<Token>, pos: nat, e: Expr, end: nat)
    requires Stream(toks) && pos < end < |toks| && FactorLoops(toks, pos, e, end) && OpLevel(toks[end].tokenType) < 4
    ensures FactorParses(toks, pos, e, end)
  {
  }

  /** `factor` on a tree of this level, up to its loop. */
  lemma {:induction false} FactorLoop(toks: seq<Token>, pos: nat, e: Expr, end: nat)
    requires Stream(toks) && Reads(toks, pos, e) && Nested(e) && Level(e) >= 4
    requires end == pos + Width(e) && end < |toks| && OpLevel(toks[end].tokenType) <= 4
    ensures FactorLoops(toks, pos, e, end)
    decreases e, 1, 2
  {
    if e.Binary? && Level(e) == 4 {
      var mid := pos + Width(e.left);
      BinaryParts(toks, pos, e, mid, end);
      FactorBinary(toks, pos, e.left, e.operator, e.right, mid, end);
      assert e == Binary(e.left, e.operator, e.right);
    } else {
      FactorBase(toks, pos, e, end);
    }
  }

  /** A tree of a tighter level is the first operand and nothing more. */
  lemma {:induction false} FactorBase(toks: seq<Token>, pos: nat, e: Expr, end: nat)
    requires Stream(toks) && Reads(toks, pos, e) && Nested(e) && Level(e) > 4
    requires end == pos + Width(e) && end < |toks| && OpLevel(toks[end].tokenType) <= 4
    ensures FactorLoops(toks, pos, e, end)
    decreases e, 1, 0
  {
    UnaryComplete(toks, pos, e, end);
    FactorStart(toks, pos, e, end);
  }

  /** A Binary of this level, its operator at `mid`: its left operand up
      to the loop, then one round for the operator and the right operand. */
  lemma {:induction false} FactorBinary(toks: seq<Token>, pos: nat, l: Expr, op: Token, r: Expr, mid: nat, end: nat)
    requires Stream(toks) && Reads(toks, pos, l) && Nested(l) && Level(l) >= 4
    requires mid == pos + Width(l) && end == mid + 1 + Width(r)
    requires end < |toks| && OpLevel(toks[end].tokenType) <= 4
    requires toks[mid] == op && OpLevel(op.tokenType) == 4
    requires Reads(toks, mid + 1, r) && Nested(r) && Level(r) > 4
    ensures FactorLoops(toks, pos, Binary(l, op, r), end)
    decreases Binary(l, op, r), 1, 1
  {
    FactorLoop(toks, pos, l, mid);
    FactorBinaryRight(toks, pos, l, op, r, mid, end);
  }

  /** The round for the operator at `mid` and the right operand, once the
      left operand has been read up to the loop. */
  lemma {:induction false} FactorBinaryRight(toks: seq<Token>, pos: nat, l: Expr, op: Token, r: Expr, mid: nat, end: nat)
    requires Stream(toks) && mid == pos + Width(l) && end == mid + 1 + Width(r)
    requires end < |toks| && FactorLoops(toks, pos, l, mid) && OpLevel(toks[end].tokenType) <= 4
    requires toks[mid] == op && OpLevel(op.tokenType) == 4
    requires Reads(toks, mid + 1, r) && Nested(r) && Level(r) > 4
    ensures FactorLoops(toks, pos, Binary(l, op, r), end)
    decreases Binary(l, op, r), 1, 0
  {
    UnaryComplete(toks, mid + 1, r, end);
    FactorJoin(toks, pos, l, op, r, mid, end);
  }

  /** A nested tree of at least this level, followed by a token that
      cannot continue it, is what `factor` parses. */
  lemma {:induction false} FactorComplete(toks: seq<Token>, pos: nat, e: Expr, end: nat)
    requires Stream(toks) && Reads(toks, pos, e) && Nested(e) && Level(e) >= 4
    requires end == pos + Width(e) && end < |toks| && OpLevel(toks[end].tokenType) < 4
    ensures FactorParses(toks, pos, e, end)
    decreases e, 1, 3
  {
    FactorLoop(toks, pos, e, end);
    FactorStop(toks, pos, e, end);
  }

  /** `term` parses `e` from `pos`, leaving the cursor at `end`. */
  predicate TermParses(toks: seq<Token>, pos: nat, e: Expr, end: nat)
    requires Stream(toks) && pos < |toks|
  {
    Term(toks, pos) == Ok((e, end))
  }

  /** `term` from `pos` ends as its loop does from `end` with `e` as the
      left operand. */
  predicate TermLoops(toks: seq<Token>, pos: nat, e: Expr, end: nat)
    requires Stream(toks) && pos < |toks| && end < |toks|
  {
    Term(toks, pos) == TermTail(toks, end, e)
  }

  /** The first operand of `term`. */
  lemma TermStart(toks: seq<Token>, pos: nat, e: Expr, end: nat)
    requires Stream(toks) && pos < end < |toks| && FactorParses(toks, pos, e, end)
    ensures TermLoops(toks, pos, e, end)
  {
  }

  /** One round of the `term` loop. */
  lemma TermStep(toks: seq<Token>, mid: nat, l: Expr, r: Expr, end: nat)
    requires Stream(toks) && mid + 1 < |toks| && end < |toks| && toks[mid].tokenType in TermOps
    requires FactorParses(toks, mid + 1, r, end)
    ensures TermTail(toks, mid, l) == TermTail(toks, end, Binary(l, toks[mid], r))
  {
  }

  /** The loop of `term` extended by one operator and operand. */
  lemma TermJoin(toks: seq<Token>, pos: nat, l: Expr, op: Token, r: Expr, mid: nat, end: nat)
    requires Stream(toks) && pos < |toks| && mid + 1 < |toks| && end < |toks| && toks[mid] == op && OpLevel(op.tokenType) == 3
    requires TermLoops(toks, pos, l, mid) && FactorParses(toks, mid + 1, r, end)
    ensures TermLoops(toks, pos, Binary(l, op, r), end)
  {
    OpLevelExact(op.tokenType);
    TermStep(toks, mid, l, r, end);
  }

  /** The exit of the `term` loop. */
  lemma TermStop(toks: seq<Token>, pos: nat, e: Expr, end: nat)
    requires Stream(toks) && pos < end < |toks| && TermLoops(toks, pos, e, end) && OpLevel(toks[end].tokenType) < 3
    ensures TermParses(toks, pos, e, end)
  {
  }

  /** `term` on a tree of this level, up to its loop. */
  lemma {:induction false} TermLoop(toks: seq<Token>, pos: nat, e: Expr, end: nat)
    requires Stream(toks) && Reads(toks, pos, e) && Nested(e) && Level(e) >= 3
    requires end == pos + Width(e) && end < |toks| && OpLevel(toks[end].tokenType) <= 3
    ensures TermLoops(toks, pos, e, end)
    decreases e, 2, 2
  {
    if e.Binary? && Level(e) == 3 {
      var mid := pos + Width(e.left);
      BinaryParts(toks, pos, e, mid, end);
      TermBinary(toks, pos, e.left, e.operator, e.right, mid, end);
      assert e == Binary(e.left, e.operator, e.right);
    } else {
      TermBase(toks, pos, e, end);
    }
  }

  /** A tree of a tighter level is the first operand and nothing more. */
  lemma {:induction false} TermBase(toks: seq<Token>, pos: nat, e: Expr, end: nat)
    requires Stream(toks) && Reads(toks, pos, e) && Nested(e) && Level(e) > 3
    requires end == pos + Width(e) && end < |toks| && OpLevel(toks[end].tokenType) <= 3
    ensures TermLoops(toks, pos, e, end)
    decreases e, 2, 0
  {
    FactorComplete(toks, pos, e, end);
    TermStart(toks, pos, e, end);
  }

  /** A Binary of this level, its operator at `mid`: its left operand up
      to the loop, then one round for the operator and the right operand. */
  lemma {:induction false} TermBinary(toks: seq<Token>, pos: nat, l: Expr, op: Token, r: Expr, mid: nat, end: nat)
    requires Stream(toks) && Reads(toks, pos, l) && Nested(l) && Level(l) >= 3
    requires mid == pos + Width(l) && end == mid + 1 + Width(r)
    requires end < |toks| && OpLevel(toks[end].tokenType) <= 3
    requires toks[mid] == op && OpLevel(op.tokenType) == 3
    requires Reads(toks, mid + 1, r) && Nested(r) && Level(r) > 3
    ensures TermLoops(toks, pos, Binary(l, op, r), end)
    decreases Binary(l, op, r), 2, 1
  {
    TermLoop(toks, pos, l, mid);
    TermBinaryRight(toks, pos, l, op, r, mid, end);
  }

  /** The round for the operator at `mid` and the right operand, once the
      left operand has been read up to the loop. */
  lemma {:induction false} TermBinaryRight(toks: seq<Token>, pos: nat, l: Expr, op: Token, r: Expr, mid: nat, end: nat)
    requires Stream(toks) && mid == pos + Width(l) && end == mid + 1 + Width(r)
    requires end < |toks| && TermLoops(toks, pos, l, mid) && OpLevel(toks[end].tokenType) <= 3
    requires toks[mid] == op && OpLevel(op.tokenType) == 3
    requires Reads(toks, mid + 1, r) && Nested(r) && Level(r) > 3
    ensures TermLoops(toks, pos, Binary(l, op, r), end)
    decreases Binary(l, op, r), 2, 0
  {
    FactorComplete(toks, mid + 1, r, end);
    TermJoin(toks, pos, l, op, r, mid, end);
  }

  /** A nested tree of at least this level, followed by a token that
      cannot continue it, is what `term` parses. */
  lemma {:induction false} TermComplete(toks: seq<Token>, pos: nat, e: Expr, end: nat)
    requires Stream(toks) && Reads(toks, pos, e) && Nested(e) && Level(e) >= 3
    requires end == pos + Width(e) && end < |toks| && OpLevel(toks[end].tokenType) < 3
    ensures TermParses(toks, pos, e, end)
    decreases e, 2, 3
  {
    TermLoop(toks, pos, e, end);
    TermStop(toks, pos, e, end);
  }

  /** `comparison` parses `e` from `pos`, leaving the cursor at `end`. */
  predicate ComparisonParses(toks: seq<Token>, pos: nat, e: Expr, end: nat)
    requires Stream(toks) && pos < |toks|
  {
    Comparison(toks, pos) == Ok((e, end))
  }

  /** `comparison` from `pos` ends as its loop does from `end` with `e` as the
      left operand. */
  predicate ComparisonLoops(toks: seq<Token>, pos: nat, e: Expr, end: nat)
    requires Stream(toks) && pos < |toks| && end < |toks|
  {
    Comparison(toks, pos) == ComparisonTail(toks, end, e)
  }

  /** The first operand of `comparison`. */
  lemma ComparisonStart(toks: seq<Token>, pos: nat, e: Expr, end: nat)
    requires Stream(toks) && pos < end < |toks| && TermParses(toks, pos, e, end)
    ensures ComparisonLoops(toks, pos, e, end)
  {
  }

  /** One round of the `comparison` loop. */
  lemma ComparisonStep(toks: seq<Token>, mid: nat, l: Expr, r: Expr, end: nat)
    requires Stream(toks) && mid + 1 < |toks| && end < |toks| && toks[mid].tokenType in ComparisonOps
    requires TermParses(toks, mid + 1, r, end)
    ensures ComparisonTail(toks, mid, l) == ComparisonTail(toks, end, Binary(l, toks[mid], r))
  {
  }

  /** The loop of `comparison` extended by one operator and operand. */
  lemma ComparisonJoin(toks: seq<Token>, pos: nat, l: Expr, op: Token, r: Expr, mid: nat, end: nat)
    requires Stream(toks) && pos < |toks| && mid + 1 < |toks| && end < |toks| && toks[mid] == op && OpLevel(op.tokenType) == 2
    requires ComparisonLoops(toks, pos, l, mid) && TermParses(toks, mid + 1, r, end)
    ensures ComparisonLoops(toks, pos, Binary(l, op, r), end)
  {
    OpLevelExact(op.tokenType);
    ComparisonStep(toks, mid, l, r, end);
  }

  /** The exit of the `comparison` loop. */
  lemma ComparisonStop(toks: seq<Token>, pos: nat, e: Expr, end: nat)
    requires Stream(toks) && pos < end < |toks| && ComparisonLoops(toks, pos, e, end) && OpLevel(toks[end].tokenType) < 2
    ensures ComparisonParses(toks, pos, e, end)
  {
  }

  /** `comparison` on a tree of this level, up to its loop. */
  lemma {:induction false} ComparisonLoop(toks: seq<Token>, pos: nat, e: Expr, end: nat)
    requires Stream(toks) && Reads(toks, pos, e) && Nested(e) && Level(e) >= 2
    requires end == pos + Width(e) && end < |toks| && OpLevel(toks[end].tokenType) <= 2
    ensures ComparisonLoops(toks, pos, e, end)
    decreases e, 3, 2
  {
    if e.Binary? && Level(e) == 2 {
      var mid := pos + Width(e.left);
      BinaryParts(toks, pos, e, mid, end);
      ComparisonBinary(toks, pos, e.left, e.operator, e.right, mid, end);
      assert e == Binary(e.left, e.operator, e.right);
    } else {
      ComparisonBase(toks, pos, e, end);
    }
  }

  /** A tree of a tighter level is the first operand and nothing more. */
  lemma {:induction false} ComparisonBase(toks: seq<Token>, pos: nat, e: Expr, end: nat)
    requires Stream(toks) && Reads(toks, pos, e) && Nested(e) && Level(e) > 2
    requires end == pos + Width(e) && end < |toks| && OpLevel(toks[end].tokenType) <= 2
    ensures ComparisonLoops(toks, pos, e, end)
    decreases e, 3, 0
  {
    TermComplete(toks, pos, e, end);
    ComparisonStart(toks, pos, e, end);
  }

  /** A Binary of this level, its operator at `mid`: its left operand up
      to the loop, then one round for the operator and the right operand. */
  lemma {:induction false} ComparisonBinary(toks: seq<Token>, pos: nat, l: Expr, op: Token, r: Expr, mid: nat, end: nat)
    requires Stream(toks) && Reads(toks, pos, l) && Nested(l) && Level(l) >= 2
    requires mid == pos + Width(l) && end == mid + 1 + Width(r)
    requires end < |toks| && OpLevel(toks[end].tokenType) <= 2
    requires toks[mid] == op && OpLevel(op.tokenType) == 2
    requires Reads(toks, mid + 1, r) && Nested(r) && Level(r) > 2
    ensures ComparisonLoops(toks, pos, Binary(l, op, r), end)
    decreases Binary(l, op, r), 3, 1
  {
    ComparisonLoop(toks, pos, l, mid);
    ComparisonBinaryRight(toks, pos, l, op, r, mid, end);
  }

  /** The round for the operator at `mid` and the right operand, once the
      left operand has been read up to the loop. */
  lemma {:induction false} ComparisonBinaryRight(toks: seq<Token>, pos: nat, l: Expr, op: Token, r: Expr, mid: nat, end: nat)
    requires Stream(toks) && mid == pos + Width(l) && end == mid + 1 + Width(r)
    requires end < |toks| && ComparisonLoops(toks, pos, l, mid) && OpLevel(toks[end].tokenType) <= 2
    requires toks[mid] == op && OpLevel(op.tokenType) == 2
    requires Reads(toks, mid + 1, r) && Nested(r) && Level(r) > 2
    ensures ComparisonLoops(toks, pos, Binary(l, op, r), end)
    decreases Binary(l, op, r), 3, 0
  {
    TermComplete(toks, mid + 1, r, end);
    ComparisonJoin(toks, pos, l, op, r, mid, end);
  }

  /** A nested tree of at least this level, followed by a token that
      cannot continue it, is what `comparison` parses. */
  lemma {:induction false} ComparisonComplete(toks: seq<Token>, pos: nat, e: Expr, end: nat)
    requires Stream(toks) && Reads(toks, pos, e) && Nested(e) && Level(e) >= 2
    requires end == pos + Width(e) && end < |toks| && OpLevel(toks[end].tokenType) < 2
    ensures ComparisonParses(toks, pos, e, end)
    decreases e, 3, 3
  {
    ComparisonLoop(toks, pos, e, end);
    ComparisonStop(toks, pos, e, end);
  }

  /** `equality` parses `e` from `pos`, leaving the cursor at `end`. */
  predicate EqualityParses(toks: seq<Token>, pos: nat, e: Expr, end: nat)
    requires Stream(toks) && pos < |toks|
  {
    Equality(toks, pos) == Ok((e, end))
  }

  /** `equality` from `pos` ends as its loop does from `end` with `e` as the
      left operand. */
  predicate EqualityLoops(toks: seq<Token>, pos: nat, e: Expr, end: nat)
    requires Stream(toks) && pos < |toks| && end < |toks|
  {
    Equality(toks, pos) == EqualityTail(toks, end, e)
  }

  /** The first operand of `equality`. */
  lemma EqualityStart(toks: seq<Token>, pos: nat, e: Expr, end: nat)
    requires Stream(toks) && pos < end < |toks| && ComparisonParses(toks, pos, e, end)
    ensures EqualityLoops(toks, pos, e, end)
  {
  }

  /** One round of the `equality` loop. */
  lemma EqualityStep(toks: seq<Token>, mid: nat, l: Expr, r: Expr, end: nat)
    requires Stream(toks) && mid + 1 < |toks| && end < |toks| && toks[mid].tokenType in EqualityOps
    requires ComparisonParses(toks, mid + 1, r, end)
    ensures EqualityTail(toks, mid, l) == EqualityTail(toks, end, Binary(l, toks[mid], r))
  {
  }

  /** The loop of `equality` extended by one operator and operand. */
  lemma EqualityJoin(toks: seq<Token>, pos: nat, l: Expr, op: Token, r: Expr, mid: nat, end: nat)
    requires Stream(toks) && pos < |toks| && mid + 1 < |toks| && end < |toks| && toks[mid] == op && OpLevel(op.tokenType) == 1
    requires EqualityLoops(toks, pos, l, mid) && ComparisonParses(toks, mid + 1, r, end)
    ensures EqualityLoops(toks, pos, Binary(l, op, r), end)
  {
    OpLevelExact(op.tokenType);
    EqualityStep(toks, mid, l, r, end);
  }

  /** The exit of the `equality` loop. */
  lemma EqualityStop(toks: seq<Token>, pos: nat, e: Expr, end: nat)
    requires Stream(toks) && pos < end < |toks| && EqualityLoops(toks, pos, e, end) && OpLevel(toks[end].tokenType) < 1
    ensures EqualityParses(toks, pos, e, end)
  {
  }

  /** `equality` on a tree of this level, up to its loop. */
  lemma {:induction false} EqualityLoop(toks: seq<Token>, pos: nat, e: Expr, end: nat)
    requires Stream(toks) && Reads(toks, pos, e) && Nested(e) && Level(e) >= 1
    requires end == pos + Width(e) && end < |toks| && OpLevel(toks[end].tokenType) <= 1
    ensures EqualityLoops(toks, pos, e, end)
    decreases e, 4, 2
  {
    if e.Binary? && Level(e) == 1 {
      var mid := pos + Width(e.left);
      BinaryParts(toks, pos, e, mid, end);
      EqualityBinary(toks, pos, e.left, e.operator, e.right, mid, end);
      assert e == Binary(e.left, e.operator, e.right);
    } else {
      EqualityBase(toks, pos, e, end);
    }
  }

  /** A tree of a tighter level is the first operand and nothing more. */
  lemma {:induction false} EqualityBase(toks: seq<Token>, pos: nat, e: Expr, end: nat)
    requires Stream(toks) && Reads(toks, pos, e) && Nested(e) && Level(e) > 1
    requires end == pos + Width(e) && end < |toks| && OpLevel(toks[end].tokenType) <= 1
    ensures EqualityLoops(toks, pos, e, end)
    decreases e, 4, 0
  {
    ComparisonComplete(toks, pos, e, end);
    EqualityStart(toks, pos, e, end);
  }

  /** A Binary of this level, its operator at `mid`: its left operand up
      to the loop, then one round for the operator and the right operand. */
  lemma {:induction false} EqualityBinary(toks: seq<Token>, pos: nat, l: Expr, op: Token, r: Expr, mid: nat, end: nat)
    requires Stream(toks) && Reads(toks, pos, l) && Nested(l) && Level(l) >= 1
    requires mid == pos + Width(l) && end == mid + 1 + Width(r)
    requires end < |toks| && OpLevel(toks[end].tokenType) <= 1
    requires toks[mid] == op && OpLevel(op.tokenType) == 1
    requires Reads(toks, mid + 1, r) && Nested(r) && Level(r) > 1
    ensures EqualityLoops(toks, pos, Binary(l, op, r), end)
    decreases Binary(l, op, r), 4, 1
  {
    EqualityLoop(toks, pos, l, mid);
    EqualityBinaryRight(toks, pos, l, op, r, mid, end);
  }

  /** The round for the operator at `mid` and the right operand, once the
      left operand has been read up to the loop. */
  lemma {:induction false} EqualityBinaryRight(toks: seq<Token>, pos: nat, l: Expr, op: Token, r: Expr, mid: nat, end: nat)
    requires Stream(toks) && mid == pos + Width(l) && end == mid + 1 + Width(r)
    requires end < |toks| && EqualityLoops(toks, pos, l, mid) && OpLevel(toks[end].tokenType) <= 1
    requires toks[mid] == op && OpLevel(op.tokenType) == 1
    requires Reads(toks, mid + 1, r) && Nested(r) && Level(r) > 1
    ensures EqualityLoops(toks, pos, Binary(l, op, r), end)
    decreases Binary(l, op, r), 4, 0
  {
    ComparisonComplete(toks, mid + 1, r, end);
    EqualityJoin(toks, pos, l, op, r, mid, end);
  }

  /** A nested tree of at least this level, followed by a token that
      cannot continue it, is what `equality` parses. */
  lemma {:induction false} EqualityComplete(toks: seq<Token>, pos: nat, e: Expr, end: nat)
    requires Stream(toks) && Reads(toks, pos, e) && Nested(e) && Level(e) >= 1
    requires end == pos + Width(e) && end < |toks| && OpLevel(toks[end].tokenType) < 1
    ensures EqualityParses(toks, pos, e, end)
    decreases e, 4, 3
  {
    EqualityLoop(toks, pos, e, end);
    EqualityStop(toks, pos, e, end);
  }

  /** A nested tree read from `pos` and followed by a token that is not a
      binary operator is what `expression` parses from `pos`. */
  lemma {:induction false} ExpressionComplete(toks: seq<Token>, pos: nat, e: Expr, end: nat)
    requires Stream(toks) && Reads(toks, pos, e) && Nested(e)
    requires end == pos + Width(e) && end < |toks| && OpLevel(toks[end].tokenType) == 0
    ensures ExpressionParses(toks, pos, e, end)
    decreases e, 5, 2
  {
    EqualityComplete(toks, pos, e, end);
  }

  // Statements and programs.

  /** `declaration` parses `s` from `pos`, leaving the cursor at `end`. */
  predicate DeclarationParses(toks: seq<Token>, pos: nat, s: Stmt, end: nat)
    requires Stream(toks) && pos < |toks|
  {
    Declaration(toks, pos) == Ok((s, end))
  }

  /** `consume(SemiColon)` at the `;` that ends a statement read from
      `pos`. */
  lemma SemicolonStep(toks: seq<Token>, pos: nat, s: Stmt, end: nat)
    requires Stream(toks) && StmtReads(toks, pos, s) && end == pos + StmtWidth(s)
    ensures pos < end < |toks| && Consume(toks, end - 1, SemiColon) == Ok((toks[end - 1], end))
  {
  }

  /** `print_statement` once its expression is parsed. */
  lemma PrintStep(toks: seq<Token>, pos: nat, e: Expr, end: nat)
    requires Stream(toks) && pos < end < |toks| && toks[pos].tokenType == TokenType.Print
    requires ExpressionParses(toks, pos + 1, e, end - 1)
    requires Consume(toks, end - 1, SemiColon) == Ok((toks[end - 1], end))
    ensures DeclarationParses(toks, pos, Stmt.Print(e), end)
  {
    assert Statement(toks, pos) == PrintStatement(toks, pos + 1);
  }

  /** `print e ;` read from `pos`, with `end` just after the `;`. */
  lemma PrintComplete(toks: seq<Token>, pos: nat, e: Expr, end: nat)
    requires Stream(toks) && StmtReads(toks, pos, Stmt.Print(e)) && Nested(e)
    requires end == pos + StmtWidth(Stmt.Print(e))
    ensures end < |toks| && DeclarationParses(toks, pos, Stmt.Print(e), end)
  {
    SemicolonStep(toks, pos, Stmt.Print(e), end);
    ExpressionComplete(toks, pos + 1, e, end - 1);
    PrintStep(toks, pos, e, end);
  }

  /** `expr_statement` once its expression is parsed. */
  lemma ExpressionStmtStep(toks: seq<Token>, pos: nat, e: Expr, end: nat)
    requires Stream(toks) && pos < end < |toks|
    requires toks[pos].tokenType != Var && toks[pos].tokenType != TokenType.Print && toks[pos].tokenType != Eof
    requires ExpressionParses(toks, pos, e, end - 1)
    requires Consume(toks, end - 1, SemiColon) == Ok((toks[end - 1], end))
    ensures DeclarationParses(toks, pos, ExpressionStmt(e), end)
  {
    assert Statement(toks, pos) == ExprStatement(toks, pos);
  }

  /** `e ;` read from `pos`, with `end` just after the `;`. */
  lemma ExpressionStmtComplete(toks: seq<Token>, pos: nat, e: Expr, end: nat)
    requires Stream(toks) && StmtReads(toks, pos, ExpressionStmt(e)) && Parsable(ExpressionStmt(e))
    requires end == pos + StmtWidth(ExpressionStmt(e))
    ensures end < |toks| && DeclarationParses(toks, pos, ExpressionStmt(e), end)
  {
    SemicolonStep(toks, pos, ExpressionStmt(e), end);
    ReadsFirst(toks, pos, e);
    ExpressionComplete(toks, pos, e, end - 1);
    ExpressionStmtStep(toks, pos, e, end);
  }

  /** `var_declaration` once its initializer, if any, is parsed. */
  lemma VarStep(toks: seq<Token>, pos: nat, name: Token, init: Option<Expr>, end: nat)
    requires Stream(toks) && pos + 2 < end < |toks|
    requires toks[pos].tokenType == Var && toks[pos + 1] == name && name.tokenType == Identifier
    requires init.None? ==> toks[pos + 2].tokenType == SemiColon && end == pos + 3
    requires init.Some? ==> toks[pos + 2].tokenType == Equal && ExpressionParses(toks, pos + 3, init.value, end - 1)
    requires Consume(toks, end - 1, SemiColon) == Ok((toks[end - 1], end))
    ensures DeclarationParses(toks, pos, Stmt.Variable(name, init), end)
  {
    assert Consume(toks, pos + 1, Identifier) == Ok((name, pos + 2));
    assert VarDeclaration(toks, pos + 1) == VarInitializer(toks, pos + 2, name);
  }

  /** `var name ;` or `var name = e ;` read from `pos`, with `end` just
      after the `;`. */
  lemma VarComplete(toks: seq<Token>, pos: nat, name: Token, init: Option<Expr>, end: nat)
    requires Stream(toks) && StmtReads(toks, pos, Stmt.Variable(name, init)) && Parsable(Stmt.Variable(name, init))
    requires end == pos + StmtWidth(Stmt.Variable(name, init))
    ensures end < |toks| && DeclarationParses(toks, pos, Stmt.Variable(name, init), end)
  {
    SemicolonStep(toks, pos, Stmt.Variable(name, init), end);
    if init.Some? {
      VarInitComplete(toks, pos, name, init.value, end - 1, end);
    } else {
      VarStep(toks, pos, name, init, end);
    }
  }

  /** `var name = e ;` read from `pos`, its `;` at `last`. */
  lemma VarInitComplete(toks: seq<Token>, pos: nat, name: Token, e: Expr, last: nat, end: nat)
    requires Stream(toks) && StmtReads(toks, pos, Stmt.Variable(name, Some(e))) && Parsable(Stmt.Variable(name, Some(e)))
    requires end == pos + StmtWidth(Stmt.Variable(name, Some(e))) && last + 1 == end && end < |toks|
    requires Consume(toks, last, SemiColon) == Ok((toks[last], end))
    ensures DeclarationParses(toks, pos, Stmt.Variable(name, Some(e)), end)
  {
    ExpressionComplete(toks, pos + 3, e, last);
    VarStep(toks, pos, name, Some(e), end);
  }

  /** A parsable statement read from `pos` is what `declaration` parses
      there, and the token it starts with is not Eof. */
  lemma DeclarationComplete(toks: seq<Token>, pos: nat, s: Stmt, end: nat)
    requires Stream(toks) && StmtReads(toks, pos, s) && Parsable(s)
    requires end == pos + StmtWidth(s)
    ensures pos < end < |toks| && !AtEnd(toks, pos)
    ensures DeclarationParses(toks, pos, s, end)
  {
    match s
    case Print(e) => PrintComplete(toks, pos, e, end);
    case ExpressionStmt(e) =>
      ReadsFirst(toks, pos, e);
      ExpressionStmtComplete(toks, pos, e, end);
    case Variable(name, init) => VarComplete(toks, pos, name, init, end);
  }

  /** What reading a nonempty program says about its first statement and
      the rest. */
  lemma ProgramParts(toks: seq<Token>, pos: nat, ss: seq<Stmt>, end: nat)
    requires ProgramReads(toks, pos, ss) && |ss| > 0 && end == pos + StmtWidth(ss[0])
    ensures StmtReads(toks, pos, ss[0]) && ProgramReads(toks, end, ss[1..])
  {
  }

  /** The statements after the first of a parsable program are parsable. */
  lemma ParsableParts(ss: seq<Stmt>)
    requires |ss| > 0 && forall s :: s in ss ==> Parsable(s)
    ensures Parsable(ss[0]) && forall s :: s in ss[1..] ==> Parsable(s)
  {
    assert forall s :: s in ss[1..] ==> s in ss;
  }

  /** Statements read back to back from `pos` up to the Eof token are
      what the `parse` loop returns from `pos`. */
  lemma {:induction false} ParseFromComplete(toks: seq<Token>, pos: nat, ss: seq<Stmt>)
    requires Stream(toks) && ProgramReads(toks, pos, ss)
    requires forall s :: s in ss ==> Parsable(s)
    ensures ParseFrom(toks, pos) == Ok(ss)
    decreases |ss|
  {
    if |ss| > 0 {
      var end := pos + StmtWidth(ss[0]);
      assert ss == [ss[0]] + ss[1..];
      ProgramParts(toks, pos, ss, end);
      ParsableParts(ss);
      DeclarationComplete(toks, pos, ss[0], end);
      ParseFromComplete(toks, end, ss[1..]);
      ParserFacts.ParseFromCons(toks, pos, ss[0], end, ss[1..]);
    }
  }

  /** The converse of `ParserFacts.ParseReads`: a token list that reads as
      a program of parsable statements is parsed to exactly that program. */
  lemma ProgramComplete(toks: seq<Token>, ss: seq<Stmt>)
    requires Stream(toks) && ProgramReads(toks, 0, ss)
    requires forall s :: s in ss ==> Parsable(s)
    ensures Parse(toks) == Ok(ss)
  {
    ParseFromComplete(toks, 0, ss);
  }

  /** What `var_declaration` parses is parsable. */
  lemma VarDeclarationParsable(toks: seq<Token>, pos: nat)
    requires Stream(toks) && pos < |toks|
    ensures VarDeclaration(toks, pos).Ok? ==> Parsable(VarDeclaration(toks, pos).value.0)
  {
  }

  /** What `statement` parses at a token other than `var` is parsable. */
  lemma StatementParsable(toks: seq<Token>, pos: nat)
    requires Stream(toks) && pos < |toks| && toks[pos].tokenType != Var
    ensures Statement(toks, pos).Ok? ==> Parsable(Statement(toks, pos).value.0)
  {
    var st := Statement(toks, pos);
    if st.Ok? && st.value.0.ExpressionStmt? {
      ParserFacts.StatementReads(toks, pos);
      ReadsFirst(toks, pos, st.value.0.expression);
    }
  }

  /** What `declaration` parses is parsable. */
  lemma DeclarationParsable(toks: seq<Token>, pos: nat)
    requires Stream(toks) && pos < |toks|
    ensures Declaration(toks, pos).Ok? ==> Parsable(Declaration(toks, pos).value.0)
  {
    if Matches(toks, pos, {Var}).0 {
      VarDeclarationParsable(toks, pos + 1);
    } else {
      StatementParsable(toks, pos);
    }
  }

  lemma {:induction false} ParseFromParsable(toks: seq<Token>, pos: nat)
    requires Stream(toks) && pos < |toks|
    ensures ParseFrom(toks, pos).Ok? ==> forall s :: s in ParseFrom(toks, pos).value ==> Parsable(s)
    decreases |toks| - pos
  {
    if !AtEnd(toks, pos) {
      DeclarationParsable(toks, pos);
      var d := Declaration(toks, pos);
      if d.Ok? {
        ParseFromParsable(toks, d.value.1);
      }
    }
  }

  /** Every statement `parse` returns is parsable, so with
      `ParserFacts.ParseReads` and `ProgramComplete` the programs `parse`
      returns are exactly the parsable programs the tokens read as. */
  lemma ParsedParsable(toks: seq<Token>)
    requires Stream(toks)
    ensures Parse(toks).Ok? ==> forall s :: s in Parse(toks).value ==> Parsable(s)
  {
    ParseFromParsable(toks, 0);
  }

  /** A parse returns exactly the program of parsable statements that the
      tokens read as. */
  lemma ParseExact(toks: seq<Token>, ss: seq<Stmt>)
    requires Stream(toks)
    ensures Parse(toks) == Ok(ss) <==> ProgramReads(toks, 0, ss) && forall s :: s in ss ==> Parsable(s)
  {
    ParserFacts.ParseReads(toks);
    ParsedParsable(toks);
    if ProgramReads(toks, 0, ss) && forall s :: s in ss ==> Parsable(s) {
      ProgramComplete(toks, ss);
    }
  }

  /** The same for the scanner's output, which is always a list the
      parser accepts. */
  lemma ScanThenParseExact(src: string, ss: seq<Stmt>)
    ensures Stream(Scanner.ScanTokens(src))
    ensures Parse(Scanner.ScanTokens(src)) == Ok(ss) <==>
      ProgramReads(Scanner.ScanTokens(src), 0, ss) && forall s :: s in ss ==> Parsable(s)
  {
    ParserFacts.ScannedStream(src);
    ParseExact(Scanner.ScanTokens(src), ss);
  }

  /** Why an expression statement may not start with a Variable: `var ;`
      reads as the statement `var;` over a Variable named by the `var`
      token, but `declaration` takes `var` as a variable declaration and
      then finds no Identifier. */
  lemma VarStatementFails()
    ensures var v := Token("var", Var, "", 1);
      var toks := [v, Token(";", SemiColon, "", 1), Token("", Eof, "", 1)];
      && ProgramReads(toks, 0, [ExpressionStmt(Expr.Variable(v))])
      && Parse(toks) == Err(Expected(Identifier))
  {
    var v := Token("var", Var, "", 1);
    var toks := [v, Token(";", SemiColon, "", 1), Token("", Eof, "", 1)];
    assert Reads(toks, 0, Expr.Variable(v));
    assert StmtReads(toks, 0, ExpressionStmt(Expr.Variable(v)));
    assert ProgramReads(toks, 2, []);
    assert Declaration(toks, 0) == Err(Expected(Identifier));
  }
}
