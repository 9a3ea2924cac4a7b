/** What the parser's results mean: a parsed tree reads back, token for
    token, as the stretch of the list it was built from, and the scanner's
    output is a list the parser accepts as input. */
module ParserFacts {
  import opened Results
  import opened Tokens
  import Decimal
  import opened Syntax
  import opened Scanner
  import opened ScanInvariant
  import ScanFacts
  import LiteralEval
  import opened Parser
  import opened Readback

  /** Reading an operator, at `mid`, between two operands gives the tree
      a binary level's loop builds in one round, and it is nested. */
  lemma ReadsBinary(toks: seq<Token>, start: nat, mid: nat, l: Expr, r: Expr)
    requires Reads(toks, start, l) && mid == start + Width(l) && mid < |toks|
    requires Reads(toks, mid + 1, r)
    ensures Reads(toks, start, Binary(l, toks[mid], r))
    ensures start + Width(Binary(l, toks[mid], r)) == mid + 1 + Width(r)
  {
  }

  lemma {:induction false} ExpressionReads(toks: seq<Token>, pos: nat)
    requires Stream(toks) && pos < |toks|
    ensures ReadsAll(toks, pos, Expression(toks, pos))
    decreases |toks| - pos, 7
  {
    EqualityReads(toks, pos);
  }

  lemma {:induction false} EqualityReads(toks: seq<Token>, pos: nat)
    requires Stream(toks) && pos < |toks|
    ensures ReadsAll(toks, pos, Equality(toks, pos))
    decreases |toks| - pos, 6
  {
    ComparisonReads(toks, pos);
    var c := Comparison(toks, pos);
    if c.Ok? {
      EqualityTailReads(toks, pos, c.value.1, c.value.0);
    }
  }

  lemma {:induction false} EqualityTailReads(toks: seq<Token>, start: nat, pos: nat, left: Expr)
    requires Stream(toks) && pos < |toks|
    requires Reads(toks, start, left) && pos == start + Width(left)
    ensures ReadsAll(toks, start, EqualityTail(toks, pos, left))
    decreases |toks| - pos, 6
  {
    if Matches(toks, pos, EqualityOps).0 {
      ComparisonReads(toks, pos + 1);
      var c := Comparison(toks, pos + 1);
      if c.Ok? {
        var b := Binary(left, toks[pos], c.value.0);
        ReadsBinary(toks, start, pos, left, c.value.0);
        EqualityTailReads(toks, start, c.value.1, b);
      }
    }
  }

  lemma {:induction false} ComparisonReads(toks: seq<Token>, pos: nat)
    requires Stream(toks) && pos < |toks|
    ensures ReadsAll(toks, pos, Comparison(toks, pos))
    decreases |toks| - pos, 5
  {
    TermReads(toks, pos);
    var t := Term(toks, pos);
    if t.Ok? {
      ComparisonTailReads(toks, pos, t.value.1, t.value.0);
    }
  }

  lemma {:induction false} ComparisonTailReads(toks: seq<Token>, start: nat, pos: nat, left: Expr)
    requires Stream(toks) && pos < |toks|
    requires Reads(toks, start, left) && pos == start + Width(left)
    ensures ReadsAll(toks, start, ComparisonTail(toks, pos, left))
    decreases |toks| - pos, 5
  {
    if Matches(toks, pos, ComparisonOps).0 {
      TermReads(toks, pos + 1);
      var t := Term(toks, pos + 1);
      if t.Ok? {
        var b := Binary(left, toks[pos], t.value.0);
        ReadsBinary(toks, start, pos, left, t.value.0);
        ComparisonTailReads(toks, start, t.value.1, b);
      }
    }
  }

  lemma {:induction false} TermReads(toks: seq<Token>, pos: nat)
    requires Stream(toks) && pos < |toks|
    ensures ReadsAll(toks, pos, Term(toks, pos))
    decreases |toks| - pos, 4
  {
    FactorReads(toks, pos);
    var f := Factor(toks, pos);
    if f.Ok? {
      TermTailReads(toks, pos, f.value.1, f.value.0);
    }
  }

  lemma {:induction false} TermTailReads(toks: seq<Token>, start: nat, pos: nat, left: Expr)
    requires Stream(toks) && pos < |toks|
    requires Reads(toks, start, left) && pos == start + Width(left)
    ensures ReadsAll(toks, start, TermTail(toks, pos, left))
    decreases |toks| - pos, 4
  {
    if Matches(toks, pos, TermOps).0 {
      FactorReads(toks, pos + 1);
      var f := Factor(toks, pos + 1);
      if f.Ok? {
        var b := Binary(left, toks[pos], f.value.0);
        ReadsBinary(toks, start, pos, left, f.value.0);
        TermTailReads(toks, start, f.value.1, b);
      }
    }
  }

  lemma {:induction false} FactorReads(toks: seq<Token>, pos: nat)
    requires Stream(toks) && pos < |toks|
    ensures ReadsAll(toks, pos, Factor(toks, pos))
    decreases |toks| - pos, 3
  {
    UnaryReads(toks, pos);
    var u := Parser.Unary(toks, pos);
    if u.Ok? {
      FactorTailReads(toks, pos, u.value.1, u.value.0);
    }
  }

  lemma {:induction false} FactorTailReads(toks: seq<Token>, start: nat, pos: nat, left: Expr)
    requires Stream(toks) && pos < |toks|
    requires Reads(toks, start, left) && pos == start + Width(left)
    ensures ReadsAll(toks, start, FactorTail(toks, pos, left))
    decreases |toks| - pos, 3
  {
    if Matches(toks, pos, FactorOps).0 {
      UnaryReads(toks, pos + 1);
      var u := Parser.Unary(toks, pos + 1);
      if u.Ok? {
        var b := Binary(left, toks[pos], u.value.0);
        ReadsBinary(toks, start, pos, left, u.value.0);
        FactorTailReads(toks, start, u.value.1, b);
      }
    }
  }

  lemma {:induction false} UnaryReads(toks: seq<Token>, pos: nat)
    requires Stream(toks) && pos < |toks|
    ensures ReadsAll(toks, pos, Parser.Unary(toks, pos))
    decreases |toks| - pos, 2
  {
    if Matches(toks, pos, UnaryOps).0 {
      UnaryReads(toks, pos + 1);
    } else {
      PrimaryReads(toks, pos);
    }
  }

  lemma {:induction false} PrimaryReads(toks: seq<Token>, pos: nat)
    requires Stream(toks) && pos < |toks|
    ensures ReadsAll(toks, pos, Primary(toks, pos))
    decreases |toks| - pos, 1
  {
    if IsAtomToken(toks[pos].tokenType) {
      AtomReads(toks, pos);
    } else if Matches(toks, pos, {LeftParen}).0 {
      GroupingReads(toks, pos);
    }
  }

  lemma AtomReads(toks: seq<Token>, pos: nat)
    requires Stream(toks) && pos < |toks| && IsAtomToken(toks[pos].tokenType)
    ensures ReadsAll(toks, pos, Primary(toks, pos))
  {
    var a := Atom(toks[pos]);
    if a.Ok? {
      assert Primary(toks, pos) == Ok((a.value, pos + 1));
    }
  }

  /** What an atom token means: the tree `primary` builds from it
      evaluates to the value the token denotes, and the Variable a `var`
      token makes has no value without an environment. */
  lemma AtomDenotes(t: Token)
    requires IsAtomToken(t.tokenType) && Atom(t).Ok?
    ensures t.tokenType == False ==> LiteralEval.Evaluate(Atom(t).value) == Ok(BoolObject(false))
    ensures t.tokenType == True ==> LiteralEval.Evaluate(Atom(t).value) == Ok(BoolObject(true))
    ensures t.tokenType == Nil ==> LiteralEval.Evaluate(Atom(t).value) == Ok(NilObject(None))
    ensures t.tokenType == String ==> LiteralEval.Evaluate(Atom(t).value) == Ok(StringObject(t.literal))
    ensures t.tokenType == Number ==>
      LiteralEval.Evaluate(Atom(t).value) == Ok(NumberObject(Decimal.ParseNumber(t.literal).value))
    ensures t.tokenType == Var ==> LiteralEval.Evaluate(Atom(t).value) == Err(LiteralEval.NoImplementation)
  {
  }

  lemma {:induction false} GroupingReads(toks: seq<Token>, pos: nat)
    requires Stream(toks) && pos < |toks| && !IsAtomToken(toks[pos].tokenType)
    requires toks[pos].tokenType == LeftParen
    ensures ReadsAll(toks, pos, Primary(toks, pos))
    decreases |toks| - pos, 0
  {
    ExpressionReads(toks, pos + 1);
    var inner := Expression(toks, pos + 1);
    if inner.Ok? && Consume(toks, inner.value.1, RightParen).Ok? {
      assert Primary(toks, pos) == Ok((Grouping(inner.value.0), inner.value.1 + 1));
    }
  }

  // Statements and programs.

  lemma StatementReads(toks: seq<Token>, pos: nat)
    requires Stream(toks) && pos < |toks|
    ensures StmtReadsAll(toks, pos, Statement(toks, pos))
  {
    if Matches(toks, pos, {TokenType.Print}).0 {
      ExpressionReads(toks, pos + 1);
    } else {
      ExpressionReads(toks, pos);
    }
  }

  lemma VarDeclarationReads(toks: seq<Token>, pos: nat)
    requires Stream(toks) && 0 < pos < |toks| && toks[pos - 1].tokenType == Var
    ensures StmtReadsAll(toks, pos - 1, VarDeclaration(toks, pos))
  {
    var name := Consume(toks, pos, Identifier);
    if name.Ok? {
      VarInitializerReads(toks, pos - 1, pos + 1, name.value.0);
    }
  }

  lemma VarInitializerReads(toks: seq<Token>, start: nat, pos: nat, name: Token)
    requires Stream(toks) && pos == start + 2 && pos < |toks|
    requires toks[start].tokenType == Var && toks[start + 1] == name && name.tokenType == Identifier
    ensures StmtReadsAll(toks, start, VarInitializer(toks, pos, name))
  {
    if Matches(toks, pos, {Equal}).0 {
      ExpressionReads(toks, pos + 1);
    }
  }

  lemma DeclarationReads(toks: seq<Token>, pos: nat)
    requires Stream(toks) && pos < |toks|
    ensures StmtReadsAll(toks, pos, Declaration(toks, pos))
  {
    if Matches(toks, pos, {Var}).0 {
      VarDeclarationReads(toks, pos + 1);
    } else {
      StatementReads(toks, pos);
    }
  }

  lemma ProgramReadsCons(toks: seq<Token>, pos: nat, s: Stmt, ss: seq<Stmt>)
    ensures pos < |toks| && StmtReads(toks, pos, s) && ProgramReads(toks, pos + StmtWidth(s), ss)
      ==> ProgramReads(toks, pos, [s] + ss)
  {
    assert ([s] + ss)[1..] == ss;
  }

  lemma {:induction false} ParseFromReads(toks: seq<Token>, pos: nat)
    requires Stream(toks) && pos < |toks|
    ensures ParseFrom(toks, pos).Ok? ==> ProgramReads(toks, pos, ParseFrom(toks, pos).value)
    decreases |toks| - pos
  {
    if !AtEnd(toks, pos) {
      DeclarationReads(toks, pos);
      var d := Declaration(toks, pos);
      if d.Ok? {
        var end := d.value.1;
        ParseFromReads(toks, end);
        var rest := ParseFrom(toks, end);
        if rest.Ok? {
          ParseFromCons(toks, pos, d.value.0, end, rest.value);
          ProgramReadsCons(toks, pos, d.value.0, rest.value);
        }
      }
    }
  }

  /** One round of the `parse` loop. */
  lemma ParseFromCons(toks: seq<Token>, pos: nat, s: Stmt, end: nat, rest: seq<Stmt>)
    requires Stream(toks) && pos < |toks| && end < |toks| && !AtEnd(toks, pos)
    requires Declaration(toks, pos) == Ok((s, end)) && ParseFrom(toks, end) == Ok(rest)
    ensures ParseFrom(toks, pos) == Ok([s] + rest)
  {
  }

  /** A parsed program reads back as the whole token list. */
  lemma ParseReads(toks: seq<Token>)
    requires Stream(toks)
    ensures Parse(toks).Ok? ==> ProgramReads(toks, 0, Parse(toks).value)
  {
    ParseFromReads(toks, 0);
  }

  // The scanner's output as the parser's input.

  /** `scan_tokens` returns a list the parser accepts: it ends in Eof. */
  lemma ScannedStream(src: string)
    ensures Stream(ScanTokens(src))
  {
    ScanFacts.ExactlyOneEof(src);
  }

  /** Every Number token the scanner cuts carries a literal `parse::<f64>`
      accepts, so no scanned atom token makes `primary` fail. */
  lemma ScannedAtomsParse(src: string)
    ensures forall i :: 0 <= i < |ScanTokens(src)| && IsAtomToken(ScanTokens(src)[i].tokenType) ==>
      Atom(ScanTokens(src)[i]).Ok?
  {
    var ts := ScanTokens(src);
    var loop := ScanLoop(src, Initial).tokens;
    ScanFacts.EofLast(src);
    ScanFacts.TokensBeforeEof(src);
    forall i | 0 <= i < |ts| && IsAtomToken(ts[i].tokenType)
      ensures Atom(ts[i]).Ok?
    {
      if i < |loop| {
        assert ts[i] == loop[i].token;
        assert WellLexed(src, loop[i]);
        Decimal.ParseNumberAccepts(ts[i].literal);
      } else {
        assert ts[i] == ScanFacts.EofToken(src).token;
      }
    }
  }

  /** Scanning then parsing: whatever program comes out reads back as the
      scanned tokens, statement by statement, up to the Eof token. */
  lemma ScanThenParse(src: string)
    ensures Stream(ScanTokens(src))
    ensures Parse(ScanTokens(src)).Ok? ==> ProgramReads(ScanTokens(src), 0, Parse(ScanTokens(src)).value)
  {
    ScannedStream(src);
    ParseReads(ScanTokens(src));
  }
}
