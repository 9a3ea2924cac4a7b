/** Tokens: the kinds of lexeme the scanner recognises and the token record
    it emits, with their display formats. */
module Tokens {
  import Decimal

  /** The token kinds, in declaration order (the order `PartialOrd` uses). */
  datatype TokenType =
    // Single-character tokens.
    | LeftParen | RightParen | LeftBrace | RightBrace
    | Comma | Dot | Minus | Plus | SemiColon | Slash | Star
    // One or two character tokens.
    | Bang | BangEqual | Equal | EqualEqual
    | Greater | GreaterEqual | Less | LessEqual
    // Literals.
    | Identifier | String | Number
    // Keywords.
    | And | Class | Else | False | Fun | For | If | Nil | Or
    | Print | Return | Super | This | True | Var | While
    | Eof

  /** A token: the source text it was made from, its kind, the literal text
      (string contents or number digits, empty otherwise) and its line. */
  datatype Token = Token(lexeme: string, tokenType: TokenType, literal: string, line: nat)

  /** The kind at a position of the declaration order. */
  function TypeAt(i: nat): TokenType
    requires i < TokenTypeCount
  {
    match i
    case 0 => LeftParen case 1 => RightParen case 2 => LeftBrace case 3 => RightBrace
    case 4 => Comma case 5 => Dot case 6 => Minus case 7 => Plus
    case 8 => SemiColon case 9 => Slash case 10 => Star
    case 11 => Bang case 12 => BangEqual case 13 => Equal case 14 => EqualEqual
    case 15 => Greater case 16 => GreaterEqual case 17 => Less case 18 => LessEqual
    case 19 => Identifier case 20 => String case 21 => Number
    case 22 => And case 23 => Class case 24 => Else case 25 => False case 26 => Fun
    case 27 => For case 28 => If case 29 => Nil case 30 => Or
    case 31 => Print case 32 => Return case 33 => Super case 34 => This
    case 35 => True case 36 => Var case 37 => While
    case _ => Eof
  }

  /** The number of token kinds. */
  const TokenTypeCount: nat := 39

  /** The position of a kind in declaration order. */
  function Ordinal(t: TokenType): (i: nat)
    ensures i < TokenTypeCount
  {
    match t
    case LeftParen => 0 case RightParen => 1 case LeftBrace => 2 case RightBrace => 3
    case Comma => 4 case Dot => 5 case Minus => 6 case Plus => 7
    case SemiColon => 8 case Slash => 9 case Star => 10
    case Bang => 11 case BangEqual => 12 case Equal => 13 case EqualEqual => 14
    case Greater => 15 case GreaterEqual => 16 case Less => 17 case LessEqual => 18
    case Identifier => 19 case String => 20 case Number => 21
    case And => 22 case Class => 23 case Else => 24 case False => 25 case Fun => 26
    case For => 27 case If => 28 case Nil => 29 case Or => 30
    case Print => 31 case Return => 32 case Super => 33 case This => 34
    case True => 35 case Var => 36 case While => 37
    case Eof => 38
  }

  /** There are exactly `TokenTypeCount` kinds: `Ordinal` and `TypeAt` are
      inverse bijections between the kinds and 0..38. */
  lemma OrdinalRoundTrip(t: TokenType)
    ensures TypeAt(Ordinal(t)) == t
  {
    match t
    case LeftParen => case RightParen => case LeftBrace => case RightBrace =>
    case Comma => case Dot => case Minus => case Plus =>
    case SemiColon => case Slash => case Star =>
    case Bang => case BangEqual => case Equal => case EqualEqual =>
    case Greater => case GreaterEqual => case Less => case LessEqual =>
    case Identifier => case String => case Number =>
    case And => case Class => case Else => case False => case Fun =>
    case For => case If => case Nil => case Or =>
    case Print => case Return => case Super => case This =>
    case True => case Var => case While =>
    case Eof =>
  }

  lemma TypeAtRoundTrip(i: nat)
    requires i < TokenTypeCount
    ensures Ordinal(TypeAt(i)) == i
  {
  }

  /** The four groups of the declaration. */
  predicate IsSingleChar(t: TokenType) {
    t in {LeftParen, RightParen, LeftBrace, RightBrace, Comma, Dot, Minus, Plus, SemiColon, Slash, Star}
  }

  predicate IsOneOrTwoChar(t: TokenType) {
    t in {Bang, BangEqual, Equal, EqualEqual, Greater, GreaterEqual, Less, LessEqual}
  }

  predicate IsLiteralKind(t: TokenType) {
    t in {Identifier, String, Number}
  }

  predicate IsKeyword(t: TokenType) {
    t in {And, Class, Else, False, Fun, For, If, Nil, Or, Print, Return, Super, This, True, Var, While}
  }

  /** The groups are the consecutive runs 0..10, 11..18, 19..21 and 22..37
      of the declaration order, so they hold 11, 8, 3 and 16 kinds, and Eof
      is in none of them. */
  lemma TokenTypeGroups(t: TokenType)
    ensures IsSingleChar(t) <==> Ordinal(t) < 11
    ensures IsOneOrTwoChar(t) <==> 11 <= Ordinal(t) < 19
    ensures IsLiteralKind(t) <==> 19 <= Ordinal(t) < 22
    ensures IsKeyword(t) <==> 22 <= Ordinal(t) < 38
    ensures t == Eof <==> Ordinal(t) == 38
  {
  }

  /** The fixed source text of a punctuation or operator kind; the empty
      string for the other kinds, whose text varies or (for keywords) comes
      from the scanner's keyword table. */
  function Spelling(t: TokenType): string {
    match t
    case LeftParen => "(" case RightParen => ")" case LeftBrace => "{" case RightBrace => "}"
    case Comma => "," case Dot => "." case Minus => "-" case Plus => "+"
    case SemiColon => ";" case Slash => "/" case Star => "*"
    case Bang => "!" case BangEqual => "!=" case Equal => "=" case EqualEqual => "=="
    case Greater => ">" case GreaterEqual => ">=" case Less => "<" case LessEqual => "<="
    case _ => ""
  }

  /** The spelled kinds are exactly the punctuation and operator kinds;
      punctuation is one character and operators one or two. */
  lemma SpellingGroups(t: TokenType)
    ensures Spelling(t) != "" <==> (IsSingleChar(t) || IsOneOrTwoChar(t))
    ensures IsSingleChar(t) ==> |Spelling(t)| == 1
    ensures IsOneOrTwoChar(t) ==> 1 <= |Spelling(t)| <= 2
  {
  }

  /** No two kinds share a spelling. */
  lemma SpellingInjective(a: TokenType, b: TokenType)
    requires Spelling(a) == Spelling(b) != ""
    ensures a == b
  {
  }

  /** `{:?}` of a kind: its variant name, which is what `Display` prints. */
  function TypeName(t: TokenType): string {
    match t
    case LeftParen => "LeftParen" case RightParen => "RightParen"
    case LeftBrace => "LeftBrace" case RightBrace => "RightBrace"
    case Comma => "Comma" case Dot => "Dot" case Minus => "Minus" case Plus => "Plus"
    case SemiColon => "SemiColon" case Slash => "Slash" case Star => "Star"
    case Bang => "Bang" case BangEqual => "BangEqual"
    case Equal => "Equal" case EqualEqual => "EqualEqual"
    case Greater => "Greater" case GreaterEqual => "GreaterEqual"
    case Less => "Less" case LessEqual => "LessEqual"
    case Identifier => "Identifier" case String => "String" case Number => "Number"
    case And => "And" case Class => "Class" case Else => "Else" case False => "False"
    case Fun => "Fun" case For => "For" case If => "If" case Nil => "Nil" case Or => "Or"
    case Print => "Print" case Return => "Return" case Super => "Super" case This => "This"
    case True => "True" case Var => "Var" case While => "While"
    case Eof => "Eof"
  }

  const TypeLabel := "Token Type: "
  const LexemeLabel := ",  Lexeme: "
  const LiteralLabel := ", String: "
  const LineLabel := ", Line: "

  /** `Display` of a token. */
  function Show(t: Token): string {
    TypeLabel + TypeName(t.tokenType) + LexemeLabel + t.lexeme
      + LiteralLabel + t.literal + LineLabel + Decimal.NatToString(t.line)
  }

  /** The display starts with the kind's name and ends with the line number
      in decimal, which reads back as the token's line. */
  lemma ShowFormat(t: Token)
    ensures var s := Show(t); var n := Decimal.NatToString(t.line);
      && s[..|TypeLabel|] == TypeLabel
      && s[|TypeLabel|..|TypeLabel| + |TypeName(t.tokenType)| + |LexemeLabel|]
         == TypeName(t.tokenType) + LexemeLabel
      && |s| > |n| + |LineLabel|
      && s[|s| - |n| - |LineLabel|..] == LineLabel + n
      && Decimal.DigitsValue(s[|s| - |n|..]) == t.line
  {
    var s := Show(t);
    var n := Decimal.NatToString(t.line);
    assert s == TypeLabel + (TypeName(t.tokenType) + LexemeLabel)
      + (t.lexeme + LiteralLabel + t.literal) + (LineLabel + n);
    assert s[|s| - |n|..] == n;
    Decimal.NatToStringRoundTrip(t.line);
  }
}
