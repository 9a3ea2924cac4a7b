/** The scanner: turns source text into tokens.

    The scanner keeps a cursor over the source (`start` of the current
    lexeme, `current` read position, `line`), appends one token per lexeme
    and finally an Eof token. Here its state is an immutable record and each
    of its procedures a function from state to state. Every emitted token
    also records the span `[start, end)` of the source it was cut from, so
    that contracts can speak about where each token came from. */
module Scanner {
  import opened Results
  import opened Tokens
  import Decimal

  predicate IsAlpha(c: char) {
    ('a' <= c <= 'z') || ('A' <= c <= 'Z') || c == '_'
  }

  predicate IsAlphaNumeric(c: char) {
    IsAlpha(c) || Decimal.IsDigit(c)
  }

  /** The character classes the scanner's inner loops run over. */
  datatype Run = Digits | WordChars | NotQuote | NotNewline

  predicate InRun(k: Run, c: char) {
    match k
    case Digits => Decimal.IsDigit(c)
    case WordChars => IsAlphaNumeric(c)
    case NotQuote => c != '"'
    case NotNewline => c != '\n'
  }

  /** Every character of `s` is in the run `k`. */
  predicate AllIn(k: Run, s: string)
    decreases |s|
  {
    |s| == 0 || (InRun(k, s[0]) && AllIn(k, s[1..]))
  }

  /** The keyword table built by `Scanner::new`. */
  const Keywords: map<string, TokenType> := map[
    "and" := And, "class" := Class, "else" := Else, "false" := False,
    "for" := For, "function" := Fun, "if" := If, "nil" := Nil,
    "or" := Or, "print" := Print, "return" := Return, "super" := Super,
    "this" := This, "true" := True, "var" := Var, "while" := While
  ]

  /** The kind of a scanned word: its keyword, or Identifier. */
  function WordType(text: string): (t: TokenType)
    ensures text in Keywords <==> t != Identifier
    ensures t == Identifier || IsKeyword(t)
  {
    if text in Keywords then Keywords[text] else Identifier
  }

  /** A word: a letter or `_`, then letters, digits or `_`. */
  predicate IsWord(w: string) {
    |w| > 0 && IsAlpha(w[0]) && AllIn(WordChars, w[1..])
  }

  /** The one-character tokens other than `/`. */
  function SingleCharType(c: char): (r: Option<TokenType>)
    ensures r.Some? ==> IsSingleChar(r.value) && r.value != Slash && Spelling(r.value) == [c]
  {
    if c == '(' then Some(LeftParen) else if c == ')' then Some(RightParen)
    else if c == '{' then Some(LeftBrace) else if c == '}' then Some(RightBrace)
    else if c == ',' then Some(Comma) else if c == '.' then Some(Dot)
    else if c == '-' then Some(Minus) else if c == '+' then Some(Plus)
    else if c == ';' then Some(SemiColon) else if c == '*' then Some(Star)
    else None
  }

  /** The characters that make a one-character token alone and a
      two-character token when followed by `=`. */
  function OneOrTwoType(c: char): (r: Option<(TokenType, TokenType)>)
    ensures r.Some? ==> IsOneOrTwoChar(r.value.0) && IsOneOrTwoChar(r.value.1)
    ensures r.Some? ==> Spelling(r.value.0) == [c] && Spelling(r.value.1) == [c, '=']
  {
    if c == '!' then Some((Bang, BangEqual))
    else if c == '=' then Some((Equal, EqualEqual))
    else if c == '<' then Some((Less, LessEqual))
    else if c == '>' then Some((Greater, GreaterEqual))
    else None
  }

  /** The number of newline characters in `s`. */
  function Newlines(s: string): nat
    decreases |s|
  {
    if |s| == 0 then 0
    else (if s[0] == '\n' then 1 else 0) + Newlines(s[1..])
  }

  /** A token together with the source span it was cut from. */
  datatype Lexed = Lexed(token: Token, start: nat, end: nat)

  /** The scanner's fields, less the source and the keyword table. */
  datatype ScanState = ScanState(start: nat, current: nat, line: nat, tokens: seq<Lexed>, hasError: bool)

  const Initial := ScanState(0, 0, 1, [], false)

  /** `peek`: the character at the cursor, or `'\0'` past the end. */
  function Peek(src: string, cur: nat): char {
    if cur >= |src| then '\0' else src[cur]
  }

  /** `peek_next`: the character after the cursor, or `'\0'`. */
  function PeekNext(src: string, cur: nat): char {
    if cur + 1 >= |src| then '\0' else src[cur + 1]
  }

  /** The test `token_match` makes before consuming the expected character. */
  predicate NextIs(src: string, cur: nat, expected: char) {
    cur < |src| && src[cur] == expected
  }

  /** The cursor after a loop that advances while the next character is in
      the run and the source is not exhausted. */
  function SkipWhile(src: string, cur: nat, k: Run): (r: nat)
    requires cur <= |src|
    ensures cur <= r <= |src|
    ensures r == |src| || !InRun(k, src[r])
    decreases |src| - cur
  {
    if cur < |src| && InRun(k, src[cur]) then SkipWhile(src, cur + 1, k) else cur
  }

  /** `add_token`: the lexeme is the text from `start` to `current`. */
  function AddToken(src: string, st: ScanState, t: TokenType, literal: string): (r: ScanState)
    requires st.start <= st.current <= |src|
    ensures r.start == st.start && r.current == st.current && r.line == st.line && r.hasError == st.hasError
    ensures r.tokens == st.tokens + [Lexed(Token(src[st.start..st.current], t, literal, st.line), st.start, st.current)]
  {
    st.(tokens := st.tokens + [Lexed(Token(src[st.start..st.current], t, literal, st.line), st.start, st.current)])
  }

  /** `read_string`, entered just after the opening quote. */
  function ReadString(src: string, st: ScanState): ScanState
    requires st.start < st.current <= |src|
  {
    var close := SkipWhile(src, st.current, NotQuote);
    var line := st.line + Newlines(src[st.current..close]);
    if close == |src| then
      st.(current := close, line := line, hasError := true)
    else
      AddToken(src, st.(current := close + 1, line := line), String, src[st.start + 1..close])
  }

  /** Where `number` stops, entered just after the first digit: past the
      digits, and past a dot and the digits after it only when a digit
      follows the dot. */
  function NumberEnd(src: string, cur: nat): (end: nat)
    requires cur <= |src|
    ensures cur <= end <= |src|
  {
    var whole := SkipWhile(src, cur, Digits);
    if Peek(src, whole) == '.' && Decimal.IsDigit(PeekNext(src, whole))
    then SkipWhile(src, whole + 1, Digits)
    else whole
  }

  /** `number`, entered just after the first digit. */
  function ScanNumber(src: string, st: ScanState): ScanState
    requires st.start < st.current <= |src|
  {
    var end := NumberEnd(src, st.current);
    AddToken(src, st.(current := end), Number, src[st.start..end])
  }

  /** `identifier`, entered just after the first letter. */
  function ScanIdentifier(src: string, st: ScanState): ScanState
    requires st.start < st.current <= |src|
  {
    var end := SkipWhile(src, st.current, WordChars);
    AddToken(src, st.(current := end), WordType(src[st.start..end]), "")
  }

  /** `scan_token`: consume one lexeme starting at the cursor. */
  function ScanToken(src: string, st: ScanState): (r: ScanState)
    requires st.start == st.current < |src|
    ensures st.current < r.current <= |src| && r.start == st.start
    ensures r.tokens == st.tokens || (|r.tokens| == |st.tokens| + 1 && r.tokens[..|st.tokens|] == st.tokens)
  {
    var c := src[st.current];
    var next := st.(current := st.current + 1);
    if SingleCharType(c).Some? then
      AddToken(src, next, SingleCharType(c).value, "")
    else if OneOrTwoType(c).Some? then
      if NextIs(src, next.current, '=') then
        AddToken(src, next.(current := next.current + 1), OneOrTwoType(c).value.1, "")
      else
        AddToken(src, next, OneOrTwoType(c).value.0, "")
    else if c == '/' then
      if NextIs(src, next.current, '/') then
        next.(current := SkipWhile(src, next.current + 1, NotNewline))
      else
        AddToken(src, next, Slash, "")
    else if c == ' ' || c == '\r' || c == '\t' then
      next
    else if c == '\n' then
      next.(line := st.line + 1)
    else if c == '"' then
      ReadString(src, next)
    else if Decimal.IsDigit(c) then
      ScanNumber(src, next)
    else if IsAlpha(c) then
      ScanIdentifier(src, next)
    else
      next.(hasError := true)
  }

  /** The `scan_tokens` loop: reset `start` to the cursor and scan one
      lexeme, until the source is exhausted. */
  function ScanLoop(src: string, st: ScanState): (r: ScanState)
    requires st.start <= st.current <= |src|
    ensures st.start <= r.start <= r.current == |src|
    ensures |st.tokens| <= |r.tokens| && r.tokens[..|st.tokens|] == st.tokens
    decreases |src| - st.current
  {
    if st.current == |src| then st
    else ScanLoop(src, ScanToken(src, st.(start := st.current)))
  }

  /** `scan_tokens`: the final state, with the Eof token appended. The Eof
      lexeme runs from the start of the last lexeme scanned (the cursor's
      `start` is not reset) to the end of the source. */
  function Scan(src: string): (r: ScanState)
    ensures |r.tokens| > 0 && r.tokens[|r.tokens| - 1].token.tokenType == Eof
  {
    AddToken(src, ScanLoop(src, Initial), Eof, "")
  }

  function TokensOf(ls: seq<Lexed>): (ts: seq<Token>)
    ensures |ts| == |ls|
    ensures forall i :: 0 <= i < |ls| ==> ts[i] == ls[i].token
  {
    if |ls| == 0 then [] else TokensOf(ls[..|ls| - 1]) + [ls[|ls| - 1].token]
  }

  /** The token list `scan_tokens` returns. */
  function ScanTokens(src: string): seq<Token> {
    TokensOf(Scan(src).tokens)
  }

  /** Whether `scan_tokens` set `has_error`. */
  function HasError(src: string): bool {
    Scan(src).hasError
  }
}
