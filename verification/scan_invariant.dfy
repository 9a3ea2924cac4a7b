/** What the scanner's output looks like, stated independently of how it is
    computed, and the proof that every step of the scanner keeps it. */
module ScanInvariant {
  import opened Tokens
  import Decimal
  import opened Scanner

  /** A string lexeme: text without quotes between two quotes. */
  predicate IsStringText(w: string) {
    |w| >= 2 && w[0] == '"' && w[|w| - 1] == '"' && AllIn(NotQuote, w[1..|w| - 1])
  }

  /** What a lexeme of kind `t` looks like and the literal it carries, one
      clause per kind: a keyword is a word the keyword table maps to it. No Eof token is cut from the text this way. */
  predicate Lexeme(t: TokenType, literal: string, w: string) {
    if t == String then IsStringText(w) && literal == w[1..|w| - 1]
    else if t == Number then Decimal.IsNumberText(w) && literal == w
    else if t == Identifier then IsWord(w) && w !in Keywords && literal == ""
    else if IsKeyword(t) then IsWord(w) && w in Keywords && Keywords[w] == t && literal == ""
    else t != Eof && w == Spelling(t) && literal == ""
  }

  /** A token cut from `src`: its lexeme is its non-empty span, its line is
      one more than the newlines up to its end, and its kind and literal fit
      its lexeme. */
  predicate WellLexed(src: string, lx: Lexed) {
    && lx.start < lx.end <= |src|
    && lx.token.lexeme == src[lx.start..lx.end]
    && lx.token.line == 1 + Newlines(src[..lx.end])
    && Lexeme(lx.token.tokenType, lx.token.literal, lx.token.lexeme)
  }

  /** The tokens `ts` are well lexed and cut, in order and without overlap,
      from `src[..bound]`. */
  predicate Chained(src: string, ts: seq<Lexed>, bound: nat)
    decreases |ts|
  {
    |ts| == 0 ||
    (var last := ts[|ts| - 1];
     WellLexed(src, last) && last.end <= bound && Chained(src, ts[..|ts| - 1], last.start))
  }

  /** The scanner invariant: the cursor is in the source, `line` counts the
      newlines before it, the tokens so far are chained before it, and the
      last of them does not start after `start`. */
  predicate Valid(src: string, st: ScanState) {
    && st.start <= st.current <= |src|
    && st.line == 1 + Newlines(src[..st.current])
    && Chained(src, st.tokens, st.current)
    && (|st.tokens| > 0 ==> st.tokens[|st.tokens| - 1].start <= st.start)
  }

  // Character runs.

  lemma SliceSlice(s: string, a: nat, b: nat, i: nat, j: nat)
    requires a <= b <= |s| && i <= j <= b - a
    ensures s[a..b][i..j] == s[a + i..a + j]
  {
    assert |s[a..b][i..j]| == |s[a + i..a + j]|;
    forall k | 0 <= k < j - i
      ensures s[a..b][i..j][k] == s[a + i..a + j][k]
    {
    }
  }

  /** Every character `SkipWhile` passes over is in the run. */
  lemma {:induction false} SkipWhileRun(src: string, cur: nat, k: Run)
    requires cur <= |src|
    ensures AllIn(k, src[cur..SkipWhile(src, cur, k)])
    decreases |src| - cur
  {
    var r := SkipWhile(src, cur, k);
    if cur < |src| && InRun(k, src[cur]) {
      SkipWhileRun(src, cur + 1, k);
      SliceSlice(src, cur, r, 1, r - cur);
    }
  }

  /** A run with a first character in front of it. */
  lemma RunCons(src: string, i: nat, j: nat, k: Run)
    requires i < j <= |src| && InRun(k, src[i]) && AllIn(k, src[i + 1..j])
    ensures AllIn(k, src[i..j])
  {
    SliceSlice(src, i, j, 1, j - i);
  }

  /** Digits and word characters are never newlines. */
  lemma {:induction false} NoNewlineIn(k: Run, s: string)
    requires k == Digits || k == WordChars
    requires AllIn(k, s)
    ensures AllIn(NotNewline, s)
    decreases |s|
  {
    if |s| > 0 {
      NoNewlineIn(k, s[1..]);
    }
  }

  /** Digits as the decimal module reads them. */
  lemma {:induction false} DigitRun(s: string)
    requires AllIn(Digits, s)
    ensures Decimal.AllDigits(s)
    decreases |s|
  {
    if |s| > 0 {
      DigitRun(s[1..]);
      assert forall i :: 1 <= i < |s| ==> s[i] == s[1..][i - 1];
    }
  }

  // Line counting.

  lemma {:induction false} NewlinesConcat(a: string, b: string)
    ensures Newlines(a + b) == Newlines(a) + Newlines(b)
    decreases |a|
  {
    if |a| > 0 {
      assert (a + b)[1..] == a[1..] + b;
      NewlinesConcat(a[1..], b);
      assert (a + b)[0] == a[0];
    } else {
      assert a + b == b;
    }
  }

  lemma {:induction false} NoNewlines(s: string)
    requires AllIn(NotNewline, s)
    ensures Newlines(s) == 0
    decreases |s|
  {
    if |s| > 0 {
      NoNewlines(s[1..]);
    }
  }

  lemma LineSplit(src: string, i: nat, j: nat)
    requires i <= j <= |src|
    ensures Newlines(src[..j]) == Newlines(src[..i]) + Newlines(src[i..j])
  {
    assert src[..j] == src[..i] + src[i..j];
    NewlinesConcat(src[..i], src[i..j]);
  }

  /** Passing one character adds one line exactly when it is a newline. */
  lemma LineStep(src: string, i: nat)
    requires i < |src|
    ensures Newlines(src[..i + 1]) == Newlines(src[..i]) + (if src[i] == '\n' then 1 else 0)
  {
    LineSplit(src, i, i + 1);
    assert src[i..i + 1] == [src[i]];
  }

  /** Passing a run without newlines adds no line. */
  lemma LineAcross(src: string, i: nat, j: nat)
    requires i <= j <= |src| && AllIn(NotNewline, src[i..j])
    ensures Newlines(src[..j]) == Newlines(src[..i])
  {
    LineSplit(src, i, j);
    NoNewlines(src[i..j]);
  }


  // The lexemes of each kind.

  /** A scanned word is an Identifier or the keyword it spells. */
  lemma WordLexeme(w: string)
    requires IsWord(w)
    ensures Lexeme(WordType(w), "", w)
  {
  }

  /** A token of fixed spelling. */
  lemma SpelledLexed(src: string, n: nat, end: nat, t: TokenType, line: nat)
    requires n < end <= |src| && AllIn(NotNewline, src[n..end])
    requires Lexeme(t, "", src[n..end]) && line == 1 + Newlines(src[..n])
    ensures WellLexed(src, Lexed(Token(src[n..end], t, "", line), n, end))
  {
    LineAcross(src, n, end);
  }

  /** The newlines up to the end of a string lexeme are those before it
      and those inside it. */
  lemma StringLine(src: string, n: nat, close: nat)
    requires n < close < |src| && src[n] == '"' && src[close] == '"'
    ensures Newlines(src[..close + 1]) == Newlines(src[..n]) + Newlines(src[n + 1..close])
  {
    LineStep(src, n);
    LineSplit(src, n + 1, close);
    LineStep(src, close);
  }

  /** The text from a quote to the next quote is a string lexeme whose
      contents are the text between them. */
  lemma StringText(src: string, n: nat, close: nat)
    requires n < close < |src| && src[n] == '"' && src[close] == '"'
    requires AllIn(NotQuote, src[n + 1..close])
    ensures IsStringText(src[n..close + 1])
    ensures src[n..close + 1][1..close - n] == src[n + 1..close]
  {
    SliceSlice(src, n, close + 1, 1, close - n);
  }

  /** A string lexeme from the quote at `n` to the next quote. */
  lemma StringLexed(src: string, n: nat, close: nat)
    requires n < close < |src| && src[n] == '"' && close == SkipWhile(src, n + 1, NotQuote)
    ensures WellLexed(src, Lexed(Token(src[n..close + 1], String, src[n + 1..close], 1 + Newlines(src[..close + 1])), n, close + 1))
  {
    SkipWhileRun(src, n + 1, NotQuote);
    StringText(src, n, close);
  }

  /** A whole part, a dot and a non-empty fraction make a number. */
  lemma FractionText(src: string, n: nat, whole: nat, end: nat)
    requires n < whole < whole + 1 < end <= |src| && src[whole] == '.'
    requires AllIn(Digits, src[n..whole]) && AllIn(Digits, src[whole + 1..end])
    ensures Decimal.IsNumberText(src[n..end])
  {
    var w := src[n..end];
    var k := whole - n;
    SliceSlice(src, n, end, 0, k);
    SliceSlice(src, n, end, k + 1, |w|);
    DigitRun(src[n..whole]);
    DigitRun(src[whole + 1..end]);
    assert w[k] == '.' && Decimal.AllDigits(w[..k]) && Decimal.AllDigits(w[k + 1..]);
  }

  /** A number lexeme starting with the digit at `n`. */
  lemma NumberLexed(src: string, n: nat, line: nat)
    requires n < |src| && Decimal.IsDigit(src[n]) && line == 1 + Newlines(src[..n])
    ensures var end := NumberEnd(src, n + 1);
      WellLexed(src, Lexed(Token(src[n..end], Number, src[n..end], line), n, end))
  {
    var whole := SkipWhile(src, n + 1, Digits);
    SkipWhileRun(src, n + 1, Digits);
    RunCons(src, n, whole, Digits);
    NoNewlineIn(Digits, src[n..whole]);
    LineAcross(src, n, whole);
    if Peek(src, whole) == '.' && Decimal.IsDigit(PeekNext(src, whole)) {
      var end := SkipWhile(src, whole + 1, Digits);
      SkipWhileRun(src, whole + 1, Digits);
      NoNewlineIn(Digits, src[whole + 1..end]);
      LineStep(src, whole);
      LineAcross(src, whole + 1, end);
      FractionText(src, n, whole, end);
    } else {
      DigitRun(src[n..whole]);
    }
  }

  /** A word starting with the letter at `n`. */
  lemma IdentifierLexed(src: string, n: nat, line: nat)
    requires n < |src| && IsAlpha(src[n]) && line == 1 + Newlines(src[..n])
    ensures var end := SkipWhile(src, n + 1, WordChars);
      WellLexed(src, Lexed(Token(src[n..end], WordType(src[n..end]), "", line), n, end))
  {
    var end := SkipWhile(src, n + 1, WordChars);
    var w := src[n..end];
    SkipWhileRun(src, n + 1, WordChars);
    SliceSlice(src, n, end, 1, |w|);
    WordLexeme(w);
    NoNewlineIn(WordChars, src[n + 1..end]);
    LineStep(src, n);
    LineAcross(src, n + 1, end);
  }

  // One step of the scanner.

  /** Where `scan_token` starts: `start` at the cursor, which is inside
      the source, and `line` counts the newlines before it. */
  predicate Ready(src: string, st: ScanState) {
    st.start == st.current < |src| && st.line == 1 + Newlines(src[..st.current])
  }

  /** `r` is `st` with the cursor moved forward over text that emits no
      token. */
  predicate Moved(src: string, st: ScanState, r: ScanState) {
    && r.start == st.start && r.tokens == st.tokens
    && st.current < r.current <= |src| && r.line == 1 + Newlines(src[..r.current])
  }

  /** `r` is `st` with the well-lexed token `lx`, cut from the cursor on,
      appended and the cursor moved to its end. */
  predicate Emitted(src: string, st: ScanState, r: ScanState, lx: Lexed) {
    && WellLexed(src, lx) && lx.start == st.current
    && r.start == st.start && r.current == lx.end && r.line == lx.token.line
    && r.tokens == st.tokens + [lx]
  }

  /** One scanner step: either nothing is emitted, or exactly one token. */
  predicate Stepped(src: string, st: ScanState, r: ScanState) {
    || Moved(src, st, r)
    || (|r.tokens| == |st.tokens| + 1 && Emitted(src, st, r, r.tokens[|st.tokens|]))
  }

  lemma EmittedStep(src: string, st: ScanState, r: ScanState, lx: Lexed)
    requires Emitted(src, st, r, lx)
    ensures Stepped(src, st, r)
  {
    assert r.tokens[|st.tokens|] == lx;
  }

  /** A token of fixed spelling ending at `end`. */
  lemma SpelledStep(src: string, st: ScanState, end: nat, t: TokenType)
    requires Ready(src, st) && st.current < end <= |src|
    requires AllIn(NotNewline, src[st.current..end]) && Lexeme(t, "", src[st.current..end])
    ensures Stepped(src, st, AddToken(src, st.(current := end), t, ""))
  {
    var n := st.current;
    SpelledLexed(src, n, end, t, st.line);
    EmittedStep(src, st, AddToken(src, st.(current := end), t, ""), Lexed(Token(src[n..end], t, "", st.line), n, end));
  }

  /** A character that emits nothing: a blank, a newline, an unexpected
      character. */
  lemma SkippedStep(src: string, st: ScanState, r: ScanState)
    requires Ready(src, st)
    requires r.start == st.start && r.tokens == st.tokens && r.current == st.current + 1
    requires r.line == st.line + (if src[st.current] == '\n' then 1 else 0)
    ensures Stepped(src, st, r)
  {
    LineStep(src, st.current);
  }

  /** A `//` comment holds no newline. */
  lemma CommentLine(src: string, n: nat)
    requires n + 1 < |src| && src[n] == '/' && src[n + 1] == '/'
    ensures Newlines(src[..SkipWhile(src, n + 2, NotNewline)]) == Newlines(src[..n])
  {
    LineStep(src, n);
    LineStep(src, n + 1);
    SkipWhileRun(src, n + 2, NotNewline);
    LineAcross(src, n + 2, SkipWhile(src, n + 2, NotNewline));
  }

  /** A `//` comment runs to the next newline and emits nothing. */
  lemma CommentStep(src: string, st: ScanState)
    requires Ready(src, st) && st.current + 1 < |src|
    requires src[st.current] == '/' && src[st.current + 1] == '/'
    ensures Stepped(src, st, st.(current := SkipWhile(src, st.current + 2, NotNewline)))
  {
    CommentLine(src, st.current);
  }

  lemma StringStep(src: string, st: ScanState)
    requires Ready(src, st) && src[st.current] == '"'
    ensures Stepped(src, st, ReadString(src, st.(current := st.current + 1)))
  {
    var n := st.current;
    var r := ReadString(src, st.(current := n + 1));
    var close := SkipWhile(src, n + 1, NotQuote);
    if close == |src| {
      LineStep(src, n);
      LineSplit(src, n + 1, close);
      assert Moved(src, st, r);
    } else {
      StringLine(src, n, close);
      StringLexed(src, n, close);
      EmittedStep(src, st, r, Lexed(Token(src[n..close + 1], String, src[n + 1..close], 1 + Newlines(src[..close + 1])), n, close + 1));
    }
  }

  lemma NumberStep(src: string, st: ScanState)
    requires Ready(src, st) && Decimal.IsDigit(src[st.current])
    ensures Stepped(src, st, ScanNumber(src, st.(current := st.current + 1)))
  {
    var n := st.current;
    var end := NumberEnd(src, n + 1);
    NumberLexed(src, n, st.line);
    EmittedStep(src, st, ScanNumber(src, st.(current := n + 1)), Lexed(Token(src[n..end], Number, src[n..end], st.line), n, end));
  }

  lemma IdentifierStep(src: string, st: ScanState)
    requires Ready(src, st) && IsAlpha(src[st.current])
    ensures Stepped(src, st, ScanIdentifier(src, st.(current := st.current + 1)))
  {
    var n := st.current;
    var end := SkipWhile(src, n + 1, WordChars);
    IdentifierLexed(src, n, st.line);
    EmittedStep(src, st, ScanIdentifier(src, st.(current := n + 1)), Lexed(Token(src[n..end], WordType(src[n..end]), "", st.line), n, end));
  }

  /** `scan_token` on one of the ten single-character tokens. */
  lemma SingleStep(src: string, st: ScanState)
    requires Ready(src, st) && SingleCharType(src[st.current]).Some?
    ensures Stepped(src, st, ScanToken(src, st))
  {
    var n := st.current;
    assert src[n..n + 1] == [src[n]];
    SpelledStep(src, st, n + 1, SingleCharType(src[n]).value);
  }

  /** `scan_token` on `!`, `=`, `<` or `>`: maximal munch of a following
      `=`. */
  lemma OneOrTwoStep(src: string, st: ScanState)
    requires Ready(src, st) && SingleCharType(src[st.current]).None? && OneOrTwoType(src[st.current]).Some?
    ensures Stepped(src, st, ScanToken(src, st))
  {
    var n := st.current;
    var c := src[n];
    if NextIs(src, n + 1, '=') {
      assert src[n..n + 2] == [c, '='];
      SpelledStep(src, st, n + 2, OneOrTwoType(c).value.1);
    } else {
      assert src[n..n + 1] == [c];
      SpelledStep(src, st, n + 1, OneOrTwoType(c).value.0);
    }
  }

  /** `scan_token` on `/`: a comment or the Slash token. */
  lemma SlashStep(src: string, st: ScanState)
    requires Ready(src, st) && src[st.current] == '/'
    ensures Stepped(src, st, ScanToken(src, st))
  {
    var n := st.current;
    if NextIs(src, n + 1, '/') {
      CommentStep(src, st);
    } else {
      assert src[n..n + 1] == ['/'];
      SpelledStep(src, st, n + 1, Slash);
    }
  }

  /** `scan_token` on any other character. */
  lemma OtherStep(src: string, st: ScanState)
    requires Ready(src, st)
    requires var c := src[st.current]; SingleCharType(c).None? && OneOrTwoType(c).None? && c != '/'
    ensures Stepped(src, st, ScanToken(src, st))
  {
    var n := st.current;
    var c := src[n];
    var next := st.(current := n + 1);
    if c == ' ' || c == '\r' || c == '\t' {
      SkippedStep(src, st, next);
    } else if c == '\n' {
      SkippedStep(src, st, next.(line := st.line + 1));
    } else if c == '"' {
      StringStep(src, st);
    } else if Decimal.IsDigit(c) {
      NumberStep(src, st);
    } else if IsAlpha(c) {
      IdentifierStep(src, st);
    } else {
      SkippedStep(src, st, next.(hasError := true));
    }
  }

  /** `scan_token` either emits nothing or emits exactly one well-lexed
      token cut from the cursor on. */
  lemma ScanTokenStep(src: string, st: ScanState)
    requires Ready(src, st)
    ensures Stepped(src, st, ScanToken(src, st))
  {
    var c := src[st.current];
    if SingleCharType(c).Some? {
      SingleStep(src, st);
    } else if OneOrTwoType(c).Some? {
      OneOrTwoStep(src, st);
    } else if c == '/' {
      SlashStep(src, st);
    } else {
      OtherStep(src, st);
    }
  }

  // Keeping the invariant.

  lemma ChainedWider(src: string, ts: seq<Lexed>, b: nat, b': nat)
    requires Chained(src, ts, b) && b <= b'
    ensures Chained(src, ts, b')
  {
  }

  /** Any step from a valid state at `start` leads to a valid state. */
  lemma StepValid(src: string, st: ScanState, r: ScanState)
    requires Valid(src, st) && st.start == st.current && Stepped(src, st, r)
    ensures Valid(src, r)
  {
    if Moved(src, st, r) {
      ChainedWider(src, st.tokens, st.current, r.current);
    } else {
      assert r.tokens[..|st.tokens|] == st.tokens;
    }
  }

  lemma ScanTokenValid(src: string, st: ScanState)
    requires Valid(src, st) && st.start == st.current < |src|
    ensures Valid(src, ScanToken(src, st))
  {
    ScanTokenStep(src, st);
    StepValid(src, st, ScanToken(src, st));
  }

  /** The `scan_tokens` loop keeps the invariant. */
  lemma {:induction false} ScanLoopValid(src: string, st: ScanState)
    requires Valid(src, st)
    ensures Valid(src, ScanLoop(src, st))
    decreases |src| - st.current
  {
    if st.current < |src| {
      var reset := st.(start := st.current);
      ScanTokenValid(src, reset);
      ScanLoopValid(src, ScanToken(src, reset));
    }
  }
}
