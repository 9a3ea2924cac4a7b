/** What one call of `scan_token` does, case by case, stated against the
    source text rather than against the scanner's own helper procedures. */
module ScanSteps {
  import opened Tokens
  import Decimal
  import opened Scanner
  import opened ScanInvariant

  /** The loop of `SkipWhile` runs to the end of the source exactly when
      every remaining character is in the run. */
  lemma {:induction false} SkipWhileEnd(src: string, cur: nat, k: Run)
    requires cur <= |src|
    ensures SkipWhile(src, cur, k) == |src| <==> AllIn(k, src[cur..])
    decreases |src| - cur
  {
    if cur < |src| {
      assert src[cur..][1..] == src[cur + 1..];
      if InRun(k, src[cur]) {
        SkipWhileEnd(src, cur + 1, k);
      }
    }
  }

  /** `!`, `=`, `<` and `>` make the two-character operator exactly when
      `=` follows, and the operator's spelling is the text consumed. */
  lemma OperatorMunch(src: string, st: ScanState, r: ScanState)
    requires st.start == st.current < |src| && OneOrTwoType(src[st.current]).Some?
    requires r == ScanToken(src, st)
    ensures |r.tokens| == |st.tokens| + 1 && r.line == st.line && r.hasError == st.hasError
    ensures r.current == st.current + 2 <==> NextIs(src, st.current + 1, '=')
    ensures r.current == st.current + 1 <==> !NextIs(src, st.current + 1, '=')
    ensures r.tokens[|st.tokens|].token.lexeme == src[st.current..r.current]
    ensures IsOneOrTwoChar(r.tokens[|st.tokens|].token.tokenType)
    ensures Spelling(r.tokens[|st.tokens|].token.tokenType) == src[st.current..r.current]
  {
    var n := st.current;
    var c := src[n];
    assert SingleCharType(c).None?;
    if NextIs(src, n + 1, '=') {
      assert src[n..n + 2] == [c, '='];
    } else {
      assert src[n..n + 1] == [c];
    }
  }

  /** `//` consumes the rest of the line up to, not including, the next
      newline, and emits nothing. */
  lemma CommentSkipped(src: string, st: ScanState, r: ScanState)
    requires st.start == st.current && st.current + 1 < |src|
    requires src[st.current] == '/' && src[st.current + 1] == '/'
    requires r == ScanToken(src, st)
    ensures r.tokens == st.tokens && r.line == st.line && r.hasError == st.hasError
    ensures r.current == |src| || src[r.current] == '\n'
    ensures AllIn(NotNewline, src[st.current..r.current])
  {
    var n := st.current;
    assert r.current == SkipWhile(src, n + 2, NotNewline);
    SkipWhileRun(src, n + 2, NotNewline);
    RunCons(src, n + 1, r.current, NotNewline);
    RunCons(src, n, r.current, NotNewline);
  }

  /** Space, `\r`, `\t` and newline emit nothing and consume one
      character; only the newline moves the line counter, by one. */
  lemma BlankSkipped(src: string, st: ScanState, r: ScanState)
    requires st.start == st.current < |src| && src[st.current] in " \r\t\n"
    requires r == ScanToken(src, st)
    ensures r.tokens == st.tokens && r.hasError == st.hasError && r.current == st.current + 1
    ensures r.line == st.line + (if src[st.current] == '\n' then 1 else 0)
  {
  }

  /** A string with no closing quote sets the error flag, emits nothing
      and consumes the rest of the source, counting its newlines. */
  lemma UnterminatedString(src: string, st: ScanState, r: ScanState)
    requires st.start == st.current < |src| && src[st.current] == '"'
    requires AllIn(NotQuote, src[st.current + 1..])
    requires r == ScanToken(src, st)
    ensures r.hasError && r.tokens == st.tokens && r.current == |src|
    ensures r.line == st.line + Newlines(src[st.current + 1..])
  {
    SkipWhileEnd(src, st.current + 1, NotQuote);
    assert src[st.current + 1..|src|] == src[st.current + 1..];
  }

  /** `read_string` after an opening quote at `start`, when a closing
      quote follows. */
  lemma ClosedRead(src: string, st: ScanState, r: ScanState)
    requires st.start + 1 == st.current <= |src| && src[st.start] == '"'
    requires !AllIn(NotQuote, src[st.current..])
    requires r == ReadString(src, st)
    ensures r.hasError == st.hasError && |r.tokens| == |st.tokens| + 1
    ensures r.tokens[|st.tokens|].token.tokenType == String
    ensures r.tokens[|st.tokens|].token.lexeme == src[st.start..r.current]
    ensures r.tokens[|st.tokens|].token.lexeme == ['"'] + r.tokens[|st.tokens|].token.literal + ['"']
    ensures AllIn(NotQuote, r.tokens[|st.tokens|].token.literal)
    ensures r.line == st.line + Newlines(r.tokens[|st.tokens|].token.literal)
  {
    var close := SkipWhile(src, st.current, NotQuote);
    SkipWhileEnd(src, st.current, NotQuote);
    SkipWhileRun(src, st.current, NotQuote);
    assert src[st.start..close + 1] == ['"'] + src[st.current..close] + ['"'];
  }

  /** A string with a closing quote emits one String token whose literal
      is the text strictly between the opening quote and the first quote
      after it, and whose lexeme is that text with both quotes. */
  lemma TerminatedString(src: string, st: ScanState, r: ScanState)
    requires st.start == st.current < |src| && src[st.current] == '"'
    requires !AllIn(NotQuote, src[st.current + 1..])
    requires r == ScanToken(src, st)
    ensures r.hasError == st.hasError && |r.tokens| == |st.tokens| + 1
    ensures r.tokens[|st.tokens|].token.tokenType == String
    ensures r.tokens[|st.tokens|].token.lexeme == src[st.current..r.current]
    ensures r.tokens[|st.tokens|].token.lexeme == ['"'] + r.tokens[|st.tokens|].token.literal + ['"']
    ensures AllIn(NotQuote, r.tokens[|st.tokens|].token.literal)
    ensures r.line == st.line + Newlines(r.tokens[|st.tokens|].token.literal)
  {
    assert r == ReadString(src, st.(current := st.current + 1));
    ClosedRead(src, st.(current := st.current + 1), r);
  }

  /** A number is the longest run of digits, then a dot and a further run
      of digits only when a digit follows the dot; its literal is its
      lexeme. */
  lemma NumberScanned(src: string, st: ScanState, r: ScanState)
    requires st.start == st.current < |src| && Decimal.IsDigit(src[st.current])
    requires r == ScanToken(src, st)
    ensures r.hasError == st.hasError && r.line == st.line && |r.tokens| == |st.tokens| + 1
    ensures r.tokens[|st.tokens|].token.tokenType == Number
    ensures r.tokens[|st.tokens|].token.lexeme == src[st.current..r.current]
    ensures r.tokens[|st.tokens|].token.literal == src[st.current..r.current]
    ensures Decimal.IsNumberText(src[st.current..r.current])
    ensures r.current == |src| || !Decimal.IsDigit(src[r.current])
    ensures r.current + 1 < |src| && src[r.current] == '.' && Decimal.IsDigit(src[r.current + 1])
            ==> '.' in src[st.current..r.current]
  {
    var n := st.current;
    var whole := SkipWhile(src, n + 1, Digits);
    var end := NumberEnd(src, n + 1);
    NumberLexed(src, n, 1 + Newlines(src[..n]));
    assert r.current == end;
    if Peek(src, whole) == '.' && Decimal.IsDigit(PeekNext(src, whole)) {
      assert src[n..end][whole - n] == '.';
    }
  }

  /** `identifier` after a letter or `_` at `start`. */
  lemma WordRead(src: string, st: ScanState, r: ScanState)
    requires st.start + 1 == st.current <= |src| && IsAlpha(src[st.start])
    requires r == ScanIdentifier(src, st)
    ensures r.hasError == st.hasError && r.line == st.line && |r.tokens| == |st.tokens| + 1
    ensures r.tokens[|st.tokens|].token.lexeme == src[st.start..r.current]
    ensures r.tokens[|st.tokens|].token.literal == ""
    ensures IsWord(src[st.start..r.current])
    ensures r.current == |src| || !IsAlphaNumeric(src[r.current])
    ensures r.tokens[|st.tokens|].token.tokenType == WordType(src[st.start..r.current])
  {
    var end := SkipWhile(src, st.current, WordChars);
    SkipWhileRun(src, st.current, WordChars);
    assert src[st.start..end][1..] == src[st.current..end];
  }

  /** A letter or `_` starts none of the lexemes recognised before words. */
  lemma AlphaFallsThrough(c: char)
    requires IsAlpha(c)
    ensures SingleCharType(c).None? && OneOrTwoType(c).None? && c !in "/ \r\t\n\"" && !Decimal.IsDigit(c)
  {
  }

  /** A word is the longest run of letters, digits and `_` after a letter
      or `_`; it is a keyword exactly when the table lists it. */
  lemma WordScanned(src: string, st: ScanState, r: ScanState)
    requires st.start == st.current < |src| && IsAlpha(src[st.current])
    requires r == ScanToken(src, st)
    ensures r.hasError == st.hasError && r.line == st.line && |r.tokens| == |st.tokens| + 1
    ensures r.tokens[|st.tokens|].token.lexeme == src[st.current..r.current]
    ensures r.tokens[|st.tokens|].token.literal == ""
    ensures IsWord(src[st.current..r.current])
    ensures r.current == |src| || !IsAlphaNumeric(src[r.current])
    ensures r.tokens[|st.tokens|].token.tokenType == WordType(src[st.current..r.current])
    ensures src[st.current..r.current] in Keywords
            <==> r.tokens[|st.tokens|].token.tokenType != Identifier
  {
    AlphaFallsThrough(src[st.current]);
    assert r == ScanIdentifier(src, st.(current := st.current + 1));
    WordRead(src, st.(current := st.current + 1), r);
  }

  /** The characters `scan_token` knows how to start a lexeme or a blank
      with. */
  predicate Expected(c: char) {
    || SingleCharType(c).Some? || OneOrTwoType(c).Some?
    || c in "/ \r\t\n\"" || Decimal.IsDigit(c) || IsAlpha(c)
  }

  /** Any other character sets the error flag, emits nothing, and scanning
      carries on after it. */
  lemma UnexpectedSkipped(src: string, st: ScanState, r: ScanState)
    requires st.start == st.current < |src| && !Expected(src[st.current])
    requires r == ScanToken(src, st)
    ensures r.hasError && r.tokens == st.tokens && r.line == st.line
    ensures r.current == st.current + 1
  {
  }

  /** The keyword table has sixteen words, all of them words in the sense
      of the scanner and each mapped to a keyword kind; `function` is the
      spelling of Fun. */
  lemma KeywordTable()
    ensures Keywords["function"] == Fun
    ensures forall w :: w in Keywords ==> IsKeyword(Keywords[w])
  {
  }

  /** Punctuation and operators start with none of the characters that
      start strings, numbers and words. */
  lemma SpelledStart(t: TokenType)
    requires Spelling(t) != ""
    ensures Spelling(t)[0] != '"' && !Decimal.IsDigit(Spelling(t)[0]) && !IsAlpha(Spelling(t)[0])
  {
  }

  lemma NumberTextStart(w: string)
    requires Decimal.IsNumberText(w)
    ensures |w| > 0 && Decimal.IsDigit(w[0])
  {
    if !(|w| > 0 && Decimal.AllDigits(w)) {
      var k :| 0 < k < |w| - 1 && w[k] == '.' && Decimal.AllDigits(w[..k]) && Decimal.AllDigits(w[k + 1..]);
      assert w[..k][0] == w[0];
    }
  }

  /** The first character of a lexeme tells which of the four families its
      kind belongs to. */
  lemma LexemeStart(t: TokenType, literal: string, w: string)
    requires Lexeme(t, literal, w)
    ensures |w| > 0
    ensures t == String <==> w[0] == '"'
    ensures t == Number <==> Decimal.IsDigit(w[0])
    ensures t == Identifier || IsKeyword(t) <==> IsAlpha(w[0])
  {
    if t == Number {
      NumberTextStart(w);
    } else if t != String && t != Identifier && !IsKeyword(t) {
      SpellingGroups(t);
      SpelledStart(t);
    }
  }

  lemma WordLexemeKind(t: TokenType, literal: string, w: string)
    requires Lexeme(t, literal, w) && (t == Identifier || IsKeyword(t))
    ensures t == WordType(w) && literal == ""
  {
  }

  lemma SpelledLexemeKind(t: TokenType, literal: string, w: string)
    requires Lexeme(t, literal, w) && t != String && t != Number && t != Identifier && !IsKeyword(t)
    ensures Spelling(t) == w != "" && literal == ""
  {
    SpellingGroups(t);
  }

  /** A lexeme determines its kind and its literal: no text is read two
      ways. */
  lemma LexemeDetermines(t1: TokenType, l1: string, t2: TokenType, l2: string, w: string)
    requires Lexeme(t1, l1, w) && Lexeme(t2, l2, w)
    ensures t1 == t2 && l1 == l2
  {
    LexemeStart(t1, l1, w);
    LexemeStart(t2, l2, w);
    if IsAlpha(w[0]) {
      WordLexemeKind(t1, l1, w);
      WordLexemeKind(t2, l2, w);
    } else if w[0] != '"' && !Decimal.IsDigit(w[0]) {
      SpelledLexemeKind(t1, l1, w);
      SpelledLexemeKind(t2, l2, w);
      SpellingInjective(t1, t2);
    }
  }
}
