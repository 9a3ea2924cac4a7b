/** What `scan_tokens` returns, as a whole: a list of well-lexed tokens cut
    in order from the source, closed by exactly one Eof token. */
module ScanFacts {
  import opened Tokens
  import opened Scanner
  import opened ScanInvariant

  /** Every token of a chain is well lexed and ends by the bound. */
  lemma {:induction false} ChainedWellLexed(src: string, ts: seq<Lexed>, b: nat)
    requires Chained(src, ts, b)
    ensures forall i :: 0 <= i < |ts| ==> WellLexed(src, ts[i]) && ts[i].end <= b
    decreases |ts|
  {
    if |ts| > 0 {
      var init := ts[..|ts| - 1];
      ChainedWellLexed(src, init, ts[|ts| - 1].start);
      assert forall i :: 0 <= i < |init| ==> ts[i] == init[i];
    }
  }

  /** The tokens of a chain come in source order and do not overlap. */
  lemma {:induction false} ChainedOrdered(src: string, ts: seq<Lexed>, b: nat)
    requires Chained(src, ts, b)
    ensures forall i, j :: 0 <= i < j < |ts| ==> ts[i].end <= ts[j].start
    decreases |ts|
  {
    if |ts| > 0 {
      var init := ts[..|ts| - 1];
      ChainedWellLexed(src, init, ts[|ts| - 1].start);
      ChainedOrdered(src, init, ts[|ts| - 1].start);
      assert forall i :: 0 <= i < |init| ==> ts[i] == init[i];
    }
  }

  lemma InitialValid(src: string)
    ensures Valid(src, Initial)
  {
    assert src[..0] == [];
  }

  lemma WholeLine(src: string, st: ScanState)
    requires st.current == |src| && st.line == 1 + Newlines(src[..st.current])
    ensures st.line == 1 + Newlines(src)
  {
    assert src[..|src|] == src;
  }

  /** The state the loop ends in, before Eof is appended. */
  lemma LoopEnd(src: string)
    ensures Valid(src, ScanLoop(src, Initial))
    ensures ScanLoop(src, Initial).line == 1 + Newlines(src)
  {
    InitialValid(src);
    ScanLoopValid(src, Initial);
    WholeLine(src, ScanLoop(src, Initial));
  }

  /** `scan_tokens` appends Eof to the tokens of the loop: it has no
      literal, the line count of the whole source, and as lexeme the source
      from where the last `scan_token` started to the end. */
  lemma EofLast(src: string)
    ensures Scan(src).tokens == ScanLoop(src, Initial).tokens + [EofToken(src)]
  {
    LoopEnd(src);
  }

  /** The Eof token `scan_tokens` appends. */
  function EofToken(src: string): (lx: Lexed)
    ensures lx.token.tokenType == Eof && lx.token.literal == "" && lx.end == |src|
  {
    var start := ScanLoop(src, Initial).start;
    Lexed(Token(src[start..|src|], Eof, "", 1 + Newlines(src)), start, |src|)
  }

  /** Every token before the Eof is well lexed (so it is not Eof), the
      spans come in order without overlap, and none starts after the Eof
      lexeme. */
  lemma TokensBeforeEof(src: string)
    ensures forall i :: 0 <= i < |ScanLoop(src, Initial).tokens| ==>
      WellLexed(src, ScanLoop(src, Initial).tokens[i]) && ScanLoop(src, Initial).tokens[i].start <= EofToken(src).start
    ensures forall i, j :: 0 <= i < j < |ScanLoop(src, Initial).tokens| ==>
      ScanLoop(src, Initial).tokens[i].end <= ScanLoop(src, Initial).tokens[j].start
  {
    LoopEnd(src);
    LastStart(src, ScanLoop(src, Initial));
  }

  /** In a valid state every token is well lexed, the spans are ordered and
      none starts after `start`. */
  lemma LastStart(src: string, st: ScanState)
    requires Valid(src, st)
    ensures forall i :: 0 <= i < |st.tokens| ==> WellLexed(src, st.tokens[i]) && st.tokens[i].start <= st.start
    ensures forall i, j :: 0 <= i < j < |st.tokens| ==> st.tokens[i].end <= st.tokens[j].start
  {
    ChainedWellLexed(src, st.tokens, st.current);
    ChainedOrdered(src, st.tokens, st.current);
  }

  /** No well-lexed token is Eof. */
  lemma WellLexedNotEof(src: string, lx: Lexed)
    requires WellLexed(src, lx)
    ensures lx.token.tokenType != Eof
  {
  }

  /** The token list ends with exactly one Eof token. */
  lemma ExactlyOneEof(src: string)
    ensures var ts := ScanTokens(src);
      |ts| > 0 && ts[|ts| - 1].tokenType == Eof
      && forall i :: 0 <= i < |ts| - 1 ==> ts[i].tokenType != Eof
  {
    EofLast(src);
    TokensBeforeEof(src);
    var ls := Scan(src).tokens;
    var loop := ScanLoop(src, Initial).tokens;
    forall i | 0 <= i < |ls| - 1
      ensures ls[i].token.tokenType != Eof
    {
      assert ls[i] == loop[i];
      WellLexedNotEof(src, loop[i]);
    }
  }
}
