# aurora, modelled in Dafny

aurora is a small tree-walking interpreter, written in Rust, for a Lox-like
scripting language. The repository also holds a Python benchmark. This
project models the interpreter's core as pure Dafny functions over immutable
datatypes:

- the scanner, which turns a `seq<char>` into tokens (`Scanner`, with the
  invariant it keeps in `ScanInvariant` and its per-character behaviour in
  `ScanSteps` and `ScanFacts`);
- the recursive-descent parser over the token list, with its cursor ops,
  precedence chain, statements and error recovery (`Parser`). What a parsed
  tree says about its tokens is in `Readback`, and the proofs are in
  `ParserFacts`. `ParseComplete` proves the converse: tokens that read as a
  program the parser can build are parsed to exactly that program;
- the token kinds, the token record and their display formats (`Tokens`,
  with decimal text of line numbers in `Decimal`);
- the scope stack: memories, define, get and assign, capture detection,
  pending injects, push and pop, the return latch and the flags
  (`Environments`, over the datatypes of `Runtime`);
- the pure literal evaluator of the parser's expressions (`Syntax`,
  `LiteralEval`);
- the environment-based evaluator of expressions, closure-capture resolution,
  and the execution of `print`, expression, `var` and block statements
  (`Evaluator`). What these promise is in `EvalFacts`. That module also
  proves the two evaluators agree on the expressions both handle;
- `fibonacci` from the benchmark (`Bench`).

Each panic in the source is an `Err` of a `Result`, with one error kind per
panic site. Messages are not modelled. The crate is mid-refactor and has two
`Object` types. `Syntax.Object` is the parser's, whose `NilObject` carries an
optional tag. `Runtime.Object` is the interpreter's. Each is modelled as
written, so the operator dispatch appears twice, once over each `Object`
type, as it does in the source. `IsInFunction`, `IsInMethod` and `IsClassInstance` in
`Environments` read the innermost scope's flags. They serve `this` and have
no contract of their own. Token equality is field-wise because `Token` is a
datatype.

The benchmark's `fibonacci` returns any `n < 2` unchanged, so a negative
argument is returned as it is (`Bench.FibonacciIsStandard`).

## Model

| member | source | states |
|---|---|---|
| Tokens.Ordinal | src/aurora/token.rs:4-23 | every token kind has a position below 39 in declaration order |
| Tokens.OrdinalRoundTrip | src/aurora/token.rs:4-23 | the position of a kind leads back to that kind |
| Tokens.TypeAtRoundTrip | src/aurora/token.rs:4-23 | the 39 positions and the 39 kinds correspond one to one |
| Tokens.TokenTypeGroups | src/aurora/token.rs:4-23 | the kinds are 11 single-character, 8 one-or-two-character, 3 literal kinds, 16 keywords, then Eof, in that order |
| Tokens.SpellingGroups | src/aurora/token.rs:5-13 | exactly the single- and one-or-two-character kinds have a fixed spelling, one character long or one or two characters long respectively |
| Tokens.SpellingInjective | src/aurora/token.rs:5-13 | no two kinds share a spelling |
| Tokens.ShowFormat | src/aurora/token.rs:25-43 | a token's display starts with the type label and the kind's variant name then the lexeme label, and ends with the line label and a decimal that reads back as the token's line |
| Decimal.DigitChar | src/aurora/token.rs:41 | a digit's character is a decimal digit with that value |
| Decimal.DigitValue | src/aurora/token.rs:41 | reading a digit character gives the digit whose character it is |
| Decimal.NatToString | src/aurora/token.rs:41 | a line number prints as a non-empty run of digits with no leading zero |
| Decimal.NatToStringRoundTrip | src/aurora/token.rs:41 | the printed digits of a number read back as that number |
| Decimal.NatToStringInjective | src/aurora/token.rs:41 | different numbers print differently |
| Decimal.IndexOfDot | src/aurora/scanner.rs:186-205 | the first `.` at or after a position, or the end when there is none |
| Decimal.ParseNumber | src/aurora/parser.rs:164-166 | a parsed number is never negative, and a literal of digits only gives the integer those digits write |
| Decimal.ParseNumberAccepts | src/aurora/parser.rs:164-166 | a number literal parses exactly when it is digits with an optional fraction of at least one digit |
| Decimal.DottedValue | src/aurora/parser.rs:164-166 | a literal `a.b` parses to the integer `a` writes plus the integer `b` writes divided by ten to the number of digits of `b` |
| Decimal.ParseNumberValue | src/aurora/parser.rs:164-166 | every parsed literal's value is its digits with the dot removed, read as an integer, divided by ten to the number of digits after the dot |
| Scanner.WordType | src/aurora/scanner.rs:19-35 | a word is a keyword kind exactly when it is in the 16-word table, and an Identifier otherwise |
| Scanner.SingleCharType | src/aurora/scanner.rs:87-96 | a single-character token's kind is spelled by that character, and `/` is not among them |
| Scanner.OneOrTwoType | src/aurora/scanner.rs:97-112 | `!`, `=`, `<` and `>` give a one-character kind spelled by the character and a two-character kind spelled by it followed by `=` |
| Scanner.SkipWhile | src/aurora/scanner.rs:113-122 | skipping a run stops within the source, at its end or at the first character outside the run |
| ScanSteps.SkipWhileEnd | src/aurora/scanner.rs:113-122 | skipping a run reaches the end of the source exactly when the rest is all in the run |
| Scanner.AddToken | src/aurora/scanner.rs:69-82 | a token is appended whose lexeme is the source slice from `start` to `current`, on the current line; nothing else changes |
| Scanner.NumberEnd | src/aurora/scanner.rs:186-205 | the end of a number lies between its start and the end of the source |
| Scanner.ScanToken | src/aurora/scanner.rs:84-137 | one step consumes at least one character and appends at most one token, leaving the earlier ones alone |
| Scanner.ScanLoop | src/aurora/scanner.rs:46-51 | the loop runs to the end of the source and only appends tokens |
| Scanner.Scan | src/aurora/scanner.rs:46-54 | the token list is never empty and ends with an Eof token |
| Scanner.TokensOf | src/aurora/scanner.rs:46-54 | the returned tokens are the recorded ones, in order |
| ScanInvariant.ScanTokenValid | src/aurora/scanner.rs:84-137 | every step keeps the scanner invariant: the line counts the newlines before the cursor, and the tokens so far are well lexed and cut in order, without overlap, from before the cursor |
| ScanInvariant.ScanLoopValid | src/aurora/scanner.rs:46-51 | the loop keeps the scanner invariant from any state that has it |
| ScanFacts.InitialValid | src/aurora/scanner.rs:36-44 | the initial state, on line 1 with no tokens, satisfies the invariant |
| ScanFacts.LoopEnd | src/aurora/scanner.rs:41 | after the loop the invariant holds, and the line is one more than the number of newlines in the whole source, whether consumed at top level or inside strings |
| ScanFacts.ChainedWellLexed | src/aurora/scanner.rs:69-82 | every token of a chained list is well lexed: its lexeme is its source slice and its kind and literal fit that lexeme |
| ScanFacts.ChainedOrdered | src/aurora/scanner.rs:47-50 | the spans of successive tokens come in order without overlap |
| ScanFacts.EofToken | src/aurora/scanner.rs:52 | the appended Eof token has an empty literal and a span ending at the end of the source |
| ScanFacts.EofLast | src/aurora/scanner.rs:46-54 | the scanner's list is the loop's tokens followed by one Eof token, whose span starts where the last step started |
| ScanFacts.TokensBeforeEof | src/aurora/scanner.rs:46-54 | every token before the Eof is well lexed, none starts after the Eof lexeme, and their spans are ordered and disjoint |
| ScanFacts.WellLexedNotEof | src/aurora/scanner.rs:84-137 | no step of the scanner cuts an Eof token |
| ScanFacts.ExactlyOneEof | src/aurora/scanner.rs:46-54 | the token list ends with Eof and has no other Eof token |
| ScanFacts.LastStart | src/aurora/scanner.rs:47-50 | in a valid state no token starts after `start`, and the spans are ordered and disjoint |
| ScanSteps.OperatorMunch | src/aurora/scanner.rs:97-112 | `!`, `=`, `<` or `>` followed by `=` gives the two-character token and otherwise the one-character token; the lexeme is the spelling of its kind |
| ScanSteps.CommentSkipped | src/aurora/scanner.rs:113-118 | `//` skips up to but not including the next newline or the end, and emits no token |
| ScanSteps.BlankSkipped | src/aurora/scanner.rs:123-124 | a space, `\r`, `\t` or newline emits nothing and moves one character; only the newline adds a line |
| ScanSteps.UnterminatedString | src/aurora/scanner.rs:157-168 | a string with no closing quote sets the error flag, emits nothing and consumes the rest of the source, counting its newlines |
| ScanSteps.ClosedRead | src/aurora/scanner.rs:157-180 | a closed string emits one String token whose lexeme is the quoted text and whose literal is the text between the quotes, and the line counts its newlines |
| ScanSteps.TerminatedString | src/aurora/scanner.rs:125-180 | the same, for the step that starts at the opening quote |
| ScanSteps.NumberScanned | src/aurora/scanner.rs:186-216 | a number is digits, with a `.` taken only when a digit follows it; the literal equals the lexeme, and the token stops before the next digit |
| ScanSteps.WordRead | src/aurora/scanner.rs:218-238 | a word runs to the first character that is not a letter, digit or `_`; its kind is what the keyword table says and its literal is empty |
| ScanSteps.WordScanned | src/aurora/scanner.rs:126-238 | a letter or `_` starts a word token, which is a keyword exactly when the word is in the table |
| ScanSteps.AlphaFallsThrough | src/aurora/scanner.rs:86-129 | a letter matches none of the earlier character cases |
| ScanSteps.UnexpectedSkipped | src/aurora/scanner.rs:126-135 | any other character sets the error flag, emits nothing, moves one character, and scanning goes on |
| ScanSteps.KeywordTable | src/aurora/scanner.rs:19-35 | `function` maps to Fun, and every entry of the table is a keyword kind |
| ScanSteps.LexemeStart | src/aurora/scanner.rs:84-137 | a lexeme's first character tells its class: a quote for a String, a digit for a Number, a letter for a word |
| ScanSteps.WordLexemeKind | src/aurora/scanner.rs:226-238 | a word token's kind is the table's verdict on its lexeme, and its literal is empty |
| ScanSteps.SpelledLexemeKind | src/aurora/scanner.rs:87-112 | an operator or punctuation token's lexeme is the spelling of its kind |
| ScanSteps.LexemeDetermines | src/aurora/scanner.rs:84-137 | a lexeme determines its token's kind and literal |
| Parser.Advance | src/aurora/parser.rs:21-40 | the cursor stays put exactly on Eof and otherwise moves by one, never past the Eof token |
| Parser.Matches | src/aurora/parser.rs:41-55 | matches is true exactly when the current token is not Eof and is one of the kinds; it then advances by exactly one, and otherwise the cursor stays |
| Parser.MatchesInOrder | src/aurora/parser.rs:47-55 | trying the kinds one by one in order agrees with matching against the set of them |
| Parser.Consume | src/aurora/parser.rs:187-192 | consume succeeds exactly when the current token has the kind; it returns that token and moves past it, and otherwise fails naming the kind |
| Parser.OpLevels | src/aurora/parser.rs:61-128 | the equality, comparison, term and factor operators bind at levels 1 to 4 |
| Parser.Expression | src/aurora/parser.rs:57-59 | an expression consumes at least one token, stops before the end, and has the nesting precedence climbing gives; `ParseComplete.ExpressionComplete` is the converse |
| Parser.Equality | src/aurora/parser.rs:61-75 | an equality-level tree is nested and binds no looser than `==`/`!=` |
| Parser.EqualityTail | src/aurora/parser.rs:64-73 | the loop that folds `==`/`!=` operands to the left keeps the nesting |
| Parser.Comparison | src/aurora/parser.rs:77-96 | a comparison-level tree is nested and binds no looser than the comparisons |
| Parser.ComparisonTail | src/aurora/parser.rs:80-94 | the loop that folds comparison operands to the left keeps the nesting |
| Parser.Term | src/aurora/parser.rs:98-112 | a term-level tree is nested and binds no looser than `+`/`-` |
| Parser.TermTail | src/aurora/parser.rs:101-110 | the loop that folds `+`/`-` operands to the left keeps the nesting |
| Parser.Factor | src/aurora/parser.rs:114-128 | a factor-level tree is nested and binds no looser than `*`/`/` |
| Parser.FactorTail | src/aurora/parser.rs:117-126 | the loop that folds `*`/`/` operands to the left keeps the nesting |
| Parser.Unary | src/aurora/parser.rs:130-141 | a unary-level tree is a prefix operator over a unary tree or a primary, so it is never a bare Binary |
| Parser.Atom | src/aurora/parser.rs:145-173 | an atom token becomes a Literal or a Variable, and fails only on a Number literal that does not parse |
| Parser.Primary | src/aurora/parser.rs:143-185 | a primary consumes at least one token and binds tightest |
| Parser.PrintStatement | src/aurora/parser.rs:218-223 | a print statement ends just after a `;` |
| Parser.ExprStatement | src/aurora/parser.rs:225-230 | an expression statement ends just after a `;` |
| Parser.Statement | src/aurora/parser.rs:232-238 | a statement is a Print exactly when it starts with `print`, and ends just after a `;` |
| Parser.VarDeclaration | src/aurora/parser.rs:247-257 | a `var` declaration names the Identifier after `var`, has an initializer exactly when `=` follows the name, and ends just after a `;` |
| Parser.VarInitializer | src/aurora/parser.rs:249-256 | the optional `= expr` is present exactly when the next token is `=`, and a `;` closes the declaration |
| Parser.Declaration | src/aurora/parser.rs:240-245 | a declaration is a variable declaration exactly when it starts with `var` |
| Parser.ParseFrom | src/aurora/parser.rs:259-266 | the declaration loop returns no statement exactly when it starts at Eof, and fewer statements than tokens |
| Parser.Parse | src/aurora/parser.rs:259-266 | a parse returns fewer statements than there are tokens; `ParserFacts.ParseReads` and `ParseComplete.ProgramComplete` say which statements |
| Parser.SyncLoop | src/aurora/parser.rs:197-215 | the recovery loop stops at the first point that follows a `;`, precedes a statement keyword, or is Eof |
| Parser.Synchronize | src/aurora/parser.rs:194-216 | synchronize skips one token and stops at the first such point after it; it fails only on a list holding Eof alone |
| ParserFacts.ReadsBinary | src/aurora/parser.rs:64-73 | one round of a binary level's loop builds a tree that reads as left operand, operator token, right operand |
| ParserFacts.ExpressionReads | src/aurora/parser.rs:57-59 | a parsed expression reads back as exactly the tokens it consumed |
| ParserFacts.EqualityReads | src/aurora/parser.rs:61-75 | the same for the equality level |
| ParserFacts.EqualityTailReads | src/aurora/parser.rs:64-73 | the same for the equality loop, from the start of its left operand |
| ParserFacts.ComparisonReads | src/aurora/parser.rs:77-96 | the same for the comparison level |
| ParserFacts.ComparisonTailReads | src/aurora/parser.rs:80-94 | the same for the comparison loop |
| ParserFacts.TermReads | src/aurora/parser.rs:98-112 | the same for the term level |
| ParserFacts.TermTailReads | src/aurora/parser.rs:101-110 | the same for the term loop |
| ParserFacts.FactorReads | src/aurora/parser.rs:114-128 | the same for the factor level |
| ParserFacts.FactorTailReads | src/aurora/parser.rs:117-126 | the same for the factor loop |
| ParserFacts.UnaryReads | src/aurora/parser.rs:130-141 | a prefix operator sits on its token, followed by its operand's tokens |
| ParserFacts.PrimaryReads | src/aurora/parser.rs:143-185 | a primary reads back as its one atom token or as `(`, the inner expression, `)` |
| ParserFacts.AtomReads | src/aurora/parser.rs:145-173 | an atom's tree is what its single token denotes |
| ParserFacts.AtomDenotes | src/aurora/parser.rs:145-173 | under the literal evaluator, `false`, `true` and `nil` evaluate to their values, a String to its literal text, and a Number to its parsed value; a `var` token's Variable has no value |
| ParserFacts.GroupingReads | src/aurora/parser.rs:174-180 | a grouping reads back as `(`, the inner expression and `)` |
| ParserFacts.StatementReads | src/aurora/parser.rs:218-238 | a parsed statement reads back as `print e ;` or `e ;` over exactly the tokens it consumed |
| ParserFacts.VarDeclarationReads | src/aurora/parser.rs:247-257 | a variable declaration reads back as `var name ;` or `var name = e ;` |
| ParserFacts.DeclarationReads | src/aurora/parser.rs:240-245 | a declaration reads back as its tokens |
| ParserFacts.ProgramReadsCons | src/aurora/parser.rs:261-264 | a statement read back followed by a program read back is a program read back |
| ParserFacts.ParseFromReads | src/aurora/parser.rs:259-266 | the parsed program reads back as its statements back to back, then Eof |
| ParserFacts.ParseReads | src/aurora/parser.rs:259-266 | the same from the first token |
| ParserFacts.ScannedStream | src/aurora/scanner.rs:46-54 | the scanner's output is a list the parser accepts: it ends in Eof |
| ParserFacts.ScannedAtomsParse | src/aurora/parser.rs:160-166 | every Number token the scanner cuts parses as a number, so no scanned atom makes `primary` fail |
| ParserFacts.ScanThenParse | src/aurora/parser.rs:259-266 | the scanner's output ends in Eof, and when the parse of it succeeds the program reads back as the scanned tokens |
| ParseComplete.ReadsFirst | src/aurora/parser.rs:143-185 | the first token of an expression's text is never Eof or `print`, and it is `var` exactly when the expression starts with a Variable |
| ParseComplete.UnaryComplete | src/aurora/parser.rs:130-185 | a prefix operator, grouping or atom tree read from a position is what `unary` parses there, ending after its tokens |
| ParseComplete.FactorComplete | src/aurora/parser.rs:114-128 | a nested tree of factor level or tighter, followed by a token that is not `*` or `/`, is what `factor` parses, ending after its tokens |
| ParseComplete.FactorLoop | src/aurora/parser.rs:117-126 | on a nested tree of factor level or tighter, whatever token follows it, `factor` reaches its loop with the whole tree as the left operand |
| ParseComplete.TermComplete | src/aurora/parser.rs:98-112 | the same for `term`, stopping at a token that is not `+`, `-`, `*` or `/` |
| ParseComplete.ComparisonComplete | src/aurora/parser.rs:77-96 | the same for `comparison`, stopping at a token that is not an arithmetic or comparison operator |
| ParseComplete.EqualityComplete | src/aurora/parser.rs:61-75 | the same for `equality`, stopping at a token that is not a binary operator |
| ParseComplete.ExpressionComplete | src/aurora/parser.rs:57-59 | a nested tree read from a position and followed by a token that is not a binary operator is what `expression` parses there |
| ParseComplete.DeclarationComplete | src/aurora/parser.rs:218-257 | a parsable statement read from a position is what `declaration` parses there, ending just after its `;` |
| ParseComplete.ParseFromComplete | src/aurora/parser.rs:259-266 | parsable statements read back to back up to Eof are what the declaration loop returns |
| ParseComplete.ProgramComplete | src/aurora/parser.rs:259-266 | a token list that reads as a program of parsable statements parses to exactly that program |
| ParseComplete.ParsedParsable | src/aurora/parser.rs:240-266 | every statement a parse returns is parsable, so parses return exactly the parsable programs the tokens read as |
| ParseComplete.ParseExact | src/aurora/parser.rs:259-266 | a parse returns a program exactly when the tokens read as that program and its statements are parsable |
| ParseComplete.ScanThenParseExact | src/aurora/parser.rs:259-266 | the same for the scanner's output: scanning then parsing gives exactly the parsable program the scanned tokens read as |
| ParseComplete.VarStatementFails | src/aurora/parser.rs:240-257 | `var ;` reads as an expression statement over a Variable, yet parsing it fails expecting an Identifier |
| Environments.NewMemory | src/aurora/environment.rs:16-22 | a new memory has no bindings and no flags |
| Environments.MemDefine | src/aurora/environment.rs:24-26 | define binds the name to the value, adds only that key, and keeps every other binding and the flags |
| Environments.MemGet | src/aurora/environment.rs:28-33 | get finds a value exactly when the name is bound, and it is the bound value |
| Environments.MemAssign | src/aurora/environment.rs:35-43 | assign succeeds exactly when the name is bound, never adds a key, and then acts as define |
| Environments.MemGetDefine | src/aurora/environment.rs:24-33 | after a define, get of the same name gives the new value and of any other name what it gave before |
| Environments.FindFrom | src/aurora/environment.rs:110-125 | the downward search finds the innermost scope at or below a depth that binds the name, or reports that none does |
| Environments.Frame | src/aurora/environment.rs:110-125 | the search succeeds exactly when some scope binds the name, and finds the innermost one |
| Environments.New | src/aurora/environment.rs:56-68 | a new environment's stack is one new memory; there is no pending return, the return value is Nil, and there are no injects and no flags |
| Environments.Define | src/aurora/environment.rs:105-108 | define changes only the innermost scope, as a memory define, and keeps the depth and everything else |
| Environments.Get | src/aurora/environment.rs:110-126 | get fails, naming the variable, exactly when no scope binds the name; otherwise it returns the innermost binding |
| Environments.Assign | src/aurora/environment.rs:154-171 | assign fails exactly when no scope binds the name; otherwise it rebinds the name in the innermost scope holding it, changes no other scope, and adds no key anywhere |
| Environments.NeedToCapture | src/aurora/environment.rs:128-152 | false when the innermost scope binds the name, true when only an outer scope does, and a failure when none does |
| Environments.Inject | src/aurora/environment.rs:96-98 | the binding is added to the end of the pending injects and nothing else changes |
| Environments.FirstInject | src/aurora/environment.rs:76-81 | the earliest pending inject of a name, or none when the name is not pending |
| Environments.FirstInjectSnoc | src/aurora/environment.rs:76-81 | a later inject of a name does not change the earliest one |
| Environments.OverlaidSnoc | src/aurora/environment.rs:76-81 | defining the last inject first and the rest after it gives the bindings of the whole list, earliest first |
| Environments.FlushInjects | src/aurora/environment.rs:76-81 | popping the injects into the innermost scope leaves each pending name bound to its earliest inject, other bindings and the flags alone, and no injects |
| Environments.StackPush | src/aurora/environment.rs:70-82 | a push adds one scope on top, moves the environment's flags into it and clears them, binds each pending name to its earliest inject over the memory, and empties the injects |
| Environments.StackPop | src/aurora/environment.rs:100-103 | a pop removes the top scope and returns it, and discards the pending injects |
| Environments.StackTempPush | src/aurora/environment.rs:88-90 | a temporary push adds one empty scope and changes nothing else |
| Environments.StackTempPop | src/aurora/environment.rs:92-94 | a temporary pop removes the top scope and changes nothing else |
| Environments.SetReturn | src/aurora/environment.rs:173-176 | set_return turns the latch on with the value and changes nothing else |
| Environments.UnsetReturn | src/aurora/environment.rs:182-187 | unset_return gives back the stored value, turns the latch off and resets the value to Nil |
| Environments.SetInFunction | src/aurora/environment.rs:189-191 | the pending function flag is set and nothing else changes |
| Environments.SetClassInstance | src/aurora/environment.rs:193-215 | the pending instance flag is set, or cleared, and nothing else changes |
| Environments.NewBindsNothing | src/aurora/environment.rs:56-68 | in a new environment get, need_to_capture and assign all fail |
| Environments.GetAfterDefine | src/aurora/environment.rs:105-126 | after a define, get of that name gives the new value and of any other name what it gave before |
| Environments.GetAfterAssign | src/aurora/environment.rs:110-171 | after an assign, get of that name gives the new value and of any other name what it gave before |
| Environments.PushPop | src/aurora/environment.rs:70-103 | a push then a pop restores the scope stack and returns a scope |
| Environments.GetAfterEmptyPush | src/aurora/environment.rs:70-126 | pushing an empty memory with nothing pending hides no binding |
| Environments.GetInjected | src/aurora/environment.rs:70-126 | after a push, a pending name reads as its earliest inject |
| Environments.UnsetAfterSet | src/aurora/environment.rs:173-187 | unset after set returns the value set and leaves the latch off and the value Nil |
| Evaluator.ApplyBinary | src/aurora/expressions.rs:107-218 | `==`/`!=` give structural equality and inequality; `<`, `<=`, `>`, `>=` succeed exactly on two numbers and give a boolean; `-`, `*`, `/` succeed exactly on two numbers and give a number; `+` succeeds exactly on two numbers or two strings and joins two strings left then right; any other operator fails |
| Evaluator.ApplyBinaryValues | src/aurora/expressions.rs:107-218 | on two numbers, `<`, `<=`, `>`, `>=` compare their values and `+`, `-`, `*`, `/` give their sum, difference, `Syntax.Product` and `Syntax.Quotient` |
| Evaluator.ApplyUnary | src/aurora/expressions.rs:227-245 | `!` accepts only a bool and negates it, `-` accepts only a number and negates it, and anything else fails |
| Evaluator.Eval | src/aurora/expressions.rs:92-406 | evaluation never changes the depth of the scope stack, never drops a name from any scope, and only adds to the output |
| Evaluator.EvalAssign | src/aurora/expressions.rs:256-272 | an assignment keeps the depth and the names of every scope |
| Evaluator.EvalLogical | src/aurora/expressions.rs:273-304 | `and` and `or` keep the depth and the names of every scope |
| Evaluator.EvalArgs | src/aurora/expressions.rs:325-326 | evaluating the arguments gives one value per argument |
| Evaluator.InjectAll | src/aurora/expressions.rs:327-329 | each parameter is injected with its argument's value, in order, after the existing injects |
| Evaluator.Zip | src/aurora/expressions.rs:327-329 | parameters and values pair up position by position |
| Evaluator.EvalCall | src/aurora/expressions.rs:305-344 | a call keeps the depth and the names of every scope of the caller; what it computes is stated by `EvalFacts.CallDispatch`, `EvalFacts.CallSteps` and `EvalFacts.CallRunsBody` |
| Evaluator.EvalGet | src/aurora/expressions.rs:345-373 | a property read keeps the caller's scopes |
| Evaluator.KeepsTrans | src/aurora/expressions.rs:92-406 | two evaluations in a row keep what each keeps |
| Evaluator.SameKeysKeeps | src/aurora/expressions.rs:256-272 | a change that rebinds existing names only is kept |
| Evaluator.SameStackKeeps | src/aurora/expressions.rs:345-373 | a change of the flags only is kept |
| Evaluator.WriteBack | src/aurora/expressions.rs:387-388 | writing the instance back succeeds exactly when the variable is bound; the variable then reads as the new instance and the instance flag is cleared |
| Evaluator.EvalSet | src/aurora/expressions.rs:374-397 | a field store keeps the caller's scopes |
| Evaluator.Exec | src/aurora/statements.rs:47-75 | executing a statement keeps the depth and the names of the caller's scopes, and only adds to the output; each statement kind is stated by `EvalFacts.PrintEmits`, `EvalFacts.VarDefines`, `EvalFacts.BlockRuns` and `EvalFacts.OtherStatementsFail` |
| Evaluator.ExecAll | src/aurora/statements.rs:68-70 | the statements of a block, run in order, keep what each keeps |
| Evaluator.Captured | src/aurora/expressions.rs:459-462 | every capture recorded is a name bound outside the innermost scope, paired with its current value |
| Evaluator.CaptureOf | src/aurora/expressions.rs:459-462 | one name gives its capture when bound outside the innermost scope, nothing when bound in it, and fails when unbound |
| Evaluator.Resolve | src/aurora/expressions.rs:408-464 | every capture resolve appends is a name bound outside the innermost scope, with its value |
| Evaluator.ResolveAll | src/aurora/expressions.rs:431-433 | the same for a list of arguments |
| EvalFacts.BinaryKindMismatch | src/aurora/expressions.rs:99-106 | operands of different kinds fail before the operator is looked at |
| EvalFacts.LogicalTruthTable | src/aurora/expressions.rs:273-304 | only `false` and `nil` are falsy; `or` with a truthy left gives the left without evaluating the right; otherwise the right is always evaluated, `and` yields the left or `false` according to the operands' truth, and `or` yields the right or `false` |
| EvalFacts.EqualityStructural | src/aurora/expressions.rs:99-110 | `==` is a kind mismatch for different kinds and otherwise the structural equality of the two values |
| EvalFacts.AssignReadsBack | src/aurora/expressions.rs:256-272 | after an assignment the name reads as the result, which is the value, renamed to the target when it is an instance |
| EvalFacts.SetNeedsVariable | src/aurora/expressions.rs:375-380 | a field store on anything but a variable fails |
| EvalFacts.SetStoresField | src/aurora/expressions.rs:374-397 | a field store on a non-instance fails; otherwise it yields Nil and the variable then holds the instance with the field defined |
| EvalFacts.GetReadsField | src/aurora/expressions.rs:345-373 | reading a field an instance holds gives that field's value |
| EvalFacts.ThisAndVariableRead | src/aurora/expressions.rs:247-403 | `this` succeeds exactly inside a method with a bound instance name and reads that binding; a variable reads its innermost binding; neither changes the machine |
| EvalFacts.CallDispatch | src/aurora/expressions.rs:305-344 | a call fails on an arity mismatch or a non-callable, and calling a class gives a fresh instance of it with an empty memory |
| EvalFacts.CallSteps | src/aurora/expressions.rs:319-331 | a function call on literal arguments adds the captures to the pending injects, injects each parameter with its argument, sets the function flag, runs the body, and returns what `unset_return` gives |
| EvalFacts.CalleeScope | src/aurora/expressions.rs:319-331 | the body's environment is the caller's stack with one scope on top, carrying the function flag and the caller's pending instance flag, with nothing pending |
| EvalFacts.CalleeScopeBinds | src/aurora/expressions.rs:319-331 | in that scope a parameter reads as its argument, when no earlier parameter, pending inject or capture shares its name |
| EvalFacts.CallRunsBody | src/aurora/expressions.rs:319-332 | a call of a function with a block body succeeds exactly when the block's statements succeed in the callee's scope; it gives their output and the caller's scopes as the statements left them |
| EvalFacts.CallPrints | src/aurora/expressions.rs:319-332 | a call of a function whose body prints a name bound in the callee's scope adds that value to the output |
| EvalFacts.CallBindsParameters | src/aurora/expressions.rs:305-332 | calling a function whose body prints its p-th parameter prints the p-th argument, when no earlier parameter, pending inject or capture shares that name |
| EvalFacts.FirstInjectAt | src/aurora/environment.rs:76-81 | the first inject of a name is the one at the first position holding it |
| EvalFacts.VarDefines | src/aurora/statements.rs:55-65 | `var x;` defines x as Nil and `var x = e;` as the value of e, in the innermost scope |
| EvalFacts.BlockScoped | src/aurora/statements.rs:66-72 | a block restores the depth and the names of every scope |
| EvalFacts.BlockHides | src/aurora/statements.rs:66-72 | a name defined only inside a block is unbound after it |
| EvalFacts.BlockRuns | src/aurora/statements.rs:66-72 | a block runs its statements on a new empty memory pushed onto the stack, then pops it |
| EvalFacts.PrintEmits | src/aurora/statements.rs:49-54 | print and expression statements evaluate their expression once and append its value to the output |
| EvalFacts.OtherStatementsFail | src/aurora/statements.rs:73 | every other statement fails as an invalid statement |
| EvalFacts.AllBoundAppend | src/aurora/expressions.rs:408-464 | the names of two trees are all bound exactly when each tree's are |
| EvalFacts.AllBoundOne | src/aurora/expressions.rs:459-462 | one name is all bound exactly when some scope binds it |
| EvalFacts.CapturedAppend | src/aurora/expressions.rs:408-464 | the captures of two name lists in a row are the captures of each, in order |
| EvalFacts.ThenCaptured | src/aurora/expressions.rs:417-455 | resolving two children in turn gives the captures of their names in order |
| EvalFacts.ResolveExact | src/aurora/expressions.rs:408-464 | resolve succeeds exactly when the tree has no `super` and all its names are bound, and appends exactly the names bound outside the innermost scope with their values, in left-to-right order |
| EvalFacts.ResolveAllExact | src/aurora/expressions.rs:430-433 | the same for a list of arguments |
| EvalFacts.Lift | src/aurora/parser/expressions.rs:5-10 | the parser's objects map to the interpreter's, and only Nil to Nil |
| EvalFacts.LiftInjective | src/aurora/parser/expressions.rs:5-10 | untagged objects map to different objects |
| EvalFacts.LiftResult | src/aurora/parser/expressions.rs:29-137 | a literal result maps to a success exactly when it is one |
| EvalFacts.LiftPair | src/aurora/parser/expressions.rs:29-137 | the same, with the machine unchanged |
| EvalFacts.ApplyAgreeNumbers | src/aurora/expressions.rs:107-218 | on two numbers the two evaluators' operator dispatch agrees |
| EvalFacts.ApplyAgreeStrings | src/aurora/expressions.rs:107-218 | on two strings the two dispatches agree |
| EvalFacts.ApplyAgreeBools | src/aurora/expressions.rs:107-218 | on two bools the two dispatches agree |
| EvalFacts.ApplyAgreeNils | src/aurora/expressions.rs:107-218 | on two untagged nils the two dispatches agree |
| EvalFacts.ApplyAgree | src/aurora/parser/expressions.rs:37-106 | on untagged operands of one kind the two dispatches agree, and results are untagged |
| EvalFacts.BinaryAgree | src/aurora/parser/expressions.rs:31-107 | a Binary evaluates alike in both evaluators when its operands do |
| EvalFacts.UnaryApplyAgree | src/aurora/parser/expressions.rs:111-127 | the two unary dispatches agree |
| EvalFacts.UnaryAgree | src/aurora/parser/expressions.rs:108-128 | a Unary evaluates alike in both evaluators when its operand does |
| EvalFacts.GroupingAgree | src/aurora/parser/expressions.rs:132-134 | a Grouping evaluates alike when its inner expression does |
| EvalFacts.LiteralAgree | src/aurora/parser/expressions.rs:129-131 | a Literal evaluates alike in both evaluators |
| EvalFacts.EvaluatorsAgree | src/aurora/parser/expressions.rs:29-137 | on every literal-only tree with untagged nils the interpreter gives the literal evaluator's result, without touching the machine |
| Syntax.Product | src/aurora/parser/expressions.rs:98-104 | a product is zero when either factor is zero, is the other factor when either factor is 1, is positive for positive factors, and divided by a non-zero factor gives back the other factor |
| Syntax.Quotient | src/aurora/parser/expressions.rs:91-97 | a quotient by a non-zero number times that number gives back the dividend; by zero it is the placeholder 0 |
| LiteralEval.ApplyBinary | src/aurora/parser/expressions.rs:37-106 | no operator yields Nil; `==`/`!=` give structural equality and inequality, the comparisons compare two numbers, `+`, `-`, `*`, `/` give the sum, difference, product and quotient of two numbers, and `+` joins two strings left then right |
| LiteralEval.ApplyUnary | src/aurora/parser/expressions.rs:108-128 | `!` accepts only a bool and negates it, `-` only a number and negates it, and anything else fails |
| LiteralEval.ApplyBinaryKind | src/aurora/parser/expressions.rs:37-106 | an operator succeeds on two values of one kind exactly when its typing rule allows that kind, and the result has the kind the rule gives |
| LiteralEval.ApplyUnaryKind | src/aurora/parser/expressions.rs:108-128 | the same for the prefix operators |
| LiteralEval.TypeSound | src/aurora/parser/expressions.rs:29-137 | an expression evaluates exactly when it type-checks, to a value of its type |
| LiteralEval.MismatchFails | src/aurora/parser/expressions.rs:34-36 | operands of different kinds fail |
| LiteralEval.EqualityStructural | src/aurora/parser/expressions.rs:38-43 | `==` is true exactly when both sides evaluate to the same value, and `!=` is its negation |
| LiteralEval.NilTagCounts | src/aurora/parser/expressions.rs:5-43 | two nils with different tags are not equal |
| LiteralEval.StringPlusAssociates | src/aurora/parser/expressions.rs:72-83 | string `+` joins left then right, and is associative |
| LiteralEval.ComparisonDuality | src/aurora/parser/expressions.rs:44-71 | `<` succeeds exactly when `>=` does, exactly on two numbers, and is its negation |
| LiteralEval.UnaryInvolution | src/aurora/parser/expressions.rs:108-128 | applying `!` or `-` twice gives back the operand |
| LiteralEval.OthersFail | src/aurora/parser/expressions.rs:135 | every variant other than Binary, Unary, Literal and Grouping fails as not implemented |
| Bench.Fibonacci | bench.py:3-6 | the result is non-negative from 0 on and positive from 1 on |
| Bench.FibonacciIsStandard | bench.py:3-6 | from 0 on the function is the Fibonacci sequence with F(0)=0 and F(1)=1; below 0 it returns its argument |
| Bench.FibonacciRecurrence | bench.py:4-6 | the recurrence holds from 2 up and fails at 1 |
| Bench.FibonacciMonotone | bench.py:3-6 | from 0 on the sequence never decreases |
| Bench.Printed | bench.py:9 | the printed value, fibonacci(30), is 832040 |
| Bench.FibonacciLoop | bench.py:3-6 | a bottom-up loop computes the same function |

## Left out

- Console output. The model records what `print` and expression statements emit as a sequence of values, not as `{:?}` text. Scanner error prints, the parser's trace lines and `debug_last` are not modelled.
- Floating point. `f64` is `real`. Arithmetic is exact, and there is no NaN or infinity. Division by zero yields a placeholder 0.0 (`Syntax.Quotient`), where the source yields an IEEE infinity or NaN. `parse::<f64>` is `Decimal.ParseNumber`. It agrees with `parse::<f64>` on every number text the scanner cuts (`ParserFacts.ScannedAtomsParse`), and those are the only texts `primary` receives. On other texts it differs: it rejects `1e5`, `.5`, `5.`, `+1`, `inf` and `NaN`, all of which `parse::<f64>` accepts.
- Evaluator.Eval: function calls run bodies that need not be smaller than the call, so evaluation carries a fuel bound. Each call spends one unit, and running out is an `OutOfFuel` error the source does not have. Properties are stated for any fuel.
- The scope stack is never empty. Operations that index `len() - 1` in the source panic on an empty stack; the model requires a non-empty stack instead.
- `statements.rs:67` calls `stackpush()` with no argument, which does not match the definition at `environment.rs:70`, which takes a `Memory`. A block is modelled as `stackpush(Memory::new())`, so pending injects land in the block's scope, then `stackpop`.
- Parser.Matches: the source takes a vector of kinds. The model takes a set, and `Parser.MatchesInOrder` proves that trying the vector in order gives the same answer.
- Parser.Synchronize: nothing calls it, so a failing parse stops at the first error as in the source, where it panics.
- Parser.Atom: as written, `primary` makes a Variable from a `var` keyword token, and an Identifier token is not a primary. The model keeps this. An expression statement that starts with such a Variable reads back but never parses (`ParseComplete.VarStatementFails`), so the converse `ParseComplete.ProgramComplete` is stated for `Parsable` statements, which exclude it.
- Parser.Expression: the trees are shown left-associative and precedence-respecting through the `Nested` shape, the read-back lemmas and their converse in `ParseComplete`. The source has no printer that turns a tree back into text, so none is modelled.
- Tokens.TypeName: the display name of every kind is its variant name by definition. That the 39 names are distinct is not proved, because the 39-by-39 case split is too costly.
- EvalFacts.EvaluatorsAgree: stated for trees with untagged nils only. The interpreter's Nil has no tag, so two differently tagged nils have no counterpart there.
- EvalFacts.GetReadsField: stated for class environments with nothing pending. That is how a class value is built; class declarations themselves are not part of this model.
- `Super` is `todo!()` in `resolve` and unimplemented in `evaluate`. Both are modelled as a failure.
- `interpreter.rs`, `main.rs`, `parser/statements.rs` and `mod.rs` are not part of this model. They hold the REPL and file I/O, a one-loop wrapper, and declarations.
- The benchmark's timing lines (`bench.py:8-11`) read the clock and are not modelled.
