# PL/0 recogniser front end in Dafny

This project models the front end of `pl0rs`, a recogniser for Niklaus
Wirth's PL/0 language. The recogniser has three parts:

- **Tokens** (`tokens.dfy`, from `src/lib.rs`).
  - The 27-variant `Token` type. Only `Ident` and `Number` carry a payload.
  - Its tag-only equality `SameKind`: two tokens are equal when they are the same variant.
  - The scanner `State` and its default value.
- **Scanner** (`lexer.dfy`, from `src/lexer.rs`). It has two layers.
  - `ScanFrom` is a reference scan written as a recursive function over the text. `LexemeAt` describes the one lexeme that starts at a given position.
  - `Lex`, `Identifier` and `Number` are the source's loops, written as methods with an index into the text (and, for `Lex`, a token accumulator and a line counter). `Assignment` and `Lexeme` are the source's loop-free steps, also as methods. `Identifier`, `Number`, `Assignment` and `Lexeme` are each proved to return exactly what the matching reference lexeme (`IdentifierAt`, `NumberAt`, `AssignmentAt`, `LexemeAt`) returns, and `Lex` to return the reference scan.
  - `LexerProps` proves what a scan promises:
    - keywords are recognised in any case;
    - numbers read back from their decimal spelling;
    - the line count;
    - stray characters are rejected;
    - layout and comments yield no tokens;
    - the scanner inverts a printer of token sequences.
- **Parser** (`parser.dfy`, `parser_spec.dfy`, from `src/parser.rs`).
  - `ParserSpec` gives each production as a function from a cursor position to the position of the unconsumed lookahead token it returns, or a `SyntaxError`.
  - `Parser` is the source's form. A `Cursor` object models `Peekable<IntoIter<Token>>`, and each production is a method that moves the cursor forward. Its `while` loops run over the returned lookahead token. Each method is proved to agree with its `ParserSpec` function, and to leave the cursor no earlier than it found it.
  - `Grammar` describes PL/0 programs as syntax trees, with the token sequence of each tree. `ParserProps` proves that `parse` accepts a token sequence exactly when it is the tokens of a well-nested block followed by `.`:
    - soundness: every accepted stretch of tokens is the token sequence of a tree;
    - completeness: the tokens of every tree are accepted when a token that may follow the tree comes after them.
  - `ParserSteps` and `GrammarSteps` hold one-production-at-a-time facts that those proofs use.

Errors are structured values (`LexError` with the line number, `SyntaxError`) rather than formatted strings.

Two behaviours of the scanner are easy to miss, and the model keeps both:
- **Unterminated comment.** A `{` comment with no closing `}` is not an error. It silently swallows the rest of the text, and the scan then succeeds (`src/lexer.rs:91-96`). This is `LexerProps.UnterminatedCommentSwallowsRest`.
- **Identifier or number at end of input.** An identifier or number that runs into the end of the text is an error, because the collecting loops treat the end of the text as unterminated input (`src/lexer.rs:20-23`, `54-57`). So a program must not end in a name or a number, and `"1abc"` on its own fails. These are `LexerProps.IdentifierAtEndFails`, `LexerProps.NumberAtEndFails` and `LexerProps.WordAtEndFails`.

## Model

| member | source | states |
|---|---|---|
| Tokens.Discriminant | src/lib.rs:25-54 | a token's tag is below 27, the number of variants |
| Tokens.SameKind | src/lib.rs:56-60 | token equality holds exactly when the two tags are equal |
| Tokens.SameKindIsDiscriminantEquality | src/lib.rs:56-60 | token equality holds exactly when the discriminants agree. Any two identifiers are equal, and so are any two numbers. Every payload-free variant equals only itself |
| Tokens.SameKindIsEquivalence | src/lib.rs:57-59 | token equality is reflexive, symmetric and transitive |
| Tokens.DefaultState | src/lib.rs:16-23 | the default state is on line 1 with debugging off |
| Lexer.ToLower | src/lexer.rs:26 | lower-casing keeps the length and leaves no upper-case letter. Every other character is unchanged, and each upper-case letter becomes its lower-case partner |
| Lexer.Classify | src/lexer.rs:26-39 | a word whose lower-case form spells a keyword becomes that keyword. Any other word becomes `Ident` holding the word exactly as written |
| Lexer.ParseI64 | src/lexer.rs:60-64 | a string that parses is a non-empty run of digits, and its value is not negative |
| Lexer.Punctuation | src/lexer.rs:112-128 | a character that maps to a token maps to one of the operator and punctuation variants, never to `:=` |
| Lexer.RunEnd | src/lexer.rs:11-24 | the collecting loop stops at the end of the maximal run of accepted characters: every character before the stop is accepted, and the one at the stop is not |
| Lexer.CommentEnd | src/lexer.rs:89-96 | a comment ends just after its first `}`, or at the end of the text when there is none |
| Lexer.IdentifierAt | src/lexer.rs:8-42 | a successful identifier lexeme is non-empty and never reaches the end of the text |
| Lexer.NumberAt | src/lexer.rs:44-65 | a successful number lexeme is non-empty and never reaches the end of the text. The lexeme is an invalid-number error exactly when the maximal digit run stops before the end of the text and does not parse as an `i64` |
| Lexer.AssignmentAt | src/lexer.rs:67-80 | a `:` lexeme succeeds exactly when `=` follows it. It then yields `Assign` and consumes the two characters `:=`. A `:` at the end of the text is an unterminated assignment, and a `:` followed by any other character is the unknown-colon error |
| Lexer.LexemeAt | src/lexer.rs:102-131 | every successful lexeme consumes at least one character. An erroneous lexeme carries the current line |
| Lexer.ScanFrom | src/lexer.rs:82-139 | the line counter never decreases during a scan, and a failed scan reports the line it stopped on |
| Lexer.Identifier | src/lexer.rs:8-42 | consumes the maximal run of letters, digits and underscores. It fails with an unterminated-identifier error exactly when the run reaches the end of the text. Otherwise it returns the keyword or identifier that the run spells. Token, end and error are those of `IdentifierAt` |
| Lexer.Number | src/lexer.rs:44-65 | consumes the maximal run of digits and underscores. A run that reaches the end of the text is unterminated. Otherwise the result is `Number(v)` exactly when the run parses as an `i64` `v`, and an invalid-number error when it does not. Token, end and error are those of `NumberAt` |
| Lexer.Assignment | src/lexer.rs:67-80 | succeeds with `Assign` and two characters consumed exactly when `=` follows the `:`. A `:` at the end of the text is an unterminated assignment, and any other following character is the unknown-colon error. Token, end and error are those of `AssignmentAt` |
| Lexer.Lexeme | src/lexer.rs:102-131 | the dispatch on the first character agrees with the reference lexeme, both token and end position, or error |
| Lexer.Lex | src/lexer.rs:82-139 | the loop returns the reference scan of the whole text, and the state's final line counter is the reference's. The debug flag is untouched |
| LexerProps.ToLowerIdempotent | src/lexer.rs:26 | lower-casing twice is lower-casing once |
| LexerProps.ClassifyIgnoresCase | src/lexer.rs:26-39 | a word and its lower-case form classify to the same kind. A keyword's lower-case spelling is the word lower-cased. A non-keyword becomes `Ident` holding the word exactly as written |
| LexerProps.KeywordAnyCase | src/lexer.rs:26-37 | every spelling of a keyword, in any mix of cases, yields that keyword |
| LexerProps.ParseI64RoundTrip | src/lexer.rs:60-61 | parsing the decimal spelling of any non-negative `i64` gives back that value |
| LexerProps.ParseI64Rejects | src/lexer.rs:60-64 | a run holding an underscore fails to parse, and so do a value above `i64::MAX` and the empty string |
| LexerProps.LexemeChars | src/lexer.rs:102-131 | every character of a lexeme is a letter, digit, underscore, `:` or punctuation character |
| LexerProps.ScanCountsLines | src/lexer.rs:87-101 | the line counter starts at its incoming value and never decreases. On success it has grown by exactly the number of newlines outside comments; newlines inside comments are not counted |
| LexerProps.DefaultStateLines | src/lexer.rs:97-100 | from the default state, a successful scan ends on line 1 plus the number of newlines outside comments |
| LexerProps.ScanRejectsStrayChars | src/lexer.rs:126-128 | a character outside comments that is neither white space nor part of any lexeme makes the scan fail |
| LexerProps.LayoutHasNoTokens | src/lexer.rs:89-101 | text that is only white space outside comments scans successfully to no tokens |
| LexerProps.UnterminatedCommentSwallowsRest | src/lexer.rs:89-96 | a `{` with no `}` after it consumes the rest of the text: the scan then succeeds with no further tokens and no further lines |
| LexerProps.WordAtEndFails | src/lexer.rs:20-23 | `"1abc"` with nothing after it fails as an unterminated identifier, and no tokens are returned |
| LexerProps.IdentifierAtEndFails | src/lexer.rs:20-23 | an identifier whose characters run to the end of the text makes the scan fail as an unterminated identifier on the current line, with no tokens |
| LexerProps.NumberAtEndFails | src/lexer.rs:54-57 | a number whose characters run to the end of the text makes the scan fail as an unterminated number on the current line, with no tokens |
| LexerProps.StrayCharError | src/lexer.rs:126-128 | when the scan reaches a character that is not white space, not `{` and not part of any lexeme, it fails with an unknown-token error on the current line |
| LexerProps.ColonWithoutEquals | src/lexer.rs:70-76 | when the scan reaches a `:` followed by anything but `=`, it fails with the unknown-colon error on the current line |
| LexerProps.ColonAtEnd | src/lexer.rs:77-79 | a `:` that ends the text makes the scan fail as an unterminated assignment on the current line |
| LexerProps.InvalidNumberFails | src/lexer.rs:60-64 | when the scan reaches a maximal digit run that stops before the end of the text and does not parse as an `i64`, it fails with an invalid-number error on the current line |
| LexerProps.PunctuationIsBijective | src/lexer.rs:112-125 | each of the thirteen punctuation characters maps to exactly one token, and each punctuation token comes from exactly one character |
| LexerProps.SpellingScans | src/lexer.rs:102-131 | a printable token's spelling followed by a newline is one lexeme, and it yields that token |
| LexerProps.AssignLexeme | src/lexer.rs:67-73 | `:=` is one lexeme, `Assign`, that consumes two characters |
| LexerProps.PunctuationLexeme | src/lexer.rs:111-131 | a punctuation character is one lexeme, its token, that consumes one character |
| LexerProps.NumberLexeme | src/lexer.rs:44-61 | a maximal digit run that does not reach the end of the text and parses to `v` is the lexeme `Number(v)` |
| LexerProps.KeywordScans | src/lexer.rs:26-37 | a keyword's spelling followed by a newline lexes to that keyword |
| LexerProps.IdentifierLexeme | src/lexer.rs:8-41 | a maximal run of identifier characters that does not reach the end of the text is one lexeme, classified by its spelling |
| LexerProps.ScanRender | src/lexer.rs:82-139 | scanning the printed form of printable tokens gives back the same tokens in the same order, one line per token |
| LexerProps.LexRender | src/lexer.rs:82-139 | the scanner inverts the printer on a whole text |
| Parser.Cursor.constructor | src/parser.rs:7-8 | a new cursor stands before the first token |
| Parser.Cursor.Next | src/parser.rs:224 | `next` returns the token `peek` would have shown and moves one step forward. At the end it returns nothing and stays put |
| Parser.Expect | src/parser.rs:223-241 | consumes one token and fails unless its kind matches. On success it returns the following token, unconsumed, and fails if there is none. This agrees with `ParserSpec.Expect` |
| Parser.Parse | src/parser.rs:7-28 | returns exactly what `ParserSpec.Parse` returns |
| Parser.Block | src/parser.rs:30-85 | moves the cursor forward and agrees with `ParserSpec.Block`: the same error, or the same end position with the lookahead token there |
| Parser.ConstClause | src/parser.rs:40-52 | the `const` clause and its comma loop agree with `ParserSpec.Consts` |
| Parser.VarClause | src/parser.rs:54-62 | the `var` clause and its comma loop agree with `ParserSpec.Vars` |
| Parser.ProcedureClauses | src/parser.rs:64-72 | the procedure loop agrees with `ParserSpec.Procedures` |
| Parser.ProcedureDecl | src/parser.rs:65-71 | one procedure declaration, with its nested block, agrees with `ParserSpec.ProcedureDecl` |
| Parser.Statement | src/parser.rs:87-129 | agrees with `ParserSpec.Statement` and never moves the cursor back |
| Parser.Compound | src/parser.rs:101-109 | `begin`, the statement loop over `;` and `end` agree with `ParserSpec.Statement` |
| Parser.Condition | src/parser.rs:131-158 | agrees with `ParserSpec.Condition` |
| Parser.Expression | src/parser.rs:160-179 | the optional sign and the `+`/`-` loop agree with `ParserSpec.Expression` |
| Parser.Term | src/parser.rs:207-221 | the `*`/`/` loop agrees with `ParserSpec.Term` |
| Parser.Factor | src/parser.rs:181-204 | agrees with `ParserSpec.Factor` |
| ParserSpec.Expect | src/parser.rs:223-241 | succeeds exactly when the token at the cursor has the expected kind and another token follows it. It then advances by one. A wrong kind is a mismatch error naming the token found, and a matching last token is a missing-token error |
| ParserSpec.Parse | src/parser.rs:7-28 | an empty token sequence is the empty-file error. Success means the top-level block ends on the last token and that token is `.`. A failing top-level block passes its error on. A block not followed by `.` is the missing-dot error, and a token after the `.` is the trailing-token error naming that token |
| ParserSpec.Block | src/parser.rs:30-85 | on success the returned lookahead position is not before the start and lies within the tokens |
| ParserSpec.Consts | src/parser.rs:40-52 | the `const` clause never moves back, and returns a position inside the tokens |
| ParserSpec.ConstDef | src/parser.rs:41-44 | a constant definition is exactly four tokens |
| ParserSpec.ConstDefs | src/parser.rs:45-50 | the comma loop ends on a token that is not `,` |
| ParserSpec.Vars | src/parser.rs:54-62 | the `var` clause never moves back, and returns a position inside the tokens |
| ParserSpec.VarNames | src/parser.rs:57-60 | the comma loop ends on a token that is not `,` |
| ParserSpec.Procedures | src/parser.rs:64-72 | the procedure loop ends on a token that is not `procedure` |
| ParserSpec.ProcedureDecl | src/parser.rs:65-71 | a procedure declaration consumes at least one token |
| ParserSpec.Statement | src/parser.rs:87-129 | a statement that starts with a name, `call`, `begin`, `if` or `while` consumes tokens. On any other token it is the empty statement: it consumes nothing and returns that token |
| ParserSpec.Assignment | src/parser.rs:92-96 | an assignment consumes at least one token |
| ParserSpec.ProcedureCall | src/parser.rs:97-100 | a call statement is exactly two tokens |
| ParserSpec.Compound | src/parser.rs:101-109 | a compound statement consumes at least one token |
| ParserSpec.Guarded | src/parser.rs:110-121 | an `if` or `while` statement consumes at least one token |
| ParserSpec.Statements | src/parser.rs:104-107 | the `;` loop ends on a token that is not `;` |
| ParserSpec.Condition | src/parser.rs:131-158 | a condition consumes at least one token |
| ParserSpec.Expression | src/parser.rs:160-179 | an expression consumes at least one token and ends on a token that is not `+` or `-` |
| ParserSpec.Terms | src/parser.rs:170-173 | the `+`/`-` loop ends on a token that is not `+` or `-` |
| ParserSpec.Term | src/parser.rs:207-221 | a term consumes at least one token and ends on a token that is not `*` or `/` |
| ParserSpec.Factors | src/parser.rs:213-216 | the `*`/`/` loop ends on a token that is not `*` or `/` |
| ParserSpec.Factor | src/parser.rs:181-204 | a factor consumes at least one token. A token other than a name, a number or `(` is the expected-factor error naming that token |
| ParserProps.FactorSound | src/parser.rs:181-204 | an accepted factor is exactly the tokens of a name, a literal or a parenthesised expression |
| ParserProps.FactorsSound | src/parser.rs:213-216 | the `*`/`/` loop accepts exactly the tokens of a list of operator-factor pairs |
| ParserProps.TermSound | src/parser.rs:207-221 | an accepted term is exactly the tokens of a term tree |
| ParserProps.TermsSound | src/parser.rs:170-173 | the `+`/`-` loop accepts exactly the tokens of a list of operator-term pairs |
| ParserProps.ExprSound | src/parser.rs:160-179 | an accepted expression is exactly the tokens of an expression tree |
| ParserProps.ConditionWithoutRelation | src/parser.rs:138-149 | in the comparison form, a left operand that is not followed by `=`, `#`, `<` or `>` is an invalid-condition error |
| ParserProps.CondSound | src/parser.rs:131-158 | an accepted condition is `odd` followed by an expression, or two expressions around one of `= # < >` |
| ParserProps.StmtSound | src/parser.rs:87-129 | an accepted statement is exactly the tokens of a statement tree, and the empty statement when nothing was consumed |
| ParserProps.BeginSound | src/parser.rs:101-109 | an accepted `begin` statement is exactly the tokens of a compound statement |
| ParserProps.IfSound | src/parser.rs:110-115 | an accepted `if` statement is exactly `if` condition `then` statement |
| ParserProps.WhileSound | src/parser.rs:116-121 | an accepted `while` statement is exactly `while` condition `do` statement |
| ParserProps.StmtsSound | src/parser.rs:104-107 | the `;` loop accepts exactly the tokens of a list of statements, each preceded by `;` |
| ParserProps.ConstTailSound | src/parser.rs:45-50 | the comma loop accepts exactly the tokens of further constant definitions |
| ParserProps.ConstsSound | src/parser.rs:40-52 | an accepted `const` clause is exactly the tokens of its constant definitions |
| ParserProps.VarTailSound | src/parser.rs:57-60 | the comma loop accepts exactly the tokens of further variable names |
| ParserProps.VarsSound | src/parser.rs:54-62 | an accepted `var` clause is exactly the tokens of its variable names |
| ParserProps.ProcsSound | src/parser.rs:64-72 | the accepted procedure declarations form a list whose blocks respect the nesting bound |
| ParserProps.ProcDeclSound | src/parser.rs:65-71 | an accepted declaration is `procedure name ;` then a well-nested block then `;` |
| ParserProps.BlockSound | src/parser.rs:30-85 | an accepted block is exactly the tokens of a block tree whose procedures nest within the bound |
| ParserProps.FactorComplete | src/parser.rs:181-204 | the tokens of every factor are accepted and consumed |
| ParserProps.FactorsComplete | src/parser.rs:213-216 | the tokens of every factor list are accepted when no `*` or `/` follows them |
| ParserProps.TermComplete | src/parser.rs:207-221 | the tokens of every term are accepted when no `*` or `/` follows them |
| ParserProps.TermsComplete | src/parser.rs:170-173 | the tokens of every term list are accepted when no operator follows them |
| ParserProps.ExprComplete | src/parser.rs:160-179 | the tokens of every expression are accepted when no operator follows them |
| ParserProps.CondComplete | src/parser.rs:131-158 | the tokens of every condition are accepted when no operator follows them |
| ParserProps.StmtComplete | src/parser.rs:87-129 | the tokens of every statement are accepted when `;`, `end` or `.` follows them |
| ParserProps.BeginComplete | src/parser.rs:101-109 | the tokens of every compound statement are accepted when `;`, `end` or `.` follows them |
| ParserProps.IfComplete | src/parser.rs:110-115 | the tokens of every `if` statement are accepted when `;`, `end` or `.` follows them |
| ParserProps.WhileComplete | src/parser.rs:116-121 | the tokens of every `while` statement are accepted when `;`, `end` or `.` follows them |
| ParserProps.StmtsComplete | src/parser.rs:104-107 | the tokens of every `; statement` list are accepted when `end` or `.` follows them |
| ParserProps.ConstTailComplete | src/parser.rs:45-50 | the tokens of further constant definitions are accepted when no `,` follows them |
| ParserProps.ConstsComplete | src/parser.rs:40-52 | the tokens of every `const` clause are accepted, and an absent clause consumes nothing |
| ParserProps.ConstClauseComplete | src/parser.rs:40-52 | the tokens of a non-empty `const` clause are accepted and consumed |
| ParserProps.VarTailComplete | src/parser.rs:57-60 | the tokens of further variable names are accepted when no `,` follows them |
| ParserProps.VarsComplete | src/parser.rs:54-62 | the tokens of every `var` clause are accepted, and an absent clause consumes nothing |
| ParserProps.ProcsComplete | src/parser.rs:64-72 | the tokens of every list of well-nested procedure declarations are accepted |
| ParserProps.ProcDeclComplete | src/parser.rs:65-71 | the tokens of every well-nested procedure declaration are accepted |
| ParserProps.BlockComplete | src/parser.rs:30-85 | the tokens of every well-nested block are accepted when `;`, `end` or `.` follows them |
| ParserProps.NestingIsOneLevel | src/parser.rs:31-36 | a top-level block respects the nesting bound exactly when none of its procedures declares a procedure of its own |
| ParserProps.NestedProcedureRejected | src/parser.rs:31-36 | at the deepest level, a procedure declaration is rejected with the nesting error once its heading is read |
| ParserProps.BlockTooDeep | src/parser.rs:30-72 | the tokens of a block whose procedures break the nesting bound are rejected with the nesting error, whatever follows them |
| ParserProps.BlockProcsTooDeep | src/parser.rs:38-72 | within the bound, such a block fails in its procedure loop with the nesting error |
| ParserProps.ProcsTooDeep | src/parser.rs:64-72 | the procedure loop accepts the well-nested declarations and then rejects the first one that breaks the bound with the nesting error |
| ParserProps.ProcDeclTooDeep | src/parser.rs:65-71 | a declaration whose block breaks the bound is rejected with the nesting error |
| ParserProps.ParseRejectsDeepNesting | src/parser.rs:7-36 | a token sequence that starts with the tokens of a block in which a procedure declares a procedure of its own is rejected with the nesting error, whatever follows |
| ParserProps.NestedProcedureExample | src/parser.rs:31-36 | `procedure a; procedure b; ; ; .` is rejected with the nesting error |
| ParserProps.ParseSound | src/parser.rs:7-28 | an accepted token sequence is a well-nested block spanning every token but the last, which is `.` |
| ParserProps.ParseComplete | src/parser.rs:7-28 | every such program is accepted |
| ParserProps.ParseAcceptsPrograms | src/parser.rs:7-28 | `parse` succeeds exactly on the programs |

## Left out

- Unicode character classes. `is_alphabetic`, `is_alphanumeric` and `is_numeric` are modelled as ASCII letters and digits, and `to_lowercase` as ASCII lower-casing. White space is Unicode's White_Space set.
- Lexer.Lex: `State.line` is a `u32` in the source, and the model counts lines with an unbounded `nat`. The count starts at 1, so a text with 2^32 - 1 newlines outside comments already overflows it: a debug build of the source panics there and a release build wraps to 0.
- Lexer.Lex: the `comment` buffer (`src/lexer.rs:84`, `95`) is filled but never read, so it is not modelled.
- The `debug` flag is passed through but has no effect in the modelled code.
- Error message text. Errors are structured values carrying the same information: the error kind, the line for lexical errors, and the expected and found tokens for syntax errors.
- `ParseI64` models `str::parse::<i64>` only on the strings `number` collects. Those never hold a sign, so a leading `+` or `-` is not modelled.
- `block`'s `depth < 0` branch (`src/parser.rs:76-81`) can never be taken. The model carries the depth as a `nat` and has no such branch.
- `condition`'s end-of-input error after a relation (`src/parser.rs:145`) can never be taken, because `expression` only succeeds when a lookahead token exists. The model consumes the relation token directly.
- ParserSpec.Block: its own contract states only bounds and lookahead facts; what a block accepts is stated by `ParserProps.BlockSound` and `BlockComplete`, and its nesting error by `ParserProps.BlockTooDeep`.
- ParserSpec.Consts: its own contract states only bounds and lookahead facts; what the `const` clause accepts is stated by `ParserProps.ConstsSound`, `ConstsComplete` and `ConstClauseComplete`.
- ParserSpec.ConstDef: its own contract states only bounds and lookahead facts; what a constant definition accepts is stated through `ParserProps.ConstsSound` and `ConstTailSound`.
- ParserSpec.ConstDefs: its own contract states only bounds and lookahead facts; what the comma loop accepts is stated by `ParserProps.ConstTailSound` and `ConstTailComplete`.
- ParserSpec.Vars: its own contract states only bounds and lookahead facts; what the `var` clause accepts is stated by `ParserProps.VarsSound` and `VarsComplete`.
- ParserSpec.VarNames: its own contract states only bounds and lookahead facts; what the comma loop accepts is stated by `ParserProps.VarTailSound` and `VarTailComplete`.
- ParserSpec.Procedures: its own contract states only bounds and lookahead facts; what the procedure loop accepts is stated by `ParserProps.ProcsSound` and `ProcsComplete`, and its nesting error by `ParserProps.ProcsTooDeep` and `NestedProcedureRejected`.
- ParserSpec.ProcedureDecl: its own contract states only bounds and lookahead facts; what a declaration accepts is stated by `ParserProps.ProcDeclSound` and `ProcDeclComplete`, and its nesting error by `ParserProps.ProcDeclTooDeep`.
- ParserSpec.Assignment: its own contract states only bounds and lookahead facts; what an assignment accepts is stated by `ParserProps.StmtSound` and `StmtComplete`.
- ParserSpec.ProcedureCall: its own contract states only bounds and lookahead facts; what a call accepts is stated by `ParserProps.StmtSound` and `StmtComplete`.
- ParserSpec.Compound: its own contract states only bounds and lookahead facts; what a compound statement accepts is stated by `ParserProps.BeginSound` and `BeginComplete`.
- ParserSpec.Guarded: its own contract states only bounds and lookahead facts; what an `if` or `while` statement accepts is stated by `ParserProps.IfSound`, `WhileSound`, `IfComplete` and `WhileComplete`.
- ParserSpec.Statements: its own contract states only bounds and lookahead facts; what the `;` loop accepts is stated by `ParserProps.StmtsSound` and `StmtsComplete`.
- ParserSpec.Condition: its own contract states only bounds and lookahead facts; what a condition accepts is stated by `ParserProps.CondSound` and `CondComplete`, and the invalid-condition error by `ParserProps.ConditionWithoutRelation`.
- ParserSpec.Expression: its own contract states only bounds and lookahead facts; what an expression accepts is stated by `ParserProps.ExprSound` and `ExprComplete`.
- ParserSpec.Terms: its own contract states only bounds and lookahead facts; what the `+`/`-` loop accepts is stated by `ParserProps.TermsSound` and `TermsComplete`.
- ParserSpec.Term: its own contract states only bounds and lookahead facts; what a term accepts is stated by `ParserProps.TermSound` and `TermComplete`.
- ParserSpec.Factors: its own contract states only bounds and lookahead facts; what the `*`/`/` loop accepts is stated by `ParserProps.FactorsSound` and `FactorsComplete`.
- Lexer.IdentifierAt: its own contract states only where the lexeme ends; what it yields is stated by `LexerProps.IdentifierLexeme` and `IdentifierAtEndFails`, and the `Lexer.Identifier` method, proved equal to it, states both outcomes.
- Lexer.NumberAt: its own contract states where the lexeme ends and when it is an invalid number; the token it yields is stated by `LexerProps.NumberLexeme`, and the unterminated case by `NumberAtEndFails`.
- Lexer.LexemeAt: its own contract states only where the lexeme ends and the line an error carries; what each lexeme yields is stated by `LexerProps.IdentifierLexeme`, `NumberLexeme`, `AssignLexeme` and `PunctuationLexeme`, and each error kind by `IdentifierAtEndFails`, `NumberAtEndFails`, `InvalidNumberFails`, `ColonWithoutEquals`, `ColonAtEnd` and `StrayCharError`.
- LexerProps.ScanRejectsStrayChars: states only that the scan fails. The scan reports the first error in the text, which may be of another kind (an unterminated identifier, a `:` without `=`) before the stray character is reached; `LexerProps.StrayCharError` states the unknown-token error and its line once the stray character is reached.
- Parser: the cursor is a `Cursor` object that only ever moves forward. The scanner's `&mut State` is modelled as a state value passed in and returned.
- The statement arms of `statement` and one pass of `block`'s procedure loop are separate functions and methods (`Assignment`, `ProcedureCall`, `Compound`, `Guarded`, `ProcedureDecl`). The `if` and `while` arms share `Guarded`.
- `read_file` is not part of this model, because it is file I/O and process exit. Neither are `src/main.rs` (command line and printing) and `src/codegen.rs`, which is `todo!()`.
- The integration tests read `.pl0` fixture files from disk, so they are not modelled.
