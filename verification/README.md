# C-simple scanner and parser, modelled in Dafny

This project models the front end of the C-simple language in hw3-110a and
proves properties of it. The front end has two parts:

- the scanner of `scanner.py`, made of `Token`, `Lexeme`, `Scanner.token`,
  `input_string`, `get_lineno`, `idy` and the rule table `tokens`;
- the recursive-descent recognizer of `parser.py`, the class `Parser` with
  `_match`, `parse`, `_program`, `_stmt_list`, `_stmt`, `_decl`, `_assign`,
  `_if_stmt`, `_for_stmt`, `_block`, `_expr`, `_simple_expr`, `_term` and
  `_factor`, and its `ParserException`.

**Scanner** (`chars.dfy`, `patterns.dfy`, `layout.dfy`, `scanner.dfy`, `scanfacts.dfy`,
`tokenfacts.dfy`, `longest.dfy`, `scanexamples.dfy`):
- A `Scanner` is the input text, a cursor into it and the line counter.
  `Rest` is the source's `istring`.
- `NextToken` is one call of `token()`. It skips blanks and counts their line
  feeds. It then tries the 20 rules of `Rules` in table order. A rule whose
  token is `IGNORE` drops its match, counts its line feeds and starts over.
  Any other rule returns a lexeme after applying the rule's action. The only
  action is `idy`, modelled as `Apply(Idy, l) == l`.
- The result is `Emit(lexeme, next)`, `Exhausted(next)` (the source returns
  `None`) or `Failed(line)` (the source raises `ScannerException(lineno)`).
- Each regular expression of the table is a prefix matcher in `Patterns`:
  - `[ \t\n]+`
  - `//.*`
  - literals
  - `\d+(\.\d+)?`
  - `\bword\b`
  - `[a-zA-Z_][a-zA-Z0-9_]*`

**Stream** (`stream.dfy`): `Lex` collects the results of successive `token()`
calls into a `Stream`. Each item is a lexeme and the value of `get_lineno()`
just after it was returned. The stream ends in `AtEof(line)` or
`AtError(line)`. The scanner never depends on the parser, so this list is
what the parser's lookahead walks through, one item at a time, in the same
order.

**Parser** (`parser.dfy`, with `frontend.dfy` joining it to the scanner):
- A parser state is a position `p` in the stream. The lookahead is item `p`,
  or `None` at the end of input.
- `At(s, p)` says the lookahead at `p` could be fetched, that is, `token()`
  did not raise.
- Every parse function returns `Ok(tree, pos)` or `Fail(error)`.
  - The tree is a derivation from `syntax.dfy`. It records which alternative
    each function took and how often each loop ran.
  - The error is one of:
    - `SyntaxError(line, got, expected)`, the `ParserException`;
    - `LexicalError(line)`, a `ScannerException` raised while fetching the
      next lookahead;
    - `NoLookahead`, the `AttributeError` that `_stmt` and `_factor` raise
      when they read `.token` off a missing lookahead.

**Main results:**
- `ParseSound` and `ParseComplete`: each parse function accepts exactly the
  derivations whose tokens stand at its position. The tokens must be
  followed by a lookahead that stops the production's loops and optional
  parts. `ParseTheorems` states this as if-and-only-if theorems, for `parse`
  itself among others.
- `LongestMatch.NextTokenIsLongestMatch`: the source's first-match table, with
  its `\bkeyword\b` rules, behaves like a longest-match scanner followed by a
  keyword lookup on every input.
- `Streams.LexReassembles`: the layout the scanner skipped and the lexeme
  values, interleaved, give back the input text.

The code differs from a conventional C-simple front end in these ways, and the model follows the code:
- The scanner takes the first matching rule, not the longest match. Keywords
  come from their own `\b` rules, not from a keyword table. A longest-match scanner with a keyword table is shown
  to agree with it on every input.
- There is no `FLOAT`, `/`, `float` keyword or empty statement `;`.
- `>` is scanned but is not in the grammar.
- The header of a `for` loop is `for ( ID = expr ; ; expr ; ID = expr ; )`,
  because `_assign` already takes its own `;`.
- `parse` never checks that the input ends after the statement list.
- The symbol table is never used.

## Model

| member | source | states |
|---|---|---|
| Scanner.NewScanner | scanner.py:40-43 | a new scanner has no input left and is on line 1 |
| Scanner.InputString | scanner.py:45-46 | after `input_string` the remaining text is exactly the argument and the line counter is unchanged |
| Scanner.FirstMatchIsFirst | scanner.py:60-62 | the rule found is the first in table order that matches; none is found exactly when no rule matches |
| Scanner.TableSearch | scanner.py:60-71 | the choice is present exactly when some rule matches; it carries that first rule's token and a non-empty match length |
| Scanner.SkipBlanksSkipsRun | scanner.py:52-55 | the skip loop passes only blanks and stops at the end of input or at a character that is not blank |
| Scanner.SkipBlanksKeepsStartLine | scanner.py:52-55 | the line counter minus the line feeds read so far is unchanged: the skip loop adds one for every line feed it passes |
| Scanner.TokenRuleIsSingleLine | scanner.py:79-100 | every rule whose token is not `IGNORE` has a pattern that cannot take a line feed |
| Scanner.NextToken | scanner.py:51-73 | a returned lexeme is non-empty, never `IGNORE`, and the cursor moves past it; `None` means the whole input was consumed |
| Patterns.MatchBlanks | scanner.py:80 | `[ \t\n]+` matches exactly when the text starts with a blank, with a non-empty match |
| Patterns.BlanksMatchIsMaximal | scanner.py:80 | the blank match takes the whole run of blanks |
| Patterns.MatchComment | scanner.py:81 | `//.*` matches exactly text starting with `//` |
| Patterns.CommentMatchEndsAtLineEnd | scanner.py:81 | a comment match holds no line feed and ends at the end of its line |
| Patterns.MatchNumber | scanner.py:94 | `\d+(\.\d+)?` matches exactly text that starts with a digit |
| Patterns.NumberMatchIsGreedy | scanner.py:94 | the number match is a numeral that no further digit extends, and takes a fraction whenever a point and a digit follow |
| Patterns.KeywordMatchesWholeWord | scanner.py:95-99 | on text starting with a word, a keyword rule matches exactly when the whole word is the keyword |
| Patterns.MatchIdentifier | scanner.py:99 | the identifier rule matches exactly text starting with a letter or `_` |
| Patterns.IdentifierMatchIsMaximal | scanner.py:99 | the identifier match takes the whole run of word characters |
| TokenFacts.TableLayoutChoice | scanner.py:80-81 | what an `IGNORE` rule takes is layout (blanks and comments) |
| TokenFacts.TableTokenChoice | scanner.py:82-99 | what a token rule takes holds no line feed |
| TokenFacts.NextTokenConsumes | scanner.py:51-71 | one call of `token`: skipped layout plus lexeme plus the new remainder give the old remainder, and the line counter grows by the line feeds skipped |
| TokenFacts.NextTokenFollowsTable | scanner.py:57-71 | a returned lexeme is, after layout, exactly the text the first matching rule of the table takes, with that rule's token |
| TokenFacts.ExhaustedIffLayout | scanner.py:52-58 | `token` returns `None` exactly when what is left is layout |
| TokenFacts.FailedMeansNoRule | scanner.py:60-73 | the scanner error is raised after layout where no rule matches, with the line counter at that point |
| TokenFacts.StrayFails | scanner.py:73 | a character no rule can start with raises the scanner error at the current line |
| TokenFacts.TableSearchOnComment | scanner.py:81 | text starting with `//` is taken by the comment rule |
| TokenFacts.NextTokenSkipsComment | scanner.py:66-68 | on a comment at the cursor, `token` returns whatever it returns on the text after the comment, with the line counter unchanged |
| LongestMatch.Reclassify | scanner.py:95-99 | an identifier becomes a keyword exactly when its text is one of the four reserved words; other tokens are unchanged |
| LongestMatch.SearchesAgree | scanner.py:79-100 | on every non-empty text the table's first match is the longest match, reclassified by the keyword table |
| LongestMatch.NextTokenIsLongestMatch | scanner.py:51-73 | one call of `token` equals one call of the longest-match scanner with keyword lookup, on every scanner state |
| ScanExamples.NextTokenOnEquals | scanner.py:82-90 | `==` gives one `EQ`; a lone `=` gives `ASSIGN` |
| ScanExamples.TableSearchOnWord | scanner.py:95-99 | on any text starting with a letter or `_`, the table takes the whole run of word characters, as the keyword it spells or else as `ID` |
| ScanExamples.TableSearchOnWholeWord | scanner.py:95-99 | a word followed by no word character is taken whole by the table, as its keyword or as `ID` |
| ScanExamples.KeywordsAreWholeWords | scanner.py:95-99 | at the head of any text, the whole words `for` and `int` are taken as `FOR` and `INT`, while `forward` and `int_x` are taken whole as `ID` |
| ScanExamples.NextTokenOnWholeWord | scanner.py:51-73 | on a whole word at the cursor, one call of `token` returns it as its keyword or as `ID` and moves past it, on the same line |
| ScanExamples.NextTokenOnDigit | scanner.py:94 | a digit starts a `NUM` lexeme as long as the number match |
| ScanExamples.NumbersAreGreedy | scanner.py:94 | `3.14` is one number, `3.` and `3.x` give `3`, `42;` gives `42` |
| ScanExamples.SomeStrayCharacters | scanner.py:79-100 | `.`, `!`, `&`, `"` and a carriage return start no rule |
| ScanExamples.PointAfterNumeralFails | scanner.py:94 | on `3.` the scanner returns `3`, then raises the scanner error on the same line |
| ScanExamples.LoneSlashFails | scanner.py:81 | a `/` not followed by `/` raises the scanner error |
| Streams.LexGivesLexemes | scanner.py:51-73 | every lexeme returned is non-empty, not `IGNORE`, and on one line |
| Streams.LexReassembles | scanner.py:51-73 | the skipped layout and the lexeme values, interleaved, give back the text up to where the scanner stopped; after an error no rule matches what is left |
| Streams.LexCountsLines | scanner.py:48-55 | at the end of input the line counter has grown by exactly the line feeds of the text |
| Streams.LexLinesGrow | scanner.py:48-49 | the line numbers seen after each lexeme never go down and stay between the start and the end line |
| Streams.LexEmptyIffLayout | scanner.py:52-58 | no lexeme and no error exactly when the text is layout |
| Parser.Match | parser.py:39-47 | `_match` succeeds exactly when the lookahead has the expected token and the next one can be fetched; it then moves one lexeme on |
| ParseErrors.MatchFails | parser.py:39-47 | a wrong lookahead is reported at its line with `[expected]`; the end of input is reported as `Lexeme(ID, "EOF")` at the end line; a lexical error comes only from the scanner failing right after the matched lexeme |
| Parser.ParseFactors | parser.py:130-132 | the `MUL` loop stops at a lookahead that is not `MUL` |
| Parser.ParseSummands | parser.py:124-126 | the `PLUS`/`MINUS` loop stops at a lookahead that is neither; it reads nothing when it does not run |
| Parser.ParseExpr | parser.py:116-120 | after an expression without comparison the lookahead is not `EQ` or `LT` |
| Parser.ParseElse | parser.py:96-98 | when no `else` part is taken the lookahead is not `ELSE` and nothing is read; a taken `else` branch is never an open `if` followed by another `else` |
| Parser.ParseStmt | parser.py:61-77 | a successful statement consumes at least one lexeme, gives every `else` in it to the nearest `if`, and never ends with an open `if` in front of an `else` |
| Parser.ParseStmtList | parser.py:55-59 | the loop ends at a lookahead outside `{INT, ID, IF, FOR, LBRACE}` |
| Parser.Parse | parser.py:34-50 | a scanner error on the first lookahead fails at once; success ends at a reachable lookahead that cannot start a statement |
| ParseSound.FactorSound | parser.py:134-146 | an accepted factor spans exactly its tokens |
| ParseSound.FactorsSound | parser.py:128-132 | an accepted `MUL` loop spans exactly `* factor` repeated |
| ParseSound.TermSound | parser.py:128-132 | an accepted term spans exactly its tokens |
| ParseSound.SummandsSound | parser.py:122-126 | an accepted `PLUS`/`MINUS` loop spans exactly its operators and terms |
| ParseSound.SimpleSound | parser.py:122-126 | an accepted simple expression spans exactly its tokens |
| ParseSound.ExprSound | parser.py:116-120 | an accepted expression spans exactly its tokens |
| ParseSound.AssignmentSound | parser.py:84-88 | an accepted assignment spans exactly `ID = expr ;` |
| ParseSound.IfSound | parser.py:90-98 | an accepted `if` spans exactly its head, branch and optional `else` part |
| ParseSound.ForSound | parser.py:100-109 | an accepted `for` spans exactly its header and body |
| ParseSound.BlockSound | parser.py:111-114 | an accepted block spans exactly `{`, its statements and `}` |
| ParseSound.StmtSound | parser.py:61-77 | an accepted statement spans exactly its tokens |
| ParseSound.StmtListSound | parser.py:55-59 | an accepted statement list spans exactly its statements' tokens |
| ParseComplete.ParenComplete | parser.py:135-138 | `( expr )` standing at a position is accepted with that expression |
| ParseComplete.FactorComplete | parser.py:134-146 | a factor's tokens standing at a position are accepted with that factor |
| ParseComplete.FactorsComplete | parser.py:130-132 | `* factor` repeated, followed by a lookahead that is not `MUL`, is accepted whole |
| ParseComplete.TermComplete | parser.py:128-132 | a term's tokens followed by a lookahead that is not `MUL` are accepted with that term |
| ParseComplete.SummandsComplete | parser.py:124-126 | `+ term` and `- term` repeated, followed by no `PLUS`, `MINUS` or `MUL`, are accepted whole |
| ParseComplete.SimpleComplete | parser.py:122-126 | a simple expression followed by no `MUL`, `PLUS` or `MINUS` is accepted with that derivation |
| ParseComplete.ExprComplete | parser.py:116-120 | an expression is accepted where its tokens stand and the lookahead after it ends all its loops |
| ParseComplete.AssignmentComplete | parser.py:84-88 | `ID = expr ;` standing at a position is accepted |
| ParseComplete.DeclComplete | parser.py:79-82 | `INT ID ;` standing at a position is accepted |
| ParseComplete.IfComplete | parser.py:90-98 | an `if` whose `else` parts all belong to the nearest `if` is accepted where its tokens stand |
| ParseComplete.ForComplete | parser.py:100-109 | a `for` loop's tokens standing at a position are accepted with that loop |
| ParseComplete.BlockComplete | parser.py:111-114 | `{ statements }` standing at a position is accepted |
| ParseComplete.StmtComplete | parser.py:61-77 | a statement's tokens standing at a position are accepted with that statement |
| ParseComplete.StmtListComplete | parser.py:55-59 | statements followed by a lookahead that cannot start one are accepted whole |
| ParseTheorems.ExprIff | parser.py:116-120 | `_expr` accepts a derivation if and only if its tokens stand there followed by a lookahead that ends its loops |
| ParseTheorems.StmtIff | parser.py:61-77 | `_stmt` accepts a derivation if and only if its tokens stand there, every `else` belongs to the nearest `if`, and no `else` follows an open `if` |
| ParseTheorems.DeclIff | parser.py:79-82 | `_decl` succeeds if and only if the next three tokens are `INT ID SEMI` and the fourth lookahead can be fetched |
| ParseTheorems.StmtListIff | parser.py:55-59 | `_stmt_list` accepts a list if and only if its tokens stand there followed by a lookahead outside the trigger set |
| ParseTheorems.ParseAccepts | parser.py:49-53 | `parse` succeeds if and only if the stream starts with a well-ended statement list; what follows is never checked, and the symbol-table flag plays no part |
| ParseTheorems.GtNeverAccepted | parser.py:116-120 | no lexeme that `_stmt_list` accepts is `>` |
| ParseTheorems.ElseBindsInner | parser.py:96-98 | an `else` after `if ( c ) if ( c2 ) t` goes to the inner `if`, never to the outer one |
| ParseErrors.StmtFails | parser.py:61-77 | at the end of input `_stmt` fails on the missing lookahead; on any other lookahead outside the trigger set it reports `[INT, ID, IF, FOR, LBRACE]` |
| ParseErrors.FactorFails | parser.py:134-146 | at the end of input `_factor` fails on the missing lookahead; on a lookahead other than `NUM`, `ID`, `(` it reports `[NUM, ID, LPAR]` |
| ParseErrors.StmtListStops | parser.py:55-59 | `_stmt_list` reads nothing exactly when the lookahead cannot start a statement |
| ParseErrors.DeclExpectsSemi | parser.py:79-82 | after `INT ID` any token but `;` is reported with `[SEMI]` |
| ParseErrors.ChainedComparisonFails | parser.py:116-120 | a second `==` or `<` after a comparison is a syntax error expecting `;` |
| ParseErrors.ForNeedsDoubleSemi | parser.py:100-105 | after the first assignment of a `for` header a second `;` must follow, so the C form fails at the condition |
| GrammarFacts.StmtNoGt | parser.py:61-146 | no derivation of a statement contains the token `>` |
| GrammarFacts.DanglingElse | parser.py:90-98 | the two derivations of `if ( c ) if ( c2 ) t else e` have the same tokens |
| GrammarFacts.ForHeaderShape | parser.py:100-108 | the tokens of a `for` header are `for ( ID = expr ; ; expr ; ID = expr ; )` |
| ParseExamples.TrailingBraceAccepted | parser.py:49-59 | the lexemes `INT ID SEMI RBRACE` (what `int x; }` scans to) are accepted, ending before the `}` |
| ParseExamples.DoubleNameRejected | parser.py:79-82 | the lexemes `INT ID ID SEMI` (what `int x x;` scans to) fail at the second `x`, expecting `[SEMI]` |
| ParseExamples.BadAfterIntRejected | parser.py:39-41 | the lexeme `INT` followed by a scanner error: the error surfaces when `INT` is matched |
| ParseExamples.EmptyAccepted | parser.py:55-59 | an empty stream is accepted as the empty program |
| FrontEnd.ParseText | parser.py:34-37 | parsing the text left in a scanner fails with the scanner error's line when the constructor's first `token()` call raises it |
| FrontEnd.LayoutIsEmptyProgram | parser.py:49-59 | text of only blanks and comments scans to no lexemes and parses as the empty program |

## Left out

- main.py is not part of this model. It reads the file, chooses scanning or parsing, and prints.
- `SymbolTable` and `SymbolTableException`: every method of the symbol table is empty, and the parser never calls it. `use_symbol_table` is kept only as a parameter of `Parse` that nothing reads.
- Message texts of `ScannerException` and `ParserException`, and `Lexeme.__str__`: the errors are structured values carrying the line, the lexeme and the expected tokens.
- The argument `s` of `parse`: the source ignores it, so `Parse` does not take it.
- Errors raised in `Parser.__init__` and errors raised during `parse`: both appear as the same failure of `Parse`. The line of a `LexicalError` is the line the scanner reports.
- Python's `re` engine in general: each of the six patterns of the table is modelled by its own matcher on characters. `\d` and `\b` are taken over ASCII digits, letters and `_`, not the full Unicode classes `re` uses for `str` patterns.
- Laziness: the parser asks the scanner for one lexeme at a time, and the model lists the lexemes up front. The scanner has no state the parser touches, so the order of results and errors is the same, up to the recursion limit below.
- Python's recursion limit: the model's recursion depth is unbounded. `token` calls itself once per `IGNORE` match (scanner.py:68), and the line feed between two comments goes through the skip loop, so every comment line adds a frame. About a thousand comment lines in a row raise `RecursionError` in the source, where `TokenFacts.ExhaustedIffLayout`, `TokenFacts.NextTokenConsumes`, `Streams.LexEmptyIffLayout` and `FrontEnd.LayoutIsEmptyProgram` give a lexeme or `None`. Deeply nested parentheses, blocks or `if` statements exhaust the parser's mutual recursion in the same way.
- The model's derivation trees stand for the calls the recognizer made; the source builds no tree.

## Notes on the model

- `NoLookahead` is how the model reports `_stmt` or `_factor` meeting the end
  of input. The source reads `.token` off `None` there, which raises
  `AttributeError` instead of `ParserException`. `_match` reports the same
  situation as `Lexeme(ID, "EOF")`.
- `GrammarFacts.StmtNoGt` rests on one lemma per production
  (`FactorNoGt` through `StmtsNoGt`).
