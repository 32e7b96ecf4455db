# bombLang in Dafny

A model of the interpreter for bombLang, a toy language written almost entirely in
punctuation: `*expr@x` assigns, `~f-a_ … _` defines, `!f-arg@r` calls, `!alert`,
`!return`, `:if_ … _:else_ … _` branches on the latest assignment, and
`^label_ … _^label_ … _` catches explosions. Expressions are chains such as
`5&+&3&*&2`, evaluated strictly left to right.

The interpreter has three stages, and each is modelled as pure functions:

- **Scanner** (`lexer.dfy`, `tokens.dfy`). It turns text into tokens with kind, text,
  line and column.
- **Parser** (`parser.dfy`, `ast.dfy`). It is recursive descent with statement-level
  error recovery. Its output is a closed syntax tree.
- **Evaluator** (`interpreter.dfy`). It walks the tree over an explicit state:
  - globals, current locals and the saved caller scopes;
  - the function table;
  - the lines `!alert` has written.

  Returns and explosions are outcomes (`Returned`, `Faulted`), not exceptions.

Two revisions of the same code exist: the TypeScript sources under `src/`, and a later
compiled revision in `web/bundle.js`. They differ at a handful of points. The model is
one definition with a `Revision` switch (`Src` or `Bundle`) at exactly those points:

- **Scanning lookahead.** The scanning loops test the character after the cursor in
  src and the character at it in the bundle.
- **Argument syntax.**
  - `!alert` and call arguments need dashes in src. The bundle takes bare alert
    arguments only, and call arguments either way.
  - `!return` needs a dash in src and takes a bare expression in the bundle.
  - `*expr:if` becomes a conditional only in the bundle.
- **Calls.**
  - Src evaluates arguments after pushing the callee frame; the bundle evaluates them
    before.
  - Src binds the result in the callee scope; the bundle binds it in the caller scope.
  - The bundle's `getVariable` reads locals only inside a call.
- **Try/catch.** The catch rules differ (see Findings).
- **Built-ins and chains.**
  - `!explode` is a built-in only in the bundle.
  - `!alert` joins its arguments with `''` in src and `' '` in the bundle.
  - A trailing chain operator is ignored in src and is a fault in the bundle.

The other files hold the proofs and the statements about concrete inputs:

- `jsnum.dfy` gives JavaScript arithmetic and number/text conversion: `Math.floor`
  division, truncating `%`, `String(n)` and `parseInt`.
- `lexer_props.dfy`, `parser_props.dfy` and `interpreter_props.dfy` hold the proofs.
- `lexer_vectors.dfy` states the scanner's result on concrete texts.
- `pipeline.dfy` composes the three stages.

## Model

| member | source | states |
|---|---|---|
| Tokens.KindSetClosed | src/token.ts:1-38 | 27 token kinds, each at its own index; every kind is a structural symbol, literal, operator, keyword, Comment or EOF; structural symbols are neither literals nor operators, and keywords are neither operators nor literals |
| Tokens.KeywordsAreExactlyFour | src/token.ts:30-33 | a word with a keyword kind is that kind's own text, and each keyword kind's text maps back to that kind |
| Tokens.DualRoleSymbols | src/token.ts:3-10 | `*` both starts a statement and is a chain operator; `-` is a structural symbol that is also a chain operator |
| Tokens.KeywordKind | src/lexer.ts:185-193 | a word has a keyword kind exactly when it is `if`, `else`, `return` or `alert` |
| Lexer.Walk | src/lexer.ts:228-246 | a scanning loop stops at the first position whose tested character (at the cursor, or one after it) fails the test, and every position it passed satisfied it |
| Lexer.ScanToken | src/lexer.ts:59-125 | a successful scan consumes at least one character and yields a well-spelled, non-EOF token |
| Lexer.ScanSymbol | src/lexer.ts:60-106 | the symbol and two-character operator cases: a successful scan is a non-EOF token carrying its kind's fixed text, and the cursor moves forward |
| Lexer.ScanComment | src/lexer.ts:127-141 | a Comment token; the cursor moves forward |
| Lexer.ScanString | src/lexer.ts:143-162 | a string token that consumes at least its opening quote; with no closing quote before the end of the text, an Unterminated string error at the opening quote's column, in both revisions |
| Lexer.ScanNumber | src/lexer.ts:164-172 | a well-spelled Number token that starts with a digit; the cursor moves forward |
| Lexer.ScanWord | src/lexer.ts:174-183 | an Identifier or keyword token, never an identifier spelled like a keyword; the cursor moves forward |
| Lexer.NextToken | src/lexer.ts:41-57 | EOF only at the end of the text; any other token moves the cursor forward |
| Lexer.Tokenize | src/lexer.ts:13-39 | on success: exactly one EOF, last; no comments; every token well spelled |
| Lexer.TokenizeFrom | src/lexer.ts:18-36 | the same for the loop from any cursor, for any step that moves forward |
| LexerProps.TokenizeFromMatchesRaw | src/lexer.ts:18-36 | the loop equals an unbudgeted reference scan with the budget check and comment filter applied afterwards |
| LexerProps.TokenizeIsBudgetedRawScan | src/lexer.ts:25-30 | tokenize succeeds iff the reference scan reaches EOF with no error within 1000 raw tokens, comments counted; otherwise it fails, and never truncates |
| LexerProps.EqualsLookahead | src/lexer.ts:71-106 | `!`, `>`, `<` absorb a following `=`; `==` needs both characters; a lone `=` is an unexpected character |
| LexerProps.SlashOrComment | src/lexer.ts:107-111 | `//` starts a comment and any other `/` is Slash; a bundle comment ends exactly at the end of its line |
| LexerProps.KeywordIffReserved | src/lexer.ts:180-193 | a scanned word is a keyword iff its text is reserved, and an Identifier iff it is not |
| LexerProps.BundleWalk | web/bundle.js:644-662 | in the bundle a loop covers exactly the characters that pass its test and stops at the first that fails |
| LexerProps.BundleNumberIsMaximalRun | web/bundle.js:644-652 | a bundle number is the maximal run of digits from the cursor |
| LexerProps.BundleWordIsMaximalRun | web/bundle.js:653-662 | a bundle word is a letter then the maximal run of letters and digits |
| LexerProps.BundleStringBetweenQuotes | web/bundle.js:626-643 | a bundle string is unterminated iff no quote follows the opening one; otherwise its text is everything between the quotes |
| LexerProps.UnhandledIsUnexpected | src/lexer.ts:51-56 | a character with no scanner case is an unexpected-character error at its position |
| LexerProps.BlanksProduceNoTokens | web/bundle.js:532-544 | skipping the blanks first does not change the next token |
| LexerProps.SrcNumberStopsEarly | src/lexer.ts:164-172 | in src, `12` scans as the number `1`, leaving the digit `2` |
| LexerProps.SrcBlankReachesScanner | src/lexer.ts:228-246 | in src, a blank after a one-character token reaches `scanToken` and is an unexpected character |
| LexerVectors.BundleSkipsBlank | web/bundle.js:703-721 | bundle `*5 @x` gives `*`, `5`, `@`, `x`, EOF, with their columns |
| LexerVectors.SrcWithoutBlank | src/lexer.ts:214-217 | src `*5@x` gives `*`, `5`, `@`, `x`, EOF |
| LexerVectors.SrcBlankIsUnexpected | src/lexer.ts:228-246 | src `*5 @x` fails with an unexpected blank at line 1, column 3 |
| LexerVectors.BundleDropsCommentLine | web/bundle.js:613-625 | a comment line is dropped and the next line's tokens carry line 2 |
| JsNum.FloorDiv | src/interpreter.ts:192 | the quotient rounded toward negative infinity: `q*b <= a < q*b + b` for positive `b`, mirrored for negative `b` |
| JsNum.TruncRem | src/interpreter.ts:193 | the remainder has the sign of the dividend, is smaller than the divisor in size, and `a == TruncDiv(a,b)*b + r` |
| JsNum.ParseDecimalOfIntToString | src/parser.ts:217-221 | `parseInt(String(n))` is `n` for every natural `n` |
| JsNum.ParseDecimalStopsAtNonDigit | src/parser.ts:217-221 | `parseInt` reads the leading digits and ignores what follows |
| Parser.Next | src/parser.ts:267-270 | the cursor moves one token, except that it stays on EOF |
| Parser.Consume | src/parser.ts:289-294 | succeeds iff the current token has the kind, and then returns it and moves one on; otherwise the state is unchanged |
| Parser.Primary | src/parser.ts:217-235 | succeeds iff the token is a number, string or identifier, consuming exactly it |
| Parser.Expression | src/parser.ts:184-215 | a primary, or a chain of at least three items; on consistent tokens a well-formed chain |
| Parser.ChainTail | src/parser.ts:194-214 | with no `&` after a lone primary the result is that primary; otherwise a chain of length at least 3 |
| Parser.ChainGroup | src/parser.ts:195-207 | a group consumes exactly `& op & primary`; on consistent tokens the operator is one of the chain operators |
| Parser.DashArgs | src/parser.ts:126-134 | the arguments read are all primaries and extend the ones so far; no dash follows them |
| Parser.SpacedArgs | web/bundle.js:862-875 | bare primaries that end exactly at a boundary token |
| Parser.AlertArgs | src/parser.ts:95-99 | alert arguments are primaries; in src they are dash-introduced and no dash follows them, in the bundle they are bare and end exactly at a boundary (EOF, a statement start or `_`) |
| Parser.CallArgs | web/bundle.js:969-991 | call arguments are primaries; dash-introduced with no dash after them in src, and in the bundle when the first starts with `-`; otherwise bare, ending exactly at a boundary or `@` |
| Parser.FunctionCall | src/parser.ts:94-123 | an alert, return or call, consuming at least one token; well formed for scanned tokens |
| Parser.Synchronize | src/parser.ts:296-313 | recovery moves at least one token unless at EOF, and never past EOF |
| Parser.Statement | src/parser.ts:30-65 | never fails; consumes at least one token unless at EOF; a statement it returns is well formed |
| Parser.StatementBody | src/parser.ts:31-59 | the statement-kind dispatch; when it parses, it moves the cursor |
| Parser.Assignment | web/bundle.js:804-814 | an assignment that remembers its expression for later conditionals, or (bundle only) a diverted conditional |
| Parser.FunctionDefinition | src/parser.ts:77-91 | a definition, consuming at least one token |
| ParserProps.FunctionDefinitionReads | src/parser.ts:77-91 | the name is the identifier after `~`, the parameters are the dash-introduced identifiers after it, in order, and the body's `_` follows them |
| Parser.Params | src/parser.ts:83-86 | the names read follow those gathered so far, two tokens each, and no dash follows them |
| ParserProps.ParamsAreDashNames | src/parser.ts:83-86 | the names read are exactly the identifiers the dashes introduce, in order |
| ParserProps.ParamsReadsDashNames | src/parser.ts:83-86 | conversely, dash-introduced identifiers with no dash after them are all read, in order, and parsing stops just after them |
| Parser.IfStatement | src/parser.ts:137-154 | the condition is the expression remembered when the conditional ends (literal 1 if none) |
| Parser.ElsePart | src/parser.ts:143-153 | there is an else branch only if `:else` comes next; with no `:else` next, the conditional ends where it is, with no else branch |
| Parser.TryStatement | src/parser.ts:157-168 | a try statement labelled by the first identifier |
| Parser.BlockStatement | src/parser.ts:170-182 | a parsed block ends just after a `_` |
| Parser.BlockItems | src/parser.ts:173-178 | the items stop at a `_` or at EOF |
| Parser.Parse | src/parser.ts:17-28 | on consistent tokens, every statement of the program is well formed |
| Parser.ParseItems | src/parser.ts:20-25 | the loop keeps every statement well formed |
| ParserProps.StatementDispatch | src/parser.ts:30-59 | a statement starts with its kind's token; any other first token is skipped with no statement |
| ParserProps.SyncLoopFirst | src/parser.ts:299-312 | the recovery loop stops at the first recovery point from where it starts |
| ParserProps.SynchronizeStops | src/parser.ts:296-313 | recovery stops at a recovery point (EOF, just after `_`, or before a statement start), skips at least one token, and stops at the first such point |
| ParserProps.ChainWithoutAmpersand | src/parser.ts:210-214 | a primary without `&` is the whole expression |
| ParserProps.ChainMissingOperator | src/parser.ts:205-207 | `&` not followed by an operator is a parse error just after the `&` |
| ParserProps.ChainMissingSecondAmpersand | src/parser.ts:199-204 | an operator not followed by `&` is a parse error after the operator |
| ParserProps.BlockNeedsUnderscore | src/parser.ts:180 | with no `_` ahead a block is a parse error |
| ParserProps.SrcReturnNeedsDash | src/parser.ts:101-106 | src `!return` without a dash fails |
| ParserProps.BundleReturnIsBare | web/bundle.js:835-839 | bundle `!return` takes the expression right after it |
| ParserProps.SrcAlertArgumentsNeedDash | src/parser.ts:126-134 | src `!alert` without a dash has no arguments |
| ParserProps.BundleAlertStopsAtBoundary | web/bundle.js:862-875 | bundle `!alert` followed by a boundary has no arguments |
| ParserProps.OnlyBundleDiverts | web/bundle.js:807-810 | in src an assignment production always yields an assignment |
| ParserProps.SimpleAssignment | src/parser.ts:68-74 | `*e@v` is `AssignmentStmt(e, v)` and remembers `e` |
| ParserProps.SrcAssignmentNeedsAt | src/parser.ts:68-74 | in src an expression not followed by `@` fails the assignment right after the expression, which is remembered all the same |
| ParserProps.EmptyBlock | src/parser.ts:170-182 | `_` right away is an empty block |
| ParserProps.ParseItemsCollects | src/parser.ts:20-25 | the statement loop keeps the statements gathered so far and appends, in order, exactly those `statement` returns up to EOF |
| ParserProps.ParseCollects | src/parser.ts:17-28 | the program lists, in order, exactly the statements `statement` returned as the parser walked from the first token to EOF; those recovery dropped are missing |
| ParserProps.SkipToken | src/parser.ts:30-65 | a token that starts no statement (and is not EOF) is stepped over with no statement |
| ParserProps.SkipLastToken | src/parser.ts:20-25 | such a token just before EOF adds nothing to the program |
| ParserProps.NoElseAtEnd | src/parser.ts:143-153 | at EOF a conditional has no else branch and takes the remembered expression |
| ParserProps.ConditionIsLatestAssignment | src/parser.ts:137-153 | `*1@x :if_ *2@y _` branches on `2`, the assignment inside its own branch |
| ParserProps.ConditionExample | src/parser.ts:137-153 | the same on concrete src tokens |
| ParserProps.TryOfEmptyBlocks | src/parser.ts:157-168 | `^a_ _ ^b_ _` is a try labelled `a` with empty blocks |
| ParserProps.CatchLabelNotCompared | src/parser.ts:162-167 | a catch label differing from the try label is accepted and dropped |
| ParserProps.SrcDashedCall | src/parser.ts:108-119 | src parses the tokens `! f - a - b @ r` as a call of `f` on `a`, `b`, bound to `r` |
| ParserProps.BundleSpacedCall | web/bundle.js:840-849 | bundle `!f a b@r` is the same call |
| ParserProps.BundleDivertsToConditional | web/bundle.js:804-810 | bundle `*x :if_ _` is a conditional on `x` that binds nothing |
| ParserProps.EmptyConditionalAtEnd | src/parser.ts:137-154 | `:if_ _` at EOF is a conditional on the remembered expression with an empty then-block and no else part |
| ParserProps.SrcDropsDivertedConditional | src/parser.ts:68-74 | the same tokens in src give an empty program |
| ParserProps.SrcAssignmentBeforeConditional | src/parser.ts:68-74 | in src `*x :if_` is dropped as a failed assignment, remembers `x`, and recovery resumes just after the `_` |
| ParserProps.RecoveryDropsBadStatement | src/parser.ts:60-64 | `*1&x *2@y`: the bad first statement is dropped and parsing resumes at the next `*` |
| ParserProps.SingleAssignment | src/parser.ts:17-28 | `*n@x` alone is one assignment in both revisions |
| Interpreter.Str | src/interpreter.ts:140 | `parseInt(String(n)) == n` for natural `n` |
| Interpreter.ApplyOp | src/interpreter.ts:180-203 | faults iff the operator is unknown or divides by zero; otherwise a number; comparisons give 0/1 with `==` and `<` exact; `/` floors for either sign of the divisor; `%` by a nonzero divisor takes the sign of the dividend, is smaller than the divisor in size, and completes the truncating division |
| Interpreter.Lookup | src/interpreter.ts:254-265 | defined iff the name is a global or a visible local (always in src, only inside a call in the bundle); locals shadow globals |
| Interpreter.SetVar | src/interpreter.ts:246-252 | inside a call the name is added to the locals and the globals are untouched; outside a call, the reverse |
| Interpreter.Push | src/interpreter.ts:232-237 | saves the locals on the stack and starts an empty scope |
| Interpreter.Pop | web/bundle.js:436-446 | restores the innermost saved scope; with none, the bundle clears the locals and src keeps them |
| Interpreter.EvalExpr | src/interpreter.ts:172-178 | a literal is its value; a variable is its lookup |
| Interpreter.EvalArgs | web/bundle.js:256 | fails iff some argument faults; otherwise one value per argument, in order |
| Interpreter.Join | src/interpreter.ts:141 | no parts give `""`, one part is itself |
| Interpreter.Explode | web/bundle.js:245-249 | always an explosion; the label is the first argument, the message the second or "Manual explosion!" |
| Interpreter.BindParams | web/bundle.js:262-266 | parameter `j` gets argument `j` (a repeated name keeps its last one); the locals gain exactly the parameters given a value, so surplus arguments are dropped and missing parameters stay unset; other locals keep their values, and nothing outside the locals changes |
| Interpreter.BindArgsSrc | src/interpreter.ts:102-107 | binding arguments in src either completes or raises an unlabelled fault, touching only the callee's locals; on completion the locals gain exactly the parameters given an argument, and other locals keep their values |
| InterpreterProps.SrcArgumentMissesUnbound | src/interpreter.ts:97-107 | an argument naming a variable that is not a global, not a local of the new frame and not an earlier parameter makes the binding fault; with only literals before it, the message is "Undefined variable" for that name |
| InterpreterProps.SrcCallHidesCallerLocals | src/interpreter.ts:97-107 | a src call with an argument naming a caller's local that is not a global (nor an earlier parameter) raises an unlabelled fault and leaves the caller's state as it was; with only literals before it, the message is "Undefined variable" for that name |
| Interpreter.BindResult | web/bundle.js:285-287 | the binding writes only the current scope |
| Interpreter.Exec | src/interpreter.ts:60-170 | a statement keeps the saved scopes, writes only the current scope and only adds lines and functions; src never labels a fault; an assignment ends normally iff its expression evaluates; a well-formed statement never hits an internal error |
| Interpreter.Call | src/interpreter.ts:85-132 | `alert` as a call is an internal error; an unknown name is "Unknown function"; otherwise the same discipline as Exec |
| Interpreter.AfterCall | web/bundle.js:259-288 | the frame is popped on every exit; a normal end or a return gives a normal outcome, and faults and internal errors propagate |
| Interpreter.ExecBlock | src/interpreter.ts:66-70 | the same discipline for a block |
| Interpreter.ExecStmts | src/interpreter.ts:67-69 | the same for the statement loop |
| Interpreter.Interpret | src/interpreter.ts:46-58 | ends with no frame and empty locals; a parsed program never ends with an unexpected explosion |
| InterpreterProps.ChainFromSnoc | src/interpreter.ts:213-227 | the chain loop on a list extended by `op x` is the loop on the list followed by one step |
| InterpreterProps.ChainSnoc | src/interpreter.ts:205-230 | a chain is a left fold: adding `op x` at the end applies one more step to its value |
| InterpreterProps.SingleChain | src/interpreter.ts:210 | a one-item chain is its item |
| InterpreterProps.EmptyChain | src/interpreter.ts:206-208 | an empty chain is 0 |
| InterpreterProps.NoPrecedence | web/bundle.js:369-427 | `5&+&3&*&2` is 16 in both revisions |
| InterpreterProps.ChainFromTrailing | src/interpreter.ts:214 | the loop with a trailing operator equals the loop without it (src) or fails (bundle) |
| InterpreterProps.TrailingOperator | src/interpreter.ts:214 | src ignores a trailing operator; the bundle faults |
| InterpreterProps.IncompleteChain | web/bundle.js:379-381 | `7&+` is 7 in src and "Incomplete chain expression - missing operand" in the bundle |
| InterpreterProps.LookupRevisionsAgree | web/bundle.js:458-467 | with empty locals outside calls, both revisions look up the same value |
| InterpreterProps.ApplyOpWording | web/bundle.js:385-424 | the chain's own operator code differs from the binary one only in fault messages |
| InterpreterProps.ChainFromAgree | web/bundle.js:378-425 | the revisions' chain loops agree on well-formed chains |
| InterpreterProps.ChainRevisionsAgree | web/bundle.js:369-427 | both revisions evaluate parsed chains to the same value, or both fault |
| InterpreterProps.ComparisonDuality | src/interpreter.ts:194-199 | `!=` negates `==`, `<=` negates `>`, and `>`/`>=` are `<`/`<=` swapped |
| InterpreterProps.DivisionAndRemainderSigns | src/interpreter.ts:192-193 | 7/-2 = -4, -7/2 = -4, -7%2 = -1, 7%-2 = 1 |
| InterpreterProps.DivisionByZero | src/interpreter.ts:188-191 | a zero divisor faults with "Division by zero!", or with the bundle chain's "Division by zero explosion!" |
| InterpreterProps.ReadAfterWrite | src/interpreter.ts:246-265 | a variable reads back its last write, and other names are unaffected |
| InterpreterProps.ExecKeepsScope | src/interpreter.ts:232-244 | empty locals outside calls is preserved by every statement |
| InterpreterProps.ScopeOkInitially | src/interpreter.ts:32-35 | the interpreter starts with empty locals |
| InterpreterProps.PopUndoesPush | src/interpreter.ts:232-244 | pop after push restores the state exactly |
| InterpreterProps.DefinitionReplaces | src/interpreter.ts:77-83 | a definition replaces its entry and nothing else |
| InterpreterProps.SrcResultBindingLost | src/interpreter.ts:112-130 | in src the `@result` makes no difference, and the caller's locals come back unchanged |
| InterpreterProps.BundleResultBound | web/bundle.js:284-288 | in the bundle the `@result` reads as the returned value, or 0 |
| InterpreterProps.CallRestoresCallerScope | src/interpreter.ts:97-131 | every call restores the caller's locals, except for the bundle's result binding |
| InterpreterProps.SrcArgumentsMissCallerLocals | src/interpreter.ts:97-107 | example: inside a call with a local `y`, the src call `FunctionCallStmt("f", [IdentifierExpr("y")], Some("r"))` faults with "Undefined variable: y" |
| InterpreterProps.BundleArgumentsSeeCallerLocals | web/bundle.js:255-288 | the bundle evaluates the same call's `y` in the caller and binds the result there |
| InterpreterProps.SrcCallLeavesNoResult | src/interpreter.ts:112-130 | at top level with a global `y`, the same call tree leaves the state unchanged in src |
| InterpreterProps.BundleCallBindsResult | web/bundle.js:284-287 | the bundle binds the global `r` |
| InterpreterProps.ExplodeOnlyInBundle | web/bundle.js:245-249 | `explode` is a built-in in the bundle and an unknown function in src |
| InterpreterProps.SrcTryRule | src/interpreter.ts:156-170 | src: explosions and normal ends pass through; a return or internal error runs the catch block |
| InterpreterProps.SrcDivisionEscapesTry | src/interpreter.ts:156-170 | example: in src, the try `^a_*1&/&0@x_^a__` does not catch its division by zero; the program writes nothing and ends in the explosion "Division by zero!" |
| InterpreterProps.BundleTryRule | web/bundle.js:309-339 | bundle: an unlabelled, empty-labelled or matching explosion runs the catch block, and so does an internal error; another label, a return or a normal end passes through |
| InterpreterProps.BundleLabelledExplosions | web/bundle.js:316-323 | in a try labelled `a`, `!explode "b"` escapes; `!explode "a"` is caught and the catch block's `!alert "caught"` writes its line |
| InterpreterProps.AlertSeparators | src/interpreter.ts:139-142 | an alert of the number 1 and the text "a" (bundle text `!alert 1 "a"`) writes "1a" in src and "1 a" in the bundle |
| InterpreterProps.SequenceRuns | src/interpreter.ts:67-69 | a block `pre + post` runs `pre`, then `post` from where it left off if `pre` ended normally; otherwise `post` never runs |
| InterpreterProps.ExplosionStopsProgram | src/interpreter.ts:46-58 | once the statements before it run normally, a statement that explodes ends the whole program with that explosion and the lines written so far; nothing after it runs |
| InterpreterProps.TopLevelReturnEndsProgram | src/interpreter.ts:52-53 | once the statements before it run normally, a top-level return ends the program as a normal finish; nothing after it runs |
| InterpreterProps.ExplosionExample | src/interpreter.ts:46-58 | example: the statements alert 1, assign the undefined `u` to `x`, alert 2 write "1" and end in the explosion "Undefined variable: u" |
| InterpreterProps.TopLevelReturnExample | src/interpreter.ts:52-53 | example: the statements return 1, alert 2 finish with no output |
| Pipeline.ScannedTokensAreParseable | src/parser.ts:272-274 | every scanned token list meets the parser's demands |
| Pipeline.RunSource | src/main.ts:22-45 | a run fails in the scanner exactly when tokenize fails; otherwise the program is well formed and never ends with an unexpected explosion |
| Pipeline.RunOfTokens | src/main.ts:22-45 | a scanned text runs the program its tokens parse to |
| Pipeline.InterpretNumberAssignment | src/interpreter.ts:72-75 | `*n@x` alone sets the global `x` |
| Pipeline.SpacedTokensParse | web/bundle.js:804-814 | the tokens of `*5 @x` parse to one assignment |
| Pipeline.BundleRunsSpacedAssignment | web/bundle.js:703-721 | `*5 @x` in the bundle sets `x` to 5 with no output |
| Pipeline.SrcStopsAtBlank | src/lexer.ts:228-246 | `*5 @x` in src stops with a scanning error |

## Left out

- `src/main.ts` and `src/repl.ts`: file reading, command-line flags, the read-eval loop
  and the process exit code. `Pipeline.RunSource` composes only the three stages.
- The web page and `web/bundle.js` from line 1103 on, `server.js`, the test scripts
  and `debug.ts`: the DOM, the HTTP server and console capture. Their examples serve
  only as test vectors.
- Console diagnostics: the messages `tokenize` and `interpret` print (emoji
  included) and `getState`. The `Report` value stands in for what `interpret` prints.
- `skipNewlines`: it is never called.
- Exact text and columns of comment tokens: the model follows the code, but no property
  is stated about them, because comments never reach the parser.
- `Number(text)` for non-numeric text: it is the `toNumber` parameter of `Config`. NaN,
  Infinity and fractional values are not modelled, because numbers are integers.
- `%` by zero gives NaN in JavaScript; the model returns 0.
- Floating-point precision and `parseInt` on huge digit strings are not modelled.
- Host stack overflow in deep recursion is the fuel bound and the `Exhausted` outcome.
  JavaScript's `RangeError` would be an ordinary error that try/catch catches;
  `Exhausted` always propagates.
- `isTruthy`'s `Boolean(value)` fallback is not modelled: values are only numbers and
  texts.
- The AST is split into `Expr`, `Stmt` and `Block`, not one node class. The parser never
  places a statement where an expression belongs, so nothing is lost.
- Text is a sequence of Unicode scalar values, one index per character. JavaScript
  indexes strings by UTF-16 code unit, so there a character outside the Basic
  Multilingual Plane takes two columns and the scanner reports it as a lone surrogate.
  The model's columns and error characters differ from JavaScript's for such text.
- Interpreter.EvalExpr: its own contract covers literals and variables only. Chains are
  covered by the InterpreterProps lemmas.
- Interpreter.Join: the contract covers zero or one parts. Two parts are covered by
  `InterpreterProps.AlertSeparators`.

Where the written description of the language and the code disagree, the model follows
the code:

- The catch label of `^a_ … _^b_ … _` must be an identifier but is never compared with
  the try label.
- After a newline the scanner reports column 2, not 1, because the column is reset
  before the newline is consumed. `LexerVectors.BundleDropsCommentLine` shows it.

## Findings

| source | as written | input that shows it | evidently intended | confidence | as-written member | corrected member |
|---|---|---|---|---|---|---|
| src/lexer.ts:228-246 | the whitespace, number, word, string and comment loops test `peek()`, the character after the cursor | `*12@x`: the number loop stops after `1`, so the text scans as the numbers `1` and `2`. (A blank is rejected too, as in `*5 @x`; `debug.ts:4-16` expects that rejection, so the blank alone is not the discrepancy.) | loops test the character at the cursor, as in web/bundle.js:703-721, so a number is the maximal run of digits | high (not executed) | LexerProps.SrcNumberStopsEarly | LexerProps.BundleNumberIsMaximalRun |
| src/interpreter.ts:112-130 | the `@result` variable is written before `popFrame`, into the callee scope that is then discarded | the tree `FunctionCallStmt("f", [IdentifierExpr("y")], Some("r"))` run at the top level, with the global `y` = 7 and `f` the function `FuncDef(["p"], Block([ReturnStmt(IdentifierExpr("p"))]))`: `r` stays undefined. src's own scanner cannot produce this tree: it glues each word to the symbol after it, so `!f-y@r` scans as `!`, `f-`, `y@`, `r`. The input is reachable only through a tree built otherwise, such as from the bundle's scanner | bind the result in the caller scope, as in web/bundle.js:284-287 | high (not executed) | InterpreterProps.SrcCallLeavesNoResult | InterpreterProps.BundleCallBindsResult |
| src/interpreter.ts:97-107 | arguments are evaluated after `pushFrame`, so they cannot see the caller's locals | the same call tree run inside a call whose locals hold `y` = 7, with no global `y`: the call faults with "Undefined variable: y". Reachable, as above, only through a tree src's scanner does not produce | evaluate arguments before the push, as in web/bundle.js:255-258 | high (not executed) | InterpreterProps.SrcCallHidesCallerLocals | InterpreterProps.BundleArgumentsSeeCallerLocals |
| src/interpreter.ts:156-170 | catches a fault only when its label equals the try label, and no fault is ever labelled; every other error, a `return` included, is caught | the tree `TryStmt("a", Block([ReturnStmt(LiteralExpr(Num(1)))]), Block([]))` swallows the return; this half is reachable only through a tree, since src cannot scan `!return-`. The fault half is reachable from src text: `^a_*1&/&0@x_^a__` parses to `InterpreterProps.DivideInTry`, the try statement labelled `a` that assigns the chain `1 / 0` to `x` and has an empty catch block; the unlabelled "Division by zero!" is not caught and the program ends in that explosion | catch unlabelled faults and let returns through, as in web/bundle.js:309-339 | high (not executed) | InterpreterProps.SrcTryRule | InterpreterProps.BundleTryRule |
