# MiniCompiler in Dafny

A verified model of the compiler pipeline of MiniCompiler (`src/utils/compiler.ts`).
The pipeline translates a small C-like language into assembly-like text in six phases, plus a driver:

1. `lexicalAnalysis` splits the text into lines. It scans each line with an ordered table of anchored patterns and emits tokens with a 1-based line and a 0-based column.
2. `syntaxAnalysis` drops comments and runs a cursor-driven parser (`parseProgram`, `parseFunction`, `parseStatement`). The result is a two-level tree: a Program node, its Function nodes, and their flat statement nodes. A statement's text is its token values joined by spaces.
3. `semanticAnalysis` walks the tree. It builds a flat `name@scope` symbol table and a list of redeclaration errors.
4. `generateIntermediateCode` emits three-address instructions (`FUNC_BEGIN`, `PRINT_STR`, `EVAL`, `PRINT`, `RETURN`, `ASSIGN`, `DECLARE`, `FUNC_END`). It takes statements apart with regular expressions and draws temporaries `t0, t1, …` from one counter.
5. `optimizeCode` is a one-pass peephole rewriter. It drops an ASSIGN that is overwritten by the next one, and it fuses an `EVAL t; PRINT t` pair into `PRINT_EXPR`.
6. `generateTargetCode` appends lines to a data section and a text section. It numbers string labels `str_0, str_1, …`.
7. `compileCode` runs the phases in order and turns a thrown exception into `Compilation failed: <message>`.

Each phase has two parts:
- A function that states what the phase computes. Regular expressions are written out as string functions.
- A method that follows the source's loops and mutable state. Its contract says it computes exactly that function.

The parser cursor, the semantic tables, the IR buffer with its temporary counter, and the two target buffers are fields of classes, updated in place. The tokenizer and optimizer loops are methods with `while`/`for` loops and invariants. The properties are lemmas about the specification functions.

Files, one module each:
- `wrappers.dfy`: `Option`, `Result`.
- `text.dfy`: JavaScript string helpers: `\s`, `trim`, `split`, `join`, number formatting.
- `lexer.dfy`, `parser.dfy`, `semantic.dfy`, `irgen.dfy`, `optimizer.dfy`, `emitter.dfy`: one file per phase.
- `compiler.dfy`: the driver and the cross-phase results.

Main results:
- The tokenizer covers each line exactly: its tokens, in column order, with only whitespace between them. Every token is classified by the row of the pattern table that matched it, and an ERROR token is exactly one character that no row accepts.
- Parsing ignores comments and always gives the two-level shape. The program loop stops at the first top-level `}`, and nothing after it matters.
- Every error the semantic analyser reports is a redeclaration of a key its table holds. For parsed programs, each named function `f` has the entry `f@global` of type `function`, every other entry lies in a scope `global.f`, and every line is 0, because the parser never sets lines.
- The generator brackets each named function with `FUNC_BEGIN`/`FUNC_END`, in order. Every `EVAL` writes a fresh temporary, and the `PRINT` or `RETURN` right after it reads that temporary. Every instruction has the arity the emitter needs.
- The generator's patterns are written out with JavaScript's backtracking order. Their `.` stops at a line terminator. So `return "a<CR>b"` returns only `"a`, and `print ( "a<CR>b" )` pushes nothing. The print group ends at the last position before the first line terminator from which whitespace and a `)` follow, so `print ( "a<CR>)" )` evaluates and prints `"a`.
- The optimiser never lengthens the code and keeps its order. Each output depends only on its neighbours. It is idempotent, and on generated code it leaves no `PRINT`.
- The emitter throws only for an `ASSIGN` without arguments. Each operation appends a fixed number of text lines, and string operands get data lines `str_0, str_1, …` in order.
- Hence `compileCode` never reaches its `catch`: every text compiles, to a data and a text section.

Where the code differs from what its comments suggest, the model follows the code:
- Optimiser rule 1 looks ahead one instruction at every index. A run of three or more ASSIGNs to the same variable therefore collapses to the last one in a single pass; the pass does not keep the last two.
- Symbol entries always have line 0, not the declaration's line, because the parser never sets `line`.
- Function entries are overwritten without an error. Only variables are checked for redeclaration.
- A `PRINT` with no arguments never fuses: its `args[0]` is `undefined`, which equals no temporary.
- Because tokens are re-joined with spaces, `var a: int[] = 1` reaches the generator as `var a : int [ ] = 1`. The initialiser pattern then fails and only a `DECLARE` is emitted. Likewise `arr [ j ] = x` emits nothing.
- Only nodes of kind `Statement` are walked into. If, for and while statements emit no code.

## Model

| member | source | states |
|---|---|---|
| Text.IsWs | src/utils/compiler.ts:59 | JavaScript's `\s`: space, tab, the four line terminators, vertical tab, form feed, no-break space, the Unicode space separators and U+FEFF |
| Text.Trim | src/utils/compiler.ts:368 | `trim()`: the text between the leading and the trailing whitespace runs, as `Text.TrimShape` characterises it |
| Text.Join | src/utils/compiler.ts:268 | `join(sep)`: the pieces in order with `sep` between neighbours, and the empty text for no pieces |
| Text.Split | src/utils/compiler.ts:41 | `split` on a one-character separator always gives at least one piece |
| Text.JoinSplit | src/utils/compiler.ts:41 | splitting on `'\n'` loses nothing: joining the lines back gives the text |
| Text.SplitFirst | src/utils/compiler.ts:297 | a leading piece without the separator is the first element of the split |
| Text.SplitNone | src/utils/compiler.ts:297 | text without the separator splits into itself alone |
| Text.TrimShape | src/utils/compiler.ts:368 | `trim` keeps one middle slice, and cuts only whitespace from both ends, all of it |
| Text.TrimAllWs | src/utils/compiler.ts:368 | all-whitespace text trims to the empty string |
| Text.NatToString | src/utils/compiler.ts:338 | a counter prints as a non-empty run of decimal digits |
| Text.NatToStringInjective | src/utils/compiler.ts:338 | different counter values print differently |
| Text.DigitCharInjective | src/utils/compiler.ts:338 | different digits are different characters |
| Text.SkipWs | src/utils/compiler.ts:59 | the end of the `\s` run at a position, with only whitespace before it and none at it |
| Text.SkipWsBack | src/utils/compiler.ts:368 | the start of the trailing `\s` run of a slice, with a non-space before it |
| Text.IndexOf | src/utils/compiler.ts:56-57 | the first occurrence of a character at or after a position, and none before it |
| Text.TypeEnd | src/utils/compiler.ts:307 | the end of the run of `[a-zA-Z\[\]]` characters at a position |
| Lexer.WordEnd | src/utils/compiler.ts:54 | the end of the run of `[a-zA-Z0-9_]` characters at a position |
| Lexer.DigitEnd | src/utils/compiler.ts:55 | the end of the run of digits at a position |
| Lexer.MatchLength | src/utils/compiler.ts:43-60 | each row's match length is at most the rest of the line |
| Lexer.FirstPattern | src/utils/compiler.ts:69-85 | the first row of the table that matches, or none |
| Lexer.FirstMatch | src/utils/compiler.ts:69-85 | the lexeme of the first matching row has a positive length within the line |
| Lexer.Match | src/utils/compiler.ts:69-85 | the first match of the table, when there is one, is non-empty and within the line |
| Lexer.FirstMatchRow | src/utils/compiler.ts:69-85 | the loop's result is the kind and length of the first matching row, or nothing when no row matches |
| Lexer.MatchRow | src/utils/compiler.ts:69-85 | the same, for the whole table |
| Lexer.MatchPatterns | src/utils/compiler.ts:69-85 | the `for … of patterns` loop with its `break` returns the first match of the table |
| Lexer.FirstPatternAt | src/utils/compiler.ts:69-85 | the row the loop stops at, before which no row matched, is the first matching row of the table |
| Lexer.KeywordRows | src/utils/compiler.ts:45-53 | rows 1 to 9 are the nine keywords, in order |
| Lexer.LastRows | src/utils/compiler.ts:54-59 | rows 10 to 15 are identifier, number, the two string forms, operator and whitespace |
| Lexer.IdentifierRow | src/utils/compiler.ts:54 | the identifier row is row 10, right after the nine keyword rows |
| Lexer.KeywordRowRecognised | src/utils/compiler.ts:45-53 | a keyword row matches the whole word, followed by a non-word character or the end |
| Lexer.IdentifierRowRecognised | src/utils/compiler.ts:54 | an identifier that no keyword row matched is a maximal word that is not a keyword |
| Lexer.QuotedRowRecognised | src/utils/compiler.ts:56-57 | a string runs from a quote to the next quote of the same kind |
| Lexer.MatchRecognised | src/utils/compiler.ts:43-60 | whatever the table matches is a comment to end of line without a line terminator, a bounded keyword, a non-keyword identifier, a maximal number, a string, one operator or a maximal whitespace run |
| Lexer.RowRecognised | src/utils/compiler.ts:43-60 | the first row that matches recognises the lexeme of its own kind and length |
| Lexer.IdentifierFirst | src/utils/compiler.ts:43-60 | a match of the identifier row, below every keyword row that did not match, is an identifier that is no keyword |
| Lexer.RowMatchRecognisable | src/utils/compiler.ts:43-60 | a character at which any row matches is not unrecognisable |
| Lexer.KeywordStartsWord | src/utils/compiler.ts:43-60 | a keyword match starts with a word character |
| Lexer.NoRowMatches | src/utils/compiler.ts:54-59 | when nothing matches, the last six rows fail |
| Lexer.FailingRowsUnrecognisable | src/utils/compiler.ts:87-96 | when those rows fail, the character is unrecognisable |
| Lexer.MatchNone | src/utils/compiler.ts:87-96 | the table matches nothing exactly at an unrecognisable character, both directions |
| Lexer.ScanAt | src/utils/compiler.ts:65-96 | each turn of the column loop moves forward and stays on the line |
| Lexer.ScanColumn | src/utils/compiler.ts:65-96 | one turn of the column loop pushes the token of the match, nothing for whitespace, or a one-character ERROR token |
| Lexer.LexicalAnalysis | src/utils/compiler.ts:39-101 | the nested loops compute the tokens of every line, in line order |
| Lexer.CoversWiden | src/utils/compiler.ts:81 | whitespace skipped before a covered tail keeps the line covered |
| Lexer.ScanAtSkips | src/utils/compiler.ts:73 | a step that pushes nothing steps over whitespace only |
| Lexer.ScanAtToken | src/utils/compiler.ts:71-95 | a step that pushes a token pushes one classified token at its column |
| Lexer.CoversCons | src/utils/compiler.ts:74-81 | a token at the column followed by a covered tail covers the line |
| Lexer.ScanAtSpan | src/utils/compiler.ts:74-81 | the pushed token's value is exactly the text the step moves over |
| Lexer.LexLine | src/utils/compiler.ts:65-97 | the tokens of one line from a column on: the token of each step of the column loop, followed by those from where the step ends |
| Lexer.LexLines | src/utils/compiler.ts:62-98 | the tokens of the first `n` lines in order, the `k`-th line numbered `k` |
| Lexer.Tokenize | src/utils/compiler.ts:39-101 | `lexicalAnalysis`: the text split on `\n`, then the tokens of every line in order |
| Lexer.LexLineCovers | src/utils/compiler.ts:62-98 | a line is exactly its tokens in increasing column order, with only whitespace around them |
| Lexer.LexLineTokens | src/utils/compiler.ts:62-98 | each token of a line carries that line's number, is never WHITESPACE and is non-empty and classified where it stands |
| Lexer.LexLinesTokens | src/utils/compiler.ts:62-98 | each token of the text has a line number between 1 and the number of lines, and is classified on that line |
| Lexer.LexLinesOrdered | src/utils/compiler.ts:62-98 | line numbers never decrease along the token stream |
| Lexer.TokenizeTokens | src/utils/compiler.ts:39-101 | all tokens of a text are positioned, classified and in line order |
| Parser.WithoutComments | src/utils/compiler.ts:112 | the filter keeps only tokens of the input, none of them a comment |
| Parser.Values | src/utils/compiler.ts:268 | one value per collected token |
| Parser.StatementEnd | src/utils/compiler.ts:222-228 | the statement loop stops at the first `;` or `}` operator, or at the end |
| Parser.FindOp | src/utils/compiler.ts:181-185 | the skip loop stops at the first `{` operator, or at the end |
| Parser.StatementAt | src/utils/compiler.ts:210-271 | `parseStatement` never moves the cursor back, and moves it forward unless it is on `}` or at the end |
| Parser.BodyAt | src/utils/compiler.ts:193-198 | the body loop ends at a `}` or at the end |
| Parser.FunctionAt | src/utils/compiler.ts:166-208 | `parseFunction` always moves past the `function` keyword |
| Parser.FunctionsAt | src/utils/compiler.ts:141-151 | the function loop ends at a `}` or at the end |
| Parser.Parser.constructor | src/utils/compiler.ts:112-114 | the cursor starts at 0 over the comment-free tokens |
| Parser.Parser.ParseStatement | src/utils/compiler.ts:210-271 | the statement method leaves the node and cursor that the statement scan gives |
| Parser.Parser.ParseBody | src/utils/compiler.ts:193-198 | the body loop collects the statements of the body scan |
| Parser.BodyStep | src/utils/compiler.ts:194-198 | one turn of the body loop: the statement at the cursor, then the loop from after it |
| Parser.Parser.ParseFunction | src/utils/compiler.ts:166-208 | the function method leaves the node and cursor of the function scan |
| Parser.FunctionAtBody | src/utils/compiler.ts:176-203 | a named function whose `{` is found gets the body statements, and a closing `}` is consumed |
| Parser.FunctionAtUnclosed | src/utils/compiler.ts:176-186 | a named function without `{` has no body and leaves the cursor at the end |
| Parser.Parser.ParseFunctions | src/utils/compiler.ts:141-151 | the program loop collects the functions, skipping other tokens |
| Parser.Parser.ParseProgram | src/utils/compiler.ts:117-164 | `parseProgram` computes the program tree of the tokens |
| Parser.ProgramOf | src/utils/compiler.ts:117-164 | `parseProgram` from cursor 0: `program NAME` gives a named Program node, whose functions are parsed only after a `{`; otherwise an unnamed Program without children |
| Parser.Parse | src/utils/compiler.ts:104-275 | `syntaxAnalysis`: `parseProgram` over the tokens without comments |
| Parser.SyntaxAnalysis | src/utils/compiler.ts:104-275 | the parser returns the tree of the comment-free tokens |
| Parser.StatementScan | src/utils/compiler.ts:219-268 | a statement's value is the space-join of the tokens before the first `;`/`}`; its kind comes from them; it has no children or position; a `;` is consumed and a `}` left |
| Parser.StatementKind | src/utils/compiler.ts:237-265 | the kind of a statement from its first token: a keyword picks its kind by value, an identifier gives `Assignment`, anything else, or no token, `Statement` |
| Parser.StatementKindTable | src/utils/compiler.ts:237-265 | the kind depends only on the first token: `var`, `if`, `for`, `while`, `return`, `print` or an identifier, each exactly, and otherwise `Statement` |
| Parser.BodyStatements | src/utils/compiler.ts:193-198 | every node of a body is a valued statement node without children |
| Parser.FunctionShape | src/utils/compiler.ts:166-208 | a function node has only statement children and no position |
| Parser.FunctionsShape | src/utils/compiler.ts:141-151 | every child collected by the program loop is a function node |
| Parser.ParseWellShaped | src/utils/compiler.ts:117-208 | every tree is a Program of Function nodes of flat statements, and no node has a line or column |
| Parser.FunctionsNamed | src/utils/compiler.ts:176-178 | with non-empty token texts, each function is named or has no children |
| Parser.ParseNamed | src/utils/compiler.ts:166-208 | the same for the tree's functions |
| Parser.ProgramHeader | src/utils/compiler.ts:123-161 | the program has a name exactly after `program IDENT`, and has children only after `program IDENT {` |
| Parser.WithoutCommentsAppend | src/utils/compiler.ts:112 | the comment filter distributes over concatenation |
| Parser.WithoutCommentsNone | src/utils/compiler.ts:112 | comment-free tokens pass the filter unchanged |
| Parser.CommentIgnored | src/utils/compiler.ts:112 | inserting a COMMENT token anywhere does not change the tree |
| Parser.CommentDropped | src/utils/compiler.ts:112 | a COMMENT token vanishes in the filter |
| Parser.StatementEndExtend | src/utils/compiler.ts:222-228 | the statement scan does not look past its terminator |
| Parser.FindOpExtend | src/utils/compiler.ts:181-185 | the `{` scan does not look past the brace |
| Parser.StatementAtExtend | src/utils/compiler.ts:210-271 | a terminated statement parses the same whatever follows |
| Parser.BodyAtExtend | src/utils/compiler.ts:193-198 | a body closed by `}` parses the same whatever follows |
| Parser.FunctionAtExtend | src/utils/compiler.ts:166-208 | a function that stops before the end parses the same whatever follows |
| Parser.FunctionsAtExtend | src/utils/compiler.ts:141-151 | the function loop that stops at a `}` parses the same whatever follows |
| Parser.ProgramIgnoresAfterClose | src/utils/compiler.ts:141-163 | once the program loop meets a top-level `}`, later tokens, later functions included, do not change the tree |
| Semantic.RedeclarationError | src/utils/compiler.ts:302 | the error text `Error: Variable 'x' already declared in scope 's'` |
| Semantic.TypeMatch | src/utils/compiler.ts:307-310 | the capture of `/:\s*([a-zA-Z\[\]]+)/` searched from a position: the type after the leftmost viable `:`, or none |
| Semantic.Analyze | src/utils/compiler.ts:283-324 | `analyzeNode`: a named function records `f@scope` and analyses its body in `scope.f`; a declaration with a second word records or reports it; any other node analyses its children in the same scope |
| Semantic.AnalyzeAll | src/utils/compiler.ts:293 | `forEach` over children: the analysis of each child in order, threading the table and errors |
| Semantic.AnalysisOf | src/utils/compiler.ts:327 | the walk from scope `global` with an empty table and no errors |
| Semantic.Analyzer.constructor | src/utils/compiler.ts:279-280 | the table and error list start empty |
| Semantic.Analyzer.AnalyzeNode | src/utils/compiler.ts:283-325 | the recursive walk updates table and errors as the analysis function says |
| Semantic.Analyzer.AnalyzeChildren | src/utils/compiler.ts:293 | the `forEach` over the children folds the walk over them in order |
| Semantic.SemanticAnalysis | src/utils/compiler.ts:278-330 | the analysis returns the table and errors of the walk from scope `global` |
| Semantic.TypeMatchNone | src/utils/compiler.ts:307-310 | there is no type exactly when no `:` is followed, after whitespace, by a letter or bracket |
| Semantic.TypeMatchSome | src/utils/compiler.ts:307-310 | otherwise the type is the whole run of letters and brackets after the first such `:` |
| Semantic.NoColonNoType | src/utils/compiler.ts:307 | a stretch without `:` holds no start of the type pattern |
| Semantic.NoTypeJoin | src/utils/compiler.ts:307 | two adjacent stretches without a start of the pattern, with a failing `:` between them, form one |
| Semantic.TypeMatchNoneAll | src/utils/compiler.ts:307-310 | without a match no `:` from the start position on begins the pattern |
| Semantic.TypeMatchFirst | src/utils/compiler.ts:307-310 | a match comes from the first `:` that begins the pattern, and none before it does |
| Semantic.CaptureShape | src/utils/compiler.ts:307-310 | the capture at such a `:` is the maximal run of letters and brackets after the whitespace |
| Semantic.Declaration | src/utils/compiler.ts:295-320 | a redeclared `x@scope` appends exactly one error, naming `x` and the scope, and leaves the table; a new one records its type, scope and line and adds no error |
| Semantic.GrowsTrans | src/utils/compiler.ts:283-325 | growth of the table and error list composes |
| Semantic.AnalyzeGrows | src/utils/compiler.ts:283-325 | the walk never removes a key and only appends errors |
| Semantic.AnalyzeAllGrows | src/utils/compiler.ts:293 | the same for a list of children |
| Semantic.AnalyzeKeeps | src/utils/compiler.ts:284-324 | without function nodes no existing entry changes |
| Semantic.AnalyzeAllKeeps | src/utils/compiler.ts:323 | the same for a list of children |
| Semantic.AnalyzeScoped | src/utils/compiler.ts:286-316 | every key is a name, `@` and the scope its entry records |
| Semantic.AnalyzeAllScoped | src/utils/compiler.ts:293 | the same for a list of children |
| Semantic.AnalyzeExplained | src/utils/compiler.ts:301-303 | each new error names a variable whose key is in the table |
| Semantic.AnalyzeAllExplained | src/utils/compiler.ts:293 | the same for a list of children |
| Semantic.ExplainedStep | src/utils/compiler.ts:293 | errors already explained stay explained by a later state that keeps every key |
| Semantic.ErrorsExplained | src/utils/compiler.ts:278-330 | every reported error is a redeclaration of a key the table holds, and every key matches its entry's scope |
| Semantic.StatementsEffect | src/utils/compiler.ts:295-320 | flat statements add entries only for their own scope, at line 0, and change none |
| Semantic.FunctionsEffect | src/utils/compiler.ts:284-293 | over a program's functions: `f@global` is a function at line 0, other entries lie in some `global.f`, all lines 0 |
| Semantic.FunctionEntered | src/utils/compiler.ts:284-293 | a named function at the top level records `f@global` and analyses its children in `global.f` |
| Semantic.FunctionStep | src/utils/compiler.ts:284-293 | analysing one more function keeps the shape of the table for the functions so far plus that one |
| Semantic.ParsedTable | src/utils/compiler.ts:278-330 | the same for the table of any parsed token list with non-empty texts |
| IrGen.FindFrom | src/utils/compiler.ts:366 | the leftmost occurrence of a keyword at or after a position |
| IrGen.LineEnd | src/utils/compiler.ts:396 | where `.+` stops: the first line terminator from a position on, with none before it |
| IrGen.DotsFrom | src/utils/compiler.ts:396 | a final `(.+)` tried at each start a greedy `\s` run gives back, from its end: the first start that is not a line terminator, captured up to the next one |
| IrGen.Capture | src/utils/compiler.ts:396 | `\s{n,}(.+)` at a position: the whitespace run, then `.+` to the next line terminator |
| IrGen.CloseFrom | src/utils/compiler.ts:366 | the largest end of `.+` within its line at which `\s*\)` matches, with none later |
| IrGen.PrintArg | src/utils/compiler.ts:366 | `(.+)\s*\)` with the group tried at each start the `\s*` after `(` gives back: the first that reaches a `)` across whitespace |
| IrGen.PrintAt | src/utils/compiler.ts:366 | `/print\s*\(\s*(.+)\s*\)/` with `print` at a position: the `(` after whitespace, then `PrintArg` |
| IrGen.PrintMatch | src/utils/compiler.ts:366 | the leftmost match of the print pattern: the first `print` occurrence at which `PrintAt` succeeds |
| IrGen.ReturnAt | src/utils/compiler.ts:396 | `/return\s+(.+)/` with `return` at a position: at least one whitespace character, then `Capture` |
| IrGen.ReturnMatch | src/utils/compiler.ts:396 | the leftmost match of the return pattern |
| IrGen.VarInitAt | src/utils/compiler.ts:425 | the initialiser pattern with `var` at a position: the name, the optional `: type`, the `=`, then `Capture` |
| IrGen.VarInitMatch | src/utils/compiler.ts:425 | the leftmost match of the initialiser pattern |
| IrGen.VarNameMatch | src/utils/compiler.ts:437 | the name captured by `/var\s+([a-zA-Z_][a-zA-Z0-9_]*)/` at its leftmost match |
| IrGen.AssignAt | src/utils/compiler.ts:450 | the assignment pattern starting at a position: the target, the `=`, then `Capture` |
| IrGen.AssignMatch | src/utils/compiler.ts:450 | the leftmost match of the assignment pattern |
| IrGen.DotsFromLine | src/utils/compiler.ts:396 | a final `(.+)` captures from the last start the whitespace run gives back that is not a line terminator, up to the next line terminator: non-empty, with none inside |
| IrGen.PrintArgLine | src/utils/compiler.ts:366 | the print group runs from the last start that reaches a `)`, to the largest end on its line followed by whitespace and `)`; every later start fails |
| IrGen.PrintCode | src/utils/compiler.ts:364-393 | a print pushes `PRINT_STR` of a trimmed quoted argument, or `EVAL` into the next temporary and `PRINT` of it, or nothing without a match |
| IrGen.ReturnCode | src/utils/compiler.ts:394-421 | a return pushes `EVAL` of the trimmed value into the next temporary and `RETURN` of it, or a bare `RETURN` |
| IrGen.DeclarationCode | src/utils/compiler.ts:423-446 | a declaration pushes `ASSIGN` of the trimmed initialiser to the name, or `DECLARE` of the name, or nothing |
| IrGen.AssignmentCode | src/utils/compiler.ts:448-461 | an assignment pushes `ASSIGN` of the trimmed value to the target, or nothing |
| IrGen.GenNode | src/utils/compiler.ts:341-466 | `generateForNode` on the code and counter: a program walks its children, a named function brackets its body, a simple statement pushes its code, a plain statement walks its children, anything else leaves the state |
| IrGen.GenAll | src/utils/compiler.ts:344 | `forEach(generateForNode)`: the walk of each child in order, threading code and counter |
| IrGen.Generate | src/utils/compiler.ts:333-470 | `generateIntermediateCode`: the walk from empty code and counter 0 |
| IrGen.InitEquals | src/utils/compiler.ts:425 | the `=` after the name and optional type, if any |
| IrGen.TargetEnd | src/utils/compiler.ts:450 | the end of the assignment target, past the name and an optional `[…]` |
| IrGen.Generator.constructor | src/utils/compiler.ts:334-335 | empty code and counter 0 |
| IrGen.Generator.NewTemp | src/utils/compiler.ts:338 | `newTemp` returns `t` and the counter, then increments the counter |
| IrGen.Generator.GenerateForNode | src/utils/compiler.ts:341-466 | the if-chain updates code and counter as the generation function says |
| IrGen.Generator.GeneratePrint | src/utils/compiler.ts:364-393 | a print pushes `PRINT_STR` for a quoted argument, `EVAL` and `PRINT` with a new temporary otherwise, nothing without a match |
| IrGen.Generator.GenerateReturn | src/utils/compiler.ts:394-422 | a return pushes `EVAL` and `RETURN` of a new temporary, or a bare `RETURN` |
| IrGen.Generator.GenerateDeclaration | src/utils/compiler.ts:423-447 | a declaration pushes an `ASSIGN` of the trimmed initialiser, else a `DECLARE` of the name, else nothing; the counter is kept |
| IrGen.Generator.GenerateAssignment | src/utils/compiler.ts:448-461 | an assignment pushes an `ASSIGN` of the trimmed value to its target, or nothing; the counter is kept |
| IrGen.Generator.GenerateForChildren | src/utils/compiler.ts:344 | the `forEach` folds the walk over the children in order |
| IrGen.GenerateIntermediateCode | src/utils/compiler.ts:333-470 | the generator returns the code of the walk from an empty buffer and counter 0 |
| IrGen.TempInjective | src/utils/compiler.ts:338 | different counter values give different temporaries |
| IrGen.DeclarationWellFormed | src/utils/compiler.ts:423-447 | a declaration's code has the arity the emitter reads |
| IrGen.AssignmentWellFormed | src/utils/compiler.ts:448-461 | an assignment's code has the arity the emitter reads |
| IrGen.VarInitNamed | src/utils/compiler.ts:425-427 | an initialised declaration binds a non-empty name |
| IrGen.AssignNamed | src/utils/compiler.ts:450-452 | an assignment's target is non-empty |
| IrGen.GenNodeWellFormed | src/utils/compiler.ts:341-466 | each instruction the walk pushes is well formed: one argument, a quoted one for `PRINT_STR`, a named result for `EVAL`/`ASSIGN`, at most one for `RETURN` |
| IrGen.GenAllWellFormed | src/utils/compiler.ts:344 | the same for a list of children |
| IrGen.GenerateWellFormed | src/utils/compiler.ts:333-470 | all generated code is well formed |
| IrGen.CountEvalAppend | src/utils/compiler.ts:338 | the temporaries used add up over concatenated code |
| IrGen.NoTempsCount | src/utils/compiler.ts:338 | code without EVAL uses no temporary |
| IrGen.AppendNoTemps | src/utils/compiler.ts:423-461 | pushing code without temporaries keeps the numbering |
| IrGen.AppendTemp | src/utils/compiler.ts:380-413 | pushing `EVAL t; PRINT t` or `EVAL t; RETURN t` with the next temporary keeps the numbering |
| IrGen.EmitNumbered | src/utils/compiler.ts:364-461 | each simple statement keeps the numbering |
| IrGen.PrintNumbered | src/utils/compiler.ts:364-393 | the code of a print keeps the numbering: either no temporary, or one fresh EVAL read by the PRINT after it |
| IrGen.ReturnNumbered | src/utils/compiler.ts:394-421 | the code of a return keeps the numbering in the same way |
| IrGen.GenNodeNumbered | src/utils/compiler.ts:341-466 | the walk keeps the numbering |
| IrGen.GenAllNumbered | src/utils/compiler.ts:344 | the same for a list of children |
| IrGen.GenerateNumbered | src/utils/compiler.ts:333-470 | the k-th EVAL writes `tk`, the instruction right after it is a PRINT or RETURN of that temporary, and nothing else reads a temporary |
| IrGen.CountEvalHead | src/utils/compiler.ts:338 | code that starts with an EVAL uses a temporary |
| IrGen.TempsDistinct | src/utils/compiler.ts:338 | no two EVALs write the same temporary |
| IrGen.Brackets | src/utils/compiler.ts:346-363 | the FUNC_BEGIN/FUNC_END instructions of code, from that code |
| IrGen.BracketsAppend | src/utils/compiler.ts:346-363 | brackets distribute over concatenation |
| IrGen.NoBrackets | src/utils/compiler.ts:346-363 | code without brackets has none |
| IrGen.EmitNoBrackets | src/utils/compiler.ts:364-461 | a simple statement pushes no bracket |
| IrGen.StatementBrackets | src/utils/compiler.ts:364-465 | a statement adds no bracket |
| IrGen.BodyBrackets | src/utils/compiler.ts:355 | a function body adds no bracket |
| IrGen.BracketsPush | src/utils/compiler.ts:358-362 | pushing a bracket adds it at the end |
| IrGen.FunctionBrackets | src/utils/compiler.ts:346-363 | a named function adds exactly its `FUNC_BEGIN f`, `FUNC_END f` pair; an unnamed one adds nothing |
| IrGen.FunctionCode | src/utils/compiler.ts:346-363 | a named function emits `FUNC_BEGIN f`, the code of its body, then `FUNC_END f` |
| IrGen.SnocBrackets | src/utils/compiler.ts:344 | walking one more function appends its pair of brackets |
| IrGen.FunctionsBrackets | src/utils/compiler.ts:344 | the functions add their pairs in order |
| IrGen.FunctionsStep | src/utils/compiler.ts:344 | the bracket sequence of the functions so far extends by the pair of the next one |
| IrGen.GenerateBrackets | src/utils/compiler.ts:342-363 | the program's FUNC_BEGIN/FUNC_END subsequence is one pair per named function, in order; what lies inside a pair is stated per function by `IrGen.FunctionCode` |
| IrGen.ExampleTypedInit | src/utils/compiler.ts:425-434 | `var x : int = 5` gives `ASSIGN 5 → x` |
| IrGen.ExampleBareDeclaration | src/utils/compiler.ts:437-444 | `var y : int` gives `DECLARE y` |
| IrGen.BareDeclarationNoInit | src/utils/compiler.ts:427-436 | `var y : int` matches no initialiser |
| IrGen.BareDeclarationName | src/utils/compiler.ts:437-444 | the name pattern of `var y : int` captures `y` |
| IrGen.ExampleAssignment | src/utils/compiler.ts:450-459 | `x = x + 1` gives `ASSIGN x + 1 → x` |
| IrGen.ExamplePrintString | src/utils/compiler.ts:366-376 | `print ( "Hi" )` gives `PRINT_STR "Hi"` and uses no temporary |
| IrGen.PrintAtLineBreak | src/utils/compiler.ts:366 | at the `print` of `print ( "a<CR>b" )` the pattern fails: `.+` stops at the carriage return, and `\s*\)` cannot cross `b` |
| IrGen.ExamplePrintLineBreak | src/utils/compiler.ts:364-393 | so that print statement pushes nothing and uses no temporary |
| IrGen.ExamplePrintCloseInLiteral | src/utils/compiler.ts:364-393 | `print ( "a<CR>)" )` takes `"a` as its argument, so it pushes `EVAL "a` into the next temporary and a `PRINT` of it |
| IrGen.ExampleReturnLineBreak | src/utils/compiler.ts:394-413 | `return "a<CR>b"` captures only `"a`, up to the carriage return |
| IrGen.ExampleReturn | src/utils/compiler.ts:396-413 | `return 0` with counter 3 gives `EVAL 0 → t3; RETURN t3`, counter 4 |
| IrGen.ExampleBareReturn | src/utils/compiler.ts:414-421 | `return` alone gives a RETURN with no arguments and uses no temporary |
| IrGen.StatementEffect | src/utils/compiler.ts:364-465 | only the four simple kinds emit code, only prints and returns use temporaries; if, for and while statements emit nothing |
| Optimizer.Redundant | src/utils/compiler.ts:484-487 | rule 1: an ASSIGN followed by an ASSIGN with the same result |
| Optimizer.Fusible | src/utils/compiler.ts:492-495 | rule 2: an EVAL followed by a PRINT whose first argument is the EVAL's result; a PRINT without arguments never qualifies |
| Optimizer.Fused | src/utils/compiler.ts:496-500 | the `PRINT_EXPR` that carries the EVAL's arguments and an empty result |
| Optimizer.Optimize | src/utils/compiler.ts:478-508 | the pass read from the front: a redundant ASSIGN is dropped, a fusible pair becomes its `PRINT_EXPR`, anything else is kept |
| Optimizer.OptimizeCode | src/utils/compiler.ts:473-511 | the indexed loop with its `processed` set computes the pass |
| Optimizer.OptimizeDrop | src/utils/compiler.ts:484-490 | an ASSIGN followed by an ASSIGN to the same variable is dropped from the pass |
| Optimizer.OptimizeFuse | src/utils/compiler.ts:492-503 | an EVAL read by the PRINT after it becomes one PRINT_EXPR of its operands, and both are consumed |
| Optimizer.OptimizeKeep | src/utils/compiler.ts:505-507 | any other instruction is kept as it is |
| Optimizer.OptimizeLocalFrom | src/utils/compiler.ts:478-508 | from any index not swallowed by a fusion, the pass agrees with the neighbour-only reference |
| Optimizer.OptimizeLocal | src/utils/compiler.ts:478-508 | an ASSIGN is dropped exactly when the next instruction is an ASSIGN to the same variable, so a run keeps only the last; an EVAL followed by a PRINT of its result becomes `PRINT_EXPR` and that PRINT goes; every other instruction is kept unchanged |
| Optimizer.LocalFromLength | src/utils/compiler.ts:478-508 | the reference output of a suffix is no longer than it |
| Optimizer.OptimizeLength | src/utils/compiler.ts:478-508 | the output is never longer than the input |
| Optimizer.Shift | src/utils/compiler.ts:478 | shifting source positions by an offset |
| Optimizer.TracedShift | src/utils/compiler.ts:478-508 | tracing into a suffix lifts to the whole code |
| Optimizer.TracedCons | src/utils/compiler.ts:496-506 | a kept or fused first instruction extends a trace |
| Optimizer.OptimizeOrder | src/utils/compiler.ts:478-508 | each output instruction is an input instruction, or that EVAL as `PRINT_EXPR`, at strictly increasing positions |
| Optimizer.OptimizeHead | src/utils/compiler.ts:484-507 | the first output comes from the first input's operation: an ASSIGN to the same variable, the EVAL or its fusion, or the instruction itself |
| Optimizer.OptimizeClean | src/utils/compiler.ts:478-508 | after the pass no rule applies to any adjacent pair |
| Optimizer.OptimizeFixpoint | src/utils/compiler.ts:478-508 | code no rule applies to is left as it is |
| Optimizer.OptimizeIdempotent | src/utils/compiler.ts:478-508 | running the pass on its own output changes nothing |
| Optimizer.LocalFromNoPrint | src/utils/compiler.ts:492-503 | where every PRINT follows its EVAL, the reference keeps no PRINT |
| Optimizer.OptimizeNoPrint | src/utils/compiler.ts:492-503 | then the pass removes every PRINT |
| Optimizer.GeneratedNoPrint | src/utils/compiler.ts:492-503 | generated code has that shape, so its optimised form has no PRINT |
| Emitter.Arg0 | src/utils/compiler.ts:542 | `${instruction.args[0]}`: the first argument, or `undefined` when there is none |
| Emitter.IsNumeral | src/utils/compiler.ts:566 | `/^[0-9]+$/`: a non-empty run of digits |
| Emitter.HasString | src/utils/compiler.ts:569-585 | the instruction draws a `str_N` label: a PRINT_STR, or an ASSIGN whose non-numeral source starts with `"` |
| Emitter.Step | src/utils/compiler.ts:540-626 | one turn of the `switch`: each case's lines appended to the text section and its data line to the data section, or the TypeError of an ASSIGN without arguments |
| Emitter.Run | src/utils/compiler.ts:539-627 | the loop over the code from the header buffers: the first error, or the final buffers |
| Emitter.TargetCode | src/utils/compiler.ts:514-630 | `generateTargetCode`: the `data` and `text` sections of the final buffers, or the error |
| Emitter.Target.constructor | src/utils/compiler.ts:515-537 | the data buffer starts with its four header lines, the text with `# Text section`, `.globl main`; counter 0 |
| Emitter.Target.Emit | src/utils/compiler.ts:540-626 | one turn of the `switch` appends the lines of its case, or reports the TypeError it throws |
| Emitter.Target.EmitAssign | src/utils/compiler.ts:563-580 | the ASSIGN case appends its lines and maybe a string data line |
| Emitter.GenerateTargetCode | src/utils/compiler.ts:514-630 | the loop returns the data and text sections, or the error thrown first |
| Emitter.RunSticky | src/utils/compiler.ts:539-627 | once the loop has thrown, the rest of the code does not matter |
| Emitter.StepShape | src/utils/compiler.ts:540-626 | a turn fails exactly on an ASSIGN without arguments, with the `startsWith` TypeError; otherwise it appends the operation's line count to the text and one `str_N` line to the data for each string operand |
| Emitter.AssignShape | src/utils/compiler.ts:563-580 | the ASSIGN case: 3 lines for a numeral or string source, 4 otherwise; a data line for a string source |
| Emitter.OtherShape | src/utils/compiler.ts:541-625 | every other case succeeds and only appends |
| Emitter.FrameShape | src/utils/compiler.ts:541-561 | FUNC_BEGIN appends 5 lines, FUNC_END 4, DECLARE 2 |
| Emitter.PrintShape | src/utils/compiler.ts:582-610 | the three print cases append 5, 5 and 6 lines |
| Emitter.PrintStrShape | src/utils/compiler.ts:582-591 | PRINT_STR appends 5 lines and the data line of the next label |
| Emitter.PrintValueShape | src/utils/compiler.ts:593-600 | PRINT appends 5 lines |
| Emitter.PrintExprShape | src/utils/compiler.ts:602-610 | PRINT_EXPR appends 6 lines |
| Emitter.RestShape | src/utils/compiler.ts:612-625 | RETURN appends 2 lines, an unknown operation 1 |
| Emitter.DataLines | src/utils/compiler.ts:571-572 | the k-th string operand gets the line `str_k: .asciiz <operand>` |
| Emitter.RunFault | src/utils/compiler.ts:563-569 | the loop throws exactly when some ASSIGN has no arguments, with that TypeError's message |
| Emitter.RunText | src/utils/compiler.ts:532-627 | the text section is its two header lines and then each instruction's line count |
| Emitter.RunData | src/utils/compiler.ts:526-585 | the data section is its four header lines and then `str_0`, `str_1`, … for the string operands in order, and the counter is their number |
| Emitter.DataStep | src/utils/compiler.ts:539-585 | one turn of the loop adds the line of its string operand, if any, to the data section and counts it |
| Emitter.TargetShape | src/utils/compiler.ts:514-630 | the result is `[data, text]` with their headers exactly when no ASSIGN lacks arguments |
| Compiler.Compile | src/utils/compiler.ts:633-668 | `compileCode`: tokens, tree, table, errors, intermediate, optimised and target code, or `Compilation failed: ` and the message |
| Compiler.CompileCode | src/utils/compiler.ts:633-668 | the driver returns all phase outputs, or `Compilation failed: ` and the message |
| Compiler.OptimizeNoBareAssign | src/utils/compiler.ts:478-508 | the pass never yields an ASSIGN without arguments from well-formed code |
| Compiler.CompileSucceeds | src/utils/compiler.ts:633-668 | the `catch` is never reached: every text compiles |
| Compiler.CompiledShape | src/utils/compiler.ts:636-661 | the tree is two-level, each named function is bracketed in order, optimisation does not lengthen and removes every PRINT, and the target is `[data, text]` |
| Compiler.CompiledTable | src/utils/compiler.ts:636-642 | in the symbol table of any text, `f@global` is a function for each named `f`, other entries lie in some `global.f`, and all lines are 0 |

## Left out

- The React pages and components (`src/pages/Index.tsx`, `src/components/*.tsx`) render the phase outputs and hold no compiler logic. They are not part of this model.
- `src/utils/sampleCode.ts` is program text only and is not part of this model. Its Factorial sample loses `main` because the program loop stops at the first top-level `}`. The model states this in general (`Parser.ProgramIgnoresAfterClose`), not for that text, whose 60-odd tokens are too costly to unfold literally.
- `console.error` in the `catch` is output only and is left out. The caught error is modelled as the `Err` of a `Result`.
- The unused `root` node built at the top of `syntaxAnalysis` is left out.
- Strings are sequences of Dafny characters, not UTF-16 code units.
- The symbol table is a Dafny `map`. The insertion order of its keys is not modelled.
- The message of the TypeError, `Emitter.AssignFault`, is V8's wording; other JavaScript engines word it differently. `Compiler.CompileSucceeds` shows the generator never causes it.
- JavaScript `undefined` in output templates (`args[0]` of an instruction without arguments) is rendered as the string `undefined`.
- Emitter.Target.EmitAssign: for an ASSIGN without arguments, the source pushes the comment line `# <result> = undefined` before it throws. The model leaves that partial push out, because the buffers are discarded once the exception reaches `compileCode`.
