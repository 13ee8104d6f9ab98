# Marreta: a verified model

Marreta is a small interpreted language for HTTP services. This project models the parts of
its implementation that carry the most state, and proves what they promise.

- **Formatter and lexer.** The formatter rewrites indentation, blank lines and spacing with its
  own layout stack and its own maximal munch, and compares the token streams at run time. Here the
  lexer (`Lexemes`, `Layout`, `LexerObject`) and the formatter (`Atoms`, `Formatter`,
  `FormatterLoops`) are proved against each other: which respacings keep the tokens of a line
  (exactly, `Fusing`), which reindentations keep the layout of a text (exactly, `Meaning` and
  `Divergence`), after how many passes the output is stable (`FixedPoint`), and that every token
  stream has well-bracketed layout. What the two do on their own is fixed by laws that do not go
  through their functions: any program of tokens and indented lines, written down, is read back
  (`Literals`, `Written`), a printed text has its blanks, blank lines, comments and indentation where
  the house style wants them (`HouseStyle`, `LineStyle`), and `format_source` formats exactly the texts
  that parse before and after with the same tokens (`Verdict`).
- **Interpreter.** `Semantics` is the tree-walking interpreter as a total function on interpreter
  states, under a host that stands for everything outside the model (operators, value methods,
  schemas, project runtime, database driver, acting namespaces). `InterpreterObject` is the object
  whose methods change fields in place; each method is proved equal to its function. On top of it:
  balance of all per-call state, transaction atomicity over whole runs (`Runs`), the response
  discipline of `rescue`, independence of the outside up to the first touch (`Worlds`) and of the
  history but for the answers to it (`Routes`), when the fast path of broadcast is one of the
  parallel runs (`FastPath`), and soundness of the lint's termination and unreachability analyses
  (`Lint`). What each form of the language means is stated as laws between programs and their parts,
  for every host and state (`Laws`, `PipelineLaws`, `StatementLaws`, `CallLaws`, `ScopeLaws`).
- **Parallel branches.** Each branch of a parallel broadcast has a connection and a history of its
  own; the driver answers a request by the whole history of the branch that asks. A history names
  its branch, and no two questions of a run are asked behind the same one (`Runs.NoHistoryTwice`),
  so what other branches do meanwhile can show in the answers in any way: a result for every host
  covers every interleaving. When the branches are done, the
  batches they kept (a committed transaction, or a request outside one) take effect in an order
  that the host chooses; exactly the interleavings can be chosen (`Runs.MergeShuffles`,
  `Runs.ShufflesMerge`).
- **Scope store, schema cycles, latency histogram, connection URL** (`Environment`, `FreezeExact`,
  `SchemaCycle`, `Profile`, `ProfileProgress`, `Percentile`, `Registry`, `Config`, `ConfigRoundTrip`).

Code that changes things step by step is a class or a loop proved against a specification
function; code made of expressions is functions. Text is a sequence of characters. Which
characters beyond ASCII are alphanumeric is a parameter, and every result holds for any choice.
64-bit counters wrap and saturate explicitly. `dafny verify dfyconfig.toml` checks everything.

Some properties are false of the code, and are stated as the code has them:

- Removing a blank next to `.` or `?` can fuse two tokens (`Counterexamples.QuestionFuses`);
  `Fusing.RespaceKeepsTokens` gives the exact condition.
- Printing can lose a block: one that is indented less than the continuation line of its header
  comes out at the margin (`Counterexamples.BlockLostAt` gives the texts).
  `Divergence.KeptExactly` is the exact condition for whole texts: nothing fuses on any line, and
  every line moves between the printed levels as the raw line moves between the lexer's.
- A sign in front of `(` or `[` is printed with a blank behind it, as if it were an operator
  (`HouseStyle.SignBeforeBracket`).
- Formatting twice can differ from formatting once (`Counterexamples.NotIdempotent`);
  `FixedPoint.SecondPassIdle` says exactly when, and the third pass never changes anything.
- Freezing an environment can be seen: an update of a frozen name from a nested scope is forgotten
  when the scope is popped (`Environment.UpdateOfBaseForgotten`), unless it writes the value the name
  has (`FreezeExact.BaseUpdateExactly`), and a pop at the freeze does nothing
  (`FreezeExact.PopOfFreezeShowsAt`). `FreezeExact.FreezeExactly` says for whole runs when it cannot.
- The purity check of broadcasts lets through method calls on file namespaces
  (`FastPath.NamespaceCallCountsAsPure`), on tables that arrive in a variable
  (`FastPath.TableCallCountsAsPure`), and on `log` and `fs`; then the fast path can skip a log line
  (`FastPath.FastPathSkips`) or a request (`FastPath.FastPathSkipsRequest`) that every parallel run
  makes. Branches that leave the outside alone are safe: under every driver and every schedule nobody
  can tell the fast path from the parallel run (`FastPath.QuietBranchesUnseen`), and branches judged
  pure whose bodies hold no method call are such (`FastPath.FastPathUnseen`). For branches that do
  touch the outside, `FastPath.SequenceIsParallel` says exactly when the fast path is, for the outside,
  the parallel run whose branches are taken in declaration order: if and only if no branch behind the
  first one that fails touches it. Result and state are those of that run in any case.
- The percentile's rank is the intended one exactly while `count * p` is at most 2^64 - 16
  (`Percentile.TargetExact`).
- The lexer reads out of range on an unterminated last line of spaces (`Guarantees.PanicsExactly`, for
  every text).
- A host with `/`, `?` or `#` breaks the connection URL (`ConfigRoundTrip.UrlRoundTrip`).

Where code and comments disagree the code is followed: a comment in `src/lexer.rs` (lines 229-230)
says that `*>>` too takes back the newline before it, but `*>>` goes through `emit_triple`, which does not.

## Model

| member | source | states |
|---|---|---|
| Atoms.ScanAtoms | src/formatter.rs:346-394 | the scanning loop yields the atoms of the line by maximal munch: strings, comment, words, longest operators |
| Atoms.ScanString | src/formatter.rs:355-367 | the inner loop stops right behind the closing quote, skipping escaped characters, or at the end of the line |
| Atoms.JoinAtoms | src/formatter.rs:435-456 | the printing loop puts, between neighbours, what the separator function says, and two blanks before a trailing comment; where the blanks end up is `HouseStyle.PrintedInStyle` |
| AtomsRoundTrip.ScanUndoesJoin | src/formatter.rs:342-507 | for every line, scanning the printed atoms gives back the same atoms: no tight pair is re-munched |
| AtomsRoundTrip.RespaceIdempotent | src/formatter.rs:342-344 | respacing a respaced line changes nothing |
| AtomsRoundTrip.TightAtomsStayApart | src/formatter.rs:458-507 | two atoms printed without a blank are never read as one by the scanner |
| HouseStyle.PrintedInStyle | src/formatter.rs:458-507 | for every line, in the printed text and away from strings and comments: no blank around `.` and `?`, behind `(` `[`, or before `)` `]` `,` `:`; one behind `,` and `:` otherwise, inside braces that are not empty, and on both sides of a binary operator; none before a bracket that calls or indexes, one before any other; none behind a sign; one between anything else; two only before a trailing comment |
| HouseStyle.SignBeforeBracket | src/formatter.rs:486-489 | the exception to the rule for signs, as the code has it: in front of `(` and `[` a sign gets a blank, as an operator does |
| Layout.TokenizeWellBracketed | src/lexer.rs:44-195 | every successful run: no prefix with more dedents than indents, equal totals, never two newlines in a row, the end marker last and nowhere else |
| Guarantees.ReachedSound | src/lexer.rs:44-195 | every state the main loop reaches: indent stack strictly increasing from 0 and one open block per level of it |
| Layout.EmitSound | src/lexer.rs:222-256 | emitting a token, with the newline taken back before `>>`, keeps the layout invariant |
| Layout.IndentSound | src/lexer.rs:258-296 | entering a deeper, equal or shallower line keeps the layout invariant |
| LexerObject.Lexer.Run | src/lexer.rs:44-195 | the object's main loop computes the specified token stream, error or out-of-range read |
| LexerObject.Lexer.HandleIndentation | src/lexer.rs:258-296 | consumes the leading spaces and moves the indent stack as specified, ignoring blank and comment lines |
| LexerObject.Lexer.HandleNewline | src/lexer.rs:298-329 | a newline token is emitted unless it is suppressed, and the next line starts |
| LexerObject.Lexer.ShouldSuppressNewline | src/lexer.rs:331-348 | suppression at the start, inside delimiters, and after continuing tokens |
| LexerObject.Lexer.EmitToken | src/lexer.rs:222-256 | appends the token, tracks nesting, and for `>>` removes a preceding newline |
| LexerObject.Lexer.ReadQuoted | src/lexer.rs:358-416 | reads a string literal with its escapes up to the closing quote, or reports that it does not close |
| LexerObject.Lexer.ReadNumberLiteral | src/lexer.rs:418-474 | digits with at most one dot that a digit follows; a second one or a value beyond 64 bits is an error; which value the digits stand for is `Literals.IntegerReadsBack` |
| LexerObject.Lexer.ReadIdentifier | src/lexer.rs:476-497 | the longest run of identifier characters, `?` included |
| LexerObject.TokenizeSource | src/lexer.rs:29-195 | line endings are normalized and the whole text is tokenized |
| Literals.IntegerReadsBack | src/lexer.rs:418-474 | the decimal of any number, with any zeros in front and whatever follows that does not go on with it, reads as that number, and as an error beyond 64 bits |
| Literals.FloatReadsBack | src/lexer.rs:424-440 | digits on both sides of a dot read as a float of that text, and as an error if a second dot with a digit follows |
| Literals.TextReadsBack | src/lexer.rs:358-414 | every text, written between quotes with its escapes, reads as itself, whatever follows |
| Literals.OtherEscapeKept | src/lexer.rs:379-390 | a backslash in front of any other character stands for itself |
| Literals.NameReadsBack | src/lexer.rs:476-493 | a name reads as itself in front of anything that does not go on with it |
| Literals.LongestSymbol | src/lexer.rs:75-160 | of all operators and delimiters the longest one at hand is read, and none exactly when there is none |
| Literals.OtherCharacter | src/lexer.rs:172-178 | any character that heads no item is an error that names it |
| Written.LineReadsBack | src/lexer.rs:44-195 | any sequence of tokens, written on one line with blanks between them, is read back |
| Written.ProgramReadsBack | src/lexer.rs:29-346 | any program of balanced lines, written with four blanks for each level, is read back token by token: blocks open and close where the depth changes, and a line ends in a newline unless it asks for more or the next one starts with `>>` |
| Written.BrokenInside | src/lexer.rs:298-307 | where a delimiter is open a line may be broken: the two parts read as one, however the second is indented |
| Lines.LexFromLines | src/lexer.rs:44-195 | lexing a text equals stepping over its lines one by one, for lines on which strings close |
| Lines.LexFromLastLine | src/lexer.rs:44-195 | the same for a last line without newline, including the out-of-range read on a line of spaces |
| Respacing.LexLineByPieces | src/formatter.rs:346-394 | the lexer reads a line chunk by chunk along the formatter's atoms |
| Respacing.ReadStringAgrees | src/lexer.rs:358-416 | lexer and formatter end a string literal at the same place |
| Fusing.RespaceKeepsTokens | src/formatter.rs:458-507 | the lexer reads the same tokens from a line and from its respaced form if and only if no removed blank lets two texts fuse |
| Fusing.ReprintedTokens | src/formatter.rs:435-456 | the same over the pieces of the line, by induction over runs of touching pieces |
| Fusing.ReprintedForks | src/formatter.rs:435-456 | if something fuses and the reprinted line lexes, the streams first differ in two tokens that are no symbols |
| Fusing.RespaceOpensNothing | src/formatter.rs:435-456 | respacing a line that lexes opens no string |
| Fusing.ApartUnlessFuses | src/lexer.rs:418-497 | texts that do not fuse are read one after the other |
| Fusing.ChangedIfFuses | src/lexer.rs:418-497 | texts that fuse change some token, at a named position |
| FormatterLoops.DepthForCode | src/formatter.rs:538-548 | the indent stack after a code line, popped or pushed in place, and its depth |
| FormatterLoops.NormalizeSource | src/formatter.rs:161-191 | the whole pass computes the specified text |
| FormatterLoops.FormatAll | src/formatter.rs:161-181 | the loop over the lines, with its stack, computes the formatted lines |
| FormatterLoops.NormalizeBlankLines | src/formatter.rs:198-217 | blank runs become one, none is left at either end |
| FormatterLoops.ApplyTopLevelSpacing | src/formatter.rs:271-280 | the output buffer holds the lines with a blank before each separated declaration or comment group |
| FormatterLoops.ShouldInsertBlankBefore | src/formatter.rs:282-311 | the backward and forward scans decide as the specification does |
| FormatterLoops.GroupLeadsToDeclaration | src/formatter.rs:313-321 | a comment group leads to a declaration if and only if the first line behind it is one |
| FormatterLoops.SignificantTokens | src/formatter.rs:89-104 | walking back over closing dedents drops exactly the terminal newline |
| LineStyle.BlankLinesExactly | src/formatter.rs:198-325 | for every text: blank lines stand exactly where the source had some between its lines, and in front of declarations at the margin, or of the comments that lead to them, unless a comment precedes; never two in a row, none at either end |
| LineStyle.LinesIndented | src/formatter.rs:239-256 | every printed line stands behind exactly four blanks for each level of its depth, a blank line is empty |
| LineStyle.CodeIndented | src/formatter.rs:538-548 | a code line wider than all open blocks opens one more; any other closes those wider than it and has the depth of the innermost one left; it is a declaration only at the margin |
| LineStyle.CommentsIndented | src/formatter.rs:527-536 | a comment has the depth of the open block of its width; wider than all it is one deeper than the code before it, else as deep |
| LineStyle.CommentsBegin | src/formatter.rs:264-269 | a comment gets one blank behind its `#` exactly if a character other than a blank or `#` follows, and is otherwise unchanged |
| LineStyle.WidthCounts | src/formatter.rs:520-525 | the width of an indentation counts one for each blank and four for each tab |
| LineStyle.DeclarationWords | src/formatter.rs:509-518 | which words begin a declaration |
| FixedPoint.OutputGood | src/formatter.rs:161-325 | every printed text consists of clean lines, at most one level deeper than the code before, without double or edge blanks, and fully separated |
| FixedPoint.SecondPass | src/formatter.rs:161-325 | re-reading a printed text gives back its lines, up to the declaration flag, before separation |
| FixedPoint.SecondPassIdle | src/formatter.rs:161-325 | the second pass changes nothing if and only if no re-read line asks for a blank |
| FixedPoint.StableDeclarationsIdle | src/formatter.rs:239-256 | it changes nothing whenever respacing does not change which lines count as declarations |
| FixedPoint.ThirdPassIdle | src/formatter.rs:161-325 | for every text a third pass changes nothing after the second |
| Meaning.IndentMoves | src/lexer.rs:258-296 | an indentation change is one move of the stack: deeper by one, same, shallower by some, or an error, with the layout tokens of the move |
| Meaning.LinesSimulate | src/formatter.rs:161-181 | where every line moves alike, the printed lines take the lexer through the tokens of the raw lines, to as many open levels |
| Meaning.SameSolid | src/formatter.rs:198-325 | collapsing, trimming and inserting blank lines leaves the other lines as they are |
| Meaning.OnlySolidLines | src/lexer.rs:258-329 | between lines, the lexer ends in the same state with and without blank lines |
| Meaning.TerminalNewline | src/formatter.rs:72-88 | the newline added at the end of the file bears no meaning |
| Meaning.FormattingPreservesTokens | src/formatter.rs:56-104 | if no line fuses and every line moves alike, the output lexes and has the same meaning-bearing tokens, indents, dedents and newlines included |
| Divergence.KeptExactly | src/formatter.rs:56-104 | and only then: for texts whose lines can be read one by one, the tokens are kept if and only if nothing fuses on any line and every line moves alike before and after printing |
| Divergence.LayoutShows | src/formatter.rs:538-548 | a first line that moves differently or fuses makes the two token streams differ, whatever comes behind it |
| Divergence.LineForks | src/formatter.rs:458-507 | on a line that fuses the two streams go on alike up to two different tokens |
| Divergence.MovesShow | src/lexer.rs:258-296 | different moves leave different layout tokens, which no later token hides |
| Meaning.GuardNeverFires | src/formatter.rs:56-75 | for such texts the divergence error is unreachable, and a text that parses is formatted; the answer for every text is `Verdict.FormatExactly` |
| Verdict.FormatExactly | src/formatter.rs:56-87 | for every text and parser: formatted if and only if text and output both lex and parse and keep the meaning-bearing tokens, and then the answer is the normalized text; the guard fires if and only if both parse and some token changed; the remaining texts give the parse error, or the out-of-range read if the text itself does |
| Verdict.GuardFiresExactly | src/formatter.rs:59-75 | for texts whose lines can be read one by one: the guard fires exactly on those that parse before and after and have a line on which something fuses or that moves otherwise |
| Verdict.FormattedExactly | src/formatter.rs:56-87 | with a parser that ignores the newline at the end of a file, such a text that parses is formatted if and only if it has no such line |
| Verdict.OutputNeverPanics | src/formatter.rs:189-193 | whatever was formatted, the output never makes the lexer read out of range |
| Verdict.MeaningBearing | src/formatter.rs:89-104 | the tokens compared are all but the end marker and the newline behind which only blocks are closed |
| Guarantees.SimpleTextPreserved | src/formatter.rs:56-104 | a sufficient condition on the text alone: space indentation, delimiters and strings closed on their line, no blank touching `.` or `?` |
| Guarantees.TidyTextPreserved | src/formatter.rs:56-104 | delimiters over several lines are safe as well, when they are not indented less than their block and no block opens between two widths seen before |
| Guarantees.TidyLayoutAgrees | src/formatter.rs:538-548 | in such texts every line moves alike: the lexer's levels are embedded in the formatter's stack |
| Guarantees.TightDotsNoFusing | src/formatter.rs:465-467 | without blanks around `.` and `?` nothing fuses |
| Guarantees.BlockLost | src/formatter.rs:538-548 | for all stacks: a line between its parent and a deeper continuation opens a block when read, and moves nowhere when printed |
| Guarantees.PanicsExactly | src/lexer.rs:44-51 | for every text: the lexer reads out of range if and only if the text ends in spaces without a newline and all before them lexes up to a line start |
| Counterexamples.BlockLostInText | src/formatter.rs:538-548 | texts of a header, a continuation of width d and a line of width w: all lex, and the tokens are kept if and only if w is not strictly between 0 and d |
| Counterexamples.BlockLostAt | src/formatter.rs:538-548 | such texts exist for all names and widths: `f(`, `a)`, `b` |
| Counterexamples.QuestionFuses | src/formatter.rs:465-467 | for all names x and y, respacing `x?`, blank, `y` turns two tokens into one |
| Counterexamples.NotIdempotent | src/formatter.rs:239-256 | behind any plain line, `task`, tab, word: the second pass inserts a blank line the first one missed |
| LineEndings.LineEndingsInvisible | src/lexer.rs:24-30 | Windows line endings change neither the tokens nor the formatted text |
| LineEndings.WindowsPreserved | src/formatter.rs:56-104 | formatting keeps the tokens of a file with Windows line endings if and only if it keeps those of the Unix form |
| CommentScan.CommentStartIndex | src/lint.rs:486-500 | the lint's scan loop computes the specified position |
| CommentScan.AtomCommentIsAtom | src/formatter.rs:368-370 | the comment atom is the last one and holds the rest of the line from its position on |
| CommentScan.LintAgreesWithFormatter | src/lint.rs:486-500 | lint and formatter place the comment identically on every line, even one that does not lex |
| CommentScan.ScannersAgree | src/lexer.rs:63-72 | on every line that lexes, lexer, formatter and lint start the comment at the same position |
| Environment.FreezeKeepsLookups | src/environment.rs:138-146 | no lookup changes by freezing |
| Environment.BaseNeverChanges | src/environment.rs:33-81 | the frozen base is the same after any run of pushes, pops, sets and updates |
| Environment.FreezeRefines | src/environment.rs:33-81 | a frozen and a never-frozen environment answer every lookup alike through any allowed run |
| Environment.FreezeUnobservable | src/environment.rs:138-146 | the same, started by freezing any environment |
| Environment.UpdateOfBaseForgotten | src/environment.rs:73-81 | outside the allowed runs: an update of a base-only name in a nested scope is gone after the pop |
| ScopeLaws.SetReads | src/environment.rs:45-61 | after a definition the name has the new value and every other name the one it had |
| ScopeLaws.SetIsLocal | src/environment.rs:33-51 | a definition goes with its scope |
| ScopeLaws.UpdateReads | src/environment.rs:73-81 | the same lookups after an assignment, wherever it wrote |
| ScopeLaws.UpdateReachesOut | src/environment.rs:73-81 | an assignment in an inner scope stays when the scope goes if and only if an outer scope has the name |
| FreezeExact.AlikeIsPops | src/environment.rs:38-60 | two environments agree level by level if and only if they answer alike after any pops down to the freeze |
| FreezeExact.StepAlike | src/environment.rs:33-81 | one operation keeps the frozen and the plain environment alike if and only if it is harmless, which is a test on the two before it |
| FreezeExact.FreezeExactly | src/environment.rs:138-146 | from the moment of freezing they stay alike throughout a run if and only if every operation of it is harmless |
| FreezeExact.AllowedIsHarmless | src/environment.rs:33-81 | the allowed operations are harmless |
| FreezeExact.BaseUpdateExactly | src/environment.rs:73-81 | a nested update of a base-only name is harmless if and only if it writes the value the name has; otherwise popping to the freeze shows it |
| FreezeExact.PopOfFreezeShows | src/environment.rs:38-42 | a pop right after the freeze shows whenever the popped scope decided a lookup |
| FreezeExact.PopOfFreezeShowsAt | src/environment.rs:38-42 | and there is such a scope for every name that is not bound |
| Environment.Environment.PushScope | src/environment.rs:33-35 | pushes one empty scope |
| Environment.Environment.PopScope | src/environment.rs:38-42 | pops one scope, never the last |
| Environment.Environment.SetVariable | src/environment.rs:45-50 | binds in the innermost scope only |
| Environment.Environment.Lookup | src/environment.rs:53-60 | the innermost binding, then the base |
| Environment.Environment.HasVariable | src/environment.rs:63-70 | a name is bound in some scope or in the base exactly when a lookup finds it |
| Environment.Environment.UpdateVariable | src/environment.rs:73-81 | overwrites the innermost binding, or sets in the current scope |
| Environment.Environment.FreezeAll | src/environment.rs:138-146 | drains all scopes into a new base, inner over outer over old base |
| Semantics.Eval | src/interpreter.rs:1249-1738 | total under the recursion cap; on value and error alike depth, module, scopes, base and transaction flag are restored, frames are exact on success and extended on error, a response is made exactly when it is the result, driver history honest |
| Laws.IfTaken | src/interpreter.rs:1517-1531 | for every condition, branches, host and state: the first branch is taken exactly when the value of the condition does not count as false, else the second, else null |
| Laws.IfSwaps | src/interpreter.rs:1517-1531 | an `if` equals the one with swapped branches over any condition of opposite truth |
| Laws.FalseValues | src/value.rs:190-233 | which values count as false |
| Laws.LogicTaken | src/interpreter.rs:1330-1344 | `and` goes on to its right side exactly when `or` does not, and else gives the value of its left side |
| Laws.AndAssociates | src/interpreter.rs:1330-1344 | both groupings of a chain of `and` or of `or` give the same value and state |
| Laws.NameMeans | src/interpreter.rs:1277-1323 | a name is a built-in namespace, or what it is bound to, or an error exactly when it is unbound |
| Laws.ListInTwo | src/interpreter.rs:1258-1262 | a list evaluates as its first part and then, from the state behind it, its second |
| Laws.ListItem | src/interpreter.rs:1258-1262 | at each index stands the value of that operand, evaluated behind those before it; the first operand that fails gives the result |
| Laws.OperatorApplies | src/interpreter.rs:1345-1402 | an operator applies to the values of its operands in order; `db.t` is a table, `doc.c` a collection |
| Laws.BinaryApplies | src/interpreter.rs:1345-1400 | a binary operator evaluates its left side first and takes its value first |
| Laws.CallMeans | src/interpreter.rs:1881-1897 | a call is answered by a built-in function, else by the task in scope, else by an error |
| Laws.FailMeans | src/interpreter.rs:2077-2100 | `fail` in an expression answers its first value as the status, cut to 16 bits, and its second as the body |
| Laws.FileTaskCalled | src/interpreter.rs:1414-1430 | `file.task(args)` calls the task of that file unless the name is bound |
| Laws.MethodInvoked | src/interpreter.rs:1431-1485 | any other method call evaluates the receiver, then the arguments in order, then invokes the method |
| Laws.TableInvoked | src/interpreter.rs:2290-2305 | a method of a table asks the database with its own name and arguments: in the open transaction if there is one, at once otherwise |
| Laws.NamespaceInvoked | src/interpreter.rs:1431-1485 | namespaces that act leave just that call as an event and give its answer; the others leave nothing |
| Laws.MatchTaken | src/interpreter.rs:2232-2251 | `match` evaluates the first arm whose pattern equals the subject, or the fallback if that comes first, behind the patterns before it; no arm gives null |
| Laws.MatchDecided | src/interpreter.rs:2232-2251 | one of the arms, or their end, always decides |
| Laws.RescueTaken | src/interpreter.rs:1585-1605 | a value or a response passes; any other error gives the outcome of the handler, whose scope is left behind it |
| Laws.HandlerSees | src/interpreter.rs:1597-1601 | the handler sees the error under its name, and every other name as the failed part left it |
| PipelineLaws.PipelineAssociates | src/interpreter.rs:1533-1584 | `(x >> f) >> g` is `x >> f >> g` for all stages, rescues included |
| PipelineLaws.PipelineIsRailway | src/interpreter.rs:1533-1584 | the pipeline without a rescue and the one with deferred errors are one and the same function |
| PipelineLaws.RescueStage | src/interpreter.rs:1545-1568 | a rescue at the end of a pipeline is a rescue of the whole pipeline |
| PipelineLaws.RescueBlockStage | src/interpreter.rs:1545-1568 | a handler of several statements runs them as a block in the same state |
| PipelineLaws.StageIsCall | src/interpreter.rs:2789-2794 | `x >> f(args)` is `f(x, args)`, in result and state |
| PipelineLaws.TaskStageCalls | src/interpreter.rs:2768-2785 | `x >> f` calls the task with the value, if that is no list |
| PipelineLaws.TaskStageMaps | src/interpreter.rs:2770-2782 | over a list it has, at each index, what the task makes of the item there, called behind the items before it |
| PipelineLaws.NamespaceStage | src/interpreter.rs:2843-2886 | a namespace stage gets its input in front of its arguments, `http_client` behind them |
| PipelineLaws.CacheStage | src/interpreter.rs:2807-2842 | `x >> cache.set(key)` stores the input under the key and passes it on |
| PipelineLaws.MethodStage | src/interpreter.rs:2907-2919 | any other method stage is evaluated without the input, unless it names a task of another file |
| PipelineLaws.BranchTakesWhole | src/interpreter.rs:2543-2568 | a branch that names a task takes any value whole, a list too |
| PipelineLaws.BranchIsStage | src/interpreter.rs:2543-2609 | any other branch is what it would be as a stage, but for `http_client` and `cache` |
| Semantics.EvalRescue | src/interpreter.rs:1585-1604 | keeps the same invariants, whether the handler runs or not: its scope is popped, frames of the failed part are gone on success, and no response is swallowed |
| Semantics.Railway | src/interpreter.rs:1533-1584 | the same invariants for a pipeline with rescue stages |
| Runs.ResponseSkips | src/interpreter.rs:1533-1584 | a response skips all stages, rescues included |
| Runs.ErrorSkips | src/interpreter.rs:1533-1584 | any other error skips the stages up to the next rescue |
| Runs.ValueSkips | src/interpreter.rs:1533-1584 | a value skips rescues |
| Runs.ResponsesAreNeverRescued | src/interpreter.rs:1585-1604 | over whole programs: a response was made if and only if it is the result |
| Semantics.CallLocal | src/interpreter.rs:2030-2062 | one scope, frame and level more, given back on both outcomes; what the parameters hold is `CallLaws.LocalReads` |
| Semantics.CallForked | src/interpreter.rs:1979-2029 | the caller's environment is exactly as before, and depth, module and transaction flag are given back |
| CallLaws.BindReads | src/interpreter.rs:2043-2045 | for all parameter lists: parameter i holds argument i, of parameters of one name the last one counts |
| CallLaws.BindLeaves | src/interpreter.rs:2042-2045 | every name that is no parameter keeps its meaning |
| CallLaws.BindIsLocal | src/interpreter.rs:2042-2056 | parameters go with the scope of the call |
| CallLaws.CoercedEach | src/interpreter.rs:1919-1969 | each argument is coerced by the schema of its own parameter, and one refusal refuses the call |
| CallLaws.LocalReads | src/interpreter.rs:2042-2045 | in a call of the same module the body sees the parameters, and behind them the scopes of the caller |
| CallLaws.ForkReads | src/interpreter.rs:1991-2018 | in a call of another module it sees the parameters first, then local names of the caller, then those of the module |
| CallLaws.CallRefused | src/interpreter.rs:1906-1978 | a call is refused for no task, the wrong number of arguments, a refused argument or the depth, in this order, and nothing has happened then |
| CallLaws.CallRuns | src/interpreter.rs:1985-2062 | any other call has the outcome of the body, one level deeper; what the body assigned to names of the caller stays unless it ran in another module |
| CallLaws.ParameterReturned | src/interpreter.rs:1899-2063 | a task whose body is its i-th parameter returns the i-th coerced argument, locally and on a fork, and leaves everything as it was |
| Semantics.EvalBranch | src/interpreter.rs:733-747 | the environment is exactly as before when a branch ends: assignments in it are undone |
| Semantics.InParallel | src/interpreter.rs:1654-1736 | whatever the branches do and in whatever order it takes effect, the parent's state is restored and its history stays honest |
| Semantics.RunBranches | src/interpreter.rs:1671-1689 | every branch, on a connection of its own, keeps all the invariants of a run |
| Runs.ParallelInOrder | src/interpreter.rs:1654-1736 | all branches run; the result collects theirs in declaration order; the batches they kept take effect in some interleaving |
| Runs.CollectInOrder | src/interpreter.rs:1698-1710 | all values in declaration order, or the error of the first branch in that order that fails |
| Runs.MergeShuffles | src/interpreter.rs:1671-1697 | every schedule is an interleaving: each branch keeps the order of its own batches |
| Runs.ShufflesMerge | src/interpreter.rs:1671-1697 | every interleaving is a schedule |
| Runs.NoReplyForgotten | src/interpreter.rs:1698-1710 | the responses of all branches are, as a multiset, the one that becomes the result and those counted as lost |
| Semantics.ExecWhile | src/interpreter.rs:844-863 | terminates: at most 10000 rounds, then an error |
| Semantics.ExecReply | src/interpreter.rs:948-1019 | never completes normally |
| Semantics.ExecTransaction | src/interpreter.rs:898-946 | flag and holder return to their entry status on every path |
| Semantics.Commit | src/interpreter.rs:898-946 | the transaction ends either way; the database takes its requests only if the driver commits |
| Semantics.DoRequest | src/interpreter.rs:2290-2305 | keeps the account of the history: a request is open if a transaction is, in effect otherwise, and none if its arguments are rejected |
| Semantics.WithInput | src/interpreter.rs:2574-2609 | a namespace call as a stage or branch gets the input in front of its arguments, behind them or as the value to store, and keeps all the invariants |
| Semantics.Invoke | src/interpreter.rs:1431-1485 | a method of a table is a request, one of an acting namespace a call; environment, frames and responses stay as they are |
| Semantics.Execute | src/interpreter.rs:713-719 | all of the above for whole programs |
| StatementLaws.BlockInTwo | src/interpreter.rs:721-731 | a block runs as its first part and then, unless that failed, its second |
| StatementLaws.BodyIsBlock | src/interpreter.rs:733-747 | a body runs its statements and then its last expression, as one block |
| StatementLaws.AssignMeans | src/interpreter.rs:792-796 | after an assignment the name has the value and every other name what it had; nothing but the scopes differs |
| StatementLaws.AssignThenRead | src/interpreter.rs:792-796 | reading a name that was just assigned gives what was assigned, or its error |
| StatementLaws.CondAssignMeans | src/interpreter.rs:798-810 | a conditional assignment is the assignment exactly if its guard holds |
| StatementLaws.TaskDefMeans | src/interpreter.rs:865-883 | a task definition binds the name in the current scope to a task of the current module |
| StatementLaws.GuardsMean | src/interpreter.rs:812-842 | `require` fails with its code exactly when `reject` passes, and the other way round |
| StatementLaws.LoopMeans | src/interpreter.rs:844-863 | behind any number of rounds a loop ends by its guard, by an error of guard or body, by the cap of 10000, or goes on for one more round |
| StatementLaws.LoopEnds | src/interpreter.rs:844-863 | a loop that ends in a value has gone through some number of rounds, and its guard has just been false |
| StatementLaws.ReplyMeans | src/interpreter.rs:948-1019 | a reply answers the evaluated status, cut to 16 bits, content and headers, evaluated in this order |
| StatementLaws.FailStmtMeans | src/interpreter.rs:1021-1046 | `fail` answers its code and message as an error |
| StatementLaws.SignalsMean | src/interpreter.rs:1048-1083 | `raise` and `nack` signal exactly when their condition holds, or always without one |
| StatementLaws.TransactionRefused | src/interpreter.rs:898-905 | a transaction inside a transaction, or without a database, is refused before anything happens |
| Worlds.EvalAgrees | src/interpreter.rs:1249-1738 | run in front of two outsides, an expression either touches neither and ends alike in result and state, or touches both, and first in the same way |
| Worlds.BlockAgrees | src/interpreter.rs:713-731 | the same for statements and whole programs |
| Routes.EvalMoves | src/interpreter.rs:1249-1738 | behind another history, under a host that answers there as the first host answers here, an expression does the same things to the outside and ends alike |
| Routes.BlockMoves | src/interpreter.rs:713-731 | the same for statements and whole programs |
| Runs.NoHistoryTwice | src/interpreter.rs:1671-1710 | over a whole run, in branches of branches too, no two questions to the host are asked behind the same history |
| InterpreterObject.Interpreter.Execute | src/interpreter.rs:713-719 | a whole program leaves the object as it was found: depth, module, number of scopes, base, transaction flag and holder; frames as before, or extended after an error; result and state are those of `Semantics.Execute` |
| InterpreterObject.Interpreter.EvaluateAll | src/interpreter.rs:1258-1262 | operands from left to right up to the first error |
| InterpreterObject.Interpreter.EvaluateArms | src/interpreter.rs:2232-2251 | the first arm that applies is evaluated |
| InterpreterObject.Interpreter.FollowStages | src/interpreter.rs:1576-1582 | the loop over stages without rescues |
| InterpreterObject.Interpreter.FollowRailway | src/interpreter.rs:1533-1584 | the loop over stages with rescues |
| InterpreterObject.Interpreter.CallTaskOnList | src/interpreter.rs:2770-2782 | a task stage over a list, element by element up to the first error |
| InterpreterObject.Interpreter.BindParameters | src/interpreter.rs:2042-2045 | the loop that binds each parameter to the argument at its index (`CallLaws.BindReads`) |
| InterpreterObject.Interpreter.CallOnFork | src/interpreter.rs:1979-2029 | a second interpreter object that shares the transaction holder |
| InterpreterObject.Interpreter.BroadcastInSequence | src/interpreter.rs:1644-1652 | the fast path on clones with empty holders |
| InterpreterObject.Interpreter.RunBranchApart | src/interpreter.rs:1671-1689 | a clone with an empty holder on its own connection; nothing of the parent changes |
| InterpreterObject.Interpreter.BroadcastInParallel | src/interpreter.rs:1654-1736 | all branches apart, then collection in declaration order |
| InterpreterObject.Interpreter.RunAllBranches | src/interpreter.rs:1671-1697 | the loop over the branches yields, in order, what each does apart |
| InterpreterObject.Interpreter.CollectResults | src/interpreter.rs:1698-1710 | the loop that collects results up to the first error |
| InterpreterObject.Interpreter.ExecuteStatements | src/interpreter.rs:713-731 | statements up to the first error |
| InterpreterObject.Interpreter.ExecuteWhile | src/interpreter.rs:844-863 | the loop with its counter |
| Runs.TransactionAtomic | src/interpreter.rs:898-946 | commit is attempted exactly when the body ends without error; otherwise rollback, and the database is as before; a commit applies exactly the requests of the body |
| Runs.BodyRequests | src/interpreter.rs:898-946 | between begin and end the history holds requests and namespace calls only, and exactly these requests are open |
| Runs.RunsAreAtomic | src/interpreter.rs:713-719 | over a whole run, on the main connection and on that of every parallel branch, brackets match, never nest and are closed, and the database is what the kept batches make of it |
| FastPath.SequenceIsParallel | src/interpreter.rs:1636-1652 | for any branches and any driver: the parallel run whose branches are taken in declaration order has the same result and state as the fast path, and the same database and acts if and only if no branch behind the first one that fails touches the outside |
| FastPath.NoFailureUnseen | src/interpreter.rs:1644-1652 | so, if all branches succeed, nobody can tell the fast path from that parallel run |
| FastPath.HeedlessParallel | src/interpreter.rs:1654-1736 | under a driver whose answers do not depend on what was done before, every parallel run, in whatever order, has the result and the state of the fast path, and the same acts if and only if no branch behind the first one that fails touches the outside; with the batches in declaration order the database is the same too under that condition; in another order the database is not compared |
| FastPath.OrderlyElsewhere | src/interpreter.rs:1671-1689 | away from the branches the driver of the orderly run answers begins, commits, requests and namespace calls as the given one, and there it schedules as the given one everywhere but at the broadcast itself |
| FastPath.BroadcastIsParallel | src/interpreter.rs:1625-1736 | a broadcast is its parallel run, or, with branches judged pure, looks like the orderly one with exactly these exceptions |
| FastPath.QuietBranchesUnseen | src/interpreter.rs:1636-1736 | for every driver and every schedule: if each branch, run on its own, leaves the outside alone, the fast path and the parallel run have the same result list or the same first error in declaration order, the same state, database and acts |
| FastPath.FastPathUnseen | src/interpreter.rs:2515-2541 | branches judged pure whose bodies hold no method call are such branches: nobody can tell the fast path from the parallel run, under any driver and schedule, nor from the orderly run |
| FastPath.QuietInTurn | src/interpreter.rs:1644-1652 | whether a branch touches the outside does not depend on what the branches before it did |
| FastPath.PureForms | src/interpreter.rs:326-358 | which forms are judged pure: those made of parts exactly if all parts are, five names never, and no form that is not listed |
| FastPath.PureEval | src/interpreter.rs:326-358 | an expression judged pure that reaches no task of another file changes nothing of the interpreter, makes no response, and can touch the outside by requests and namespace calls only, which takes a method call |
| FastPath.NamespaceCallCountsAsPure | src/interpreter.rs:351-353 | a method call on a file namespace is judged pure and calls a task |
| FastPath.TableCallCountsAsPure | src/interpreter.rs:351-353 | a branch `name(x) => x.sel()` is judged pure, and makes a request when a table is broadcast into it and the driver takes `sel` without arguments, as it takes `find_all` |
| FastPath.FastPathSkips | src/interpreter.rs:1644-1652 | two branches, both judged pure, the first failing and the second writing to `log`: the fast path leaves the outside untouched, the parallel run under any driver writes the line |
| FastPath.FastPathSkipsRequest | src/interpreter.rs:1644-1652 | the same with a second branch `b(x) => x.sel()` and a table broadcast into it: the parallel run under any driver that takes the selector without arguments makes the request, the fast path does not |
| Lint.BlockSound | src/lint.rs:1765-1767 | a block judged to terminate never completes normally, from any state and under any host |
| Lint.StmtSound | src/lint.rs:1769-1780 | the same for statements |
| Lint.ExprSound | src/lint.rs:1785-1805 | the same for `fail` in expressions, two-branch `if`, `match` with fallback |
| Lint.BodySound | src/lint.rs:1807-1814 | the same for bodies |
| Lint.AcceptedForms | src/lint.rs:1765-1814 | which statements must be accepted as always ending: replies, fails and unconditional raises, and transactions exactly with some such statement |
| Lint.AcceptedBranches | src/lint.rs:1785-1814 | an `if` is accepted exactly with both branches, a `match` exactly with a fallback and all arms, a body exactly with such a statement or end |
| Lint.LintUnreachable | src/lint.rs:1816-1837 | the loop reports a position if and only if a reply, a `fail` or an unconditional `raise` stands in front of it |
| Lint.DeletingUnreachable | src/lint.rs:1816-1848 | deleting the reported statements keeps result and final state, from every state |
| SchemaCycle.FindDisallowedCycle | src/schema_cycle.rs:22-49 | finds a cycle if and only if one lies wholly in value schemas; the path is such a cycle; without one, value references are ranked |
| SchemaCycle.Search.Walk | src/schema_cycle.rs:54-93 | terminates; either a real cycle, or path restored and the node finished with a rank |
| SchemaCycle.RankForbidsCycles | src/schema_cycle.rs:14-15 | a rank on all value schemas excludes every cycle |
| Profile.AccessKeepsInv | src/runtime_profile.rs:231-257 | every atomic access of every recorder, stale reads and spurious failures included, keeps the invariant |
| Profile.MaxNeverFalls | src/runtime_profile.rs:244-257 | under every interleaving the maximum never falls |
| Profile.ExactAtRest | src/runtime_profile.rs:231-257 | at quiescence the maximum is the greatest sample and each counter is exact modulo 2^64 |
| Profile.ConservedAtRest | src/runtime_profile.rs:231-242 | at quiescence the bucket counters sum to the count |
| Profile.BucketLeast | src/runtime_profile.rs:237-241 | a sample is counted in the least bucket that admits it, and one always does |
| ProfileProgress.LockFree | src/runtime_profile.rs:244-257 | n recorders take at most n(n+5) steps that bring something new, whatever the interleaving |
| ProfileProgress.FreshAccessIsBusy | src/runtime_profile.rs:231-257 | a step of an unfinished recorder that reads the latest value and does not fail spuriously is such a step |
| Percentile.PercentileFrom | src/runtime_profile.rs:279-293 | the accumulating loop computes the specified bound |
| Percentile.PercentileCorrect | src/runtime_profile.rs:279-293 | the least bucket bound that at least max(1, ceil(count*p/100)) samples do not exceed |
| Percentile.PercentileAtRest | src/runtime_profile.rs:259-277 | the same for a summary after any interleaving of recorders |
| Percentile.RankSampleInBucket | src/runtime_profile.rs:279-293 | the sample of that rank lies in that bucket |
| Percentile.PercentileMonotone | src/runtime_profile.rs:279-293 | a higher percentile is never a smaller answer |
| Percentile.TargetExact | src/runtime_profile.rs:284 | for all counts and percentiles: the computed rank is the intended one if and only if their product is at most 2^64 - 16 |
| Registry.OneProfilePerRoute | src/runtime_profile.rs:87-98 | however calls interleave, two get the same profile if and only if they name the same route |
| Config.PercentEncode | src/config.rs:544-559 | the byte loop computes the encoding |
| Config.DecodeUndoesEncode | src/config.rs:544-559 | decoding (section 2.1 of RFC 3986) undoes encoding for every byte string |
| Config.EncodePlain | src/config.rs:544-559 | encoded text holds unreserved characters and `%` only, and `/` where allowed |
| Config.ConnectionUrl | src/config.rs:29-58 | the URL, or the first missing value, or the unsupported provider |
| ConfigRoundTrip.CredentialsRoundTrip | src/config.rs:37-48 | split at the first `@` and the first `:`, any user and password come back, whatever the host (section 3.2.1 of RFC 3986) |
| ConfigRoundTrip.UrlRoundTrip | src/config.rs:37-55 | the whole URL reads back if and only if the host holds none of `/`, `?`, `#` |

## Left out

- The parser, value methods, operators, schema coercion, the project runtime and the drivers: parameters (`Host`, `parses`), so results hold for all of them.
- Token positions, lexemes and the keyword table: kinds only; a word keeps its text, a float literal its digits.
- String interpolation, maps, floats and other value kinds: kept as opaque values; interpolation swallows errors and is outside the stated laws.
- `map`, `keep` and `reduce` stages, query builders, relation handles, named arguments, queue and topic producers, response schemas: not part of the core language modelled.
- Semantics.InParallel: branches that panic, and branches on plain threads (outside a runtime) that go on after the first error has been returned, are not modelled; a batch takes effect as a whole, so isolation between transactions below that of the driver's answers is not described.
- Semantics.Invoke: `fs`, `log`, `cache`, `doc` and `http_client` calls are events answered by the host, what they do to files and stores is not modelled; nor are checks that some of them make before or after evaluating their arguments, and query builders, whose methods count as plain value methods.
- Semantics.Invoke: `uuid`, `time` and `feature` are answered as value methods, by a function of selector and arguments that leaves no event; so two `uuid` calls of one run answer alike.
- Semantics.DoRequest: the effect of a request on the data, and which arguments a table operation rejects, are functions of the host.
- SchemaCycle.FindDisallowedCycle: the order in which names and references are visited is a parameter, so which of several cycles is reported is not modelled.
- Divergence.KeptExactly: lone carriage returns, strings that continue over a line end, and tabs before blank or comment lines are excluded; Windows line endings are covered by `LineEndings.WindowsPreserved`.
- CommentScan.CommentStartIndex: positions count characters, not bytes.
- Config.ConnectionUrl: lower-casing the provider name is done by the caller; the URLs of the document, cache and queue drivers follow the same pattern and would only add easy members.
- File discovery, command-line tools, routes, authentication, migrations, and the remaining lint rules.
