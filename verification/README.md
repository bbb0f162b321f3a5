# Verified models of the FPP tools

This project models the parts of the FPP language tools that carry the most state, and proves
what those parts promise. It needs Dafny 4.11; `dafny verify dfyconfig.toml` checks all of it.

| area | files | what is modelled |
|---|---|---|
| lossless parsing | `Syntax`, `Lexer`, `LexedText`, `LexLaws`, `Trivia`, `Parser`, `Markers`, `Grammar`, `Events`, `Output`, `Replay`, `Lossless`, `Pipeline` | from the text to the tree: the scanner, the table of raw tokens, the input of the parser, the marker parser and its sequences, the event buffer, the packed output, the replay with trivia, and the builder of the tree |
| formatting | `Lowering`, `Spacing`, `TreeFlow`, `Formatter`, `FormatLaws`, `ListLaws`, `SpaceLaws`, `Doc`, `Render`, `RenderLaws`, `Flow`, `Align`, `AlignLaws`, `AlignTurns`, `Finish`, `FormatText` | from the tree to the formatted text: the lowering, the spacing of tokens, the stack-machine renderer and its look-ahead, the alignment of anchors, and the final trim |
| include formatting | `Include`, `IncludeLaws` | the depth-first walk over included files |
| language server | `IdMap`, `Context`, `Diagnostics`, `Units`, `Isolation`, `Server` | handles that are reused, garbage collection sets, the store of diagnostics, and loading, updating, reparsing and analysis |
| used symbols | `UsedSymbols` | the closure of uses |
| diagrams | `Diagram`, `DiagramLaws`, `DiagramTree`, `DiagramWhole`, `SmLayout` | the tree of a state machine diagram, and the layout annotation |

Conventions. Characters are code points; `Utf8` gives their byte lengths and the byte slices of
a text. Objects that the source updates in place (`Lexer`, `Builder`, `Parser`, `Output`,
`IdMap`, `CompilerContext`, `LspDiagnosticsEmitter`, `GlobalState`, the include walk, the
used-symbol resolution, the edge buckets of a diagram) are classes; loops are loops. A class
method states its new state through a function of the old one, and the laws are lemmas about
those functions. A panic of the source (`unwrap`, `assert!`, `unreachable!`, an index) is a
precondition of the call it would happen in, so that a caller that verifies never meets it;
where a caller can meet it, the method returns whether it did and says exactly when.

The scanner is specified by a second scanner, `LogicalText`, which reads a text whose lines end
in a single line feed. That the real scanner finds the same tokens in the raw text is what
makes it independent of line ends. What a token looks like, kind by kind, is said once more
without a scanner, in `LexLaws`.

The event buffer is specified by the stack of nodes that the markers denote (`Markers.Denotes`).
Every operation of the parser keeps it, so the buffer of any run converts to the walk of the
tree that the run describes. The grammar rules themselves are arbitrary: a rule is any sequence
of parser operations, chosen from the input and the position, that uses its markers as a stack.

A document is also read as a row of bits: its texts, the places where it may break, and its
groups (`Flows`). `TreeFlows` gives the row that the formatter prints of a tree, and each method
of the formatter is proved to print it. What a row means for the output, whichever groups are
broken, is stated about its pieces: which tokens it holds (`FormatLaws`), what sets the members of
lists, clauses and choices apart (`ListLaws`), and that no words run together (`SpaceLaws`).

The parser of the language server is likewise any sequence of events: files, spans and nodes
that are made and diagnostics that are reported.

## Findings

* `Markers.PoppingForwardParentBreaks`: abandoning a marker that `precede` has just made pops
  its event and leaves a forward parent that points past the end of the buffer. No rule of the
  model may do this; `Parser.abandon` does not prevent it.
* `AlignTurns.AlignmentNeedsOrder`: runs are sorted by the column of their first anchor only, so
  a run of notes can have its turn before a run of equals signs that stands to the left of it on
  a line they share. The shift of that line then counts spaces that were inserted behind the
  equals sign, and the signs end up apart. It takes three constants of an enumeration.
  `AlignTurns.RenderedTurns` says exactly when a run ends its turn in one column, for every
  document; `Finishing.RenderedRunsAlign` says that all runs do, and stay there, if they come
  left to right.
* `IncludeLaws.CycleGoesUnnoticed`: a file is formatted once, in the directory through which it
  is met first. When it is linked into two directories, its includes can name other files in the
  second one, and a cycle through these is not reported. `CycleIsFound` is exact when no file is
  reached through two directories.
* `Server.RootKeepsItsHandle`: after a unit is parsed again its root keeps its handle, whatever
  the order in which handles are dropped, if and only if the unit is a single file. A second
  `Reprocess` of the old root that is still queued, or an `Update` that consults the table of
  the last analysis, can therefore meet a handle that is gone. `Reprocess` and `Update` state
  exactly when they panic.
* `FormatTokens.SeparatorKeepsToken`: what the formatter puts between two tokens keeps them apart
  for the scanner except in two places, where it puts nothing: a dot before a digit, and a minus
  before `>`. A text that parses has a name behind a dot and an operand behind a unary minus, so
  neither is met there.
* `DiagramWhole.NothingIsLost`: the tree of a diagram is complete if and only if initial nodes
  have neither children nor edges to themselves.

## Model

| member | source | states |
|---|---|---|
| LogicalText.LogicalUndoesCrLf | fpp_lexer/src/lexer.rs:493-511 | reading a text whose line ends were converted to CR LF gives back the text, for every text |
| LogicalText.LogicalIsIdentity | fpp_lexer/src/lexer.rs:493-511 | a text is read character by character as it stands if and only if it has no CR LF pair |
| LogicalText.LineEndsDoNotMatter | fpp_lexer/src/lexer.rs:493-555 | converting the line ends leaves what the scanner reads as it was, if and only if the text has no CR LF pair yet |
| Lexing.Lexer.PeekChar | fpp_lexer/src/lexer.rs:496-511 | looking ahead n characters gives the n-th character of the folded text, so it agrees with what the (n+1)-th `bump` returns |
| Lexing.Lexer.Bump | fpp_lexer/src/lexer.rs:544-555 | reads one character of the folded text and advances the byte position by the one or two raw characters it stands for |
| Lexing.Lexer.EatWhile | fpp_lexer/src/lexer.rs:558-562 | reads exactly the longest run of folded characters with the property |
| Lexing.Lexer.FetchStringLitMulti | fpp_lexer/src/lexer.rs:359-401 | a multi-line string literal ends where that of the folded text ends, and one error is added, at its opening quotes, exactly if it is not closed |
| Lexing.Lexer.FetchStringLitSingle | fpp_lexer/src/lexer.rs:404-430 | a literal ends at its closing quote or at the end of its line, and one error is added, on the whole literal, exactly if it is not closed |
| Lexing.Lexer.FetchContinuation | fpp_lexer/src/lexer.rs:189-214 | what stands between a continuation's backslash and the end of its line, apart from spaces, is one error, on just those bytes |
| Lexing.Lexer.FetchNumber | fpp_lexer/src/lexer.rs:433-486 | integers, fractions and exponents end where the folded scanner ends them, and a letter behind a fraction or an exponent is one error, on the literal and the letter |
| Lexing.Lexer.Next | fpp_lexer/src/lexer.rs:74-91 | a token is found until the text is used up; it is not empty, starts where the last one ended, its kind and the rest are those of the folded text, and exactly the errors are added that the text of the token calls for, at their bytes |
| LexedText.ErrorIsAttributed | fpp_lsp_parser/src/lexed_str.rs:54-65 | an error that covers bytes is attributed to the token it begins in, an empty one to the token it ends |
| LexedText.Convert | fpp_lsp_parser/src/lexed_str.rs:23-41 | the raw tokens tile the text, their kinds are those of the folded text followed by `EOF`, and the errors are those of each token, in order, each in its token |
| LexedText.NewLexedStr | fpp_lsp_parser/src/lexed_str.rs:23-52 | every error of every token is reported once, for the token that holds its first byte, and no other is; the order is that of the tokens |
| LexLaws.TokenLooks | fpp_lexer/src/lexer.rs:149-340 | every token is what its characters make it: a longest word, number, line or run of blanks, a literal with its quotes, a fixed symbol, or one unknown character |
| LexLaws.TextIsTokens | fpp_lsp_parser/src/lexed_str.rs:23-41 | the kinds of a text are those of such tokens, one after the other, up to its end |
| FormatTokens.TokensAreLexed | fpp_format/src/formatter.rs:588-610 | what the formatter takes for granted of the text of a token, by its kind, is true of every token that is no error |
| Trivia.AsTrivia | fpp_lsp_parser/src/shortcuts.rs:78-127 | the loop over newlines and comments computes the region that starts at a raw token, in particular which tokens are removed |
| Trivia.ToInput | fpp_lsp_parser/src/shortcuts.rs:129-155 | the parser's input is what it sees of the raw tokens one by one: each token that is no trivia, and an end of line for each line that is neither taken by the token or line before it nor dropped before a closing delimiter |
| Trivia.InputIsSeen | fpp_lsp_parser/src/shortcuts.rs:129-155 | the regions of any fresh position stand for what is seen of the raw tokens from there on |
| Trivia.InputTokens | fpp_lsp_parser/src/shortcuts.rs:78-155 | without ends of lines the input is the raw tokens without whitespace, unknown characters, comments and ends of lines, in order |
| Trivia.EolBetween | fpp_lsp_parser/src/shortcuts.rs:44-127 | between two tokens the input has an end of line if and only if an end of line or comment there is neither in what the absorbing token before it takes nor in the blank lines before a closing delimiter |
| Trivia.RestartInsideNewlines | fpp_lsp_parser/src/shortcuts.rs:54-127 | restarting inside the newlines that a region absorbs reaches the same end |
| Trivia.RestartInsideRemoved | fpp_lsp_parser/src/shortcuts.rs:78-127 | a removed region that is entered in the middle is still removed and has the same end |
| Trivia.InputFromInsideRemoved | fpp_lsp_parser/src/shortcuts.rs:129-155 | restarting anywhere inside a removed region gives the same remaining input |
| Trivia.RemovedRegionsDoNotMeet | fpp_lsp_parser/src/shortcuts.rs:78-127 | a removed region is never followed by another |
| Replay.Builder.Token | fpp_lsp_parser/src/shortcuts.rs:222-262 | a parser token emits exactly the raw tokens of its region, after the trivia before it, and the kind assertion and `unreachable!` do not fire |
| Replay.Builder.EatWhitespaceOuter | fpp_lsp_parser/src/shortcuts.rs:310-326 | eats whitespace, comments and unknown characters and nothing else, never a token of the input, and leaves none of them unless it belongs to an end of line that the parser sees |
| Replay.Builder.Enter | fpp_lsp_parser/src/shortcuts.rs:264-278 | a node is entered after the delayed exit and the trivia before it; what it begins with is no whitespace, comment or unknown character, unless that belongs to an end of line that the parser sees |
| Replay.Builder.Exit | fpp_lsp_parser/src/shortcuts.rs:289-295 | an exit is delayed, after the one before it has been sent |
| Replay.IntersperseTrivia | fpp_lsp_parser/src/shortcuts.rs:158-205 | for every framed output whose tokens are the input of the text, the replay is the recursive one and reaches the end of the text |
| Lossless.ReplayIsLossless | fpp_lsp_parser/src/shortcuts.rs:158-332 | the raw tokens that reach the sink are all of them, in order, and their texts are the source |
| Lossless.ReplayKeepsSteps | fpp_lsp_parser/src/shortcuts.rs:170-295 | from any position in step with the parse, the rest of the replay reads back as the rest of the parse |
| Lossless.ReplayKeepsTree | fpp_lsp_parser/src/shortcuts.rs:170-201 | with trivia read off, the replay is the output step by step: delayed exits change only which node trivia attach to |
| Packing.WordFields | fpp_lsp_parser/src/output.rs:60-119 | kind, raw token count and tag are read from a 32-bit word as they were packed into it |
| Packing.ErrorWordIndex | fpp_lsp_parser/src/output.rs:60-126 | an error word is told apart from every other word and keeps the low 31 bits of its index |
| Packing.ReadBackExact | fpp_lsp_parser/src/output.rs:60-126 | fewer than 2^31 errors are read back exactly |
| Packing.Output.Error | fpp_lsp_parser/src/output.rs:121-126 | decoding after an error gives the old steps and the error |
| Events.Process | fpp_lsp_parser/src/event.rs:91-141 | for every buffer whose forward parents are there and shared by none, the output decodes to the events in order, each node entered once, after the forward parents outside it |
| Events.FollowParents | fpp_lsp_parser/src/event.rs:103-122 | the chain of forward parents ends; it collects the kinds along it and leaves tombstones in their place |
| ParseTree.WalkAllConcat | fpp_lsp_parser/src/event.rs:91-141 | the walk of trees in a row is the walks in a row |
| Markers.PushLeaf | fpp_lsp_parser/src/parser.rs:167-175 | a token or error event adds a leaf to the innermost open node and changes nothing else |
| Markers.StartNode | fpp_lsp_parser/src/parser.rs:98-102 | a started marker opens a node inside the innermost one |
| Markers.CompleteNode | fpp_lsp_parser/src/parser.rs:195-207 | completing the innermost marker makes its children one node, however many forward parents lead to it |
| Markers.SpliceChildren | fpp_lsp_parser/src/parser.rs:211-223 | abandoning a marker that is not the last event gives its children to the node around it |
| Markers.PopTombstone | fpp_lsp_parser/src/parser.rs:211-223 | popping an abandoned marker that is the last event leaves what the events before it denote |
| Markers.PrecedeNode | fpp_lsp_parser/src/parser.rs:254-264 | preceding a completed child opens a node around it and what follows it |
| Markers.PoppingForwardParentBreaks | fpp_lsp_parser/src/parser.rs:211-223 | popping the event of a marker that `precede` made always leaves a forward parent out of range, so the buffer cannot be converted |
| Markers.ProcessDenoted | fpp_lsp_parser/src/event.rs:91-141 | events that denote a stack convert to the walk of that stack |
| Parsing.Parser.StartMarker | fpp_lsp_parser/src/parser.rs:98-102 | the buffer denotes the stack with one node more, and the position stays |
| Parsing.Parser.Complete | fpp_lsp_parser/src/parser.rs:195-207 | the innermost node becomes the last child of the one around it, and the walk of the tokens is kept |
| Parsing.Parser.Abandon | fpp_lsp_parser/src/parser.rs:211-223 | the buffer loses at most the marker's own event, and the children go to the node around |
| Parsing.Parser.Precede | fpp_lsp_parser/src/parser.rs:254-264 | the new node has the completed one as its first child, and no step is added or lost |
| Parsing.Parser.BumpAny | fpp_lsp_parser/src/parser.rs:110-116 | consumes one token of the input and adds it as a leaf, or does nothing at the end |
| Parsing.Parser.ErrAndBump | fpp_lsp_parser/src/parser.rs:138-143 | adds one `ERROR` node with the message and the next token, and moves on unless at the end |
| Parsing.Parser.ErrRecover | fpp_lsp_parser/src/parser.rs:148-165 | recovers without moving exactly at a brace or a token of the set, and then adds the error alone; otherwise it adds one `ERROR` node with the message and the next token and moves on unless at the end |
| Grammar.Perform | fpp_lsp_parser/src/parser.rs:98-264 | every operation of the parser does to the buffer what it does to the stack and the position |
| Grammar.DoExtends | fpp_lsp_parser/src/parser.rs:195-264 | a legal operation of a rule never touches the nodes that were open when the rule began |
| Grammar.PrecedingIsRule | fpp_lsp_parser/src/parser.rs:254-264 | completing a node and preceding it beside whatever children were there is a rule, so rules may wrap their own nodes at any place |
| Grammar.Apply | fpp_lsp_parser/src/grammar.rs:222-232 | any member rule that uses its markers as a stack leaves the enclosing nodes with more children, never moves back, and ends as performing its operations one by one does |
| Grammar.RuleBuilds | fpp_lsp_parser/src/grammar.rs:222-238 | a rule builds the same trees wherever it is run, and adds just these |
| Grammar.ErrorBlock | fpp_lsp_parser/src/grammar.rs:76-86 | an unexpected block becomes one error node with the message and the tokens up to its first closing brace |
| Grammar.Element | fpp_lsp_parser/src/grammar.rs:219-258 | where a member can be run it is run, and one round adds its annotations, all that the member builds, and what ends it: a terminator and its annotations exactly if the member stops where an element may end, and an error otherwise; where none can be run an error is added; every round makes progress or stops |
| Grammar.ElementSequence | fpp_lsp_parser/src/grammar.rs:191-259 | the sequence ends, for any member rule, and only at `ket`, at the end of the input, or at a closing delimiter while `ket` is not the end; if every member consumes something and stops where an element may end, it adds the trees of the members, their annotations and terminators and nothing else |
| Grammar.MembersAddNoFaults | fpp_lsp_parser/src/grammar.rs:191-259 | the members of such a sequence have the errors of the members alone |
| Grammar.SequenceAddsNoFaults | fpp_lsp_parser/src/grammar.rs:191-259 | such a sequence adds no error and no error node of its own |
| Grammar.MemberList | fpp_lsp_parser/src/grammar.rs:152-177 | a delimited list adds exactly one node of the list's kind and makes progress; if all is in order the node holds the delimiters around the trees of the members |
| Grammar.Entry | fpp_lsp_parser/src/grammar/entry.rs:4-14 | a file makes one root node, the whole input is consumed, the tokens of the tree are the input, and if all is in order the root holds the trees of the members |
| GreenTree.BuildKeepsText | fpp_lsp_parser/src/lib.rs:109-143 | a built tree holds the texts of the steps it was built from |
| GreenTree.BalancedBuilds | fpp_lsp_parser/src/lib.rs:109-143 | steps that balance, the root's exit last, build exactly one node |
| GreenTree.BuildKeepsSteps | fpp_lsp_parser/src/lib.rs:109-143 | walking a built tree gives back the steps it was built from, without errors |
| Pipeline.Parse | fpp_lsp_parser/src/lib.rs:79-93 | for any input and rule, the output decodes to the walk of one root node whose tokens are the input and which holds the trees of the members if all is in order |
| Pipeline.ParseText | fpp_lsp_parser/src/lib.rs:101-143 | for every text: it is cut into tokens that look like their kinds, the file is parsed from what the parser sees of them, the end is reached, one tree of kind `ROOT` is built, its text is the source, walking it gives back the replay, and the replay reads back as the parse |
| Rendering.FitsLookahead | fpp_format/src/doc.rs:186-226 | the look-ahead ends, and is true if and only if the document laid flat and then the stack reach a newline or the end within the width and meet no hard break in flat mode |
| Rendering.RenderStack | fpp_format/src/doc.rs:101-165 | the stack machine ends with the output, column, line, anchors and verbatim lines of the recursive layout |
| RenderLaws.LayoutEmitsTexts | fpp_format/src/doc.rs:112-161 | whatever the width, each text of the document is emitted once, in order |
| RenderLaws.LayoutIsTrue | fpp_format/src/doc.rs:101-183 | column and line are those of the end of the output, every anchor is a position that the output has, and the verbatim lines are those that end inside a text, strictly increasing |
| RenderLaws.NestedGroupsAreFlat | fpp_format/src/doc.rs:140-147 | for documents without multi-line texts, every group inside a flat group is flat |
| RenderLaws.LineIsCompleted | fpp_format/src/doc.rs:186-226 | when the look-ahead holds, the line that is laid out is the measured one |
| RenderLaws.FlatGroupLineFits | fpp_format/src/doc.rs:140-226 | before alignment, a line that holds a flat group is no wider than the width, not counting the continuation mark |
| RenderLaws.GroupIsFlatIfItFits | fpp_format/src/doc.rs:140-226 | a group is laid flat if and only if the line that it would complete is no wider than the width and meets no hard break; then that is the line which is printed |
| Flows.LayoutPrints | fpp_format/src/doc.rs:101-183 | what a layout emits is, in document order, every text and one separator for each line or hard break: the flat text if its group is flat, and else a newline behind the continuation mark that it asks for, with the indent of its nesting; anchors are recorded where their marks stand |
| Flows.EveryNewline | fpp_format/src/doc.rs:166-183 | every newline of the output is in a text or at a broken line, and is preceded by the continuation mark exactly if that line asks for one |
| Alignment.RunsAreMaximal | fpp_format/src/doc.rs:259-273 | a bucket is cut into runs of consecutive lines, none of which goes on in the next, and no anchor is lost |
| Alignment.SplitRuns | fpp_format/src/doc.rs:259-273 | the loop with the pending run computes those runs |
| Alignment.MaxShifted | fpp_format/src/doc.rs:280-284 | the target is the largest shifted column of the run |
| Alignment.ApplyRuns | fpp_format/src/doc.rs:278-296 | the lines and shifts edited in place are those of padding the runs in order |
| Alignment.Align | fpp_format/src/doc.rs:242-298 | the text is joined from the lines padded for the runs, sorted by the column of their first anchor |
| Alignment.ColumnHolds | fpp_format/src/doc.rs:285-295 | after padding, a character stands at its column plus the pads at or before it |
| Alignment.PadRunsAlign | fpp_format/src/doc.rs:276-296 | runs processed left to right end up each in one column, which is that of an anchor that was not moved for it |
| AlignLaws.BucketsSelect | fpp_format/src/doc.rs:249-255 | the buckets hold the anchors of each kind and level, in the order of the anchors, by ascending key |
| AlignLaws.RunOrderIsPartition | fpp_format/src/doc.rs:249-276 | the runs hold every anchor once, each stands on consecutive lines, and they are sorted |
| AlignLaws.AlignmentHolds | fpp_format/src/doc.rs:242-298 | if the runs are left to right on every line they share, after `align` every run stands in one column and every pad is directly before an anchor |
| AlignLaws.PaddingKeepsInk | fpp_format/src/doc.rs:285-295 | whatever the order, padding adds only spaces |
| AlignTurns.CharacterIsThere | fpp_format/src/doc.rs:290-294 | after any insertions a character stands at its column plus what was inserted at or before where it stood |
| AlignTurns.ShiftSplits | fpp_format/src/doc.rs:278-295 | the shifted column of an anchor is where it stands plus what was inserted to its right |
| AlignTurns.TurnAligns | fpp_format/src/doc.rs:280-296 | whatever came before, a run ends its turn in one column if and only if nothing was inserted to the right of any of its anchors, or something was to the right of each and they stood in one column already |
| AlignTurns.RenderedTurns | fpp_format/src/doc.rs:242-298 | for every document, however its runs are ordered: the aligned lines are those of the layout with the logged insertions, and each run ends its turn in one column exactly under that condition |
| AlignTurns.AlignmentNeedsOrder | fpp_format/src/doc.rs:274-276 | a document of three constants, its layout, its four anchors and the order of their two runs, and its aligned text, in which two equals signs of one run stand in columns 15 and 2 |
| Finishing.SplitJoin | fpp_format/src/doc.rs:297-312 | joined lines split into the same lines |
| Finishing.PositionIsWithin | fpp_format/src/doc.rs:290-292 | a recorded anchor lies within its line |
| Finishing.BinarySearch | fpp_format/src/doc.rs:306-311 | finds an element of a strictly increasing sequence if and only if it is there |
| Finishing.Finish | fpp_format/src/doc.rs:302-320 | lines are trimmed unless listed, and the result has exactly one newline at its end and loses nothing but newlines there |
| Finishing.LinesAreKept | fpp_format/src/doc.rs:242-320 | alignment keeps the number of lines, so the verbatim lines are still the same lines |
| Finishing.RenderedRunsAlign | fpp_format/src/doc.rs:101-298 | for every document: if the runs of the anchors that its layout records come left to right, every run stands in one column of the aligned lines, which are those of the layout with spaces directly before anchors |
| Finishing.Render | fpp_format/src/doc.rs:101-165 | the rendered text is the texts and separators of the document in order, aligned, trimmed except on lines that end inside a text |
| Formatting.LowerInline | fpp_format/src/formatter.rs:146-173 | an inline node prints its children in order after their separators, a break behind a comment, and a comma behind an element that only an end of line sets apart |
| Formatting.SegmentClauses | fpp_format/src/formatter.rs:286-340 | head and clauses together print the children of the node in order, each clause beginning with its own child |
| Formatting.LowerSpec | fpp_format/src/formatter.rs:273-283 | a specifier with clauses prints as one group, each clause on a continued line one level deeper |
| Formatting.LowerChoice | fpp_format/src/formatter.rs:344-393 | a choice prints its head, and its body as a group one level deeper between its braces |
| Formatting.Attach | fpp_format/src/formatter.rs:445-456 | a trailing comment or annotation is printed behind the last member, or below it if that ends in a comment, and changes nothing else |
| Formatting.CollectItems | fpp_format/src/formatter.rs:40-128 | the members, their comments and their blank lines are those that the children call for, up to each child |
| Formatting.JoinItems | fpp_format/src/formatter.rs:458-470 | the members are printed in order with one line break between them, and one more where a blank line is kept |
| Formatting.LowerMemberList | fpp_format/src/formatter.rs:187-269 | a list prints as a block if its kind says so or a comment is in it, and as a group with commas otherwise, with its delimiters, pads and edge blanks |
| Formatting.LowerContainer | fpp_format/src/formatter.rs:34-36 | a file prints its members as a block |
| FormatLaws.NodeIsSound | fpp_format/src/formatter.rs:27-393 | a node prints its tokens one by one and in order, without list separators and with a comma behind each element that only an end of line sets apart, and swallows none if no comment comes where the next word goes on its line |
| FormatLaws.ListIsSound | fpp_format/src/formatter.rs:187-269 | a list prints the tokens of its members between its delimiters and leaves a clear line |
| ListLaws.GroupsHoldKept | fpp_format/src/formatter.rs:40-128 | the members, each with the comments behind it, hold the printed children in order |
| ListLaws.BlankMeansNewlines | fpp_format/src/formatter.rs:40-128 | behind a member a blank line is kept if and only if the source has at least two newlines there |
| ListLaws.ListIsPrinted | fpp_format/src/formatter.rs:187-269 | wherever a list stands: its members are printed in order between its delimiters; in a block each is on lines of its own, behind a blank line exactly if one is kept, without commas; in a group they are on one line with `, ` between them if it is flat, and on lines of their own without commas if it is broken |
| ListLaws.SpecIsPrinted | fpp_format/src/formatter.rs:273-340 | wherever a specifier stands: it is on one line with spaces before its clauses, or each clause is on a line of its own, indented, behind a continuation mark, and begins with its own child |
| ListLaws.ChoiceIsPrinted | fpp_format/src/formatter.rs:344-393 | wherever a choice stands: its body is on an indented line of its own between its braces |
| Spacings.FlatSepIsSpacing | fpp_format/src/formatter.rs:628-678 | the separator is not empty between two words, nor between a decimal number and a dot |
| FormatTokens.SeparatorKeepsToken | fpp_format/src/formatter.rs:628-678 | what is put between two tokens keeps the first one a token of its own for the scanner, if and only if it is not an empty separator behind a dot before a digit or behind a minus before `>` |
| SpaceLaws.NodeIsApart | fpp_format/src/formatter.rs:27-393 | in what is printed of a node no two words run together |
| SpaceLaws.PrintedIsSetApart | fpp_format/src/doc.rs:101-183 | whatever breaks, texts that are apart in the document are apart in the output |
| FormatText.PrintedWords | fpp_format/src/doc.rs:101-183 | whatever breaks, the words of the output are those of the document in a row |
| FormatText.PrintedSwallowsNoMore | fpp_format/src/doc.rs:101-183 | whatever breaks, no more is swallowed than a scan of the document in a row says |
| FormatText.Format | fpp_format/src/formatter.rs:27-30 | whatever the width, the members of the file are printed as a block; the texts in the output are the tokens of the tree one by one and in order, apart from separators and with the commas that stand for ends of lines, no two run together, and in a tidy tree none stands behind a comment on its line |
| Includes.SpecsAreAll | fpp_format/src/include.rs:104-108 | the include specifiers that are found are all that the tree has, at whatever depth, with the kinds of the nodes around them, in pre-order |
| Includes.EntryInsideSnoc | fpp_format/src/include.rs:134-150 | the innermost member list decides the entry point |
| Includes.ContextEntry | fpp_format/src/include.rs:134-150 | walking up from an include finds the entry point in force around it |
| Includes.IncludeTarget | fpp_format/src/include.rs:121-128 | an include names its first string, with that entry point, or nothing |
| Includes.RestoredReadsTheSame | fpp_format/src/lib.rs:117-128 | restoring the line ends of the original changes nothing that the scanner reads; all line ends are CR LF exactly when the first line of the original ends so, and else the text stays as the formatter wrote it |
| Includes.TraceIsUnique | fpp_format/src/include.rs:67-116 | there is at most one depth-first visit of a file, so what is formatted, and in which order, is determined |
| Includes.Walk.FormatInner | fpp_format/src/include.rs:67-116 | the recursion ends; it succeeds with the units of the depth-first visit if there is one, and otherwise there is a route of real includes to the fault it reports |
| IncludeLaws.FormatFileRecursive | fpp_format/src/include.rs:48-65 | succeeds if and only if there is a depth-first visit; then every file reached through includes is there exactly once, root first, each included by an earlier one, with every include of a unit finished before the unit, and holds its path, its text, the formatted text with the line ends of the original, and its entry point |
| IncludeLaws.EachFileOnce | fpp_format/src/include.rs:83-86 | no canonical file is formatted twice |
| IncludeLaws.FinishedIncludes | fpp_format/src/include.rs:104-113 | every include of a formatted file is itself formatted, and finished before it |
| IncludeLaws.EveryFileIsReached | fpp_format/src/include.rs:104-112 | every formatted file but the root is included by one formatted before it |
| IncludeLaws.SameIncludes | fpp_format/src/include.rs:89-112 | a file includes the same files under all entry points and all paths to it in one directory |
| IncludeLaws.SuccessMeansNoCycle | fpp_format/src/include.rs:78-82 | when no file is reached through two directories, success means that no route comes back to a file |
| IncludeLaws.CycleIsFound | fpp_format/src/include.rs:67-116 | if everything reached can be read and parsed, a walk that fails reports the files of a route that comes back to a file; if moreover no file is reached through two directories, it fails if and only if there is such a route |
| IncludeLaws.CycleGoesUnnoticed | fpp_format/src/include.rs:83-103 | a file system with a file linked into two directories, in which the walk succeeds although a route of includes comes back to that file |
| Handles.PushIsFresh | fpp_core/src/map.rs:15-42 | a key that is handed out is not in use, and live and dropped keys still partition the keys that were made |
| Handles.DropIsValid | fpp_core/src/map.rs:104-111 | dropping live keys keeps the partition |
| Handles.KeysArePacked | fpp_core/src/map.rs:5-111 | over every run, the number of keys ever made is the largest number of items held at once |
| Handles.IdMap.PushWith | fpp_core/src/map.rs:57-67 | stores the item built from its own key; the overlap panic cannot happen |
| Handles.IdMap.ExtractIf | fpp_core/src/map.rs:104-111 | removes exactly the items that match and drops their keys, each once, in an order that is not specified |
| Contexts.CompilerContext.FileNew | fpp_core/src/context.rs:298-316 | adds one file under a fresh handle and records it if a garbage collection set is open |
| Contexts.CompilerContext.SpanAdd | fpp_core/src/context.rs:353-376 | adds one span with copies of the including and expanding spans |
| Contexts.CompilerContext.GarbageCollectionCleanup | fpp_core/src/context.rs:330-334 | removes exactly the files, spans and nodes of the set and changes no other |
| Contexts.DroppedIsNext | fpp_core/src/map.rs:15-24 | after a clean-up the next handle is one that was cleaned up |
| Diagnostics.RetainKept | fpp_lsp_server/src/diagnostics.rs:82-88 | retaining by id leaves the diagnostics that are still alive, in the order in which they were emitted |
| Diagnostics.Emitter.Emit | fpp_lsp_server/src/diagnostics.rs:140-201 | appends to the diagnostics of its URI under an id that was never given out |
| Diagnostics.Emitter.CleanupGarbageCollection | fpp_lsp_server/src/diagnostics.rs:82-88 | takes the diagnostics with these ids from the store and leaves the others, in order |
| Diagnostics.Emitter.All | fpp_lsp_server/src/diagnostics.rs:55-67 | lists, for each URI, what is alive for it, and lists no URI without diagnostics |
| Units.RunScript | fpp_lsp_server/src/analysis.rs:66-81 | whatever a parser does, it adds only fresh handles under which the context holds the files, contents, spans and nodes that it made, changes no data that was there, and its reports are at the end of the log |
| Units.NewTranslationUnitCache | fpp_lsp_server/src/analysis.rs:58-93 | the collected sets are exactly the handles and diagnostics that the parse made; the "GC context" panics cannot happen |
| Isolation.IsolatedAdd | fpp_lsp_server/src/analysis.rs:58-93 | a new unit shares no handle with any cached unit and leaves their data alone |
| Isolation.IsolatedRemove | fpp_lsp_server/src/analysis.rs:393-412 | cleaning up one unit leaves every other unit fully live and unchanged |
| Isolation.AccountedAdd | fpp_lsp_server/src/analysis.rs:58-93 | the diagnostics of a new unit are those its parse reported and belong to no one else |
| Isolation.AccountedRemove | fpp_lsp_server/src/analysis.rs:393-396 | cleaning up a unit's diagnostics leaves those of all others |
| Isolation.AccountedAnalysis | fpp_lsp_server/src/analysis.rs:432-487 | after an analysis the store holds the diagnostics of the units, of this analysis, and the untracked ones, also when the last set of ids is stale |
| Server.GlobalState.PublishDiagnostics | fpp_lsp_server/src/analysis.rs:102-135 | afterwards the client shows, for every URI, exactly what the store holds |
| Server.GlobalState.ParentFile | fpp_lsp_server/src/analysis.rs:137-147 | climbing from a live file ends at the root of the cached unit that owns it |
| Server.GlobalState.Update | fpp_lsp_server/src/analysis.rs:366-392 | names exactly the units that hold a file listed for the URI; it panics if and only if a listed file is gone |
| Server.GlobalState.Reprocess | fpp_lsp_server/src/analysis.rs:393-431 | panics if and only if the root is not cached; otherwise exactly the unit's handles and diagnostics are replaced and the new root gets one of the old handles |
| Server.GlobalState.Analyze | fpp_lsp_server/src/analysis.rs:432-500 | every live file is listed by its URI, the store holds the latest reports of each unit, of this analysis and the untracked ones, and the client shows the store |
| Server.GlobalState.LoadFullWorkspace | fpp_lsp_server/src/analysis.rs:272-364 | one isolated unit per file, in a new context, with exactly their diagnostics in the store and in the log |
| Server.GlobalState.LoadLocsFile | fpp_lsp_server/src/analysis.rs:169-271 | the same, with one report for each file that cannot be read, at its place in the locs file; these and the reports of the locs file are untracked, and the handles of the locs file are cleaned up without touching a unit |
| Server.ReportUntracked | fpp_lsp_server/src/analysis.rs:216-253 | one diagnostic is appended for the file of the span, under an id of its own |
| Server.FilesByUri | fpp_lsp_server/src/analysis.rs:438-467 | the table lists every live file under its URI and nothing else |
| Server.ReusedRoot | fpp_lsp_server/src/analysis.rs:405-428 | the root of a unit that is parsed again takes one of its old handles, its own if it had no other |
| Server.RootKeepsItsHandle | fpp_lsp_server/src/analysis.rs:405-428 | the root keeps its handle for every order of dropping if and only if the unit is a single file |
| UsedSymbols.Resolution.ResolveNode | fpp_analysis/src/used_symbols.rs:176-195 | ends on cyclic uses; what is newly visited has all its uses visited and is reached from the symbol; the analysis's set is restored |
| UsedSymbols.Resolution.ResolveUses | fpp_analysis/src/used_symbols.rs:164-173 | the result is what stands for all that is reached, whatever the order in which sets are iterated: an enum for itself and for its constants, no constant of an enum, and every other symbol for itself |
| UsedSymbols.ClosedIsReachable | fpp_analysis/src/used_symbols.rs:164-195 | a set of reached symbols that has all uses of its symbols is all that is reached |
| Diagrams.AncestorsOf | fpp_diagram/src/sprotty.rs:324-332 | climbing from a node ends and collects the nodes around it |
| Diagrams.LcaOf | fpp_diagram/src/sprotty.rs:319-344 | the second climb ends at the first node around both ends, or finds none |
| Diagrams.LcaIsInnermost | fpp_diagram/src/sprotty.rs:316-344 | that node is around both ends and inside every node that is, and none is found only if there is none |
| DiagramLaws.WalkMeetsEachNodeOnce | fpp_diagram/src/sprotty.rs:212-222 | the recursion over a forest meets each node exactly once |
| DiagramTree.Lowering.LowerNode | fpp_diagram/src/sprotty.rs:240-289 | draining the edge buckets during the recursion gives every node its own edges |
| DiagramTree.EdgeIsDrawn | fpp_diagram/src/sprotty.rs:292-316 | an edge is drawn under its id from its source to its target, with its detail and its label |
| DiagramTree.NodeIsDrawn | fpp_diagram/src/sprotty.rs:240-289 | a node is drawn under its id with its kind, depth, detail and label, around what is nested in it |
| DiagramWhole.StateMachineToSModel | fpp_diagram/src/sprotty.rs:183-232 | grouping and draining compute the recursive tree |
| DiagramWhole.NothingIsLost | fpp_diagram/src/sprotty.rs:172-289 | the tree draws each node once under its parent and each edge once, from its source to its target with their labels and details, in the innermost node around its ends, if and only if initial nodes have neither children nor edges to themselves |
| SmLayouts.FromAnnotations | fpp_diagram/src/layout.rs:176-233 | each field is the last value for its key that can be read, over all layout lines, or the default |
| SmLayouts.NumberRoundTrip | fpp_diagram/src/layout.rs:200-209 | every 32-bit number is read back as it was printed |
| SmLayouts.OptionsRoundTrip | fpp_diagram/src/layout.rs:32-47 | a string is read as the option that ELK and Mermaid know by it, and an option is written as that string and no other |
| SmLayouts.WordsRoundTrip | fpp_diagram/src/layout.rs:189-189 | words set apart by spaces are found again |
| SmLayouts.AnnotationRoundTrip | fpp_diagram/src/layout.rs:176-250 | a written layout is read back, for every layout and whatever annotations come before it |

## Left out

- LexedText.NewLexedStr: texts of 4 GiB and more, whose offsets do not fit the source's 32 bits; messages of lexer errors are left out.
- LexedText.Convert: the table of keywords is a parameter, any table without `EOF`; character classes beyond ASCII are a parameter too.
- Pipeline.ParseText: the individual grammar rules are arbitrary rules that use their markers as a stack; the positions of syntax errors are not modelled.
- Grammar.Apply: the step limit that makes the parser panic on a rule that does not advance, and `extend_to`, which nothing calls.
- Events.Process: positions and forward-parent distances are unbounded, where the source has 32 bits.
- GreenTree.BalancedBuilds: the tree builder is a library; it is modelled as a stack of open nodes.
- Alignment.Align: buckets and runs hold the anchors themselves where the source holds their indices, and maps ordered by key are sequences.
- AlignLaws.AlignmentHolds: that the runs are left to right on the lines they share is sufficient; the exact condition is stated for each turn, in `AlignTurns.RenderedTurns`, and not for where later turns leave a run.
- Rendering.RenderStack: the indent is an unbounded integer, where the source has 32 bits.
- FormatLaws.NodeIsSound: kinds of nodes and tokens and the tables by kind are parameters, and trees are as the parser builds them without errors: lists have their delimiters and no comment comes right before the brace of a choice. That a tree is tidy is sufficient for nothing to be swallowed; without errors only an `implements` clause, which takes the end of its line, can end in a comment, and it is no member of a list.
- FormatText.Format: files as the parser builds them without errors, which have no brackets outside their members.
- Spacings.FlatSepIsSpacing: what the spacing looks up around a token (an absolute name, the colon of an enumeration, a subscript, a unary sign) is a parameter; that other tokens than words and numbers do not run together is stated token by token, in `FormatTokens.SeparatorKeepsToken`, and not for the output as a whole.
- LexLaws.TokenLooks: where a string literal of several lines ends is stated by its quotes, and escapes in it only by the folded scanner.
- Includes.Walk.FormatInner: reading, parsing, canonical paths, directories and joining paths are arbitrary functions; canonical paths are finitely many.
- IncludeLaws.CycleIsFound: file systems in which a file is reached through two directories; `CycleGoesUnnoticed` shows that a cycle can be missed there, but need not be. That a text parsed under two entry points has the same include specifiers, and that a file has one text while the walk runs, are assumptions.
- Units.RunScript: what a parser does is any sequence of events; annotations of nodes and related information of diagnostics are not modelled, and a span keeps the handle of its file where the source keeps a weak reference.
- Server.GlobalState.Reprocess: the branch in which the file cannot be read, which leaves the unit out of the cache.
- Server.GlobalState.LoadLocsFile: which locations the locs file names; the early return when it cannot be read.
- Server.GlobalState.Analyze: what the semantic passes compute; they may make spans and nodes and report diagnostics, but no files.
- Server.GlobalState.Update: the queue of tasks is not modelled; each task is a method that any run may call in any order.
- UsedSymbols.Resolution.ResolveUses: what visiting a symbol adds to the used symbols is an arbitrary function, without early breaks.
- DiagramWhole.NothingIsLost: sizes of elements, which are constants or functions of a label; node ids are distinct and parents exist and form a forest.
- The file system, the virtual file system, transport, timers, progress and logging.
- The other lowering of diagrams, the Mermaid text, path normalization and URI joining.
- Formatting formatted text again: it needs the grammar rules.
