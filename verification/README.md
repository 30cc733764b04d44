# Models of the chat UI's caches, protocols and text algorithms

This project models the parts of the hawk chat CLI (`cmd/`) whose correctness is
not visible from reading one function, and proves what they guarantee in Dafny.

- **Streaming markdown** (`Text`, `MarkdownBlocks`, `MarkdownReading`, `Spacing`,
  `StreamBoundary`, `StreamTail`, `StreamCache`, `StreamFidelity`, `StreamWitnesses`). The cache renders
  only the blocks that are new since the last tick and joins them. Its comment says
  that the joined pieces reproduce the full render. The block loop of `renderMarkdown`
  is modelled, so the way rendering composes across a cut is proved, not assumed, and
  nothing is asked of how a block is drawn. Every text has exactly one reading as
  blocks, and each block reaches the painter whole. The claim turns out to be false in general;
  the exact condition is proved. Where the renderer has no code block open at a join,
  the joined pieces are the full render if and only if no piece draws anything, or the
  first and the last do and, between every two neighbouring pieces that do, the newlines
  put back add up to those the renderer left. Which cuts of a text a run of ticks can
  arrive at is characterized too, so: every run shows a text exactly if and only if all
  those cuts meet the condition. A text that starts with a line that is seen and has no
  two silent lines in a row (blank, or drawn as nothing, as a heading without text may
  be) is always shown exactly. Three runs are given whose last frame is wrong: two
  newlines that arrive after a boundary are folded as a piece of their own and counted
  twice; a tick that lands just after the `#` of a heading; and a fence line with a pipe
  inside a table, which is a fence to the scanner and a row to the renderer.
- **Scrollback** (`Scrollback`). The incremental scrollback is longer than the full
  one by exactly the number of append seams with a tight neighbour.
- **Durability** (`Durability`). In every run that the environment grants, a record
  whose append to a write-ahead log succeeded is in that log or in its session's
  file, also when `/new` or a quit finds background saves in flight. The same is stated
  from the events: what a submit, a tool result or an answer brings to an open log
  survives, and a turn's save ends with the log gone. What is granted is
  written out in `Granted`; three runs lose a message, each with a single event that
  was not granted.
- **Stream pump** (`StreamPump`), **arrow keys** (`ArrowKeys`), **prompts** (`Prompts`).
  Each is a step function with the code's methods proved against it, and theorems
  over all event sequences.
- **Algorithms** (`EditDistance`, `CommandSuggestion`, `Words`, `LineFlow`, `WordWrap`, `Matching`,
  `HistorySearch`, `CommandHistory`, `DisplayTrim`, `PanelGeometry`), each against a
  specification that does not mention how the code computes it. Of word wrapping, "every
  line fits" is false in general and its exact condition is proved.

Classes hold the fields that the Go code updates; a method's `ensures` gives the new
state as a function of the old one, and the lemmas are about that function. I/O,
clocks, styling, case folding and rune widths are parameters. Whether a file operation
succeeds is a boolean of its event. Where the code's comment and the code differ, the
model follows the code.

Where a text is indexed by bytes in Go (`levenshtein`, `subsequenceMatch`, the pump's
512-byte limit), a `char` stands for one byte; elsewhere it stands for one rune.

## Model

| member | source | states |
|---|---|---|
| EditDistance.Levenshtein | cmd/chat_commands.go:476-507 | the result is the edit distance of the arguments in either order |
| EditDistance.TwoRows | cmd/chat_commands.go:490-506 | two swapped rows compute the recursive edit distance |
| EditDistance.FillRow | cmd/chat_commands.go:496-503 | one pass fills the row below `prev`, cell by cell |
| EditDistance.DistanceIsLeastEdits | cmd/chat_commands.go:474-476 | the distance is the least length of any script of single-character insertions, deletions and replacements, and a script of that length exists |
| EditDistance.NoShorterScript | cmd/chat_commands.go:474-476 | no script of edits at any positions in any order is shorter than the distance |
| EditDistance.BestScriptWorks | cmd/chat_commands.go:474-476 | a script of exactly that length turns one string into the other |
| EditDistance.DistanceSymmetric | cmd/chat_commands.go:486-489 | swapping the arguments does not change the distance |
| EditDistance.DistanceZeroMeansEqual | cmd/chat_commands.go:477-479 | distance 0 only between equal strings |
| EditDistance.DistanceAtLeastLengthGap | cmd/chat_commands.go:463-467 | the distance is at least the difference of the lengths, so the length guard never changes a suggestion |
| CommandSuggestion.SuggestCommand | cmd/chat_commands.go:435-472 | the first command at minimal distance when that is at least 1 and within its allowance, otherwise nothing; stated without the length guard and the 999 sentinel |
| CommandSuggestion.Nearest | cmd/chat_commands.go:443-452 | the scan finds the first least distance below 999 |
| CommandSuggestion.SuggestedDecides | cmd/chat_commands.go:435-472 | the specification allows exactly one answer |
| StreamPump.Pump | cmd/chat_stream.go:75-143 | for every trace of events, timer firings and close: what is sent and buffered is the trace up to re-chunking of adjacent content; a finished run ends with exactly one done-or-error message, sent last, and nothing buffered |
| StreamPump.Turn | cmd/chat_stream.go:109-142 | one select round adds exactly its input's meaning; buffered text always has a timer armed; an armed timer's firing empties the buffer |
| StreamPump.OnContent | cmd/chat_stream.go:122-136 | the first content goes out at once, later content is buffered until 512 bytes or a pause |
| StreamPump.Dispatch | cmd/chat_stream.go:33-70 | buffered content goes out before the event's own message, which ends the run exactly for error and done |
| StreamPump.FlushedWhenNotShort | cmd/chat_stream.go:145-150 | the buffer is sent as soon as it has 512 bytes, a newline or one of .!?;: |
| StreamPump.MessageKeepsKind | cmd/chat_stream.go:37-68 | a message is of its event's kind |
| StreamPump.MessageOf | cmd/chat_stream.go:37-68 | each event's message determines the event; only unknown events and usage without figures have none |
| StreamPump.Flushed | cmd/chat_stream.go:78-84 | flushing moves the buffer into one chunk and loses nothing |
| MarkdownBlocks.RenderMarkdown | cmd/markdown.go:58-183 | the block loop computes `Render` |
| MarkdownBlocks.WriteBlock | cmd/markdown.go:67-180 | one round writes the block at its line and leaves the rest to write |
| MarkdownBlocks.SeparatorIsNoFence | cmd/markdown.go:427-458 | a table's separator row is neither blank nor a fence |
| MarkdownReading.RenderReads | cmd/markdown.go:58-183 | for every text and painter: its lines fall into blocks (a fence up to its first closer, a table up to its last row, single lines), and the render is the drawings of the whole blocks in order |
| MarkdownReading.ReadsOnce | cmd/markdown.go:67-180 | a text has only one such reading |
| MarkdownReading.FenceIsDrawnWhole | cmd/markdown.go:71-77 | a fence from its opener to its first closer is drawn from exactly those lines |
| MarkdownReading.EchoRender | cmd/markdown.go:58-183 | with a painter that shows what it is given, every text comes back, blank lines emptied and last newlines trimmed |
| MarkdownReading.EchoIsText | cmd/markdown.go:58-183 | without blanks on its blank lines, the text itself, its last newlines trimmed |
| MarkdownBlocks.SeparatorMeans | cmd/markdown.go:427-458 | a row is a separator exactly when every cell between its pipes is |
| MarkdownBlocks.SeparatorCellMeans | cmd/markdown.go:52 | a separator cell is one dash or more with a colon before, behind, on both sides or on none |
| MarkdownBlocks.CellsMean | cmd/markdown.go:446-456 | the cells of a row, put together again with pipes, are the row |
| Text.TrimSpaceMeans | cmd/markdown.go:71 | trimming takes white space only, and all of it at both ends |
| MarkdownBlocks.BodyConcat | cmd/markdown.go:67-180 | where the loop has no code block open and no table goes on across the cut, its output of the whole is the outputs of the parts in sequence, whatever is drawn |
| MarkdownBlocks.ClosedIsSettled | cmd/chat_viewport_render.go:239-244 | where no fence line has a pipe, the scanner's closed fences mean that the renderer has no code block open |
| MarkdownBlocks.InkIff | cmd/markdown.go:88-94 | a text renders to nothing exactly when every line is blank or drawn as nothing |
| MarkdownBlocks.BodyGap | cmd/markdown.go:170-182 | how many newlines the untrimmed output ends in, read off the lines |
| StreamBoundary.StreamStableBoundary | cmd/chat_viewport_render.go:245-267 | the last boundary at least two past the start, else the start |
| StreamBoundary.NextFence | cmd/chat_viewport_render.go:254-259 | the scanner's fence rule for one line |
| StreamBoundary.BoundaryClosed | cmd/chat_viewport_render.go:239-244 | the text up to a boundary ends in a blank line and leaves no fence open |
| StreamBoundary.BoundaryExtends | cmd/chat_viewport_render.go:239-244 | a boundary stays one under any extension of the text |
| StreamBoundary.ResumeAgrees | cmd/chat_viewport_render.go:243-248 | a resumed scan agrees with a whole one, except that it may stay where the whole scan moves past one more newline |
| StreamTail.TrailingNewlines | cmd/chat_viewport_render.go:281-294 | the newlines of the trailing run of newlines, spaces, tabs and returns |
| StreamTail.TrailingMeans | cmd/chat_viewport_render.go:281-294 | the count is that of the newlines in the longest end of blanks, tabs, returns and newlines |
| StreamTail.TrailingVersusGap | cmd/chat_viewport_render.go:279-280 | the separator put back is never longer than the gap the renderer left, and equal exactly when the silent lines at the end are plain |
| StreamTail.EvenSeamIff | cmd/chat_viewport_render.go:279-294 | the newlines put back after a prefix are those the render of it lost, exactly when its last silent lines are plain |
| StreamTail.RenderAcross | cmd/chat_viewport_render.go:239-244 | the full render across a boundary in terms of the two parts' renders, for every painter |
| StreamTail.JoinedIsRenderIff | cmd/chat_viewport_render.go:204-209 | for every painter: the joined pieces are the full render if and only if no piece draws anything, or the first and last do and between neighbours that do the newlines put back add up to those left by the renderer |
| StreamTail.EvenJoinedIsRenderIff | cmd/chat_viewport_render.go:269-277 | where each join puts back what was trimmed: if and only if all pieces draw something or none does |
| StreamTail.InkyJoinedIsRenderIff | cmd/chat_viewport_render.go:269-277 | where every piece draws something: if and only if each join puts back what was trimmed |
| Spacing.SameIffLevel | cmd/chat_viewport_render.go:272-277 | inks set apart by two counts of newlines make the same text if and only if the counts agree between every two neighbouring inks and neither end has newlines of its own |
| StreamCache.Cache.RenderStreamTail | cmd/chat_viewport_render.go:210-237 | the pieces folded after a tick as a function of those before it, up to the boundary the scan finds, and the frame as those pieces and the tail drawn one by one; the cached output is always the joined drawing of the cached raw prefix |
| StreamCache.Cache.Revalidate | cmd/chat_viewport_render.go:216-220 | a prefix of another width or text is dropped, any other is kept |
| StreamCache.Cache.Fold | cmd/chat_viewport_render.go:221-229 | what is new up to the boundary found is folded as one piece |
| StreamCache.Cache.WithTail | cmd/chat_viewport_render.go:231-235 | the tail joined onto the prefix shows the whole text |
| StreamCache.Cache.JoinPiece | cmd/chat_viewport_render.go:272-277 | joining one drawn piece extends the drawn text by that piece |
| StreamCache.Cache.Invalidate | cmd/chat_viewport_render.go:14-22 | the cache is empty and valid again |
| StreamCache.Replay | cmd/chat_viewport_render.go:204-237 | every frame of any sequence of ticks and invalidations, as a function of the ticks |
| StreamFidelity.FrameIsWholeIff | cmd/chat_viewport_render.go:210-237 | a tick shows the whole text drawn at once exactly when its pieces join to it |
| StreamFidelity.CutIsReached | cmd/chat_viewport_render.go:221-235 | every reachable cut of a text is shown by a run of ticks, one for each piece |
| StreamFidelity.ShownIsReachable | cmd/chat_viewport_render.go:221-235 | and a run shows a text in no other cut |
| StreamFidelity.AlwaysWholeIff | cmd/chat_viewport_render.go:204-237 | every run, whatever its chunks, widths, restarts and invalidations, shows a text as if drawn at once if and only if every reachable cut of it is exact |
| StreamFidelity.CutExactIff | cmd/chat_viewport_render.go:210-237 | with the source's drawing a cut is exact if and only if its inks are level |
| StreamFidelity.TidyPieceIsInky | cmd/chat_viewport_render.go:239-244 | however a tidy text is cut at boundaries, every piece draws something |
| StreamFidelity.TidySeamIsEven | cmd/chat_viewport_render.go:239-244 | and every join puts back what was trimmed |
| StreamFidelity.TidyIsAlwaysWhole | cmd/chat_viewport_render.go:204-237 | every run shows a tidy text as its full render |
| StreamFidelity.UnpipedIsSettled | cmd/chat_viewport_render.go:239-244 | a text in which no fence line has a pipe leaves no code block open at any boundary |
| StreamWitnesses.LastFrameIff | cmd/chat_viewport_render.go:210-237 | the last frame of the ticks for a cut is the full render exactly when the pieces join to it |
| StreamWitnesses.TwoNewlinesAreFolded | cmd/chat_viewport_render.go:224-229 | two newlines that arrive after a boundary are folded by the next tick |
| StreamWitnesses.BlankPieceBreaks | cmd/chat_viewport_render.go:224-235 | a piece of two newlines makes the joined text differ from the full render, for every such text and painter |
| StreamWitnesses.BlankPieceRun | cmd/chat_viewport_render.go:224-235 | three ticks, at `a` and a blank line, two newlines later and at the next letter, whose last frame is not the full render |
| StreamWitnesses.SilentTailBreaks | cmd/chat_viewport_render.go:231-235 | a tail that draws nothing still gets its separator, so the frame differs from the full render |
| StreamWitnesses.HashBreaks | cmd/markdown.go:370-391 | two ticks of which the second ends in a bare `#`: where a heading without text draws as nothing, the frame is not the full render |
| StreamWitnesses.PipedFenceBreaks | cmd/markdown.go:118-132 | a fence line with a pipe inside a table: the joined pieces are the full render only if an open code block with a line more draws as the block, two newlines and that line |
| StreamWitnesses.PipedFenceRun | cmd/chat_viewport_render.go:245-267 | the same of the last frame of two ticks |
| Scrollback.Cache.Assemble | cmd/chat_viewport_render.go:616-648 | exactly the full render after a width change, an invalidation or a re-rendered last message; otherwise what was drawn with the new messages below it, each drawn once |
| Scrollback.Cache.Extend | cmd/chat_viewport_render.go:621-628 | new messages are drawn below the cached text, and only one more message becomes a seam |
| Scrollback.Cache.RedrawLast | cmd/chat_viewport_render.go:629-636 | a last message of another length gives the full render |
| Scrollback.Cache.Rebuild | cmd/chat_viewport_render.go:638-642 | a rebuild gives the full render |
| Scrollback.Cache.RenderRange | cmd/chat_viewport_render.go:196-202 | every message up to the end drawn in its place |
| Scrollback.Cache.Toggle | cmd/chat_update.go:655-660 | one message's expansion flips and the cache is dropped |
| Scrollback.DrawnMeans | cmd/chat_viewport_render.go:142-172 | what a message is drawn as: its body and two newlines, one or none by its role and the next one; nothing for a blank answer |
| Scrollback.SeamCost | cmd/chat_viewport_render.go:142-172 | a message drawn as the last has one newline too many exactly before a tight neighbour (user then tool use, tool use then result, result then tool use) |
| Scrollback.PatchedVersusFull | cmd/chat_viewport_render.go:616-648 | the incremental scrollback is longer than the full one by the number of such seams and equal exactly when there are none |
| Durability.RunsAreDurable | cmd/chat_update.go:141-156 | in every granted run each logged record is in its log or in its session's file, with saves in flight at `/new` and quit |
| Durability.StepKeeps | cmd/chat_commands_session.go:56-84 | every granted step keeps the invariant that makes the append-count guard safe |
| Durability.BroughtIsLogged | cmd/chat_update.go:1288-1295 | a submit, a tool result or an answer that finds an open log, or can open one, becomes its last record; every attempt on a log is counted, and nothing else changes |
| Durability.BroughtRecordsSurvive | cmd/chat_update.go:141-156 | in every granted run, what an event brought to an open log with a successful write is at the end in that log or in its session's file |
| Durability.TurnIsSaved | cmd/chat_commands_session.go:56-84 | the end of a turn, its save and its result: the file holds the whole history and the log is gone |
| Durability.EndStartsSave | cmd/chat_update.go:1435-1483 | an answer and a turn's end start a save of the history and the count, and nothing else does |
| Durability.LandingWrites | cmd/chat_commands_session.go:74-83 | a save writes what it captured to its own session's file, or nothing when it fails |
| Durability.MatchingResultDropsLog | cmd/chat_update.go:148-154 | a good result of this session with an unchanged count removes the log, or closes it when it cannot be deleted |
| Durability.LateResultKeepsLog | cmd/chat_update.go:142-148 | any other result leaves the log alone |
| Durability.NewSessionStarts | cmd/chat_commands_session.go:499-528 | what `/new` and a quit leave in the file, the engine and the log |
| Durability.OutOfOrderSaveLoses | cmd/chat_commands_session.go:74-83 | a run that loses a message and in which only the landing of an older save over a newer one was not granted |
| Durability.SaveAfterNewLoses | cmd/chat_commands_session.go:499-528 | the same with `/new`: a background save in flight lands after the save of `/new` |
| Durability.KeptHandleLoses | cmd/chat_commands_session.go:499-528 | a run that loses a message and in which only the `/new` whose save and new log both failed was not granted |
| Durability.ChatModel.OpenLog | internal/session/session.go:302-319 | opens the log for append, creating the file when missing |
| Durability.ChatModel.EnsureLog | cmd/chat_model.go:39-49 | opens the session's log only when there is none |
| Durability.ChatModel.AppendRecord | cmd/chat_update.go:1291-1295 | counts every attempt and records the ones that succeed |
| Durability.ChatModel.SubmitUserMessage | cmd/chat_submit.go:148-155 | the message enters the engine before it is logged |
| Durability.ChatModel.OnToolResult | cmd/chat_update.go:1282-1295 | the tool result is logged |
| Durability.ChatModel.OnStreamDone | cmd/chat_update.go:1435-1483 | the answer is logged, then a save of the history and the append count starts |
| Durability.ChatModel.SaveSessionCmd | cmd/chat_commands_session.go:61-84 | captures session, history and append count |
| Durability.ChatModel.SaveLands | cmd/chat_commands_session.go:74-83 | the captured history is written and the captured count returned |
| Durability.ChatModel.OnSaveResult | cmd/chat_update.go:141-156 | the log goes only for a good result of this session with an unchanged count |
| Durability.ChatModel.DropLog | internal/session/session.go:380-384 | the file is closed whether or not it can be deleted |
| Durability.ChatModel.SaveSession | cmd/chat_commands_session.go:31-49 | writes the history and drops the log only on success |
| Durability.ChatModel.OnNew | cmd/chat_commands_session.go:499-528 | saves, empties the engine, changes the id and opens a new log |
| ArrowKeys.Model.OnKey | cmd/chat_update.go:308-361 | one key press as a step |
| ArrowKeys.Model.OnTick | cmd/chat_update.go:268-289 | one tick as a step |
| ArrowKeys.Model.Release | cmd/chat_update.go:319-331 | the waiting arrow is handled once and no longer waits |
| ArrowKeys.KeysInOrder | cmd/chat_update.go:308-361 | in every run keys are handled in order of arrival and at most once, and the missing ones are exactly the overwritten arrows: nothing is lost if and only if none is overwritten |
| ArrowKeys.TimelyRunsLoseNothing | cmd/chat_update.go:339-345 | if every slow arrow comes after its predecessor's tick, nothing is lost |
| ArrowKeys.TickedMeansQuiet | cmd/chat_update.go:268-276 | once the newest arrow's tick has come, no arrow waits and the burst flag is off |
| ArrowKeys.SlowArrowWaits | cmd/chat_update.go:339-361 | an arrow 30 ms or more after the one before waits and nothing is handled; any other key lets a waiting arrow through and follows it |
| ArrowKeys.BurstGoesThrough | cmd/chat_update.go:318-338 | arrows each less than 30 ms after the one before are all handled at once, after the one that waited, without a tick |
| ArrowKeys.StaleTick | cmd/chat_update.go:268-289 | a tick of an older arrow changes nothing; the newest one's lets the waiting arrow through |
| ArrowKeys.LateTickLoses | cmd/chat_update.go:339-345 | two slow arrows without a tick between them lose the first |
| Prompts.EveryRunAnswersOnce | cmd/chat_update.go:725-802 | in every run, for each kind of prompt, answers go to the requests of their numbers, each at most once; a request is answered, open or was replaced while open |
| Prompts.TimeoutAnswersItsOwn | cmd/chat_update.go:1320-1330 | a timeout that answers anything answers the request it was armed for |
| Prompts.StepReplies | cmd/chat_update.go:725-838 | which event answers an open prompt of each kind with which reply, key by key; a request opens its prompt; anything else leaves it as it was |
| Prompts.EveryAnswerHasItsEvent | cmd/chat_update.go:725-838 | in every run each answer was given by such an event to the request then open |
| Prompts.AllowedIffPressed | cmd/chat_update.go:727-760 | a tool is allowed if and only if y, Y, a or A was pressed while its request was open |
| Prompts.ApprovedIffPressed | cmd/chat_update.go:782-797 | a credential is approved if and only if y or Y was pressed while its request and no permission was open |
| Prompts.AnsweredByEnter | cmd/chat_update.go:826-838 | a question gets the input of the Enter that closed it, or nothing from a timeout or the end of the turn |
| Prompts.OtherKeysChangeNothing | cmd/chat_update.go:725-838 | a key that answers no open prompt changes nothing |
| Prompts.NothingGrantedUnasked | cmd/chat_update.go:1320-1374 | without a yes or an always key no tool is ever allowed and no credential approved |
| Prompts.AllAnsweredIff | cmd/chat_update.go:1464-1472 | every request has exactly one answer if and only if none is open and none was replaced |
| Prompts.TurnEndsSettled | cmd/chat_update.go:1464-1472 | after done or error, every permission and question so far has been answered exactly once if and only if requests of that kind never overlapped |
| Prompts.NoOverlapIffNoDrop | cmd/chat_update.go:1308-1318 | requests of a kind never overlap if and only if none was replaced |
| Prompts.CredentialOutlivesTurn | cmd/chat_update.go:1530-1538 | a credential request can stay open after the turn has ended |
| Prompts.Model.OnAsk | cmd/chat_update.go:1308-1363 | a request opens its prompt and arms a timeout with its number |
| Prompts.Model.OnTimeout | cmd/chat_update.go:1320-1374 | a timeout as a step |
| Prompts.Model.OnKey | cmd/chat_update.go:725-838 | a key goes to the permission, else to the credential, else to the question |
| Prompts.Model.OnTurnEnd | cmd/chat_update.go:1464-1472 | open permission and question are settled with a refusal |
| WordWrap.WrapText | cmd/chat_view.go:79-211 | the output is that of the lines one after the other, last newlines trimmed; the non-blank characters are conserved in order for every input; lines that fit are only indented; with ten columns left by the prefix and no word wider than ten, the output fits if and only if every line has room, where it starts, for the indents of the dropped lines before it, its own and its first segment, and what trailing dropped lines leave fits too |
| WordWrap.WrapLine | cmd/chat_view.go:101-208 | one line: its indent, its first segment, and every other segment behind the continuation's indent |
| WordWrap.LayoutMeans | cmd/chat_view.go:83-147 | a continuation begins with the prefix in blanks, the line's leading blanks and two blanks for a bullet or the width of a number, while ten columns stay free, otherwise with the prefix alone; the room of a line |
| WordWrap.SegmentsAreGreedy | cmd/chat_view.go:151-204 | the segments of a line are its words in order, one blank apart, and no segment ends where the next word would still have fitted |
| WordWrap.WrapWords | cmd/chat_view.go:151-208 | the words of a line that does not fit, as they flow |
| WordWrap.PlaceWord | cmd/chat_view.go:154-203 | a word is cut, moved to a new line, or added, as the flow has it |
| WordWrap.BreakWord | cmd/chat_view.go:156-187 | a word that is too wide is cut as the flow has it, and the cutting ends |
| WordWrap.Chunk | cmd/chat_view.go:159-168 | as many runes as fit, at least one |
| LineFlow.ChunkMeans | cmd/chat_view.go:159-168 | the chunk is the longest that fits, or a single rune |
| LineFlow.WholeWordsFlow | cmd/chat_view.go:188-203 | when the first word fits: every line takes as many of the words left as fit, one blank apart |
| LineFlow.WideWordFlows | cmd/chat_view.go:156-187 | when it does not: the longest part that fits, then the rest of it with the other words |
| LineFlow.UnseenWordGlues | cmd/chat_view.go:200-203 | a word without width is not set apart from the next one |
| LineFlow.FlowInk | cmd/chat_view.go:151-208 | the lines hold the words' characters in order |
| LineFlow.FlowWithin | cmd/chat_view.go:151-208 | with no word wider than the room, every line after the first is within it |
| WordWrap.SegmentFits | cmd/chat_view.go:151-203 | a first segment is no wider than the room of a continuation |
| WordWrap.NothingDroppedFits | cmd/chat_view.go:140-147 | without a dropped line every line fits |
| WordWrap.NoPrefixFits | cmd/chat_view.go:93-104 | with prefix 0 every line fits, dropped lines or not |
| Words.FieldsKeepInk | cmd/chat_view.go:153 | the words of a line are its non-blank characters in order |
| Words.FieldsAreBetweenGaps | cmd/chat_view.go:153 | the words are what stands between the line's white space |
| WordWrap.WideBlankLineOverflows | cmd/chat_view.go:205-208 | a wordless line wider than its room loses its newline and leaves its indent, and the next line then has no room: such a text for which the condition fails |
| Matching.SubsequenceMatch | cmd/chat_history_search.go:89-103 | true exactly when the query can be embedded in the target in order |
| Matching.FuzzyMatch | cmd/autocomplete.go:207-291 | a match exactly when the lower-cased input can be embedded, with the score of its points, above 0 and at most 1 |
| Matching.GreedyDecides | cmd/autocomplete.go:221-230 | the greedy scan finds the whole query exactly when some embedding exists |
| Matching.ScorePoints | cmd/autocomplete.go:240-271 | the points of the scoring scan |
| Matching.MatchScore | cmd/autocomplete.go:232-290 | the score from points, prefix bonus and length |
| Matching.TallyMeans | cmd/autocomplete.go:240-271 | the points are those of the places the greedy scan finds: one each, half a one for each step of a run, one and a half at the start and one at a word's start |
| Matching.ShorterScoresHigher | cmd/autocomplete.go:283-290 | of two candidates with the same points the shorter one scores higher |
| Matching.MorePointsScoreHigher | cmd/autocomplete.go:273-282 | of two of the same length the one with more points scores higher, up to four a character |
| Matching.QualityAtEnds | cmd/autocomplete.go:273-290 | three quarters of the score are for the points, one for the share of the target |
| Matching.FinalScore | cmd/autocomplete.go:273-290 | the normalized score, for which `Quality` proves the bounds |
| HistorySearch.Overlay.ApplyFilter | cmd/chat_history_search.go:26-86 | for an empty query place i shows the i-th newest entry; otherwise the list shows exactly the entries that hold the query's characters in order, the query itself first, then those that start with it, contain it, or only embed it, each group most recent first |
| HistorySearch.RankingLists | cmd/chat_history_search.go:44-85 | the ranking by scores is that list |
| HistorySearch.RankingMeans | cmd/chat_history_search.go:23-25 | of two entries in the result the earlier has the better tier, or the same tier and is more recent |
| HistorySearch.RankingHasMatches | cmd/chat_history_search.go:46-69 | the result holds exactly the matching entries, with multiplicity |
| HistorySearch.RankedUnique | cmd/chat_history_search.go:71-79 | a collection has only one ranked order |
| HistorySearch.ExchangeSort | cmd/chat_history_search.go:72-79 | the exchange sort ranks the array and keeps its elements |
| HistorySearch.SelectInto | cmd/chat_history_search.go:73-78 | one pass puts the first in rank in its place |
| HistorySearch.BoostBounds | cmd/chat_history_search.go:61-62 | the boost grows with recency and stays below ten, so it never crosses a tier |
| HistorySearch.Score | cmd/chat_history_search.go:47-58 | the tier of an entry |
| HistorySearch.Collect | cmd/chat_history_search.go:44-69 | the matching entries with their scores, oldest first |
| HistorySearch.NewestFirst | cmd/chat_history_search.go:28-35 | the history reversed |
| CommandHistory.StoredIsCutOfRecent | cmd/command_history.go:51-92 | for every sequence of uses the stored list is the first twelve of the list without a cut |
| CommandHistory.RecentMeans | cmd/command_history.go:60-62 | the list without a cut holds each used command once, ordered by last use |
| CommandHistory.StoredHasNoDuplicates | cmd/command_history.go:13-16 | the stored list is duplicate-free and at most twelve long |
| CommandHistory.StoredCountsSinceEntry | cmd/command_history.go:78-89 | for every sequence of uses, each stored count is the number of uses since the command last came into the list |
| CommandHistory.UseIsRecorded | cmd/command_history.go:63-92 | a use of a slash command puts it in front, used now; anything else changes nothing |
| CommandHistory.StoredAtLastUse | cmd/command_history.go:78-89 | every stored time is that of the command's last use |
| CommandHistory.CountsAreUses | cmd/command_history.go:78-89 | while at most twelve commands have ever been used, each count is the number of uses |
| CommandHistory.Store.RecordCommandUsed | cmd/command_history.go:63-92 | one use, as the specification has it; other input is ignored |
| CommandHistory.Store.Save | cmd/command_history.go:51-58 | the stored list is cut to twelve |
| CommandHistory.Store.RecentCommands | cmd/command_history.go:97-109 | exactly the stored names without duplicates, in order |
| DisplayTrim.RunShows | cmd/chat_model.go:470-525 | in every run the display is the optional welcome, the optional hint and a suffix of the history in order, each message with its own flag and the hint with none |
| DisplayTrim.TrimShows | cmd/chat_model.go:470-508 | a trim of more than 500 entries loses only oldest messages and leaves 501; one of fewer changes nothing |
| DisplayTrim.AppendShows | cmd/chat_model.go:470-508 | appending extends the history shown |
| DisplayTrim.ToggleShows | cmd/chat_update.go:655-660 | toggling flips the flag of the message shown there and no other |
| DisplayTrim.FlagFlips | cmd/chat_update.go:655-660 | a toggle flips one flag, one never set counting as off, and no other |
| DisplayTrim.HintCounts | cmd/chat_model.go:493-496 | the hint gives the number of messages gone if and only if it is the first trim or one message was gone before |
| DisplayTrim.Model.TrimOldMessages | cmd/chat_model.go:470-508 | the trim as a function of the display |
| DisplayTrim.ReindexExpandedMap | cmd/chat_model.go:514-525 | flags below the trim stay, trimmed ones go, the others move with their messages |
| PanelGeometry.VisibleRows | cmd/chat_config_panel.go:140-163 | the two rounds reach the greatest number of rows that leaves room for exactly the hints it needs |
| PanelGeometry.ScrollWindow | cmd/chat_config_panel.go:409-425 | any selected row is inside the window, the window inside the list, full when the list is long enough, and moved no further than it must |
| PanelGeometry.RenderScrollbar | cmd/chat_scrollbar.go:69-129 | exactly as many rows as the viewport with one contiguous thumb inside the track, or nothing without overflow |
| PanelGeometry.TopMonotone | cmd/chat_scrollbar.go:93-109 | the thumb never moves up as the offset grows |
| PanelGeometry.TopAtEnds | cmd/chat_scrollbar.go:93-110 | the thumb is at the top at offset 0 and touches the bottom at the greatest offset |
| PanelGeometry.ThumbInside | cmd/chat_scrollbar.go:90-110 | the thumb is always inside the track |
| PanelGeometry.SizeIsProportional | cmd/chat_scrollbar.go:79-88 | the thumb is to the viewport as the viewport is to the content, rounded down, between one row and all |
| PanelGeometry.TopIsProportional | cmd/chat_scrollbar.go:93-109 | the thumb's top is to its track as the offset is to the greatest offset, rounded down |
| PanelGeometry.SizeShrinks | cmd/chat_scrollbar.go:79-88 | the thumb never grows as content grows |
| PanelGeometry.PlaceThumb | cmd/chat_scrollbar.go:79-109 | the size and place that the other lemmas are about |

## Left out

- Styling, inline formatting, syntax highlighting and table layout: a painter draws one block. Only the results on lines (`InkIff`, `BodyGap`, `TidyIsAlwaysWhole`) and the example runs ask something of it (`Visible`): every block ends in something other than a newline, except that a heading without text may be drawn as nothing.
- StreamFidelity.CutExactIff: is for pieces that `sanitizeDisplay` and `sanitizeIdentity` leave unchanged (`Untouched`); both can match across a cut.
- StreamTail.JoinedIsRenderIff: is for cuts where the renderer has no code block open (`SettledSeams`); what a painter makes of a block that is cut open is its own, as PipedFenceBreaks shows.
- Scrollback: the welcome pane and the live tail that `assembleViewportContent` puts around the cached text; a last message that changes without changing its length is not redrawn, as in the code.
- Durability.RunsAreDurable: assumes what `Granted` says: a save does not land over a newer history of its session, the engine's history holds every logged record when a snapshot is taken, session ids are new, and `/new` does not go on with the open log of an unsaved session.
- Durability.ChatModel.SubmitUserMessage: a record is a message's number; its words in the engine, the log and the file (sanitized answers, tool results, the text of an attached document) are not modelled.
- Durability: the batched log that the program starts with (cmd/chat.go:283-285): its appends only fill a buffer until the next flush, and its removal returns with the file open when that flush fails (internal/session/wal_batch.go:123-128). The model's log is the plain one, written at each append and closed before it is deleted.
- Durability: `/resume`, `/recover`, `/rewind`, `/drop` and compaction, which change the history under the log; queued messages, which are never logged; the durability warning; torn writes.
- ArrowKeys: what handling a key does, and overlays that return without the pending tick command.
- Prompts: permission memory and auto-mode records, messages shown, and the container retry key, which sits between the credential and the question prompt.
- WordWrap.WrapText: widths are sums of rune widths with a blank one column wide; grapheme clusters are not modelled.
- LineFlow.WholeWordsFlow: is for words of at least one column; UnseenWordGlues shows what becomes of others. Only a word that starts a source line is cut; a wide word after others stands whole on a line of its own, as in the code.
- WordWrap.WrapText: the exact condition of fit is for words of at most ten columns and a prefix that leaves ten (`Modest`); a wider word can still fit.
- Matching.FuzzyMatch: real arithmetic, not floating point.
- CommandHistory: JSON encoding and file errors; a hand-edited file with duplicates is covered only by RecentCommands.
- PanelGeometry.ScrollWindow: the scroll offset is never negative on entry; the mouse row mapping is not modelled.
- Autonomy tiers, subcommand tables, completion, exports, voice, clipboard, container boot and session picker: finite tables, I/O or text that would add only easy members.
