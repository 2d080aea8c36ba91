# Verified models of the Locus agent

The Python agent behind Locus keeps calendars, applies patches, runs a steerable turn loop, trims
conversations to a context window, keeps an encrypted memory, indexes a workspace and reads git. This
project models the algorithms and protocols at the heart of these and proves, for all inputs and all runs,
what they are for.

Code that computes is modelled by functions, code that changes things step by step by methods and classes
that are proved against those functions. `dafny verify dfyconfig.toml` checks everything.

| module | what it models |
|---|---|
| `Schedules` | recurrence of scheduled tasks over time zones with gaps and folds |
| `PatchParse`, `PatchGrammar` | the patch envelope: its parser, its printed form, and the grammar the parser accepts |
| `PatchSplice`, `PatchApply` | the search and splicing of chunks, the two-phase apply |
| `ThinkFilter` | the streaming filter that separates visible text from reasoning |
| `Conversation`, `TurnLoop`, `TurnRuns` | tool-call pairing, the turn loop with its steering handshake between two threads, and what whole runs of it do |
| `Eviction`, `ContextWindow` | the token budget, eviction of tool results, overflow recovery, the window back-off |
| `MemoryVault` | sealed memory rows and the compare-and-swap that stores embeddings |
| `Chunker`, `KnowledgeIndex` | cutting files into chunks, and the incremental search index |
| `GitInfo` | the readers of `git status` and `git diff --numstat` output, and the capped read of a process |
| `PriceAlerts` | the price-alert state machine |
| `DevServer` | the output ring of a dev server |
| `Text`, `Streams`, `Numbers`, `Options` | shared vocabulary |

Points where the code does not do what one might expect, each shown by a lemma:

- `latest_due_occurrence` misses a run when the local date has run backwards across midnight, and when it is
  asked between half a microsecond and a microsecond before midnight; `next_occurrence` does not find that
  midnight run either (`Schedules.LatestDueIsRightIffPeak` gives the exact condition,
  `Schedules.DateRunsBackwards` a zone, `Schedules.MidnightRunIsSkipped` the instants). Closer to midnight the
  local date, rounded to a microsecond, is already the next one (`Schedules.MidnightRunIsFound`).
- An End-of-File chunk and a pure addition before a trailing blank line can clash with another chunk and
  lose an edit (`PatchSplice.EndOfFileChunkCanOverlap`, `PatchSplice.AdditionCanLandInASpan`;
  `PatchSplice.CompatibleIffNoClash` says exactly when chunks clash).
- A patch promises to apply completely or leave the tree untouched. The write phase breaks off at a file that is
  gone by then (`PatchApply.DeletingTwiceBreaks`), and at a write below a file or over a directory, there before
  or made by the patch (`PatchApply.NestedAddsBreak`). `PatchApply.AllOrNothingIff` is the exact condition, on
  the paths of the hunks alone; what a broken patch leaves is `PatchApply.BrokenLeavesPrefix`.
- Two updates of one file keep only the second, a file moved onto itself is deleted, and an update of a file
  deleted by the same patch brings it back (`PatchApply.SecondUpdateWins`, `PatchApply.MoveOntoItselfDeletes`,
  `PatchApply.UpdateRevivesDeleted`).
- The "missing a path" errors of the patch parser can never be raised (`PatchParse.ParsedIsWellFormed`).
- A Just Chat turn, and any turn with a limit on its model calls, can close without delivering an accepted
  steer (`TurnLoop.JustChatLosesASteer`, `TurnLoop.CallLimitLosesASteer`); in a turn that runs its loop no other
  configuration can (`TurnLoop.SteersAreDeliveredIff`). A retry with nothing to regenerate closes the window
  without running the loop, and loses a steer accepted before (`TurnLoop.EmptyRetryLosesASteer`).
- Approving a memory is a read followed by a save, so an edit in between is overwritten, in the payload, the
  scope and the flags (`MemoryVault.ApprovalKeepsEditsIff` says exactly when it is not), and a vector stored
  in between is kept under the model name that was read (`MemoryVault.ApprovalCanMisnameTheVector`).
- An incremental refresh differs from a rebuild in two ways and no other: a file that turned too large or binary
  keeps its old entry, and a changed file that the scan does not list, such as one git ignores, is indexed
  (`KnowledgeIndex.IncrementalIsRebuildIff`).
- `_numstat` cuts a path at a tab, and takes a path that begins with one for a move, which loses the next two
  records (`GitInfo.EditedIsRead`, `GitInfo.LeadingTabSwallows`). The counts are right exactly when no edited path
  holds a tab (`GitInfo.CountsAreRightIff`), but for lists in which the paths of a move behind such a path read as
  records themselves: those can come out right by chance (`GitInfo.RightByChance`).
- `pinned_context_length` asks for the loaded window when the trained one is unknown, where its description
  promises 0; the model follows the code (`ContextWindow.PinnedContextLength`).
- A repeating price alert that fires at clock zero forgets it (`PriceAlerts.RepeatFiresGreedily`).

## Model

| member | source | states |
|---|---|---|
| `Schedules.ResolvedIsEarliest` | agent/ollama_code/schedules.py:197-210 | Resolving a wall time never fails and gives the earliest instant whose local time is at or past the desired one, through gaps and folds. |
| `Schedules.ClockAtResolved` | agent/ollama_code/schedules.py:197-210 | At the resolved time the clock shows the requested date, hour and minute, for the first time, if it ever shows them; otherwise the first minute after them that it ever shows. |
| `Schedules.ClockAtOccurrence` | agent/ollama_code/schedules.py:130-153 | At an occurrence of a calendar rule the clock shows the hour and minute of the rule on a date it picks, unless the zone skips them there. |
| `Schedules.ResolvedStrictlyIncreases` | agent/ollama_code/schedules.py:197-210 | A later day's resolved time is strictly later. |
| `Schedules.MatchingDays` | agent/ollama_code/schedules.py:186-194 | Weekday rules match Monday to Friday, a weekly rule its weekday, and every calendar rule repeats each week. |
| `Schedules.NextTickIsLeast` | agent/ollama_code/schedules.py:130-142 | For an interval rule the answer is the least tick after the given instant. |
| `Schedules.TicksOnTheClock` | agent/ollama_code/schedules.py:17-22 | Where no transition intervenes, an interval of hours keeps the minute, one of days the time of day, one of weeks the weekday too, and each unit has its length. |
| `Schedules.NextOccurrenceIsLeast` | agent/ollama_code/schedules.py:130-153 | For every rule, zone and real instant the answer is the least occurrence past the cutoff (the slack past the instant; the instant itself for intervals); the 371-day scan is never exhausted and nothing is raised. |
| `Schedules.LatestAndNextBracketNow` | agent/ollama_code/schedules.py:130-183 | For every real instant the newest due occurrence is the greatest up to the cutoff, the next one the least past it, and none lies between, so missed cadence is one run; calendar rules need a local-date peak, others nothing. |
| `Schedules.MissedOffPeak` | agent/ollama_code/schedules.py:156-183 | Away from a peak of the local date a due midnight run is not found. |
| `Schedules.LatestDueIsRightIffPeak` | agent/ollama_code/schedules.py:156-183 | At every real instant the newest due occurrence is right for all calendar rules exactly when the local date, of the instant rounded to a microsecond, is the latest shown up to the slack past it. |
| `Schedules.NothingIsDueEarly` | agent/ollama_code/schedules.py:160-161 | Nothing is due before the earliest time allowed, less the slack. |
| `Schedules.TiesGoToEven` | agent/ollama_code/schedules.py:143 | An instant half way between two microseconds is shown as the even one. |
| `Schedules.MidnightRunIsSkipped` | agent/ollama_code/schedules.py:143-183 | At every instant within the slack before a midnight, but more than half a microsecond, the midnight run is found by neither search. |
| `Schedules.MidnightRunIsNext` | agent/ollama_code/schedules.py:143-153 | At every instant of the day before, more than a microsecond early, the midnight run is the next one. |
| `Schedules.MidnightRunIsFound` | agent/ollama_code/schedules.py:170-183 | In the last half microsecond the date shown is the later one, and the run is found. |
| `Schedules.DateRunsBackwards` | agent/ollama_code/schedules.py:170-183 | In a zone that falls back past midnight the local date is no peak after the transition, nor in the half microsecond before it. |
| `PatchParse.ParseUpdateBody` | agent/ollama_code/codex_patch.py:146-204 | The loop over chunk lines computes the line grammar, with its errors and the first unread line. |
| `PatchParse.ParseAddLines` | agent/ollama_code/codex_patch.py:107-116 | The loop over added lines computes the grammar of an add hunk. |
| `PatchParse.ParsePatch` | agent/ollama_code/codex_patch.py:83-143 | The parser's loop computes the grammar on every text, errors included. |
| `PatchParse.ParseOfRender` | agent/ollama_code/codex_patch.py:83-204 | Parsing undoes printing: the canonical text of any well-formed hunk list under the size limit parses to that list. |
| `PatchParse.ParseOfWrapped` | agent/ollama_code/codex_patch.py:74-80 | The same inside each heredoc frame. |
| `PatchParse.ParsedIsWellFormed` | agent/ollama_code/codex_patch.py:83-204 | Whatever parses is a non-empty list of well-formed hunks, and no heading ever lacks its path. |
| `PatchParse.ReprintedParsesAlike` | agent/ollama_code/codex_patch.py:83-204 | Printing is a normal form: what was parsed, printed again, parses to the same hunks. |
| `PatchParse.ContextLineIsUnchanged` | agent/ollama_code/codex_patch.py:177-197 | A context line, or a blank one, parses as the line removed and added again, unless its text begins with a marker. |
| `PatchGrammar.ParseIff` | agent/ollama_code/codex_patch.py:74-204 | A text parses exactly when its lines are of the grammar, told by their characters alone, and then to the hunks these lines say: nothing else is accepted, and every line is accounted for. |
| `PatchGrammar.UpdateBodyIff` | agent/ollama_code/codex_patch.py:146-204 | Chunk lines are read exactly when they are marks, lines of text and End-of-File lines in their places; old and new lines of a chunk are, in order, the texts of its kept and removed, and of its kept and added lines. |
| `PatchGrammar.LineIsTaken` | agent/ollama_code/codex_patch.py:146-202 | How each line of an update hunk is taken, by its characters; what is of no kind is refused. |
| `PatchGrammar.RefusedFor` | agent/ollama_code/codex_patch.py:83-204 | A refused text is too long, no envelope, or empty, or the error names a line of it that cannot stand where it does. |
| `PatchGrammar.FrameIsTaken` | agent/ollama_code/codex_patch.py:74-80 | What stands between one of the three heredoc openers and EOF is what is parsed. |
| `PatchGrammar.NoFrameIsTaken` | agent/ollama_code/codex_patch.py:74-80 | Any other text is parsed as it is, stripped. |
| `PatchSplice.PassesAreNested` | agent/ollama_code/codex_patch.py:207-218 | Each of the four comparisons accepts all that a stricter one accepts. |
| `PatchSplice.TrailingSpaceIff` | agent/ollama_code/codex_patch.py:236 | The second comparison accepts exactly lines that differ in white space at their ends. |
| `PatchSplice.SurroundingSpaceIff` | agent/ollama_code/codex_patch.py:237 | The third, exactly lines that differ in white space at both ends. |
| `PatchSplice.PunctuationIff` | agent/ollama_code/codex_patch.py:207-218 | The loosest, exactly lines that, stripped, agree character by character up to the dress of dashes, quotes and spaces. |
| `PatchSplice.MatchesLineByLine` | agent/ollama_code/codex_patch.py:240-244 | A pattern matches at a line when that line matches its first and the rest matches behind it. |
| `PatchSplice.SeekFindsBest` | agent/ollama_code/codex_patch.py:221-244 | The search returns the least match of the strictest pass that has any, and nothing exactly when the loosest has none. |
| `PatchSplice.PlacedAtBestMatch` | agent/ollama_code/codex_patch.py:254-280 | Old lines are replaced at their best match after the best match of the context, or at the end of the file when anchored there, without a final blank line only when the full lines match nowhere. |
| `PatchSplice.SearchGoesOn` | agent/ollama_code/codex_patch.py:256-280 | The search for the next chunk goes on behind the replaced lines; a pure addition goes to the end of the file, before a final blank line. |
| `PatchSplice.NoPlace` | agent/ollama_code/codex_patch.py:256-279 | A chunk is refused only when even the loosest comparison finds its context nowhere ahead, or its lines nowhere behind it, with or without a final blank. |
| `PatchSplice.ChunksFollow` | agent/ollama_code/codex_patch.py:254-280 | Each chunk is looked for from where the one before it was placed. |
| `PatchSplice.ComputeReplacements` | agent/ollama_code/codex_patch.py:247-282 | The loop places every chunk from the line reached and sorts the result stably by start. |
| `PatchSplice.SortedIsOrderedIff` | agent/ollama_code/codex_patch.py:281 | The sorted replacements are disjoint and in order exactly when no two of them overlap. |
| `PatchSplice.PlacedInBounds` | agent/ollama_code/codex_patch.py:247-282 | Every chunk of every patch, anchored or not, is placed within the file. |
| `PatchSplice.CompatibleIffNoClash` | agent/ollama_code/codex_patch.py:247-282 | Replacements overlap exactly when an anchored span begins before an earlier chunk ends, or a span swallows the final blank line before which another chunk adds. |
| `PatchSplice.SteadyChunksNeverClash` | agent/ollama_code/codex_patch.py:260-265 | Without End-of-File chunks, and pure additions before a blank line, chunks never clash wherever they are placed. |
| `PatchSplice.SpliceBackIsOnePass` | agent/ollama_code/codex_patch.py:290-293 | Splicing ordered spans from the back of the list equals one pass from the front. |
| `PatchSplice.SpliceRefinesOnePass` | agent/ollama_code/codex_patch.py:247-296 | For every patch that can be placed, the sorted spans are disjoint and in order exactly when no two chunks clash, and the splice is then the untouched lines in order with each span replaced. |
| `PatchSplice.SpliceAll` | agent/ollama_code/codex_patch.py:290-293 | The in-place splicing loop computes the back-to-front splice, and the one-pass copy when the spans are ordered. |
| `PatchSplice.UpdateFile` | agent/ollama_code/codex_patch.py:285-296 | The new text of a file, from its lines to the final newline. |
| `PatchSplice.UpdateIsOnePass` | agent/ollama_code/codex_patch.py:285-296 | When no two chunks clash, the new text of the file is its untouched lines in order with each span replaced, and a final newline. |
| `PatchSplice.UpdatedEndsWithNewline` | agent/ollama_code/codex_patch.py:294-296 | An updated file is empty or ends with a newline. |
| `PatchSplice.FileIsItsLines` | agent/ollama_code/codex_patch.py:287-289 | The lines of a file joined give the file back, but for its final newline. |
| `PatchSplice.EndOfFileChunkCanOverlap` | agent/ollama_code/codex_patch.py:232 | For any three lines, an End-of-File chunk can replace a line already replaced, and its edit is lost. |
| `PatchSplice.AdditionCanLandInASpan` | agent/ollama_code/codex_patch.py:260-265 | In any file ending in a blank line a pure addition can land inside a replaced span: its first line is lost and the blank line kept. |
| `PatchApply.AcceptedIff` | agent/ollama_code/codex_patch.py:319-351 | The first phase accepts a patch exactly when every hunk is admissible: no path passes through a link; an added path is free, or an earlier hunk removes it; a deleted or updated file is there; an updated one is text, not too large, and has a place for every chunk. |
| `PatchApply.RefusedFor` | agent/ollama_code/codex_patch.py:309-351 | A refused patch is refused for its first hunk that is not admissible, with the error that says why. |
| `PatchApply.TwoPhasesAreSequential` | agent/ollama_code/codex_patch.py:299-358 | For hunks that do not look at what earlier ones touched (adding a removed file is allowed), a patch that is not refused does what its hunks do one at a time; when each fits, the two agree in every case and nothing breaks off. |
| `PatchApply.AppliesCompletelyIff` | agent/ollama_code/codex_patch.py:353-357 | A patch that passes the first phase is applied completely exactly when each hunk fits what the ones before it leave: nothing removed that is gone, nothing written below a file or over a directory. Otherwise it breaks off, at a removal with the tree changed. |
| `PatchApply.AllOrNothingIff` | agent/ollama_code/codex_patch.py:12-13 | A patch applies completely or is refused before anything is written exactly when the first phase refuses it or each hunk fits. |
| `PatchApply.BrokenLeavesPrefix` | agent/ollama_code/codex_patch.py:353-357 | What a broken patch leaves is what the operations before the break make of the tree. |
| `PatchApply.ExecuteKeepsTree` | agent/ollama_code/codex_patch.py:353-357 | However far the operations come, no path is both file and directory and everything lies in directories. |
| `PatchApply.DistinctHunksAllLand` | agent/ollama_code/codex_patch.py:299-358 | On pairwise distinct paths every hunk lands on the file as it was and no other file changes, or the patch is refused or breaks off at a hunk that does not fit. |
| `PatchApply.DeletedThenAddedIsReplaced` | agent/ollama_code/codex_patch.py:317-333 | A patch that deletes a file and adds it again replaces it. |
| `PatchApply.SecondUpdateWins` | agent/ollama_code/codex_patch.py:334-351 | Of two updates of one file only the second is kept. |
| `PatchApply.UpdateRevivesDeleted` | agent/ollama_code/codex_patch.py:334-351 | An update of a file the patch deleted is accepted and brings the file back. |
| `PatchApply.MoveOntoItselfDeletes` | agent/ollama_code/codex_patch.py:344-348 | A file moved onto itself is removed. |
| `PatchApply.DeletingTwiceBreaks` | agent/ollama_code/codex_patch.py:331-357 | A file deleted twice passes the first phase and breaks the second. |
| `PatchApply.NestedAddsBreak` | agent/ollama_code/codex_patch.py:322-357 | Adding a file and another below it, neither there before, passes the first phase and breaks the second, in either order. |
| `PatchApply.Workspace.PlanHunks` | agent/ollama_code/codex_patch.py:319-351 | The loop over the hunks computes the plan of the first phase and the summary, writes nothing, and has a plan exactly when every hunk is admissible. |
| `PatchApply.Workspace.CarryOut` | agent/ollama_code/codex_patch.py:353-357 | The loop over the operations changes the tree in place as specified and stops where one cannot be carried out. |
| `PatchApply.Workspace.ApplyPatch` | agent/ollama_code/codex_patch.py:299-375 | A patch that does not parse leaves every file as it was; one that does is refused, with every file as it was, exactly when a hunk is not admissible; success reports exactly what the preview of the same text lists. |
| `PatchApply.PreviewNames` | agent/ollama_code/codex_patch.py:361-375 | The preview names each hunk by A, D or M and its path, the new one of a move. |
| `ThinkFilter.SkipToTag` | agent/ollama_code/render.py:30-67 | Text before the first tag all goes to the side in force. |
| `ThinkFilter.FlushHeldBack` | agent/ollama_code/render.py:69-78 | Held-back text contains no tag, so flushing it puts all of it out. |
| `ThinkFilter.NoTagStep` | agent/ollama_code/render.py:36-58 | Putting out all but the longest tail that may begin a tag changes nothing for any continuation. |
| `ThinkFilter.TagStep` | agent/ollama_code/render.py:44-63 | Passing the leftmost tag changes nothing for any continuation. |
| `ThinkFilter.HeldBackIsShort` | agent/ollama_code/render.py:100-104 | What is held back is a proper prefix of a tag of the mode in force: with the tags of the filter at most ten characters. |
| `ThinkFilter.PartialSuffixLen` | agent/ollama_code/render.py:100-104 | The result is the longest proper prefix of the tag that ends the buffer. |
| `ThinkFilter.ThinkFilter.Feed` | agent/ollama_code/render.py:30-67 | A token leaves the filter, for every continuation, as if it had been appended to the held-back text; what stays held is a proper prefix of a tag of the table, at most ten characters. |
| `ThinkFilter.ThinkFilter.Flush` | agent/ollama_code/render.py:69-78 | The end of the stream puts out what was held back on the side in force. |
| `ThinkFilter.ThinkFilter.TakeThinking` | agent/ollama_code/render.py:85-89 | Hands out exactly the reasoning not handed out before. |
| `ThinkFilter.CollectStream` | agent/ollama_code/render.py:30-78 | Chunk invariance: for every split into tokens, visible text and reasoning are the one-pass split of the whole text, which is the visible stretches and the blocks it is printed from. |
| `ThinkFilter.PrintedIsSplit` | agent/ollama_code/render.py:30-78 | Whatever visible stretches and blocks a text is printed from, with or without a last block that is never closed, the split gives back the concatenation of both. |
| `ThinkFilter.EveryTextIsPrinted` | agent/ollama_code/render.py:30-78 | Every text is printed from such stretches and blocks, so they say what the split of any text is. |
| `ThinkFilter.ThinkBlocks` | agent/ollama_code/render.py:21 | In literal tags: a block opened by either tag is ended by its own close tag only, and the text between is reasoning. |
| `Conversation.PairedIffWellPaired` | agent/ollama_code/core.py:2854-2977 | A one-pass account of owed results holds exactly when each call is answered in place by id and no other tool message exists. |
| `Conversation.ResultsSettle` | agent/ollama_code/core.py:2914-2962 | Answering the remaining calls in order settles the conversation. |
| `Conversation.ResultContentsDoNotMatter` | agent/ollama_code/core.py:2622-2637 | Stubbing the contents of results keeps the pairing. |
| `Conversation.CutAfterUser` | agent/ollama_code/core.py:2667-2705 | Cutting back to the last user message keeps the pairing. |
| `TurnLoop.RunKeepsInvariant` | agent/ollama_code/core.py:2801-2992 | Pairing, the account of accepted steers and the iteration budget hold after every interleaving of worker and interface. |
| `TurnLoop.CallsArePaired` | agent/ollama_code/core.py:2854-2977 | Whenever no batch of calls is in progress, each call is answered in place and nothing else is: through interrupts, steering, Just Chat, eviction, compaction and retry. |
| `TurnLoop.EverySteerIsDelivered` | agent/ollama_code/core.py:487-538 | In an undisturbed tool-enabled turn every accepted steer is in the conversation once, in order, when the window is closed. |
| `TurnLoop.IterationsAreBounded` | agent/ollama_code/core.py:2816-2992 | In any turn the loop runs at most the configured iterations plus the accepted steers. |
| `TurnLoop.JustChatLosesASteer` | agent/ollama_code/core.py:2893-2911 | A Just Chat turn can close without delivering an accepted steer, whatever its number of iterations. |
| `TurnLoop.CallLimitLosesASteer` | agent/ollama_code/core.py:2816 | So can any turn with a limit on model calls, with tools or without, whatever the limit. |
| `TurnLoop.SteersAreDeliveredIff` | agent/ollama_code/core.py:2801-2992 | For every configuration, the turns that run the loop without interrupt or stream error deliver every accepted steer exactly when tools are allowed and model calls are not limited. |
| `TurnLoop.EmptyRetryLosesASteer` | agent/ollama_code/core.py:2667-2678 | A retry that finds no user message closes the window with an accepted steer undelivered. |
| `TurnRuns.InterruptStops` | agent/ollama_code/core.py:2816-2992 | After an interrupt, however the run goes on, at most the one call is run and the one question asked whose check is already past; none anywhere else. |
| `TurnRuns.InterruptEndsTheWork` | agent/ollama_code/core.py:487-492 | The same from the moment the user interrupts. |
| `TurnRuns.SteerStops` | agent/ollama_code/core.py:494-504 | While a steer waits, no call is run and no question asked but the one the worker is at. |
| `TurnRuns.BatchIsAnswered` | agent/ollama_code/core.py:2912-2962 | However user and worker interleave, a batch of calls is answered in order: those that were run with their outputs, the others, if an interrupt or a steer came, each with the text that says so. |
| `TurnRuns.QuietBatchRunsAll` | agent/ollama_code/core.py:2912-2962 | When neither comes, every call of the batch is run. |
| `TurnRuns.JustChatRunsNothing` | agent/ollama_code/core.py:2893-2911 | In Just Chat no tool call is ever run, also when the turn is retried. |
| `TurnRuns.QuestionsAreLimited` | agent/ollama_code/core.py:2816-2830 | A turn asks the model at most once per iteration, and with a limit on model calls no more often than that. |
| `TurnRuns.SteersAreAccepted` | agent/ollama_code/core.py:487-538 | In every reachable state of a turn the window is open for steers, unless the turn is closing or out of iterations. |
| `TurnRuns.TurnKeepsMessages` | agent/ollama_code/core.py:2801-2992 | A turn drops nothing from the conversation; only contents of results are stubbed. |
| `TurnRuns.TurnEnds` | agent/ollama_code/core.py:2801-2992 | From every point of a turn the worker alone reaches its end, whatever the model replies and however many calls it makes. |
| `TurnRuns.ReplyIsStored` | agent/ollama_code/core.py:2840-2911 | The reply is stored as it came, a broken one with what it brought, and in Just Chat each call is answered as refused. |
| `TurnRuns.SteersAreStored` | agent/ollama_code/core.py:517-540 | Pending steers enter the conversation in their order, each as a message of the user. |
| `TurnRuns.RefusedRoundIsPaidFor` | agent/ollama_code/core.py:2909-2911 | A steer that came while Just Chat refused calls is paid for with an iteration and delivered. |
| `TurnRuns.RetryAnswersAgain` | agent/ollama_code/core.py:2667-2726 | A retry cuts the conversation after the last message of the user and starts over with the same permission. |
| `TurnRuns.InterruptedAnswerEnds` | agent/ollama_code/core.py:2885-2892 | An answer the user interrupted ends the turn and takes no late steers. |
| `Eviction.EvictionOrderMeaning` | agent/ollama_code/core.py:2606-2621 | The order is oldest first and lists every long result, the newest of the unseen batch only when allowed. |
| `Eviction.ShedFirstChanges` | agent/ollama_code/core.py:2622-2637 | Exactly the listed results become stubs; nothing else changes. |
| `Eviction.WithinBudgetIff` | agent/ollama_code/core.py:2544-2588 | A request is within the budget exactly when the estimate fits with a third to spare beside schemas, prompt, reply and headroom, and what was measured fits beside reply and headroom. |
| `Eviction.CostOfOne` | agent/ollama_code/core.py:1553-1600 | A message costs a token per four characters, reasoning and arguments included, and its images. |
| `Eviction.CostsAdd` | agent/ollama_code/core.py:1553-1600 | Costs of messages add up. |
| `Eviction.TalliesFollow` | agent/ollama_code/core.py:2629-2635 | The measured tallies give up the tokens of the dropped results and stop at zero. |
| `Eviction.StubSays` | agent/ollama_code/core.py:179-182 | What a stub says. |
| `Eviction.EvictionIsIdempotent` | agent/ollama_code/core.py:2590-2637 | Running eviction again finds nothing left to stub. |
| `Eviction.PassOutcome` | agent/ollama_code/core.py:2639-2665 | A pass that stubs anything strictly shrinks the conversation, and a forced pass stubs something whenever a long result exists. |
| `Eviction.Agent.EvictToolResults` | agent/ollama_code/core.py:2590-2637 | The stubbed results are the shortest oldest-first prefix of the order that brings the request under budget, or all of it. |
| `Eviction.Agent.RecoverFromWindowOverflow` | agent/ollama_code/core.py:2639-2665 | With the window settled first and known, a retry is earned exactly when some result is long, and then the conversation has strictly shrunk. |
| `ContextWindow.EffectiveContextLength` | agent/ollama_code/ollama.py:15-41 | The window in use is unknown exactly when nothing is configured or loaded, and never exceeds the trained or configured one. |
| `ContextWindow.PinnedContextLength` | agent/ollama_code/ollama.py:44-63 | The requested window never shrinks what is loaded, and exceeds it only within the trained window and the cap. |
| `ContextWindow.HostedFigures` | agent/ollama_code/core.py:815-841 | For a hosted model the configured window wins, then the reported one, both within the ceiling, then the remembered, then the documented one; nothing is requested. |
| `ContextWindow.LocalFigures` | agent/ollama_code/core.py:784-813 | For a local model the configured window wins, then what the machine will pay for within the trained one or a larger loaded one, then the loaded, then the remembered one. |
| `ContextWindow.KnownWindowStays` | agent/ollama_code/core.py:745-771 | A known window is never downgraded to an unknown one, and never carried over to another model. |
| `ContextWindow.ReportedIsRemembered` | agent/ollama_code/core.py:815-841 | A window reported once is used when the endpoint later says nothing, before the documented one. |
| `ContextWindow.FiguresAreKeptApart` | agent/ollama_code/core.py:887-982 | Figures of different models or hosts do not touch each other. |
| `ContextWindow.SmallWindows` | agent/ollama_code/core.py:1056-1072 | Windows below 1024 tokens are refused or ignored. |
| `ContextWindow.SettlingStartsTracking` | agent/ollama_code/core.py:717-813 | The first settling of a local model without a user pin establishes what the back-off relies on. |
| `ContextWindow.RefreshKeepsTracked` | agent/ollama_code/core.py:717-813 | Settling again keeps it. |
| `ContextWindow.BackOffDescends` | agent/ollama_code/core.py:900-940 | A back-off strictly lowers the requested window, never from or below the minimum. |
| `ContextWindow.SpillsIff` | agent/ollama_code/core.py:900-928 | A back-off happens exactly when the agent asked for more than 1024 tokens and the model is partly, not wholly, in GPU memory. |
| `ContextWindow.BackOffHalves` | agent/ollama_code/core.py:926-940 | Then exactly half is asked for, at least 1024 and within the trained window. |
| `ContextWindow.BackOffsAreFew` | agent/ollama_code/core.py:900-940 | Over any session with one local model the backed-off windows at least halve, so there are at most ceil(log2(first/1024)) of them. |
| `ContextWindow.AgentCore.RefreshContextLimit` | agent/ollama_code/core.py:717-782 | Settles the window as specified; the requested window stays 0 or equal to the budgeted one. |
| `ContextWindow.AgentCore.CheckContextSpill` | agent/ollama_code/core.py:900-940 | Backs off exactly when the pinned window spilled and can still be halved; requested and budgeted windows stay equal. |
| `ContextWindow.AgentCore.ApplyContextWindow` | agent/ollama_code/core.py:1056-1072 | A window the user asks for is configured, or refused without change when it is below the minimum. |
| `ContextWindow.AgentCore.UseOllama` | agent/ollama_code/core.py:1074-1102 | After a switch to the local server nothing is requested until the window is settled; a refused window changes nothing. |
| `ContextWindow.AgentCore.UseRemote` | agent/ollama_code/core.py:1104-1196 | A switch to a hosted endpoint settles its window at once from the configured, reported and published figures, without a measurement of the old one; a refused window changes nothing. |
| `ContextWindow.AgentCore.SetModel` | agent/ollama_code/core.py:1355-1373 | After a switch of models requested and budgeted windows agree. |
| `MemoryVault.SaveKeepsSound` | agent/ollama_code/memory.py:316-357 | A save bumps the revision, leaves other rows alone and every row openable. |
| `MemoryVault.SaveStores` | agent/ollama_code/memory.py:244-361 | A save stores the columns, flags and payload it is given, and of an earlier record the details it does not mention. |
| `MemoryVault.FeedbackMarks` | agent/ollama_code/memory.py:653-681 | Feedback that finds a memory incorrect marks it stale and touches nothing else. |
| `MemoryVault.SwapLandsIff` | agent/ollama_code/memory.py:504-527 | A swap lands exactly when the row is the one that was read, but for its flags. |
| `MemoryVault.ActionsAct` | agent/ollama_code/memory.py:244-383 | In a sound vault every action does what it is for. |
| `MemoryVault.SwapFindsTheRowRead` | agent/ollama_code/memory.py:504-527 | A swap that lands found the very row that was read, although it compares three columns. |
| `MemoryVault.SwapChangesOnlyTheEmbedding` | agent/ollama_code/memory.py:504-527 | A swap changes nothing but the embedding of its row and leaves every row openable. |
| `MemoryVault.SaveDefeatsTheSwap` | agent/ollama_code/memory.py:316-357 | An edit between the read and the swap makes the swap fail. |
| `MemoryVault.FeedbackDefeatsTheSwap` | agent/ollama_code/memory.py:653-681 | So does feedback. |
| `MemoryVault.CountUpCounts` | agent/ollama_code/memory.py:653-681 | Feedback adds one to its outcome and changes nothing else of the payload. |
| `MemoryVault.ApprovalStoresWhatWasRead` | agent/ollama_code/memory.py:363-383 | Approval stores the scope, flags and payload that were read, whatever was saved in between, with the current vector and feedback and the next revision. |
| `MemoryVault.ApprovalKeepsEditsIff` | agent/ollama_code/memory.py:363-383 | Approval keeps the memory but for its confirmation exactly when nothing but vector and feedback differs from what was read, in particular when the row is still as read. |
| `MemoryVault.ApprovalCanMisnameTheVector` | agent/ollama_code/memory.py:363-383 | A vector stored between the read and the approval is kept under the model name that was read. |
| `MemoryVault.RowsStayOpenable` | agent/ollama_code/memory.py:181-214 | Under every interleaving of saves, feedback, approvals, deletions and searches each row opens under its current columns. |
| `MemoryVault.EditsSurvive` | agent/ollama_code/memory.py:504-580 | No run of searches and edits of other memories changes a memory apart from its embedding. |
| `MemoryVault.MemoryVault.SaveMemory` | agent/ollama_code/memory.py:244-361 | The write in place is the specified save, and keeps all rows openable. |
| `MemoryVault.MemoryVault.SwapEmbedding` | agent/ollama_code/memory.py:504-527 | The conditional write lands exactly when revision, nonce and ciphertext are those read. |
| `MemoryVault.MemoryVault.DeleteMemory` | agent/ollama_code/memory.py:635-639 | Removes exactly the one row. |
| `MemoryVault.MemoryVault.RecordFeedback` | agent/ollama_code/memory.py:653-681 | The write in place is the specified feedback, refused for an unknown memory. |
| `Chunker.WindowsTile` | agent/ollama_code/knowledge.py:508-526 | Windows start at strictly later lines, leave no gap, repeat eight lines or all but the first of fewer, reach the end, and are one line or filled below 6,000 characters by all lines but the last. |
| `Chunker.SizeIsLength` | agent/ollama_code/knowledge.py:516-519 | The size of a window is the length of its joined lines with a final newline. |
| `Chunker.NoLineIsLost` | agent/ollama_code/knowledge.py:508-526 | Every line that is not blank lies in an emitted chunk whose text is that of its lines. |
| `Chunker.KeptHas` | agent/ollama_code/knowledge.py:520-522 | The emitted chunks are exactly the windows whose text is not blank. |
| `Chunker.ChunkLines` | agent/ollama_code/knowledge.py:508-526 | The nested loops terminate and compute those chunks. |
| `KnowledgeIndex.VisitHolds` | agent/ollama_code/knowledge.py:210-250 | A visit leaves what the look at the file deserves, also when an unchanged hash lets it skip the work, and nothing else changes. |
| `KnowledgeIndex.StopsOnlyWhenFull` | agent/ollama_code/knowledge.py:252-253 | A refresh stops early only when the chunk table is full. |
| `KnowledgeIndex.RefreshHolds` | agent/ollama_code/knowledge.py:199-265 | What every path holds after a complete refresh, incremental or full. |
| `KnowledgeIndex.RebuildHolds` | agent/ollama_code/knowledge.py:199-265 | A rebuild from nothing holds exactly the readable eligible files the scan lists. |
| `KnowledgeIndex.RefreshTwice` | agent/ollama_code/knowledge.py:199-265 | Refreshing again while no file changes does nothing: no row is rewritten or renumbered. |
| `KnowledgeIndex.CandidatesAreFew` | agent/ollama_code/knowledge.py:280-300 | At most the first 5,000 changes and the first 20,000 eligible paths are looked at. |
| `KnowledgeIndex.FullTableStops` | agent/ollama_code/knowledge.py:252-253 | A stored text that brings the table to 100,000 chunks ends the refresh. |
| `KnowledgeIndex.IncrementalIsRebuildIff` | agent/ollama_code/knowledge.py:199-265 | An incremental refresh with a covering change list agrees with a rebuild exactly when no changed path is an indexed file that became too large or binary, or a readable eligible file the scan does not list. |
| `KnowledgeIndex.RunsStayConsistent` | agent/ollama_code/knowledge.py:199-265 | In every reachable index full-text rows mirror chunk rows one for one, ids grow, and each document holds the chunks of a text with its hash. |
| `KnowledgeIndex.KnowledgeStore.Reindex` | agent/ollama_code/knowledge.py:199-265 | The loops over the tables, with the set of seen paths, compute the specified refresh. |
| `KnowledgeIndex.KnowledgeStore.Replace` | agent/ollama_code/knowledge.py:231-250 | Rows of both tables are replaced in step, with fresh ids. |
| `KnowledgeIndex.KnowledgeStore.Clear` | agent/ollama_code/knowledge.py:498-502 | All three tables are emptied together. |
| `GitInfo.SplitZOfPrintZ` | agent/ollama_code/gitinfo.py:121-127 | Splitting NUL-separated output gives back the printed fields, empty ones included. |
| `GitInfo.SplitMaxOfJoin` | agent/ollama_code/gitinfo.py:240-262 | Cutting at most as often as there are separators before the path keeps a path with spaces whole. |
| `GitInfo.SplitMaxPieces` | agent/ollama_code/gitinfo.py:240-262 | On any text, cutting gives pieces that join to the text, none but the last with a separator. |
| `GitInfo.EntryTells` | agent/ollama_code/gitinfo.py:130-150 | The first letter that has a name gives the status, and letters other than dot and question mark say what is staged and unstaged. |
| `GitInfo.HeaderTells` | agent/ollama_code/gitinfo.py:205-214 | What branch headers tell, whatever follows their name. |
| `GitInfo.BrokenRecords` | agent/ollama_code/gitinfo.py:259-266 | A record that is not whole adds nothing; one whose status is cut off is an index error. |
| `GitInfo.ReadItem` | agent/ollama_code/gitinfo.py:200-281 | Reading one header or record adds what it says and takes nothing of the next, also for renames of two fields. |
| `GitInfo.StatusRoundTrip` | agent/ollama_code/gitinfo.py:191-291 | For every list of printed headers and records the parser returns what they say, in order, with paths and original paths. |
| `GitInfo.ParsePorcelainV2` | agent/ollama_code/gitinfo.py:191-291 | The index-driven loop computes the specified parse on every output, malformed ones included. |
| `GitInfo.EditedIsRead` | agent/ollama_code/gitinfo.py:160-181 | Whatever follows, an edited file is read under its path up to the first tab; if that is empty and two fields follow, they are taken as the paths of a move. |
| `GitInfo.NumstatRoundTrip` | agent/ollama_code/gitinfo.py:158-181 | When no edited path begins with a tab, every record is read: a moved file under its new path, an edited one under its path up to the first tab. |
| `GitInfo.LeadingTabSwallows` | agent/ollama_code/gitinfo.py:166-171 | Behind a path that begins with a tab the next two files lose their counts, though their paths hold no tab. |
| `GitInfo.CountsAreRightIff` | agent/ollama_code/gitinfo.py:158-181 | For every list of distinct files the counts are right if no edited path holds a tab, and only then, unless a path that begins with a tab stands before a move one of whose paths reads as a record. |
| `GitInfo.RightByChance` | agent/ollama_code/gitinfo.py:166-171 | The last exception is needed: such a list can come out right although a path holds a tab. |
| `GitInfo.ReadNumstat` | agent/ollama_code/gitinfo.py:158-181 | The loop computes the specified counts. |
| `GitInfo.ReadCapped` | agent/ollama_code/gitinfo.py:76-105 | The output is the first bytes of the stream up to the cap, truncated exactly when the stream is longer, wherever the reads cut it. |
| `PriceAlerts.CurrentIff` | agent/ollama_code/event_triggers.py:280-297 | A quote counts when it is of the instrument, whatever its case, with a positive price and a time at most five minutes ahead and at most the allowed age behind. |
| `PriceAlerts.ThresholdDivides` | agent/ollama_code/event_triggers.py:302-308 | A price at the threshold triggers either alert, a higher or lower one only the one that waits for it. |
| `PriceAlerts.EventIsAcceptedOrIgnored` | agent/ollama_code/event_triggers.py:275-334 | The state moves exactly at quotes that are current and later than all accepted before, and then holds that quote. |
| `PriceAlerts.AcceptedQuotesGrow` | agent/ollama_code/event_triggers.py:298-300 | The quotes that change the state have strictly increasing timestamps. |
| `PriceAlerts.RearmFiresAtCrossings` | agent/ollama_code/event_triggers.py:319-320 | A rearming alert fires exactly at the safe-to-triggered steps of the accepted quotes. |
| `PriceAlerts.OnceFiresAtFirstCrossing` | agent/ollama_code/event_triggers.py:319-333 | A single alert fires exactly at the first such step and never again. |
| `PriceAlerts.RepeatFiresGreedily` | agent/ollama_code/event_triggers.py:313-318 | A repeating alert fires at every triggered quote that is the first or the interval past the last firing. |
| `PriceAlerts.FiringsAreSpaced` | agent/ollama_code/event_triggers.py:313-318 | With a clock that does not run backwards any two firings are the interval apart. |
| `DevServer.SplitGrows` | agent/ollama_code/devserver.py:249-254 | Only the last piece of an output can still grow, so lines can be split off as they arrive. |
| `DevServer.LinesShown` | agent/ollama_code/devserver.py:253-260 | A line is shown up to its 2,000th character; the exit line tells the code. |
| `DevServer.DevServerRun.Pump` | agent/ollama_code/devserver.py:240-260 | The ring ends with the last 400 of the shortened lines and the exit line, wherever the reads cut the output. |

## Left out

- Files, sockets, subprocesses, SQLite and HTTP: they are maps, sequences and parameters of the operations.
- Normalising and validating rules, conditions and settings (`normalize_rule`, `normalize_price_condition`, configuration): one branch per field.
- Time zones whose offsets are not whole minutes, and dates outside the years Python supports; a zone has finitely many transitions.
- Binary floating point: timestamps, prices and thresholds are exact reals (a date is that of the instant rounded to a microsecond, ties to even); Decimal rounding and the ranking of memories and models are not modelled.
- `TurnLoop`: the turn is a state machine on values rather than a class, because two threads interleave; each worker step is one access to shared state. Failing tool runs, resumed sessions, screenshots in detail, titles and telemetry are not part of it, and a steer is also accepted where `steer` would first have seen an interrupt.
- The managed ChatGPT turn, extensions, evaluations, provider clients and MCP transports.
- `Eviction.Agent.RecoverFromWindowOverflow`: what the window refresh it begins with settles on is a parameter (`ContextWindow` models the refresh), and tool names are at most 110 characters, as tool schemas guarantee; a longer name would make a stub long enough to be stubbed again.
- `ContextWindow.BackOffsAreFew`: is about one local model on one host without a window pinned by the user.
- Compaction's choice of transcript, which decides only the summary text.
- `strip_think`, `flush_all` and the `thinking` property of the filter: the regular expressions of `strip_think` accept mismatched tags and do not agree with the filter.
- `MemoryVault.MemoryVault.SaveMemory`: validation and normalisation of the saved value, one branch per field, are left to the draft it is given.
- The key store, the string form of the associated data, timestamps, use counts, conflict detection and ranking of the memory vault; encryption is ideal.
- Reading and decoding bytes: contents of files and output lines are text, UTF-8 replacement decoding and SHA-256 are parameters, the latter injective.
- `PatchApply.TwoPhasesAreSequential`: is one way only; hunks that look at what earlier ones touched can still come out alike, as an update repeated without effect does, so there is no converse.
- Symbolic links, special files, aliases of one file under several paths, and I/O failures in `PatchApply`: a path names a file, a directory or nothing, distinct paths are distinct files, and an operation fails only for what files and directories are there.
- `str.splitlines` and the eligibility rules of the index, which are parameters; embeddings, search and ranking over the index.
- `status` and the diff viewer around the git readers: merging counts into entries adds only easy members.
- `PriceAlerts.RepeatFiresGreedily`: does not model the run store taking back the time of a firing while an earlier delivery is pending.
- Readiness probing, log filtering and stopping of dev servers.
