# Verified model of the event recorder

A Dafny model of the recorder's cores and proofs about them. `dafny verify dfyconfig.toml`
checks everything.

The recorder takes events from the kernel, filters them, queues them without ever blocking,
batches them into SQLite, and answers questions about what it stored. It promises that losses
are visible: an event that cannot be queued is counted, and the count is booked on a stored row.

## What is here

**The recording pipeline.** `Pipeline.dfy` is a step system: the source, the collector, the
flush stage and the supervisor `runWithSource`, over two bounded channels, a shared drop counter
and the store. Deciding to drop and counting the drop are two steps; so are sampling the counter,
inserting and clearing the batch. `PipelineControl`, `PipelineLedger` and `PipelineProgress` hold
what every step keeps and why shutdown ends; `PipelineTheorems` states the results for every
interleaving, and `PipelineRuns` gives two runs. `Batcher.dfy` and `CollectorStage.dfy` give the two
stages in the code's own form, objects whose methods update their fields, and prove them for any
pattern of readiness, ticks and cancellation; `Batching.dfy` holds what the batcher's methods keep. `KernelDrops.dfy` is the read loop's `uint64` arithmetic.

Results about losses. The code books the collector's overflows and the kernel's deltas in the same
column, `dropped_before`. At a nil return, every accepted event is stored, in order, and the total is

    overflows - residue + deltas sent - deltas discarded

The residue is a drop counted after the last sample: at most one, and none if deciding and counting
were one step (`Config.fused`). The discarded deltas rode on events that were ignored or overflowed.
docs/architecture.md:71-72 promises the total without the two subtractions;
`DocumentedTotalExactly` says when that is so. `DeltaLostWithIgnoredEvent` and `DropCountedTooLate`
give, for every size of queues and batches, runs in which it is not.

**The two SQL guards.** `SqlLexer.dfy` is a lexer that reads one character at a time. The
skip-ahead scanners of storage and agent are proved to refine it on every string
(`SqlScanners.dfy`, `AgentScanner.dfy`). A span - a quote-doubled literal (section 5.3 of ISO/IEC
9075-2), a bracketed name, a line or block comment - can be exchanged for any other without changing
the verdict of storage's guard (`SqlLiterals.dfy`) or of the agent's (`AgentLiterals.dfy`); to the
agent's keyword scan a parenthesised group reads like a space (`AgentGroups.dfy`). `AgentKeywords.dfy` says
what the agent accepts with the five keywords spelled out, and `AgentExtract.dfy` how a statement is
found in its output. Where code and comments part, the model follows the code:

- internal/storage/query.go:269-272 says parentheses hide a separator. They do not, because the
  depth is counted and never read (`ParenthesesHideNothing`, `DocumentedExactly`).
- In a block comment that never ends, the last character is looked at again as code. Storage's
  verdict is unaffected; the agent refuses one more family of texts, those that end inside a block
  comment on a semicolon (`DanglingSemicolon`).

**Queries.** `Query.dfy`, `Filters.dfy` and `TextSearch.dfy` compile a `Filter` or search terms to
text and positional arguments. `SqlText.dfy` is a reader of such texts that knows nothing of how they
are made: it cuts the text at WHERE, AND and OR and reads column, operator and marks. What it reads in
the prepared text is proved to be what the Filter or the terms ask for, over the evaluator for `LIKE`
in `Like.dfy`. A search term is lowered as Unicode but the column only as ASCII, so a term with a capital
outside ASCII does not find itself (`TermFindsItself`). `Timeline.dfy` adds order, limit and the
reversal.

**Watch and diff.** `Watch.dfy` tails a store that grows and is pruned meanwhile. Backfill and tail
fit together exactly when no stored timestamp falls as ids rise; after an empty backfill, rows that
arrive before the tail looks for its starting point are never shown (`EmptyBackfillMissesRows`). `Diff.dfy` shows
that the one-pass summary equals a declarative one, and what it does when a window is split;
`DiffMeaning.dfy` says which category and action feeds which list, entry by entry.

**Round trips and filters.** `Flags.dfy` parses global flags and the daemon's own argument list.
`IgnoreRules.dfy` relates the collector's path rules to path segments and to the kernel's copy.

## How the source is rendered

- A Go string is its sequence of code points. What the scanners and path rules compare with is ASCII, so code
  points and bytes lead to the same verdicts.
- `filepath.Clean`, `strings.ToLower`, the regular expression that finds SELECT or WITH, the drop
  counter's value at a flush and the outcome of an insert are parameters. `strings.ToUpper` is
  modelled as far as its result can be ASCII.
- Timestamps are integers; an absent time is `None`. `int64` sums in the store and the batcher are
  unbounded; the kernel counter's `uint64` wrap-around is modelled.
- The skip loops stand in both Go files with the same text and are written once here. The first
  cases of the scanners' switches are collected in `SkipRegion`, and the cases of scanTopLevel's
  switch are methods of their own.
- `ValidConfig` asks for non-empty queues and a positive batch size, which the constants and
  `NewService` guarantee (internal/daemon/service.go:19-38, internal/collector/collector.go:23-26).
- Posting a result to a one-element channel that nobody else writes never blocks, so it is one step
  with what precedes it.

## Model

| member | source | states |
|---|---|---|
| PipelineControl.ControlAlways | internal/daemon/service.go:56-104 | In every interleaving nothing is sent on a closed channel and none is closed twice, each stage's result is delivered once and unchanged, and both channels and the batch keep their bounds |
| PipelineControl.StepKeepsControl | internal/daemon/service.go:44-104 | Every step of every goroutine keeps the shutdown order: source done, collector joined, ingest closed, flush stage finished |
| PipelineControl.StepKeepsBounds | internal/daemon/flush.go:81-134 | Every step keeps the bounds: fewer than batchSize pending at the head of the flush loop, and between 1 and max(batchSize, maxBatch) in a batch being written |
| PipelineControl.HandMeansOpen | internal/collector/collector.go:49-58 | While the collector can still forward an event, ingest is open and the supervisor has not joined it |
| PipelineLedger.BalancedAlways | internal/collector/collector.go:49-83 | In every interleaving, failed inserts included, events and losses balance: each event sent is ahead of the collector or decided, accepted ones are kept in order, each overflow is counted or about to be, each counted drop is booked or still owed to an event |
| PipelineLedger.StepBalanced | internal/daemon/flush.go:50-64 | No step of any goroutine unbalances events or losses |
| PipelineLedger.SampleBalanced | internal/daemon/flush.go:54-57 | Sampling the counter and booking on the batch keeps events and losses balanced |
| PipelineLedger.ColBalanced | internal/collector/collector.go:49-83 | Every step of the collector, forwarding included, keeps events and losses balanced while ingest is open and within its capacity |
| PipelineTheorems.NothingLostSilently | internal/collector/collector.go:37-83 | In every reachable state store, batch, ingest, hand and in together are an order-preserving subsequence of what was sent, missing the ignored events and as many others as were or are about to be counted |
| PipelineTheorems.LossesConserved | internal/daemon/flush.go:50-64 | In every reachable state the losses booked on present events are the kernel deltas sent, less those discarded with their event, plus the drops sampled; an unbooked drop has a waiting event to be booked on, but for a residue of one |
| PipelineTheorems.ThreeStepsAreOneFlush | internal/daemon/flush.go:50-64 | The step system's sample, insert and clear, uninterrupted, have the effect proved of the batcher's flush |
| PipelineTheorems.FlushSucceedsLast | internal/daemon/flush.go:96-134 | The flush stage cannot report success before the collector is joined, ingest closed and empty, and every event sent decided |
| PipelineTheorems.ReturnTellsTheTruth | internal/daemon/service.go:78-103 | When runWithSource returns no goroutine is left, and it returns an error exactly when the source broke or an insert failed |
| PipelineTheorems.CleanShutdown | internal/daemon/service.go:44-104 | A nil return means every accepted event is stored in order and SUM(dropped_before) is all overflows but the residue plus all kernel deltas but the discarded; no residue if deciding and counting were one step |
| PipelineTheorems.DocumentedTotalExactly | docs/architecture.md:71-72 | The documented total holds at a nil return if and only if residue and discarded deltas cancel out; without negative deltas, if and only if no drop was counted after the last sample and no refused event carried a delta |
| PipelineTheorems.KernelLossReachesTheStore | internal/ebpf/collector_linux.go:90-114 | From the kernel's counter to the store: the stored total is the overflows plus the last counter reading attached to an event, but for residue and discarded deltas |
| PipelineRuns.DeltaLostWithIgnoredEvent | internal/collector/collector.go:50-52 | In every configuration a clean run in which a delta riding on an ignored event reaches no row; the documented total is missed whenever the delta is not zero |
| PipelineRuns.DropCountedTooLate | internal/collector/collector.go:53-57 | For all sizes of queues and batches a clean run in which a drop decided while the queue is full and counted after the last sample reaches no row; the documented total is missed unless a delta of -1 on the dropped event makes up for it |
| PipelineProgress.StepProgress | internal/collector/collector.go:60-82 | Once the context is cancelled and the source has returned, every step of every goroutine lowers a measure |
| PipelineProgress.NeverStuck | internal/daemon/service.go:90-103 | Until runWithSource returns some step can be taken, even when the flush stage died early and nobody reads ingest |
| PipelineProgress.ShutdownCompletes | internal/daemon/service.go:44-104 | From there every schedule ends within the measure, and one that cannot be continued has ended in runWithSource's return |
| Events.AttributeAdds | internal/daemon/flush.go:54-57 | Attribution adds exactly the drops since the last flush to the batch's total, moves the booked count to it, and changes no event otherwise |
| Batcher.Store.InsertEvents | internal/storage/write.go:13-69 | All events of a batch become rows or none does, at whichever statement or commit it fails; the reported total is the loss booked on the events executed before the end |
| Batcher.EventBatcher.Flush | internal/daemon/flush.go:50-64 | The whole effect of a flush on batch, booked count and rows: a failed write keeps the batch with what was booked on it, so that nothing is booked twice |
| Batcher.EventBatcher.DrainReady | internal/daemon/flush.go:81-94 | What it takes stays accounted for, in order and within maxBatch; it stops early only when nothing is ready or ingest is closed, and false means closed |
| Batcher.EventBatcher.WriteChunk | internal/daemon/flush.go:116-122 | Draining and writing a chunk keeps all events accounted for and every batch within bounds; success leaves no batch |
| Batcher.EventBatcher.Turn | internal/daemon/flush.go:109-132 | A turn on an event below batchSize adds it to the batch and leaves the rows alone; one that reaches batchSize, a closed channel and a live tick leave nothing pending unless the insert fails, and add one batch with the pending payloads if there were any; an idle turn without a tick or after cancellation changes nothing |
| Batcher.EventBatcher.Run | internal/daemon/flush.go:104-134 | For every script of events, ticks, cancellation and failures: the rows are those before and the batches written, and batches and pending events are what arrived, in order, cut into pieces of bounded size and changed at most at their heads; the losses on them are what arrived plus what was booked; nothing is pending after a live tick; only a closed channel or a failed insert ends the stage |
| Batching.FlushKept | internal/daemon/flush.go:50-64 | A flush, written or failed, keeps all of that |
| CollectorStage.Collector.Forward | internal/collector/collector.go:49-58 | An event with a covered path or old path changes nothing; any other is sent when there is room, and otherwise counted |
| CollectorStage.Collector.ForwardRefinesPipeline | internal/collector/collector.go:49-58 | With room meaning a free place in ingest, the stage does to channel and counter what the step system does |
| CollectorStage.Collector.RoomForAll | internal/collector/collector.go:49-58 | With room for every event the accepted ones are those not ignored, in order, and none overflows |
| CollectorStage.Collector.Drain | internal/collector/collector.go:69-74 | The loop after cancellation goes on where the select stopped and handles every event up to the closing of the channel |
| CollectorStage.Collector.Run | internal/collector/collector.go:37-83 | Whenever the context is cancelled, what was sent on is the accepted events in order and the counter the overflowed ones, up to the closing of the source's channel; if every event met with room, nothing is counted and every event not ignored is sent; the loop ends only at the closing, and a cancelled source counts as success |
| KernelDrops.DeltaExact | internal/ebpf/decode_linux.go:39 | The signed delta is the true difference if and only if the readings are less than 2^63 apart |
| KernelDrops.ReadRingbufDrops | internal/ebpf/collector_linux.go:126-141 | The per-CPU counters' sum modulo 2^64, and 0 when the lookup fails |
| KernelDrops.DeltasTelescope | internal/ebpf/collector_linux.go:90-114 | The deltas attached to events add up to the last reading attached, modulo 2^64 always and exactly when readings stay below 2^63, whatever malformed records and failed lookups come between |
| KernelDrops.Run | internal/ebpf/collector_linux.go:76-114 | The loop attaches those deltas, counts each malformed record and stops only when a send loses to cancellation |
| SqlScanners.SkipQuoted | internal/storage/query.go:315-327 | Stays in bounds and stops where the lexer is in code again, past the closing quote and every doubled one; between, the lexer sees no code but quotes |
| SqlScanners.SkipUntil | internal/storage/query.go:329-337 | Stops past the closing bracket or at the end, with no code passed over |
| SqlScanners.SkipLine | internal/storage/query.go:283-286 | Stops on the newline that ends the comment or at the end, with no code passed over |
| SqlScanners.SkipBlock | internal/storage/query.go:287-294 | Stops past the comment, or on the last character of one that never ends, with no code passed over |
| StorageScanner.HasMultipleStatements | internal/storage/query.go:273-313 | True if and only if the character-level lexer finds a semicolon in code with a visible character after it, on every string |
| SqlLiterals.UndoubleDouble | internal/storage/query.go:315-327 | Undoubling the body of a literal gives back the text it was made from |
| SqlLiterals.SpanIsInvisible | internal/storage/query.go:277-294 | A text with a literal, bracketed name or comment met in code is multi-statement by what precedes it or by what follows it alone, whatever it contains |
| SqlLiterals.SpanInvariance | internal/storage/query.go:277-294 | Exchanging one such span for another never changes the multi-statement verdict |
| SqlLiterals.PlainTextHidesNothing | internal/storage/query.go:295-312 | Without quotes, brackets, dashes, slashes and stars a text is multi-statement exactly if a visible character follows some semicolon |
| AgentLiterals.AgentSpanInvariance | internal/agent/agent.go:141-211 | Exchanging one span for another changes neither what the agent's guard takes for one statement nor what it accepts |
| AgentGroups.GroupsAreBlank | internal/agent/agent.go:165-211 | To the keyword scan a parenthesised group, however nested and whatever spans it holds, reads like a space, and so does a span |
| AgentGroups.ARunIsAWord | internal/agent/agent.go:196-221 | Outside parentheses a run of letters, digits and underscores between spaces, not led by a digit, is one word |
| SqlLiterals.ParenthesesHideNothing | internal/storage/query.go:269-301 | A separator inside parentheses is reported, against the comment |
| SqlLiterals.DocumentedExactly | internal/storage/query.go:269-301 | Code and comment give different verdicts if and only if there are separators before the last visible character and all of them lie inside parentheses |
| AgentScanner.ReadingFindsTheWords | internal/agent/agent.go:196-205 | Reading one character at a time finds exactly the maximal words: each starts at a letter or underscore in code at clamped depth 0 with none in the identifier characters just before it, has all identifier characters from there, and none is missed |
| AgentScanner.WordIsTopLevelRun | internal/agent/agent.go:196-205 | At every point of the text the word being read is a run of identifier characters in code at clamped depth 0, begun by a letter or underscore |
| AgentScanner.QuietIsUneventful | internal/agent/agent.go:165-205 | A skipped region holds no word, no parenthesis and no separator, and ends a word before it |
| AgentScanner.ScanTopLevel | internal/agent/agent.go:165-211 | Reports a separator if and only if the lexer finds one or the text ends on a semicolon in an open block comment; otherwise returns, in order, exactly the statement keywords among the maximal words in code at depth 0 |
| AgentScanner.ValidateReadOnlySQL | internal/agent/agent.go:141-160 | Accepts exactly the single statements that begin with SELECT, or with WITH and whose first statement keyword outside parentheses is SELECT; gives each of the three refusals exactly in its case |
| AgentKeywords.AcceptedExactly | internal/agent/agent.go:141-211 | A text is accepted if and only if it is single and begins with SELECT, or begins with WITH and some word in code outside parentheses is "select" with none of select, insert, update, delete and replace before it, up to ASCII case |
| AgentKeywords.KeywordIsSpelled | internal/agent/agent.go:196-205 | The words taken for statement keywords are exactly those five, up to ASCII case |
| AgentKeywords.StartsAsSpelled | internal/agent/agent.go:141-160 | A text begins with a keyword if and only if its first visible characters spell it, where the dotless i and the long s count as i and s |
| AgentExtract.ExtractSQL | internal/agent/agent.go:113-137 | What is returned is a contiguous piece of the output, a read-only SELECT, and never refused by RawSQL as multi-statement; such a statement, bare or in a fence with its tag, after any prose and with or without a terminator, is returned as it stands; without a start nothing is |
| AgentScanner.AcceptedIsSingle | internal/storage/query.go:235-241 | The agent's guard implies storage's |
| AgentScanner.GuardsDifferExactly | internal/agent/agent.go:194-195 | Apart from open comments the guards disagree exactly on texts whose first separator is their last visible character |
| AgentScanner.DanglingCommentRefused | internal/agent/agent.go:179-186 | A semicolon that ends an open block comment is refused by the agent although the lexer sees comment text |
| Query.EachClauseGetsItsArgs | internal/storage/query.go:76-128 | Positional binding gives every clause its own arguments, for any list of clauses |
| Query.PlaceholderMarks | internal/storage/query.go:142-144 | placeholders(n) has n question marks |
| Query.OneMarkPerArgument | internal/storage/query.go:130-138 | The joined WHERE text has as many question marks as there are arguments |
| SqlText.SplitUndoesJoin | internal/storage/query.go:130-138 | Cutting a joined text at its separator gives back the parts, if no part holds the separator's telling character |
| SqlText.TestReads | internal/storage/query.go:76-128 | The text of a test, read as column, operator and marks, means the test |
| SqlText.StatementReads | internal/storage/query.go:130-140 | The text of the whole statement, cut at ORDER BY, WHERE, AND and OR and read piece by piece, selects exactly the events that satisfy every clause |
| Filters.CompilationKeepsMeaning | internal/storage/query.go:68-140 | The compiled clauses with their arguments select an event if and only if the Filter asks for it: AND across fields, OR within one, empty fields unconstrained |
| Filters.FilterReads | internal/storage/query.go:130-140 | The text made of a Filter's clauses selects what the Filter asks for, in either order |
| Filters.CompileFilter | internal/storage/query.go:68-140 | Refuses exactly inverted ranges and negative limits; otherwise the prepared text with its arguments, read by the independent reader, selects an event if and only if the Filter asks for it; order and limit, 200 when none is given, come last |
| Like.EscapedMatchesItself | internal/storage/query.go:180-183 | An escaped term as a pattern consumes exactly itself, up to ASCII case |
| Like.EscapedTermIsSubstringSearch | internal/storage/query.go:164 | The pattern made of an escaped term matches a text if and only if the term occurs in it, up to ASCII case |
| Like.LoweringIsIrrelevant | internal/storage/query.go:166-169 | Lower-casing the column changes no result |
| TextSearch.SearchKeepsMeaning | internal/storage/query.go:153-176 | The compiled search selects exactly the events in which every searched term occurs in some column, wildcards and backslashes taken literally |
| TextSearch.SearchFindsTheTypedTerms | internal/storage/query.go:153-194 | Where lower-casing stays within ASCII, those are exactly the events in which every term occurs as it was typed |
| TextSearch.TermFindsItself | internal/storage/query.go:163-191 | A text is found by itself as a term if and only if lower-casing it stays within ASCII |
| TextSearch.NormalizeTerms | internal/storage/query.go:185-194 | The trimmed, lowered terms in order, none of them empty |
| TextSearch.CompileSearch | internal/storage/query.go:153-176 | Searches nothing only when no term is left; otherwise the prepared text with its arguments, read by the independent reader, selects exactly the events in which every term occurs |
| TextSearch.SearchReads | internal/storage/query.go:163-176 | The text made of the terms' clauses selects the events in which every term occurs in a searched column |
| TextSearch.SearchedColumns | internal/storage/query.go:146-151 | The searched columns are those eleven |
| Timeline.OrderedIsOldestFirst | internal/storage/query.go:133-137 | The reference order holds the same rows by rising time and, at equal times, rising id |
| Timeline.OldestFirstUnique | internal/storage/query.go:133-137 | There is one oldest-first list of a set of rows |
| Timeline.TimelineShowsTheLastRows | internal/cli/commands_runtime.go:139-157 | Newest first, limited and turned round is the last n rows of the oldest-first list |
| Timeline.TimelineAnswersTheFilter | internal/cli/commands_runtime.go:139-157 | From any list of the rows a Filter's prepared text selects, by falling time and id, timeline shows the last n rows of those the Filter asks for, oldest first |
| Timeline.ReverseInPlace | internal/cli/commands_runtime.go:154-157 | The swap loop leaves the array reversed |
| Watch.BatchIsNext | internal/storage/query.go:58-64 | A batch has rising ids above the cursor and leaves out no row between the cursor and its last one; it is empty only at the end |
| Watch.BatchReachesTheLimit | internal/storage/query.go:58-64 | A batch has at most the limit's rows, 500 when none is given, and with fewer there is nothing after it |
| Watch.WatchStep | internal/cli/commands_runtime.go:233-249 | Writes the matching rows of the next batch and moves the cursor past it; when the writer fails after some number of rows, that is noticed exactly if the batch has more matching ones, and the cursor stays before the row that was not written |
| Watch.DeliveredExactlyOnce | internal/cli/commands_runtime.go:216-249 | Over every interleaving of inserts, prunes and polls delivered ids rise strictly, and each matching row between start and cursor was delivered once or pruned before the poll that passed it |
| Watch.InsertKeeps | internal/storage/schema_gen.go:8 | Inserts with AUTOINCREMENT ids keep that |
| Watch.KeptMeans | internal/storage/maintenance.go:14-33 | Pruning removes exactly the rows older than the cutoff and keeps the order |
| Watch.PruneKeeps | internal/storage/maintenance.go:14-33 | Pruning keeps that, whatever the cutoff |
| Watch.LatestIsHighest | internal/storage/query.go:47-54 | The starting cursor is the highest id stored |
| Watch.FreshTailShowsOnlyNewRows | internal/cli/commands_runtime.go:208-212 | A tail that begins at the latest id shows exactly the wanted rows inserted later |
| Watch.StartWatch | internal/cli/commands_runtime.go:190-212 | Shows the matching rows of the backfill and begins at its highest id, or at the latest stored one when nothing was fetched |
| Watch.BackfillIsTheOldest | internal/cli/commands_runtime.go:190-207 | The backfill is the oldest rows of the window, oldest first, and all of them below the limit, 200 when none is given |
| Watch.BackfillIsComplete | internal/cli/commands_runtime.go:190-207 | Where timestamps never fall as ids rise, a non-empty backfill has left out no row from the start of the window up to its highest id |
| Watch.BackfillJoinsTail | internal/cli/commands_runtime.go:190-249 | There, over any inserts, prunes and polls that follow, backfill and tail together show strictly rising ids and miss no wanted row of the window up to the cursor, unless it was pruned before the poll that passed it |
| Watch.BackfillJoinsExactly | internal/cli/commands_runtime.go:190-212 | Backfill and tail fit for every window and limit if and only if no stored timestamp falls as ids rise |
| Watch.GapWhenTheClockStepsBack | internal/cli/commands_runtime.go:190-212 | A concrete store in which a row falls between backfill and tail |
| Watch.EmptyBackfillMissesRows | internal/cli/commands_runtime.go:190-212 | After an empty backfill, rows inserted before the latest id is looked up are never shown |
| Diff.Diff | internal/diff/engine.go:70-166 | The one-pass report is the declarative summary of the window, and the hot writers are exactly the paths with three writes or more, each once, with count and last writer |
| DiffMeaning.ReportMeans | internal/diff/engine.go:70-153 | Each list of the report has an entry for exactly the events with the listed categories and actions, in order, with the fields named: new processes are first creations of a pid, restarts creations whose name or pid exited last and strictly earlier |
| DiffMeaning.KindIsSpelled | internal/diff/engine.go:82-152 | The kind of an event is what its category and its action, each on its own, say; joining them by a colon confuses no two pairs |
| DiffMeaning.PickedInOrder | internal/diff/engine.go:81-153 | Every selected event has one entry, at the place given by the number selected before it, and there is no other |
| DiffMeaning.NewPids | internal/diff/engine.go:84-96 | A pid is among the new processes if and only if some event execs, forks or clones it |
| DiffMeaning.HotMeans | internal/diff/engine.go:117-164 | A path is hot from its third content write on, with their number and the last one's pid, name and time |
| Diff.LastExitIsLatest | internal/diff/engine.go:98-112 | The exit a creation is compared with is the most recent one with its key |
| Diff.OnCreation | internal/diff/engine.go:84-104 | A new process is the first creation of its pid; a restart follows an exit with the same non-empty key and a strictly smaller timestamp |
| Diff.OnModification | internal/diff/engine.go:117-132 | Modifications with a path are listed and content writes alone feed hot-writer detection |
| Diff.HotWriters | internal/diff/engine.go:154-164 | In whatever order the map yields paths, each path with three writes or more appears once |
| Diff.WindowsCompose | internal/diff/engine.go:70-165 | For a window split in two, five lists are concatenations, new processes are those of the first part and then those whose pid it has not created, restarts are those of the first part and then those of the second judged with the first part's exits, and writes add per path before the threshold |
| IgnoreRules.MatchesIsSegmentPrefix | internal/collector/filter.go:28-34 | A rule covers a path if and only if the rule's segments are a prefix of the path's |
| IgnoreRules.ShouldIgnorePath | internal/collector/filter.go:23-36 | Ignores exactly non-empty paths some rule covers after cleaning |
| IgnoreRules.NormalizeIgnoreRules | internal/collector/filter.go:38-54 | The trimmed, cleaned rules once each, in order of first occurrence |
| IgnoreRules.DedupDistinct | internal/collector/filter.go:46-51 | No rule is kept twice |
| IgnoreRules.NormalizationKeepsVerdicts | internal/collector/filter.go:38-54 | Trimming, cleaning and deduplicating the rules changes no verdict |
| IgnoreRules.ExtraRulesOnlyAdd | internal/collector/filter.go:17-21 | Configured rules add to the built-in ones and take none away |
| IgnoreRules.BuiltInRules | internal/collector/filter.go:8-15 | The built-in rules cover exactly what lies at or beneath the six directories |
| IgnoreRules.KernelFilterIsThreeRules | internal/ebpf/collector.bpf.c:158-185 | The kernel's look at seven bytes decides exactly whether the path is /proc, /sys or /dev or begins with one of them and a slash |
| IgnoreRules.KernelAgreesOnCleanPaths | internal/ebpf/collector.bpf.c:158-185 | On paths that cleaning leaves alone kernel and collector agree about those three |
| IgnoreRules.KernelAgreesExactly | internal/ebpf/collector.bpf.c:158-185 | On any path they agree about those three if and only if the path lies in one of the directories both as written and as cleaned, or neither way |
| IgnoreRules.KernelReadsPathsAsWritten | internal/ebpf/collector.bpf.c:179-185 | A path on which they do not |
| Flags.ParseGlobalFlags | internal/cli/flags.go:17-61 | Updates the configuration as the list's flags say, stops at the first argument that is none, and keeps what was set before an error |
| Flags.RestIsStable | internal/cli/flags.go:48-60 | What is left is a suffix of the input, and parsing it again changes nothing |
| Flags.PlainFlag | internal/cli/flags.go:66-82 | A name behind one dash or two, without "=", is read as that flag without a value |
| Flags.InlineFlag | internal/cli/flags.go:66-82 | Everything behind the first equals sign is the value |
| Flags.JsonMeans | internal/cli/flags.go:25-34 | A bare json flag sets true; with a value it sets what the value says in one of twelve spellings and is refused otherwise |
| Flags.OneFlag | internal/cli/flags.go:87-96 | A value stands behind an equals sign or is the next argument, taken verbatim also when it looks like a flag; without either the list is refused |
| Flags.AssignMeans | internal/cli/flags.go:35-52 | Each of the three sets its own field and no other; ignore paths add up |
| Flags.ParsingStops | internal/cli/flags.go:53-61 | Parsing stops at the end, at what is no flag and at a flag of another name, and leaves the rest as it is |
| Flags.CustomMeans | internal/cli/flags.go:144-153 | Whether a path is kept is settled by that path alone: dropped if it is a default, kept in place otherwise |
| Flags.CustomIgnorePaths | internal/cli/flags.go:144-153 | The paths that are not defaults, in order |
| Flags.BuildDaemonArgs | internal/cli/flags.go:136-142 | Builds the argument list of the round trip below |
| Flags.DaemonReadsBackItsArguments | internal/cli/flags.go:136-153 | For every configuration the daemon reads back both paths verbatim and the custom ignore paths after its defaults, and is left with its own command |

## Left out

- Pipeline.Run: an insert that fails at commit although SQLite kept the rows is not modelled, and neither is the five-second write timeout except as a failed insert.
- Batcher.EventBatcher.Flush: reuse of the slice's backing array across flushes is not captured; the batch is a value.
- Batcher.Store.InsertEvents: a zero timestamp replaced by the clock, JSON encoding of metadata and the closed or read-only store are not modelled.
- Flags.ParseGlobalFlags: error texts are reduced to their kind, and the copy of the ignore list that prevents aliasing with the caller's is implied by values.
- SqlText.StatementReads: the reader covers the texts this program prepares, not SQL at large, and applies `LIKE` to text only; what SQLite does with the ORDER BY and LIMIT at the end is modelled in `Timeline.dfy` on rows.
- Diff.Diff: begins at the window's rows; the query that fetches them and its limit of 50000 rows are not part of it.
- Watch.DeliveredExactlyOnce: the predicate on category, comm and pid is a parameter; the polling ticker and the signal that ends the loop are left out.
- Event fields that no modelled code reads: parent pid, target pid, exit code, metadata, raw record, schema version.
- eBPF loading and attaching, ring-buffer reading, record decoding and the open-file tracking in the kernel program.
- SQLite: journal modes, pragmas, VACUUM, indexes; the row cap and result conversion of RawSQL.
- Command wiring, signals, pid files, process spawning, the agent's subprocess, output formatting, duration and time parsing.
- The ABI generator and its file headers.
- Plain-English question templates, demo events, benchmark, status: single-branch code.
- Extracting twice: not an identity, since output can still end in a fence after one pass.
