# Verified models of the agent loop's bookkeeping

This project models, in Dafny, the parts of the repository that carry state and hard invariants, and proves what they
promise. `dafny verify dfyconfig.toml` checks all of it.

## What is modelled

**Context rewriting for the agent loop.** `Messages` holds chat messages (role, body, tool calls, call id). `CutPoint`
is the backward walk that picks where a history is cut and the alignment that keeps a call with its results; a
*well-formed* history is a concatenation of exchanges (a plain message, or an assistant turn followed by one result per
call, in any order), and `Exchanges` says when keeping part of a history leaves it well-formed. `Anchor` is the
persistent summary, its merge and its text. `Sanitizer` is the clean-up that every compacted history goes through, and
`CleanUp` characterises the histories it makes whole. `Compaction` is the anchored step and the recency fallback; the
summarising model is a value that may be absent, fail, or answer with any delta, and the step may still fail after the
anchor was merged. `CompactionProperties` proves what one step conserves and what runs never forget, where a run
interleaves compactions with appended and inserted messages, replaced system messages, rewritten tool bodies and other
anchor updates. `Extraction` says exactly what is found in a summarised span, `MergeRuns` what an anchor holds after any
run of merges, `SummaryText` what its text shows, and `CompactionLaws` which messages and budgets compaction goes by.
`Listing` says exactly when a communication is listed at a moment of such a run. `CompactionExchanges`
says exactly when a compacted history still pairs calls with results, before clean-up and after it; `KeptExchanges` is
the part of that about which kept messages clean-up can mend.
`Supersession` collapses stale tool results in place in an array of messages; `SupersessionProperties` holds what a
pass keeps, and `StaleResults` tabulates which results become stubs, and what these say. `PhaseBoundary` trims a
history when a new task starts.

**Process supervision.** `RuntimeModel` has one event per stretch of code between two awaits; promises, timers and
in-flight ticks are counters of the state, and what the process, network and user do is part of the event.
`RuntimeProperties` quantifies over every interleaving of these events; `RestartProperties` says field by field what all
events do, and how often a crashing child comes back. `RuntimeManager` is the object: each of its
event methods keeps it in the state its recorded history leads to, so everything proved of runs holds of it.

**Locale translation.** `Placeholders` lifts tags and template expressions out of a text and puts them back;
`LocaleTree` flattens a nested dictionary and rebuilds it. Their round trips are characterised in
`PlaceholderProperties` and `LocaleTreeProperties`.

**Steering.** `SteeringQueue` drains a shared queue until an item must stay on it or cannot be converted;
`SteeringProperties` says what a drain says, drops and keeps.

**Permissions.** `PermissionModel` is an insertion-ordered store scanned with early returns, `Permissions` the object
around it; `PermissionProperties` shows that it answers like an abstract map with inheritance from ancestor directories.

**Index and ranking.** `Breadcrumbs` is a rule table with a trigger index; `ModelFit` ranks and truncates a catalog.

Classes mirror the source's classes field by field. Each method is tied by its contract to a function of the inputs or
of the old state, and the lemmas are about those functions.

## Where the code does less than it promises

- The previous summary is meant to be replaced by the new one. Clean-up merges every system message into the first, so
  behind a system prompt the summary never again starts a message and is never removed: summaries pile up
  (`CompactionProperties.SystemAfterStep`, `CompactionProperties.OnlyALeadingSummaryIsReplaced`).
- The prompt hook that runs in every iteration replaces that one system message, and with it the summaries
  (`CompactionProperties.HookForgets`; `CompactionProperties.ReplacingRemembers` gives the exact condition). They are
  gone until the next anchored compaction and back after it: over any run whose new system texts do not mention it, a
  communication is listed again if and only if the history was rebuilt since (`Listing.ForgottenUntilRebuilt`,
  `Listing.ListedExactly`). Runs without such a loss, or with an anchored step after each, do remember
  (`CompactionProperties.NeverForgotten`).
- The fallback may keep a tool result without its call (`CompactionExchanges.FallbackKeepsExchangesWhole`,
  `CompactionExchanges.FallbackTears`; four reads in one turn suffice, `CompactionExchanges.FourReadsAreTorn`), and so
  may the anchored step when a tool result reads as a user message or a digest and its turn does not
  (`CompactionExchanges.AnchoredKeepsExchangesWhole`, `CompactionExchanges.PriorityResultIsKeptAlone`). Clean-up mends
  neither; what it mends is stated exactly by `CompactionExchanges.CleanedFallbackIsWhole` and
  `CompactionExchanges.CleanedAnchoredIsWhole`.
- A comment in the clean-up says that placeholders go right after the assistant turn that issued the call. They all go
  behind the last turn with a missing result, so only one such turn is mended (`CleanUp.CleanedIsWhole`,
  `CleanUp.TwoGapsStay`).
- Supersession keeps the newest result of every intent if call ids are unique (`SupersessionProperties.NewestKept`), but
  not always otherwise (`SupersessionProperties.NewestLostWithSharedId`). Which bodies become stubs, whatever the ids,
  is stated by `SupersessionProperties.StubbedExactly`.
- A text with a template expression around a tag does not survive protecting and restoring
  (`PlaceholderProperties.RestoreInvertsProtect`), and neither does one that spells the marker of its first token before
  anything that is lifted (`PlaceholderProperties.MarkerTextBreaksRoundTrip`).
- A permission whose name extends another by a colon shares keys with it and can lose its decision to it
  (`PermissionProperties.KeysCollide`, `PermissionProperties.RequestedNameOverwritten`,
  `PermissionProperties.AnswersKeptExactly`).
- One of the reasons a stub may give, a superseded attempt of bash, is never given: the case that would give it is never
  reached (`StaleResults.NoBashAttempts`).
- Trimming at a phase boundary is idempotent except when the request itself reads as a completion review
  (`PhaseBoundary.TrimTwice`, `PhaseBoundary.SecondTrimDiffers`).
- A child that is killed, or outlives stop(), is given up before its exit is seen and no longer tracked; the next start
  spawns a second one beside it (`RuntimeProperties.RunTracksLive`, `RuntimeProperties.StopAbandonsChild`,
  `RuntimeProperties.SecondChildBesideAbandoned`).

## Model

| member | source | states |
|---|---|---|
| CutPoint.EstimateTokens | nls/agentic/compactor.py:155-169 | the estimate is a quarter, rounded down, of the characters of all bodies and call arguments |
| CutPoint.RoundingLoss | nls/agentic/compactor.py:155-195 | rounding per message loses at most three characters a message against the total |
| CutPoint.EstimateWithinBudget | nls/agentic/compactor.py:155-195 | the estimate of a kept span lies between what the walk charged and that plus three quarters of a token per message, rounded down |
| CutPoint.WalkBack | nls/agentic/compactor.py:182-195 | the walk stops at the smallest index whose suffix fits the budget, or at the last message alone |
| CutPoint.BudgetCutUnique | nls/agentic/compactor.py:182-195 | that index is unique |
| CutPoint.FindCutPoint | nls/agentic/compactor.py:176-214 | the cut is the aligned budget cut and lies within the history |
| CutPoint.PullBack | nls/agentic/compactor.py:203-204 | moving left stops at 1 or at the nearest message that is no tool result |
| CutPoint.SplitBetweenExchanges | nls/agentic/compactor.py:176-180 | a history of whole exchanges may be split before any message that is no tool result, and both sides are whole |
| CutPoint.CutKeepsExchangesWhole | nls/agentic/compactor.py:176-214 | every cut above 1 leaves whole exchanges on both sides: calls are never separated from results |
| CutPoint.MessageSize | nls/agentic/compactor.py:186-190 | the size of a message is that of its body, and each call adds the size of its arguments |
| CutPoint.EstimateOneMore | nls/agentic/compactor.py:155-169 | each message adds its size to the estimate, of which a quarter is taken, rounded down |
| CutPoint.SmallerBudgetCutsMore | nls/agentic/compactor.py:182-195 | a smaller budget never cuts earlier |
| Exchanges.AlignExactly | nls/agentic/compactor.py:197-214 | for every history, the cut is moved to the turn of the results it would split off, to the one before if that still waits for results, and never to the first message |
| Exchanges.AlignedToExchange | nls/agentic/compactor.py:197-214 | in a history of whole exchanges, to the start of the exchange it falls into and no further |
| Exchanges.KeepingPartIsWhole | nls/agentic/compactor.py:176-180 | with distinct result ids, keeping part of a history of whole exchanges leaves whole exchanges if and only if every turn is kept or dropped together with the results that answer it |
| Anchor.ExtendWithNew | nls/agentic/compactor.py:102-104 | appends the items not yet listed, in order |
| Anchor.CompactionAnchor.Merge | nls/agentic/compactor.py:98-132 | the new anchor is the merge of the old one and the delta, field by field |
| Anchor.CompactionAnchor.MergeProgress | nls/agentic/compactor.py:102-111 | finished items leave the pending list, new pending items enter it unless done |
| Anchor.CompactionAnchor.MergeRecords | nls/agentic/compactor.py:112-131 | the append-only lists grow by their new items |
| Anchor.IncrementalEqualsOneShot | nls/agentic/compactor.py:98-132 | merging two deltas one after the other equals merging their field-wise concatenation once, into any anchor |
| Anchor.MergeIdempotent | nls/agentic/compactor.py:98-132 | merging the same delta twice equals merging it once |
| Anchor.MergeKeepsConsistent | nls/agentic/compactor.py:98-132 | done and pending stay disjoint and duplicate-free, and the append-only lists only extend |
| Anchor.RunKeepsConsistent | nls/agentic/compactor.py:98-132 | the same over any run of merges |
| MergeRuns.GoalOfRun | nls/agentic/compactor.py:100-101 | after any run of merges the goal is the one there was, else the first that a delta names, else none |
| MergeRuns.StepsOfRun | nls/agentic/compactor.py:98-132 | the next steps are those of the last delta that has any, else those there were |
| MergeRuns.IterationOfRun | nls/agentic/compactor.py:98-132 | the iteration is that of the last merge |
| MergeRuns.ListOfRun | nls/agentic/compactor.py:102-131 | each growing list holds exactly what it held and what some delta adds to it |
| MergeRuns.NewInOrder | nls/agentic/compactor.py:102-104 | new items stand in the order of their first mention |
| MergeRuns.PendingOfRun | nls/agentic/compactor.py:102-111 | an item is pending exactly if it was mentioned as such and is not done |
| SummaryText.RenderShows | nls/agentic/compactor.py:46-96 | the rendered summary shows the goal, the last 20 done and 10 pending items, and the last entries of the other lists, each on a line of its own |
| SummaryText.RenderShowsFiles | nls/agentic/compactor.py:51-85 | and the tools, and the last fifteen files read and modified |
| SummaryText.RemainingIsShort | nls/agentic/compactor.py:60-95 | and no more lines than that |
| SummaryText.RenderIsShort | nls/agentic/compactor.py:46-96 | besides those, the sent communications in full, a title and a closing line |
| Text.DigitsExactly | nls/agentic/compactor.py:48-48 | the iteration in the title is written in decimal, without leading zeros |
| Anchor.RenderListsEveryCommunication | nls/agentic/compactor.py:56-59 | the rendered summary has a line of its own for every sent communication; that section is never shortened |
| Anchor.RenderIsMarked | nls/agentic/compactor.py:46-96 | the rendered summary begins with the mark by which it is recognised later, and has no outer white space |
| Sanitizer.SanitizedKeepsSystemText | nls/agentic/generator.py:70-163 | any trimmed text carried by some system message is still carried by one after clean-up |
| Sanitizer.SanitizedKeepsUsers | nls/agentic/generator.py:93-139 | every user message survives clean-up unchanged |
| Sanitizer.LeadingSystemAbsorbs | nls/agentic/generator.py:79-104 | a leading system message absorbs the bodies of all later ones and is the only system message left |
| Sanitizer.EveryCallAnswered | nls/agentic/generator.py:143-161 | in every cleaned history each call with an id has a tool message that answers it |
| Sanitizer.RepairExactly | nls/agentic/generator.py:104-139 | repair changes arguments that are no JSON, hidden reasoning and missing result ids, and nothing else |
| Sanitizer.CleanedIsProper | nls/agentic/generator.py:104-161 | no cleaned history has a result without an id, or call arguments that are neither empty nor JSON nor "{}" |
| Text.StripExactly | nls/agentic/generator.py:79-95 | stripping drops blanks from both ends of a text and nothing else |
| CleanUp.PlaceholdersComplete | nls/agentic/generator.py:143-161 | placeholders make a history whole if and only if every result stands behind its turn and at most one turn lacks results |
| CleanUp.CleanedIsWhole | nls/agentic/generator.py:70-163 | the same for the whole of clean-up, system messages merged, on every history with distinct non-empty ids |
| CleanUp.TwoGapsStay | nls/agentic/generator.py:143-161 | two turns without results: clean-up does not make the history whole |
| KeptExchanges.KeptIsMendable | nls/agentic/generator.py:143-161 | placeholders make what is kept of a whole history whole again if and only if the turn of every kept result is kept, and at most one kept turn has a dropped result |
| Compaction.CollectToolResults | nls/agentic/compactor.py:238-244 | the last body recorded for each call id |
| Compaction.ExtractFileOps | nls/agentic/compactor.py:220-279 | files read, files modified and successful sends of the span, in order |
| Compaction.SummarizeSpan | nls/agentic/compactor.py:445-458 | the model's delta extended by the operations found in the span itself |
| Compaction.FindLastUser | nls/agentic/compactor.py:498-502 | the most recent user message, none exactly when there is none |
| Compaction.EnsureUser | nls/agentic/compactor.py:586-600 | the result has a user message, and differs only by one stand-in when there was none |
| Compaction.SimpleCompact | nls/agentic/compactor.py:465-517 | the recency fallback, unchanged below the threshold unless forced |
| Compaction.SelectSpan | nls/agentic/compactor.py:552-563 | removal by value of the priority messages removes exactly the priority messages |
| Compaction.FoldSpan | nls/agentic/compactor.py:571-600 | merges the completed delta and rebuilds the history around the new anchor |
| Compaction.Compact | nls/agentic/compactor.py:524-617 | the new anchor and history of every branch: no cut, nothing to summarise, no client, failure before or after the merge, success |
| Extraction.CommunicationsExactly | nls/agentic/compactor.py:237-278 | a communication is found in a span if and only if some turn calls one of the three send tools and the last result for that call is not empty and does not say "error" within fifty characters |
| Extraction.ReadsExactly | nls/agentic/compactor.py:252-255 | a file counts as read if and only if some turn calls read on it |
| Extraction.WritesExactly | nls/agentic/compactor.py:256-259 | and as modified if and only if some turn writes or edits it |
| Extraction.ResultsExactly | nls/agentic/compactor.py:238-244 | the result recorded for an id is the body of the last tool message with it |
| CompactionLaws.SpanExactly | nls/agentic/compactor.py:551-563 | of the dropped span exactly the messages that quote a user message, or begin like a digest, are moved, and the others summarised |
| CompactionLaws.SystemExactly | nls/agentic/compactor.py:571-575 | exactly those system messages of the dropped span stay that do not begin with the summary mark |
| CompactionLaws.SummarizesExactly | nls/agentic/compactor.py:545-570 | the anchor takes up a span if and only if the cut is at least 2, the model answered, and a message before it is neither a system message nor moved |
| CompactionLaws.AnchorExactly | nls/agentic/compactor.py:545-577 | otherwise the anchor is left alone; a merged one carries the iteration |
| CompactionLaws.BudgetExactly | nls/agentic/compactor.py:545-546 | the budget of a delegate may differ, and a forced compaction has half of it, rounded down |
| CompactionLaws.ForcedCutsMore | nls/agentic/compactor.py:545-547 | a forced compaction never cuts earlier than an unforced one |
| CompactionLaws.RecentExactly | nls/agentic/compactor.py:483-484 | the fallback keeps at least six recent messages, four if forced, or a third of all |
| CompactionLaws.FallbackExactly | nls/agentic/compactor.py:465-517 | it does nothing if and only if it is not forced and the history fits |
| CompactionLaws.StandInExactly | nls/agentic/compactor.py:586-600 | the user message put back is the latest one dropped, or the fixed text if there was none |
| CompactionProperties.AnchoredConservation | nls/agentic/compactor.py:551-611 | as multisets, the rebuilt history is the old one with the summarised span and old summaries replaced by one new summary and, if needed, one user message; it always has a user message |
| CompactionProperties.AnchoredKeepsSuffix | nls/agentic/compactor.py:551-584 | the kept suffix is still the suffix, in order |
| CompactionProperties.OneSummaryMore | nls/agentic/compactor.py:571-584 | exactly one summary more than the kept suffix had |
| CompactionProperties.FallbackConservation | nls/agentic/compactor.py:481-511 | the fallback drops exactly the old messages that are not priority ones, and has a user message |
| CompactionProperties.FallbackKeepsSystem | nls/agentic/compactor.py:481-490 | the fallback keeps every system message, in order |
| CompactionProperties.ResultDroppedWithCall | nls/agentic/compactor.py:176-214 | a result whose call is before the cut is before the cut too, if no other result has its id |
| CompactionProperties.SendRecorded | nls/agentic/compactor.py:237-278 | an anchored step records every send call of the dropped span whose result is non-empty, no error and no priority message, whatever the model answered |
| CompactionProperties.RecordedExactly | nls/agentic/compactor.py:445-458 | after an anchored step the anchor lists exactly what it listed, what the model reported and what the summarised messages show to have been sent; a send whose result says "error" adds nothing |
| CompactionProperties.FilesRecordedExactly | nls/agentic/compactor.py:445-458 | and likewise for files read and modified |
| CompactionProperties.SystemAfterStep | nls/agentic/compactor.py:571-611 | for every history an anchored step leaves one system message: the first that is kept, or else the new summary, followed by the texts of all others |
| CompactionProperties.ReplacingRemembers | nls/brain/sub_cryptex.py:1176-1182 | replacing a system message keeps a summary of all communications if and only if another system message, or the new one, carries one |
| CompactionProperties.RebuildingRemembers | nls/agentic/compactor.py:577-611 | after every anchored step, from any state whatever, the history carries a summary of all communications of the anchor |
| CompactionProperties.StepRemembers | nls/agentic/compactor.py:545-617 | every step that rebuilds the history restores such a summary, and every other one keeps it, except a replaced system message that held the only one and a failed step whose merged anchor no system message covers |
| CompactionProperties.LossIsExact | nls/agentic/compactor.py:577-617 | after such a replacement, and after a compaction of a history with at most one system message that does not rebuild it, a summary of all communications is there if and only if, before the step, a system message that stays covers the anchor it leaves |
| CompactionProperties.FallbackRemembersExactly | nls/agentic/compactor.py:481-517 | with at most one system message the fallback neither loses nor adds anything remembered; with none, nothing but an empty list is |
| CompactionProperties.RunRemembers | nls/agentic/compactor.py:545-617 | at every moment of every run by which the history was rebuilt after each loss, it carries such a summary |
| CompactionProperties.RunGrowsList | nls/agentic/compactor.py:121-123 | over every run the list of communications only extends |
| CompactionProperties.NeverForgotten | nls/agentic/compactor.py:56-59 | over any run from an empty anchor, once a communication is recorded every later history lists it in a system message, on a line of its own, provided the history was rebuilt around the anchor after each step that lost a summary |
| CompactionProperties.HookIsStepsOfRun | nls/agentic/bridge.py:1340-1351 | the prompt hook is one or two steps of a run: it replaces system messages, or replaces one and inserts another |
| CompactionProperties.HookForgets | nls/agentic/bridge.py:1340-1351 | in a history with one system message, after the hook a text is carried if and only if the new prompt has it, or the second message if the hook places one |
| Listing.SanitizedCarries | nls/agentic/generator.py:79-104 | merging system messages neither loses nor invents a trimmed text without empty lines |
| Listing.StepLists | nls/agentic/compactor.py:545-617 | after one step a communication of the anchor is listed if and only if the step rebuilt the history or brought a system text that mentions it, or it was listed before and the step replaced no system message that alone did |
| Listing.ListedExactly | nls/agentic/loop.py:3150-3159 | the same over any run, between any two moments: listed if and only if brought since, or listed to begin with, and not erased after that |
| Listing.ForgottenUntilRebuilt | nls/agentic/loop.py:3150-3159 | after the hook has replaced the only system message, over any run whose new system texts do not mention a communication, it is listed again if and only if the history was rebuilt since and no later hook erased it |
| CompactionProperties.OnlyALeadingSummaryIsReplaced | nls/agentic/compactor.py:571-584 | with one leading system message, the old summary is replaced exactly when that message starts with the mark; otherwise the new one is appended and the old ones stay |
| CompactionExchanges.AnchoredKeepsExchangesWhole | nls/agentic/compactor.py:547-600 | the rebuilt history, before clean-up, pairs calls with results if and only if in the dropped span a turn is a priority message exactly when the results that answer it are |
| CompactionExchanges.CleanedAnchoredIsWhole | nls/agentic/compactor.py:547-611 | for every well-formed history with proper ids and every cut, the cleaned result pairs calls with results if and only if, of the messages kept, every result comes with its turn and at most one turn without some of its results |
| CompactionExchanges.PriorityResultIsTorn | nls/agentic/compactor.py:556-563 | a result in the dropped span that is a priority message while its turn is not is kept alone, before and after clean-up |
| CompactionExchanges.PriorityResultIsKeptAlone | nls/agentic/compactor.py:182-214 | it happens: histories of four messages, with every budget that puts the cut behind such a result |
| CompactionExchanges.OthersStayWhole | nls/agentic/compactor.py:481-482 | setting system messages aside never separates calls from results |
| CompactionExchanges.FallbackKeepsExchangesWhole | nls/agentic/compactor.py:481-511 | for every well-formed history with distinct result ids, the fallback keeps exchanges whole if and only if each turn is kept, as recent or priority, together with its results |
| CompactionExchanges.FallbackWithPlainPriority | nls/agentic/compactor.py:481-511 | whatever the ids, if no turn with calls and no result is moved as a priority message: if and only if the oldest recent message is no tool result |
| CompactionExchanges.CleanedFallbackIsWhole | nls/agentic/compactor.py:481-511 | the same for the cleaned result of the fallback, on every well-formed history with proper ids |
| CompactionExchanges.FallbackTears | nls/agentic/compactor.py:483-490 | a boundary between a turn that is no priority message and one of its results tears the exchange, before and after clean-up |
| CompactionExchanges.LongTurnIsTorn | nls/agentic/compactor.py:483-490 | so is the last turn of any history, once it has as many results as the fallback keeps messages |
| CompactionExchanges.FourReadsAreTorn | nls/agentic/compactor.py:483-490 | it happens: a turn with four results behind any system prompt and any request |
| Supersession.IndexResults | nls/agentic/context_supersession.py:273-280 | the index of the last result of each call id from the start index on |
| Supersession.PairToolTurns | nls/agentic/context_supersession.py:265-315 | one record per call that has a result, in order |
| Supersession.GroupByIntent | nls/agentic/context_supersession.py:360-362 | records grouped by intent key, keys in order of first appearance |
| Supersession.RewriteGroup | nls/agentic/context_supersession.py:402-458 | rewrites the stale bodies of one group in the array and notes them in the anchor |
| Supersession.ApplySupersession | nls/agentic/context_supersession.py:338-501 | the array, the counters and the anchor's notes after a whole pass |
| Supersession.SupersessionPass | nls/agentic/context_supersession.py:338-501 | a pass with an anchor and totals that may be absent: the anchor changes in its notes only, the totals grow by the stubs and a quarter of the characters saved |
| Supersession.PlanEdits | nls/agentic/context_supersession.py:366-447 | an edit is planned if and only if an active policy finds some record of some intent group stale, and it is that record's edit |
| SupersessionProperties.OnlyToolBodiesChange | nls/agentic/context_supersession.py:338-349 | a pass changes bodies of tool messages only; length, order, roles and ids stay |
| SupersessionProperties.StubsAreCounted | nls/agentic/context_supersession.py:449-455 | the reported number of stubs is the number of bodies that became stubs |
| SupersessionProperties.StubbedExactly | nls/agentic/context_supersession.py:360-455 | a body is a stub afterwards if and only if it was one before or a call it answers is stale in its intent group |
| StaleResults.StubbedByTable | nls/agentic/context_supersession.py:360-479 | with unique call ids, the j-th result of an intent is a stub after the pass if and only if it was one or the table says so: by success or failure of it and of the newest, tool names, equal failures, position, limits and deliverables |
| StaleResults.ErrorClassExactly | nls/agentic/context_supersession.py:178-193 | two failures are alike by the first of seven named ones in their first 120 characters, lower-cased, else by their first 40 |
| StaleResults.RecordsExactly | nls/agentic/context_supersession.py:265-315 | the records of a pass are exactly the calls paired with the last result for their id, a failure being told by the recorded bit or else by the first 200 characters |
| StaleResults.StubSays | nls/agentic/context_supersession.py:318-335 | the whole text of a stub: count, tool, reason, cache key, the failure itself if a later success resolved it and it came last, and how to get the output back, cut to the room there is |
| StaleResults.NotesExactly | nls/agentic/context_supersession.py:476-487 | the anchor's notes afterwards are those it had and one for every result that was collapsed |
| StaleResults.RefersExactly | nls/agentic/context_supersession.py:452-457 | a cache reference is counted if and only if a newer read replaces a read of a cached file |
| StaleResults.AppliedRefers | nls/agentic/context_supersession.py:452-477 | and for every planned edit, even of a body that is a stub already |
| StaleResults.SavedExactly | nls/agentic/context_supersession.py:476-483 | the characters reported as saved are those by which bodies have become shorter |
| StaleResults.PathOfRead | nls/agentic/context_supersession.py:258-262 | the path of a read is what stands between "read:" and its range or limit |
| StaleResults.NoBashAttempts | nls/agentic/context_supersession.py:430-468 | no result is ever collapsed as a superseded attempt of bash |
| SupersessionProperties.SafeReadsKept | nls/agentic/context_supersession.py:375-423 | with unique call ids, reads limited by max_chars, and for an orchestrator reads of deliverables, keep their bodies although newer ones follow |
| SupersessionProperties.NewestKept | nls/agentic/context_supersession.py:370-383 | with unique call ids the newest result of every intent keeps its body |
| SupersessionProperties.Idempotent | nls/agentic/context_supersession.py:449-455 | with unique call ids a second pass changes no message, no counter of stubs or characters, and no note |
| SupersessionProperties.PolicyRefinement | nls/agentic/context_supersession.py:379-423 | what the conservative policy stubs the aggressive one stubs too |
| SupersessionProperties.FrozenPoliciesStubNothing | nls/agentic/context_supersession.py:350-352 | the disabled and the frozen policy change nothing |
| SupersessionProperties.NewestLostWithSharedId | nls/agentic/context_supersession.py:297-302 | two equal reads, of any file, that carry one id and are answered by one message: its body, the newest, is stubbed, unless it is an error or the read is limited by max_chars |
| SupersessionProperties.PassIsStepOfRun | nls/agentic/context_supersession.py:449-461 | a pass is a step of the runs in which communications are never forgotten |
| PhaseBoundary.OneMarkerDecides | nls/agentic/phase_boundary.py:10-35 | of the four review markers only one ever decides |
| PhaseBoundary.History.EnsureUserQuery | nls/agentic/phase_boundary.py:43-65 | inserts the request, or the placeholder, after the leading system messages exactly when no user message exists |
| PhaseBoundary.History.TrimForPhaseBoundary | nls/agentic/phase_boundary.py:68-112 | returns the same list when nothing is to be trimmed and a fresh trimmed one otherwise |
| PhaseBoundary.QueryIsReview | nls/agentic/phase_boundary.py:31-53 | the injected query reads as a review exactly when the request contains the marker |
| PhaseBoundary.TrimIsProjection | nls/agentic/phase_boundary.py:79-105 | a trimmed history has at most 13 messages and a user message, its turns are a suffix of the non-review turns, and it has no review turn exactly when none was injected |
| PhaseBoundary.TrimTwice | nls/agentic/phase_boundary.py:68-112 | trimming twice equals trimming once if and only if the first trim did nothing, injected no review, or had reviews to drop and a system message to keep |
| PhaseBoundary.SecondTrimDiffers | nls/agentic/phase_boundary.py:68-112 | it differs for fifteen or more agent turns and a request that asks for a completion review |
| PhaseBoundary.TrimExactly | nls/agentic/phase_boundary.py:78-88 | a history is left alone if and only if it is empty, or has no review and at most 14 turns; else the last 10 other turns stay, 8 if there were reviews |
| PhaseBoundary.HeadExactly | nls/agentic/phase_boundary.py:104-104 | of the system messages the first stays, before the boundary |
| PhaseBoundary.BoundarySays | nls/agentic/phase_boundary.py:92-102 | the boundary names the plan, and the goals or else the request, up to 400 characters |
| PhaseBoundary.QueryExactly | nls/agentic/phase_boundary.py:43-65 | a history without a user gets the request, or the stand-in, right behind its leading system messages |
| PhaseBoundary.ReviewExactly | nls/agentic/phase_boundary.py:31-35 | any message but a tool result is a review if and only if it contains the marker |
| RuntimeManager.Manager.Start | desktop/electron/runtime-manager.ts:95-109 | returns when running, joins a pending start, otherwise begins one |
| RuntimeManager.Manager.StartInternal | desktop/electron/runtime-manager.ts:111-196 | adopts a tracked child, waits for the environment, fails, or spawns |
| RuntimeManager.Manager.SpawnChild | desktop/electron/runtime-manager.ts:182-196 | a child is spawned only when none is tracked |
| RuntimeManager.Manager.OnSetupEnds | desktop/electron/runtime-manager.ts:134-196 | after first-time setup a child is spawned into a free slot or the start fails; the event enters the history and the object stays where its history leads |
| RuntimeManager.Manager.OnStartSettles | desktop/electron/runtime-manager.ts:115-125 | a start that becomes healthy resets the attempts and starts the health check; its waiters learn the outcome; the event enters the history and the object stays where its history leads |
| RuntimeManager.Manager.OnChildExits | desktop/electron/runtime-manager.ts:210-234 | clears the slot; code 75 starts again at once, any other exit schedules a restart; the event enters the history and the object stays where its history leads |
| RuntimeManager.Manager.StopAfterRelease | desktop/electron/runtime-manager.ts:261-332 | waits for a tracked child, otherwise finishes; the event enters the history and the object stays where its history leads |
| RuntimeManager.Manager.OnTickProbes | desktop/electron/runtime-manager.ts:548-590 | a healthy tick resets the failures, an unhealthy one looks for agent activity, counts, or returns; the event enters the history and the object stays where its history leads |
| RuntimeManager.Manager.OnTickChecks | desktop/electron/runtime-manager.ts:566-599 | agent activity defers; otherwise the failure counts and the third one kills; the event enters the history and the object stays where its history leads |
| RuntimeManager.Manager.ScheduleAutoRestart | desktop/electron/runtime-manager.ts:625-681 | uses one attempt and sets one timer, unless stopping, unwanted or out of attempts |
| RuntimeManager.Manager.Handle | desktop/electron/runtime-manager.ts:95-682 | whatever event comes next, the object moves as the state machine does and stays where its whole history leads |
| RuntimeManager.Manager.OnTimerFires | desktop/electron/runtime-manager.ts:650-664 | a fired timer waits for idle agents unless a child is tracked, a stop is under way or restarts are unwanted; the event enters the history and the object stays where its history leads |
| RuntimeManager.Manager.OnWaitEnds | desktop/electron/runtime-manager.ts:665-668 | checks again after the wait, then starts; the event enters the history and the object stays where its history leads |
| RuntimeProperties.AtMostOneStart | desktop/electron/runtime-manager.ts:95-109 | in every interleaving at most one start is in flight |
| RuntimeProperties.SpawnsIntoFreeSlot | desktop/electron/runtime-manager.ts:111-196 | in every reachable state a child is spawned only when none is tracked |
| RuntimeProperties.AttemptsBounded | desktop/electron/runtime-manager.ts:625-638 | the attempts never exceed five |
| RuntimeProperties.FiresSpendBudget | desktop/electron/runtime-manager.ts:625-681 | without a successful start or a stop, pending timers plus attempts left drop by exactly one at each timer fire and at nothing else |
| RuntimeProperties.RestartsCease | desktop/electron/runtime-manager.ts:210-234 | so only a bounded number of timers fires in any such stretch |
| RestartProperties.CrashSchedules | desktop/electron/runtime-manager.ts:213-236 | an exit with any code but 75 spawns nothing; it uses an attempt and sets a timer if and only if not stopping, wanted and fewer than five were used |
| RestartProperties.RequestedExitRelaunches | desktop/electron/runtime-manager.ts:219-229 | an exit with code 75 relaunches at once or joins the start under way, without timer or attempt |
| RestartProperties.CrashLoopEnds | desktop/electron/runtime-manager.ts:213-236 | after any run, until someone starts, a start succeeds or a stop ends, no more children are spawned than timers, fired timers, attempts left of five and one prepared start allow |
| RestartProperties.SchedulesExactly | desktop/electron/runtime-manager.ts:625-650 | over all events, which ones set a restart timer |
| RestartProperties.AttemptsExactly | desktop/electron/runtime-manager.ts:625-682 | each timer costs an attempt; only a successful start and the end of a stop give them back |
| RestartProperties.SpawnsExactly | desktop/electron/runtime-manager.ts:111-249 | over all events, which ones spawn a child |
| RestartProperties.FlightsExactly | desktop/electron/runtime-manager.ts:95-253 | and which begin, advance or end a start |
| RestartProperties.SlotExactly | desktop/electron/runtime-manager.ts:111-335 | and which free the slot |
| RestartProperties.RunningExactly | desktop/electron/runtime-manager.ts:111-335 | when the runtime counts as running |
| RestartProperties.FailuresExactly | desktop/electron/runtime-manager.ts:546-600 | how health ticks count failures: deferred ones neither count nor reset |
| RestartProperties.OutcomesExactly | desktop/electron/runtime-manager.ts:665-682 | every restart timer that asked for a start wins or loses once |
| RestartProperties.WaitsExactly | desktop/electron/runtime-manager.ts:650-664 | a fired timer waits for idle agents only with no child, no stop under way and restarts wanted |
| RestartProperties.StoppingExactly | desktop/electron/runtime-manager.ts:256-335 | from the begin of a stop to the end of one the manager is stopping |
| RestartProperties.DrainsExactly | desktop/electron/runtime-manager.ts:256-335 | a stop waits for the child if and only if one is tracked when its leases are released |
| RestartProperties.ChecksExactly | desktop/electron/runtime-manager.ts:546-600 | a tick that is not healthy looks for agent activity if and only if a child is tracked |
| RestartProperties.SettledExactly | desktop/electron/runtime-manager.ts:95-109 | the outcome of a start is kept until it is forgotten |
| RestartProperties.LiveExactly | desktop/electron/runtime-manager.ts:111-249 | children live from their spawn to the exit that is seen |
| RuntimeProperties.KillsOnlyAfterThreeFailures | desktop/electron/runtime-manager.ts:546-600 | in every interleaving a forced kill follows a third counted failure with no healthy tick between; deferred ticks neither count nor reset |
| RuntimeProperties.KillsNeedIdleAgents | desktop/electron/runtime-manager.ts:566-599 | a forced kill happens if and only if a tick saw no agent activity and a tracked child at the third counted failure |
| RuntimeProperties.StoppingSchedulesNothing | desktop/electron/runtime-manager.ts:256-260 | from the begin of a stop until a stop ends, over every interleaving, no restart is scheduled and no fired timer goes on to restart |
| RuntimeProperties.StepTracksLive | desktop/electron/runtime-manager.ts:210-214 | one event leaves every live child tracked if and only if it is not a stop that ends, or a kill at the third failure, while the tracked child is live |
| RuntimeProperties.RunTracksLive | desktop/electron/runtime-manager.ts:256-332 | over every run from the start: live children are tracked throughout if and only if no event of the run gives up a live child |
| RuntimeProperties.StopAbandonsChild | desktop/electron/runtime-manager.ts:293-309 | a run of four events after which a live child is not tracked |
| RuntimeProperties.SecondChildBesideAbandoned | desktop/electron/runtime-manager.ts:95-109 | three more events and two children are live |
| Placeholders.Substitute | scripts/translate_locales.py:52-57 | every leftmost match becomes the marker of its token |
| Placeholders.Protect | scripts/translate_locales.py:49-58 | tags are lifted first, then template expressions |
| Placeholders.Restore | scripts/translate_locales.py:61-64 | every marker is replaced, in the order of the tokens |
| Placeholders.MatchExactly | scripts/translate_locales.py:21-22 | a match is the prefix that is a tag, "<" to the first ">" with something between, or a template expression, "{{" to the first "}" with something between, doubled |
| Placeholders.ProtectedExactly | scripts/translate_locales.py:49-58 | a protected text is the original with its tags, from the left and leaving none that begins earlier, replaced by numbered markers, and then the same with template expressions |
| PlaceholderProperties.StashRender | scripts/translate_locales.py:52-57 | lifting commutes with spelling markers out: a marker in the text is never part of a match boundary |
| PlaceholderProperties.ReplaceRender | scripts/translate_locales.py:62-63 | replacing one marker replaces exactly that marker, if its number is not spelled in the text; no marker overlaps another or the underscores around it |
| PlaceholderProperties.RestoreInvertsProtect | scripts/translate_locales.py:49-64 | on every text that spells the number of none of its own markers, restoring undoes protecting if and only if no template expression encloses a tag |
| PlaceholderProperties.RestoreAfterTranslation | scripts/translate_locales.py:61-64 | after the text between the markers was translated, markers moved, dropped or repeated, every marker becomes its token and the rest stays |
| PlaceholderProperties.MarkerTextBreaksRoundTrip | scripts/translate_locales.py:49-64 | for every text that spells the first marker before anything is lifted: it is restored if and only if nothing in it is lifted |
| LocaleTree.Flatten | scripts/translate_locales.py:27-35 | in whatever order keys are visited, one entry per dotted path to a text |
| LocaleTree.Unflatten | scripts/translate_locales.py:38-46 | the dictionary built entry by entry, or failure where a text is in the way |
| LocaleTreeProperties.NestedKeys | scripts/translate_locales.py:41-45 | one split path is a proper prefix of another exactly when the key with a dot begins the other key |
| LocaleTreeProperties.UnflattenFails | scripts/translate_locales.py:43-45 | rebuilding fails exactly when an entry comes after one whose key, with a dot, begins its own |
| LocaleTreeProperties.FlattenUndoesUnflatten | scripts/translate_locales.py:27-46 | flattening a rebuilt map gives it back if and only if no key begins with a dot and no key, with a dot, begins another |
| LocaleTreeProperties.SameLeavesSameTree | scripts/translate_locales.py:27-35 | dictionaries without empty sub-dictionaries are determined by the texts at their paths |
| LocaleTreeProperties.UnflattenUndoesFlatten | scripts/translate_locales.py:27-46 | rebuilding a flattened dictionary gives it back if and only if its keys have no dots, it holds no empty dictionary and none is filed under an empty key at the top |
| LocaleTreeProperties.OrderIrrelevant | scripts/translate_locales.py:38-46 | for prefix-free keys the rebuilt dictionary does not depend on the order of the entries |
| SteeringQueue.GetSteeringMessages | nls/agentic/bridge.py:2307-2394 | the messages and the queue after one drain, with the directive appended if and only if a delivered item carries a hint; without a queue, just the surface messages |
| SteeringQueue.DrainConserves | nls/agentic/bridge.py:2340-2377 | the queue before equals delivered plus discarded plus the queue after, as multisets |
| SteeringProperties.DrainExactly | nls/agentic/bridge.py:2340-2379 | before the first item that must stay or cannot be converted, every text that is not blank, every dictionary with content and every hint or extension for the chat is delivered in order, as its own message; only items with nothing to say are dropped; what must stay goes to the back |
| SteeringProperties.FateExactly | nls/agentic/orchestrator_hint.py:96-126 | the message of each kind of item, with default texts and the limit of 4000 characters, and which interventions stay on the queue |
| SteeringProperties.DirectiveExactly | nls/agentic/bridge.py:2346-2394 | the directive follows if and only if a delivered dictionary shows one of the orchestrator's marks |
| SteeringQueue.DrainStopsAtFirstReturned | nls/agentic/bridge.py:2367-2377 | a drain takes everything before the first item that must stay or fails, in order, and moves the former to the back |
| SteeringQueue.MessagesMatchItems | nls/agentic/bridge.py:2343-2360 | each delivered item contributes its own message, in queue order |
| SteeringQueue.HintsAreHeard | nls/agentic/orchestrator_hint.py:96-125 | a hint not confined to the ring always triggers the directive |
| SteeringQueue.DrainsDeliverEverything | nls/agentic/bridge.py:2339-2377 | one drain more than there are items that end a drain delivers every deliverable item in order and leaves the items to keep, rotated once |
| Permissions.PermissionManager.ResolveAccess | desktop/electron/permission-manager.ts:251-284 | base decision, else exact decision, else inherited grant, else unknown |
| Permissions.PermissionManager.RequireAccess | desktop/electron/permission-manager.ts:112-154 | the recorded decisions afterwards, and whether the call succeeds |
| Permissions.PermissionManager.RequestAccess | desktop/electron/permission-manager.ts:159-185 | answers from the recorded decision or records a new one |
| Permissions.PermissionManager.ApplyProfileGrants | desktop/electron/permission-manager.ts:216-228 | overwrites the base decisions of a profile one by one |
| Permissions.PermissionManager.ResetAll | desktop/electron/permission-manager.ts:240-243 | afterwards every permission with every scope is undecided |
| Permissions.PermissionManager.Load | desktop/electron/permission-manager.ts:339-358 | files each saved decision under its key |
| Permissions.PermissionManager.Save | desktop/electron/permission-manager.ts:360-378 | loading what was written gives the store back, entry for entry; a failed write leaves the file as it was |
| PermissionProperties.KeyInjective | desktop/electron/permission-manager.ts:286-288 | keys determine permission and scope, unless one name extends the other by a colon |
| PermissionProperties.KeysCollide | desktop/electron/permission-manager.ts:286-288 | two names can share a key if and only if one extends the other by a colon |
| PermissionProperties.ScopedKeys | desktop/electron/permission-manager.ts:286-288 | a name is the key of some scoped decision if and only if it holds a colon that is not its last character |
| PermissionProperties.ColonConfusesNames | desktop/electron/ipc-handlers.ts:621-626 | and it is then answered by any such decision, made for another name |
| PermissionProperties.RequestedNameOverwritten | desktop/electron/ipc-handlers.ts:621-626 | a requested name of that kind loses its decision: from the next scoped decision with its key on, it is answered by that |
| PermissionProperties.RunKeepsConsistent | desktop/electron/permission-manager.ts:112-185 | in every run, with any names, no permission has two decisions for the same normalised path |
| PermissionProperties.ScanIsAbstractMap | desktop/electron/permission-manager.ts:251-284 | the scan equals: base decision, else exact decision, else granted if and only if some ancestor directory is granted |
| PermissionProperties.OrderIrrelevant | desktop/electron/permission-manager.ts:265-281 | the answer does not depend on insertion order |
| PermissionProperties.RunKeepsAnswer | desktop/electron/permission-manager.ts:105-154 | a path once granted or denied keeps that answer over any run of scoped requests whose names do not extend each other by a colon |
| PermissionProperties.AnswersKeptExactly | desktop/electron/permission-manager.ts:105-154 | a set of names keeps every answer in every run of scoped requests if and only if none extends another by a colon |
| PermissionProperties.DecisionIsRemembered | desktop/electron/permission-manager.ts:138-147 | a new decision is what every later request for any spelling of the path gets |
| PermissionProperties.NameDecided | desktop/electron/permission-manager.ts:159-185 | a name that is requested, or required without scope, is decided for every scope; file access is never refused |
| PermissionProperties.NameKept | desktop/electron/permission-manager.ts:112-165 | a decided name keeps its decision, whoever asks again |
| PermissionProperties.ProfileDecides | desktop/electron/permission-manager.ts:216-228 | a profile decides every name it lists, whatever was decided before; the last listing counts |
| PermissionProperties.CoversExactly | desktop/electron/permission-manager.ts:265-281 | a directory covers itself and what begins with its path and a slash |
| PermissionProperties.LoadUndoesSave | desktop/electron/permission-manager.ts:339-374 | loading what was saved restores the store of any run, with any names, entry for entry |
| Breadcrumbs.BreadcrumbEngine.constructor | nls/agentic/breadcrumbs.py:73-77 | takes the given rules, or the defaults when there are none, and indexes them |
| Breadcrumbs.BreadcrumbEngine.AddRule | nls/agentic/breadcrumbs.py:79-81 | appends the rule and keeps the index in step |
| Breadcrumbs.BreadcrumbEngine.Evaluate | nls/agentic/breadcrumbs.py:83-111 | looking at two index buckets gives the hint a scan of the whole rule list gives |
| Breadcrumbs.Try | nls/agentic/breadcrumbs.py:88-110 | a rule offers text exactly when profile, tools, condition and rendering all pass |
| Breadcrumbs.SilentExactly | nls/agentic/breadcrumbs.py:88-110 | a rule stays silent if and only if its profiles are others, a required tool is locked, no alternative is unlocked, its condition fails or does not hold, or its text fails or is empty |
| Breadcrumbs.BucketsGiveHint | nls/agentic/breadcrumbs.py:85-87 | exact bucket before wildcard bucket equals the two scans of the whole list |
| Breadcrumbs.HintIsFirstMatch | nls/agentic/breadcrumbs.py:83-111 | the hint is that of the first passing rule with the exact trigger, else of the first with the wildcard, in list order |
| Breadcrumbs.NoHintMeansSilence | nls/agentic/breadcrumbs.py:83-111 | there is no hint exactly when no rule of either trigger passes |
| Breadcrumbs.AddedRuleYields | nls/agentic/breadcrumbs.py:79-81 | an added rule changes a hint only if it passes and no exact rule nor earlier rule of its trigger did |
| ModelFit.SortSorts | desktop/electron/model-fit-catalog.ts:168-172 | the ranking is sorted, a permutation, and keeps the order of ties |
| ModelFit.StableSortUnique | desktop/electron/model-fit-catalog.ts:168-172 | no other list is sorted by this comparator with ties in the same order |
| ModelFit.ComfortableMeansEnough | desktop/electron/model-fit-catalog.ts:116-121 | a fit is perfect or good exactly when the required memory is available |
| ModelFit.LevelExactly | desktop/electron/model-fit-catalog.ts:116-121 | a fit is perfect from 115 percent of the requirement on, and too tight below 72 |
| ModelFit.RankedExactly | desktop/electron/model-fit-catalog.ts:136-168 | an entry is ranked if and only if it is not too tight and, where Ollama is preferred, needs no vLLM |
| ModelFit.ListExactly | desktop/electron/model-fit-catalog.ts:168-174 | better fits come first, then Ollama models, then larger ones; without a limit the list has at most six entries |
| ModelFit.TruncationKeepsBest | desktop/electron/model-fit-catalog.ts:166-174 | the list is a sorted prefix of the ranked admissible entries, as long as the limit allows, and nothing left out ranks above anything kept |
| ModelFit.TruncationKeepsViability | desktop/electron/model-fit-catalog.ts:136-183 | for entries of at least 3B parameters and a limit of at least 1, local chat is viable if and only if some admissible entry fits the memory |
| ModelFit.ViabilityMonotone | desktop/electron/model-fit-catalog.ts:136-183 | more memory never makes local chat impossible |
| ModelFit.ShippedThreshold | desktop/electron/model-fit-catalog.ts:17-114 | with the shipped catalog local chat is viable exactly from 4 GB on, whatever the target and preference |
| ModelFit.SmallModelHidesViability | desktop/electron/model-fit-catalog.ts:166-183 | with a smaller model in the catalog, truncation can hide that local chat is possible |

## Left out

- Message bodies: an absent or null body is the empty string, and list-shaped bodies and other roles than the four do not occur.
- Strings: white space is ASCII, lower-casing is a parameter, and there is no Unicode normalisation.
- Patterns over call arguments, bash normalisation and intent keys: parameters (`Compaction.Scanner`, `Supersession.Inputs`); JSON parsing is not modelled.
- The summarising model: its prompt, its answer's parsing and its timeout; clean-up itself raises nothing in the fallback.
- CompactionProperties.StepRemembers: that something fails between the merge of the anchor and the end of the step is an over-approximation, the extent of the source's exception handler; no input is known that makes it fail there.
- Listing.ListedExactly: a communication that ends in white space or holds an empty line is covered by CompactionProperties.NeverForgotten only, because merging may strip the one and put together the other.
- The loop around compaction: the prompt hook is part of runs as the steps it takes (`CompactionProperties.Composed`); what it composes is arbitrary.
- Sanitizer.SanitizedKeepsSystemText: placeholders for several unanswered calls are inserted in order of first appearance, where the source iterates over a set; effects on message dictionaries that callers share are not captured.
- Supersession.ApplySupersession: the read index is a function from path to cache key. A second pass may count cache references again, so these are no part of idempotence.
- PhaseBoundary trimming drops anchors with all but the first system message, so it is no step of the compaction runs.
- LocaleTree.Unflatten: builds by value, where the source updates nested dictionaries in place; leaves are strings.
- PlaceholderProperties.RestoreInvertsProtect: texts that spell the number of one of their own markers are characterised only where the first marker is spelled in full before anything that is lifted.
- Placeholders: network translation, caching and the keys that are skipped.
- RuntimeManager: processes, HTTP probes, port clean-up, logs, status broadcasts and lease heartbeats are outcomes of events or absent. Exceptions inside stop() are not modelled, and nothing is claimed about restarts after a stop: a timer set before it may still fire.
- SteeringQueue.GetSteeringMessages: the surface inbox drained first is a parameter, and nothing arrives during a drain; an item fails only for want of a text message.
- Permissions.PermissionManager.RequireAccess: requests are decided one at a time; time stamps and the dialog are left out.
- Breadcrumbs.BreadcrumbEngine.Evaluate: the profile in the context is already normalised, and the default rules are a parameter.
- ModelFit.TruncationKeepsBest: recommendations carry no reason text or use case; memory sizes are exact reals.
- should_compact, resolve_supersession_policy, sync_open_blockers, resolve_hint_delivery, getAll and getProfiles: small guards and projections that would only add easy members.
- Update checks, shutdown traces, prompts, budgets, telemetry and user interface code.
