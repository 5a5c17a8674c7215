# Verification models of the site builder

The repository builds and runs web sites on its own: a language model is driven through a
pipeline of stages and edits a site with tools. The modules here model the algorithms and
state machines in it that carry invariants, and prove what they promise.

| modules | subject |
|---|---|
| `History`, `HistoryShape`, `HistoryReports`, `ToolLoop`, `ToolLoopRuns`, `ToolLoopEnds`, `ToolLoopTurns`, `SplitReplies`, `ToolLoopWorker`, `Progress` | the conversation with the model: the bounded tool loop, pruning of the history, the tracker of plan items |
| `JsonScan`, `JsonRepair`, `JsonCuts` | the bracket scanners and the repair of truncated JSON (strings as in section 7 of RFC 8259) |
| `PlanModel`, `PlanReports`, `PlanPatch`, `PlanPatchLists`, `PlanEndpoints` | validation of a plan, patches to it, injection of missing endpoints |
| `JobTable`, `JobProtocol` | the queue of background jobs, alone and under any interleaving of workers and tools |
| `Pipeline`, `PipelineRuns`, `PipelineErrors` | the build loop with its retries and pauses, crashes, restarts and commands |
| `EditDistance`, `LineEdits`, `LineEditCalls`, `SimultaneousEdits`, `DeletedLines`, `ReplaceNear` | text editing kernels |
| `Templates`, `DryRuns`, `Layouts`, `Resample` | action templates, layout versions, image scaling |
| `Text`, `Substrings`, `KeyedLists`, `Wrappers` | the parts of Go's `strings` package that are called, lists with keys, options and results |

`dafny verify dfyconfig.toml` checks everything.

## How the model is set up

- Code that works on fields is a class (`Table`, `Plan`, `BuildProgressTracker`,
  `PipelineWorker`, `LayoutTool`) whose methods have the source's branches, and each method is
  proved equal to a function of the state before it. What the source promises is proved about
  these functions, over all inputs or all runs. Loops of the source are loops here.
- What the program cannot determine is a parameter: replies of the language model, results of
  tools, outcomes of stages, the clock, whether a database access succeeds, the order in which
  Go iterates a map and the order `sort.Slice` leaves equal keys in.
- A statement guarded in SQL is one atomic step. A NULL column is `None`; `NOT IN` is not true of
  NULL, so a pause without a reason is not lifted by a recovery.
- A character of a string stands for a code point where the code only looks for ASCII
  delimiters, and for a byte in `ReplaceNear` and `EditDistance`, where positions and lengths are
  compared.

## Where the code does less than one may expect

Each of these is stated by a lemma, with the exact condition where there is one.

- Cancelling a running job is not final: the worker's last update is not guarded
  (`CancelledIsFinalIffNotHeld`). A job whose worker crashed is never retried
  (`OrphanStaysRunning`, `LostIffNotHeld`). With two workers or more, and only then, a job can
  start before its time (`PunctualIffSole`).
- A context message injected between two results of one reply lets a prune or a checkpoint split the
  group. Over whole runs the histories stay answered exactly when no prune cuts an open reply
  (`EveryRequestIsGoodIff`); a run of seven such replies does (`SplitRepliesBreakTheRun`,
  `SampleSplits`), and so can a checkpoint (`CheckpointWellFormedIff`).
- The repair of a text cut at an escaped quote is not balanced (`RepairBalancesIff`,
  `EscapedQuoteDefeatsRepair`); `findJSONEnd` and the stack differ on mismatched closers
  (`MismatchEndsEarly`).
- The counting test for completion is satisfied by items outside the plan
  (`UnplannedItemDefeatsCount`), exactly when they make up in number for what is missing
  (`AllCompleteIffNothingRemains`); only then does the grace window end a build with plan items
  missing (`GraceEndMissesOnlyMadeUp`).
- Deletes combined with insertions or ranges in one call can mean shifted lines
  (`InsertionShiftsDeletes`): they mean the original ones exactly when the edits above each
  deleted line add no lines in sum (`DeletesMeanOriginalLinesIff`).
- A pause requested by a tool in a stage that succeeds does not stop the loop
  (`PauseStopsIffFailed`); the pause of the circuit breaker does not survive a restart
  (`BreakerLocksIff`); a failed write while validation is given up parts the loop from the row
  (`PartsIff`).
- An owner who wakes a stage that had used up its retries runs it, but the error count stays: after
  a crash the restart does not build, with no pause set (`WokenBuildIsNotRecovered`).
- The dry run of an action resolves placeholders inside values, or such as a value completes
  (`NestedValueDependsOnOrder`, `StrayBracesDependOnOrder`; exactly when, `DryRunAgreesIff` and
  `DryRunAlwaysAgreesIff`), and keys that are no words (`NoWordAgreesIff`). It reports a match for
  a filter that cannot be parsed (`FilterReportIsRightIff`).
- While the write after a success fails the stage is run again, which no retry limit bounds
  (`LostAdvanceRepeats`); nothing else exceeds the limits (`RunsAreBounded`).
- A save, patch or revert goes on when the capture of the old version fails (`SaveKeepsIff`,
  `PatchKeepsIff`, `RevertKeepsIff`).
- A patch that writes colours into a design without a colour map panics half-way (`ApplyPatch`).

## Model

| member | source | states |
|---|---|---|
| `EditDistance.Levenshtein` | tools/pages.go:1031-1056 | the two-row loop returns the length of a shortest script of insertions, deletions and substitutions that turns a into b: some script has that length and none is shorter |
| `EditDistance.FillRow` | tools/pages.go:1045-1055 | from row i - 1 of the table the inner loop computes row i |
| `EditDistance.TableIsDist` | tools/pages.go:1045-1055 | every table entry is the distance of the two prefixes it stands for |
| `EditDistance.DistIsShortest` | tools/pages.go:1031-1056 | the recurrence on last characters is the least number of edits, against edit scripts executed step by step |
| `EditDistance.OneEditOneStep` | tools/pages.go:1048-1052 | one edit anywhere in a string changes its distance from any other by at most one |
| `EditDistance.ZeroOnlyForEqual` | tools/pages.go:1031-1056 | distance zero holds for equal strings and for no others |
| `EditDistance.Symmetric` | tools/pages.go:1031-1056 | the distance is the same in both directions (scripts are reversed) |
| `EditDistance.Triangle` | tools/pages.go:1031-1056 | the distance from a to c is at most that over any b |
| `EditDistance.FindClosestMethod` | tools/pages.go:1011-1028 | for every iteration order of the map: the result is a known method of the object within three edits, with none nearer, and empty exactly when there is none |
| `JobTable.Table.Enqueue` | tools/jobs.go:106-154 | exactly the accepted requests add one pending row under a new id; the tool clamps the limit to 1..10, and nothing else changes |
| `JobTable.NewJobIs` | tools/jobs.go:106-154 | a new job is pending, untried and due when it was asked for, or at once; the tool keeps a limit in 1..10, takes the nearer bound otherwise and three without one; the event action (actions/runner.go:651-661) drops the fraction of a positive limit and takes three otherwise |
| `JobTable.Table.Cancel` | tools/jobs.go:263-288 | one guarded update: only a pending or running row becomes cancelled, and the count of affected rows says so |
| `JobTable.Table.Claim` | brain/jobs.go:74-85 | the guarded claim marks a pending row running and counts an attempt, and affects nothing else |
| `JobTable.Table.HandleFailure` | brain/jobs.go:226-251 | a failed job becomes pending again after the backoff while attempts are left, and failed otherwise |
| `JobTable.Table.ProcessPending` | brain/jobs.go:61-101 | one undisturbed tick: select, claim, execute and settle |
| `JobTable.TickSettlesLowestReady` | brain/jobs.go:61-101 | the tick touches the lowest ready id only and starts it once; it ends completed exactly on success, failed exactly on a failure at its limit, and otherwise pending, due after exactly the backoff of this attempt |
| `JobTable.BackoffGrows` | brain/jobs.go:233-241 | the delay is 5 seconds after the first attempt, doubles with each until it is capped at 300, and never shrinks |
| `JobProtocol.NextKeepsInv` | brain/jobs.go:61-101 | every statement of every worker and tool keeps the invariant of rows, log of executions and holders |
| `JobProtocol.AtMostOneExecutor` | brain/jobs.go:74-101 | in every reachable state of any number of workers at most one holds a given job |
| `JobProtocol.AttemptsCountExecutions` | brain/jobs.go:74-101 | attempts is the number of executions started and never exceeds max(1, max_attempts) |
| `JobProtocol.CompletedAndFailedAreFinal` | brain/jobs.go:92-100 | a row completed or failed is never written again, whatever follows |
| `JobProtocol.CancelledIsFinalIffNotHeld` | tools/jobs.go:263-288 | a cancelled row stays cancelled under every continuation exactly when no worker holds the job at that moment: the final update of a worker is not guarded |
| `JobProtocol.CancelledWhilePendingIsFinal` | tools/jobs.go:263-288 | a job cancelled while pending stays cancelled and is never started again |
| `JobProtocol.UnheldRowIsLeftAlone` | brain/jobs.go:61-101 | only a cancel of a running row can write a row that is neither pending nor held |
| `JobProtocol.RowsSurvive` | brain/jobs.go:226-251 | no statement of the protocol removes a row or changes its limit |
| `JobProtocol.RunningIsHeld` | brain/jobs.go:74-101 | without crashes every running row has the worker that runs it |
| `JobProtocol.OrphanStaysRunning` | brain/jobs.go:61-101 | a running job whose worker stopped is never retried nor failed; only a cancel ends it |
| `JobProtocol.LostIffNotHeld` | brain/jobs.go:61-101 | a running row stays running on every continuation without a cancel exactly when no worker holds it: one that does can settle it in its next statement |
| `JobProtocol.SoleWorkerIsPunctual` | brain/jobs.go:62-85 | with one worker polling no job starts before its scheduled time |
| `JobProtocol.TwoWorkersCanStartEarly` | brain/jobs.go:74-85 | with any two workers one can: the claim checks the status again but not the schedule |
| `JobProtocol.PunctualIffSole` | brain/jobs.go:62-85 | a set of workers starts every job on time in all its runs exactly when it has at most one member |
| `JobProtocol.TickIsARun` | brain/jobs.go:61-101 | the sequential tick is the run in which one idle worker takes its steps in a row |
| `JsonScan.CountBracketStack` | brain/plan.go:501-534 | the loop returns the stack of open brackets and whether the text ends inside a string, as the scanner defines them |
| `JsonScan.FindJSONEnd` | brain/plan.go:404-436 | the result is the least end at which the depth counter returns to zero, or -1 when it never does |
| `JsonScan.DepthIsHeight` | brain/plan.go:404-534 | the counter equals the height of the stack exactly when no closer was mismatched |
| `JsonScan.EndIsWhereStackEmpties` | brain/plan.go:404-534 | with no mismatched closer the end is exactly where the stack empties |
| `JsonScan.CutAtEndIsBalanced` | brain/plan.go:404-436 | what is cut off at that end is balanced |
| `JsonScan.MismatchEndsEarly` | brain/plan.go:404-534 | with a mismatch the counter can reach zero while the stack is not empty |
| `JsonScan.BalancedIffTree` | brain/plan.go:501-534 | a text the scanner calls balanced is the text of a properly nested tree, and conversely |
| `JsonRepair.RepairTruncatedJSON` | brain/plan.go:537-585 | scan, cut, scan again and close: the reassignments of the loop give the repaired text the lemmas are about |
| `JsonRepair.RepairBalancesIff` | brain/plan.go:537-585 | for every input: the result is balanced exactly when the trimmed input has no mismatched closer, opens no string after its brackets are closed, and is not cut at an escaped quote |
| `JsonRepair.RepairIsPrefixPlusClosers` | brain/plan.go:537-585 | the result is a prefix of the trimmed input plus the closers of what that prefix leaves open; text that starts with no bracket is returned trimmed |
| `JsonCuts.SeparatorsGo` | brain/plan.go:568-584 | a text that ends outside strings with brackets open loses exactly the blanks, commas and colons at its end, which determines the cut |
| `JsonCuts.OpenStringGoes` | brain/plan.go:547-584 | a text that ends inside a string, whatever the string, is cut before its last quote, at the key if a colon precedes, and what is left does not end in a blank or comma; each position of the cut is stated on the text |
| `JsonCuts.WholeStringGoes` | brain/plan.go:547-584 | when the last quote is not an escaped one it is where the open string begins: the string goes and, if it was a value, its colon and all of its key, with blanks and commas before them, and nothing else |
| `JsonCuts.TrimmedTextIsCut` | brain/plan.go:537-585 | every trimmed text is returned as it is, when it starts with no bracket or has none open, or else is cut in one of these ways and closed |
| `JsonRepair.TruncatedDocumentIsRepaired` | brain/plan.go:537-585 | every truncation of a well-nested document without escaped quotes is repaired to a balanced text |
| `JsonRepair.RepairIsIdempotentIff` | brain/plan.go:537-585 | repairing twice is repairing once, exactly when the first repair did not cut at an escaped quote |
| `JsonRepair.CutPartNeedsNoRepair` | brain/plan.go:404-585 | the part findJSONEnd cuts off is left unchanged by the repair |
| `JsonRepair.EscapedQuoteDefeatsRepair` | brain/plan.go:546-570 | a text with no mismatch whose repair is not balanced, because the cut is made at an escaped quote |
| `PlanModel.ValidatePlan` | brain/plan.go:669-770 | the loops report the specified list of errors, in order |
| `PlanModel.NoErrorsIffValid` | brain/plan.go:669-770 | the report is empty exactly when the plan is valid by an independent definition (an app type, distinct page paths with the root among them, named tables with distinct columns that are not all system columns, known endpoint actions, colours and layout; table names may repeat) |
| `PlanReports.ReportedIffApplies` | brain/plan.go:669-770 | for every plan and each of the fifteen errors: it is reported exactly when what it says holds of the plan, stated without the report |
| `PlanPatch.Plan.ApplyPatch` | brain/plan.go:204-317 | the in-place edits of pages, endpoints, tables and design make the plan the patched one; a colour written into the nil map of a design panics, with everything but the design changed already |
| `PlanPatch.ValidNeverPanics` | brain/plan.go:204-317 | the panic is met only by plans the validator reports |
| `PlanPatch.PatchKeepsValidIff` | brain/plan.go:204-317 | a valid plan stays valid exactly when the patch is acceptable: fresh distinct pages, the root page kept, valid last word on each endpoint and table, no blanked required colour, valid layout |
| `PlanPatch.PatchKeepsNoErrorsIff` | brain/plan.go:204-770 | the same for the error reports of the validator |
| `PlanPatch.UnnamedPagesKept` | brain/plan.go:218-239 | pages the patch does not name keep their content and relative order |
| `PlanPatchLists.PutTablesExactly` | brain/plan.go:257-270 | for every list of tables: the first table of each modified name holds its last modification, every other table is as it was, and the new names follow in order of first appearance, each with its last modification |
| `PlanPatchLists.PutEndpointsExactly` | brain/plan.go:241-255 | the same for endpoints, by path and action |
| `PlanPatchLists.PagesExactly` | brain/plan.go:218-239 | of each path as many of the first pages go as the patch removes it; of the pages left the first of each modified path holds its last modification, the others are as they were, and the added pages follow |
| `PlanPatchLists.AdmittedAre` | brain/plan.go:205-216 | new endpoints are all added unless the exclusions say "no auth" in lower case; then all but the create_auth ones |
| `PlanPatchLists.DesignIs` | brain/plan.go:285-316 | each colour, extended or component entry comes from the update if it has the key and from the design otherwise; typography and intent change when given and the dark mode always |
| `PlanPatchLists.RestIs` | brain/plan.go:204-317 | the other lists grow by what is added, and authentication and layout change when given |
| `PlanEndpoints.ReferenceNamesItsResource` | brain/stages.go:730-770 | a reference of method, address under /api/ and optional query is read as its resource exactly when the method is GET, POST, PUT or DELETE in any case and neither the first word of the address nor all the rest is that of a sub-route; otherwise as none |
| `PlanEndpoints.NormalizePlanEndpoints` | brain/stages.go:672-725 | for every iteration order of the set: the injected endpoints are appended once for each needed path and nothing else changes |
| `PlanEndpoints.InjectedExactlyTheNeeded` | brain/stages.go:672-725 | a path is injected exactly when a page or section refers to it, it names a table and had no create_api endpoint |
| `PlanEndpoints.InjectedEndpointsAre` | brain/stages.go:715-723 | behind the old endpoints stands for each injected path a create_api endpoint on the table of that name |
| `PlanEndpoints.NormalizationIsComplete` | brain/stages.go:672-725 | afterwards every such reference has its endpoint, old endpoints are an unchanged prefix, and a second call injects nothing |
| `PlanEndpoints.NormalizationKeepsErrors` | brain/stages.go:672-725 | the error report of the validator is the same before and after |
| `Progress.BuildProgressTracker.TrackToolResult` | brain/progress.go:75-97 | the done-sets and the counter after one successful tool call |
| `Progress.BuildProgressTracker.RemainingItems` | brain/progress.go:43-65 | the plan items not built yet, tables, endpoints and pages in plan order |
| `Progress.RemainingAreUndone` | brain/progress.go:43-65 | what remains are the items of the plan that are not done, in the order of the plan |
| `Progress.AllCompleteIffNothingRemains` | brain/progress.go:43-72 | for every tracker the counting test and the item list differ in exactly two cases: items are missing and built items outside the plan make up for them, or nothing is missing and a key listed again is not made up for; with only plan items built, the test holds exactly when nothing remains and no key repeats |
| `Progress.EnoughIff` | brain/progress.go:68-72 | enough items are done by count exactly when those outside the plan are at least as many as the missing keys and the repeated ones together |
| `Progress.UnplannedItemDefeatsCount` | brain/progress.go:68-97 | a page outside the plan can satisfy the count with a plan page missing |
| `Progress.CompletionIsStable` | brain/progress.go:68-97 | completion, by either test, is never undone by further tool calls |
| `History.WellFormedIffPaired` | brain/tool_loop.go:455-521 | calls are answered one to one in order, stated by a running list of open calls and by positions, agree |
| `History.RemoveStale` | brain/messages.go:26-53 | the loops leave the latest page context only and drop blank user messages |
| `History.FindAnchors` | brain/messages.go:55-87 | the anchors kept are the earliest of the middle, up to the budget |
| `History.BuildZone` | brain/messages.go:99-135 | anchors in order with progress messages that summarise the calls between them |
| `History.PruneMessages` | brain/messages.go:20-139 | the whole prune, for every summary function |
| `HistoryReports.PrunedIsLaidOut` | brain/messages.go:20-139 | the whole result, message by message: the first message, the anchors that stay, the window, and in every gap between two neighbouring kept messages exactly one progress message with the non-empty summaries of the calls there, in order and joined by commas, or none where there are none; a history that fits is untouched or only cleaned |
| `History.PruneKeepsFirst` | brain/messages.go:96-97 | the first message survives unless it is blank or a page context |
| `History.PruneKeepsTight` | brain/messages.go:89-137 | a history without a foreign message between the results of a reply stays so |
| `History.PruneKeepsWellFormedIff` | brain/messages.go:89-137 | a well-formed history stays well-formed exactly when no reply is still open where the window is cut |
| `HistoryShape.CondensedOrigins` | brain/messages.go:96-139 | the result is the first message, the kept anchors and an unbroken suffix, each once and in order, with inserted progress messages in between |
| `HistoryShape.AnchorsSurviveIff` | brain/messages.go:69-87 | an anchor of the middle survives exactly when fewer than the budget precede it or it lies in the window; all do when there are at most 21 |
| `HistoryShape.BudgetIsEnoughUpTo21` | brain/messages.go:69-75 | the budget min(24, 14 + n/3) covers n anchors exactly for n up to 21 |
| `HistoryShape.CleanedOrigins` | brain/messages.go:26-53 | a message stays exactly when it is neither an earlier page context nor a blank user message, and order is kept |
| `HistoryShape.PrunedHasOnePageCtx` | brain/messages.go:26-53 | at most one page context is left |
| `HistoryShape.CondensedLength` | brain/messages.go:89-139 | at most 50 messages besides the window and the run of results at the cut |
| `HistoryShape.SplitReplyBreaks` | brain/messages.go:89-94 | a reply whose two results have an anchor between them, met by the start of the window: the prune of a well-formed history drops the reply and keeps its second result |
| `SplitReplies.SplitReplyIsCut` | brain/tool_loop.go:310-325 | the loop does hand such a history to the prune, with seven or more messages before the reply (six for one of the two places) |
| `SplitReplies.SeventhReplyIsCut` | brain/anchors.go:41-160 | a run without budget or plan whose replies have two calls and one anchor after the first result: the seventh reply makes 29 messages, cut inside the third reply |
| `SplitReplies.SplitRepliesBreakTheRun` | brain/tool_loop.go:127-326 | every such run of seven iterations or more sends, or ends with, a history in which a result has lost its call |
| `SplitReplies.SampleSplits` | brain/anchors.go:80-90 | there are such runs: each reply creates another table, by arguments that read back as what the call is executed with, and its schema anchor is new |
| `ToolLoop.ResultsClose` | brain/tool_loop.go:455-521 | after the first k results exactly the other calls of the reply are open |
| `ToolLoop.PartialResultsWellFormedIff` | brain/tool_loop.go:455-521 | the history after result k of n, before or after what is injected behind it, is well-formed exactly for k = n |
| `ToolLoop.CheckpointWellFormedIff` | brain/tool_loop.go:455-521 | a checkpoint saved at result k of n is a well-formed history exactly for k = n; one saved at an earlier result is not |
| `ToolLoopRuns.EveryRequestIsGoodIff` | brain/tool_loop.go:127-326 | for every model, tool and injection: all histories sent, and the final one, begin with the original first message and have every call answered, exactly when no prune the run reaches cuts where a reply still waits for results |
| `ToolLoopRuns.EveryRequestIsPairedIff` | brain/tool_loop.go:127-326 | the same by positions, from the start of a conversation: results answer the calls present one to one in call order |
| `ToolLoopRuns.NeverSplitsNeverCuts` | brain/tool_loop.go:127-326 | when nothing is injected between two results of a reply, no prune of the run cuts an open reply |
| `ToolLoop.EveryRequestIsSound` | brain/tool_loop.go:127-326 | when nothing is injected between two results of a reply, no request has a foreign message inside an open reply either |
| `ToolLoopRuns.EveryRequestIsPaired` | brain/tool_loop.go:127-326 | so when nothing is injected between two results of a reply every request has its calls answered one to one in order |
| `ToolLoop.OneCallNeverSplits` | brain/tool_loop.go:455-521 | replies with one call each never have a message injected between their results |
| `ToolLoop.RequestsAreBounded` | brain/tool_loop.go:127-146 | at most maxIter requests are sent |
| `ToolLoopEnds.IterationIs` | brain/tool_loop.go:127-326 | each iteration ends the run with the verdict told from replies and results alone (model failed, budget, finished, output limit, pause, two reading rounds, third round), or comes to the state the first n + 1 replies add up to |
| `ToolLoopEnds.RunEnds` | brain/tool_loop.go:127-326 | every run ends with the first verdict, or after as many iterations as allowed when there is none; tokens and executed calls are the sums over the replies |
| `ToolLoopEnds.RunEndsIff` | brain/tool_loop.go:127-326 | a run ends for a reason and with a certain reply exactly when that reply is the first with a verdict, and it is this one |
| `ToolLoopEnds.TextEndsIff` | brain/tool_loop.go:206-232 | it is finished exactly at the first reply with a verdict when that has no calls, is not cut off and is within budget, and stopped at the output limit exactly when it is cut off after four others without a whole call |
| `ToolLoopTurns.IterationSays` | brain/tool_loop.go:127-326 | each iteration sends the history it found and continues it by exactly these: the notice at nine tenths of the budget, the reply without a call cut off, the results with what they inject, one reminder, a request to go on or to call again, and a prune beyond the window and eight |
| `ToolLoopTurns.HistoriesAre` | brain/tool_loop.go:127-326 | so every history a run sends, and the one it leaves, is told from the replies and results alone |
| `ToolLoopTurns.CheckpointIs` | brain/tool_loop.go:492-507 | among the results of a reply the first that completes tables and endpoints with pages missing saves the history up to it, unless one was saved before; later ones save nothing |
| `ToolLoopTurns.PauseIsSaved` | brain/tool_loop.go:255-263 | a run that pauses leaves its whole history as the checkpoint |
| `ToolLoop.AtMostTwoRoundsAfterCompletion` | brain/tool_loop.go:268-300 | after the round that completes the plan tools are executed in at most two more |
| `ToolLoop.GraceEndMissesOnlyMadeUp` | brain/tool_loop.go:268-300 | a run ended by its grace window leaves plan items missing only where as many built items outside the plan make up for them |
| `ToolLoopWorker.PipelineWorker.ExecuteToolCalls` | brain/tool_loop.go:353-522 | calls finishing in any order give results in call order, with their injections, tracking, checkpoint and pause request |
| `ToolLoopWorker.PipelineWorker.AfterToolCalls` | brain/tool_loop.go:254-325 | pause, grace window, reminder and prune after the results, in that order |
| `ToolLoopWorker.PipelineWorker.ChargeTokens` | brain/tool_loop.go:152-187 | stop at the token budget, one wrap-up message at nine tenths of it |
| `ToolLoopWorker.PipelineWorker.HandleText` | brain/tool_loop.go:206-232 | a reply without calls ends the loop or, cut off, asks to continue up to the limit |
| `ToolLoopWorker.PipelineWorker.RunToolLoop` | brain/tool_loop.go:108-327 | the loop with its fields ends in the state, requests, counters and exit of the specified run |
| `LineEdits.SplitJoin` | tools/editing.go:35-35 | splitting at newlines loses nothing and leaves no newline in a line |
| `LineEdits.ApplyLineEdits` | tools/editing.go:34-140 | for every order the unstable sort may leave: range checks, edits from bottom to top, deletes and the count give the specified outcome |
| `LineEdits.ApplyEdit` | tools/editing.go:87-124 | one replacement, range or insertion, or the out-of-range error |
| `LineEdits.CollectDeletes` | tools/editing.go:38-47 | the set of line numbers to delete, or the error for one out of range |
| `LineEdits.DeleteLines` | tools/editing.go:125-137 | deleting from the highest number down leaves exactly the lines not named, in order |
| `LineEditCalls.LineAlone` | tools/editing.go:87-93 | a call with one line edit returns the text with that line exchanged, or the range error exactly when the line is beyond the end |
| `LineEditCalls.RangeAlone` | tools/editing.go:94-109 | a call with one range edit returns the lines before `from`, the lines of the content and the lines behind `to` (`from` when 0) exactly when from <= to <= n, and the range error otherwise |
| `LineEditCalls.InsertionAlone` | tools/editing.go:110-122 | a call with one insertion puts the lines of the content behind line `after`, or returns the range error exactly when that is beyond the end |
| `LineEditCalls.CallIsSimultaneous` | tools/editing.go:34-140 | for every call whose edits do not interfere and every order sorting may leave: the delete error, then the edit error, or the text with everything done at once, and the number of edits and deleted lines |
| `SimultaneousEdits.PassIsOneShot` | tools/editing.go:87-124 | the descending pass over edits that do not interfere equals editing every line at once in original numbers, and fails exactly when one is out of range there |
| `SimultaneousEdits.OrderIrrelevant` | tools/editing.go:69-85 | the simultaneous result does not depend on the order of the edits |
| `SimultaneousEdits.LineEditsAreSimultaneous` | tools/editing.go:34-124 | the same for edits as they arrive, with splices read off the fields line, from, to, after and content alone, for every order sorting may leave equal numbers in |
| `DeletedLines.LineMoves` | tools/editing.go:87-137 | a line that no range swallows, or the line that replaces it, is at its number plus the lines added above it when the deletes come |
| `DeletedLines.NumberIsShifted` | tools/editing.go:87-124 | that shift is the sum over the edits above of lines put minus lines taken |
| `DeletedLines.DeletesMeanOriginalLinesIff` | tools/editing.go:34-140 | the numbers deleted are those of the lines meant exactly when no delete has a net shift above it; then the call returns the edited text without these lines, and where the edited text repeats no line, only then |
| `DeletedLines.SinglesMeanOriginalLines` | tools/editing.go:34-140 | deletes beside edits of single lines only always mean the original lines |
| `DeletedLines.InsertionShiftsDeletes` | tools/editing.go:34-140 | a call that puts a blank line after the first of two lines and deletes the second returns the text it was given |
| `Substrings.ReplaceOne` | tools/editing.go:218-225 | a limit of one replaces the first occurrence and nothing else |
| `Substrings.ReplaceExchanges` | tools/editing.go:218-225 | the leftmost occurrences that do not overlap are exchanged and nothing else: as many as the limit allows and the count finds |
| `ReplaceNear.ReplaceNear` | tools/editing.go:244-279 | the occurrence nearest to the context is replaced; the first one when the context is absent |
| `ReplaceNear.FindNearest` | tools/editing.go:252-272 | the loop over all occurrences, overlapping ones included, finds the nearest, the earliest on ties |
| `ReplaceNear.DistanceBelowLength` | tools/editing.go:252-268 | every distance is below the initial bound, the length of the content, so a candidate is always found |
| `ReplaceNear.NearReplacesNearest` | tools/editing.go:244-279 | exactly one occurrence is exchanged, one that minimises the distance of the centres |
| `ReplaceNear.ApplyPatches` | tools/editing.go:199-240 | the text and the report after all patches, one after the other |
| `ReplaceNear.ContextPicksNearest` | tools/editing.go:214-217 | a patch whose context is in the text exchanges, of several occurrences, the nearest to it and nothing else, whatever its count |
| `ReplaceNear.ReportIs` | tools/editing.go:203-238 | a name is reported as applied, missing or ambiguous exactly when a patch so named finds, does not find, or finds several occurrences without context or count -1 in what the patches before it left |
| `ReplaceNear.OnePatchOneOccurrence` | tools/editing.go:214-226 | with a context that is absent, or without a context and a count of at most one other than -1, the first occurrence is exchanged and nothing else |
| `ReplaceNear.PatchExchanges` | tools/editing.go:218-225 | without a context, or when there is one occurrence at most: the leftmost occurrences that do not overlap change and nothing else, all for a count of -1, as many as a positive count says, else one |
| `ReplaceNear.EveryPatchIsReported` | tools/editing.go:203-238 | each patch with a search text is reported once, as applied or not found, and without an applied one the text is unchanged |
| `ReplaceNear.NoMatchIff` | tools/editing.go:203-238 | nothing is applied and something not found exactly when there is something to look for and none of it is in the text before the first patch |
| `Pipeline.PipelineWorker.RunStage` | brain/pipeline.go:303-415 | one handler run and what the loop makes of it: success, intentional pause, validation, permanent error, retry or exhaustion |
| `Pipeline.PipelineWorker.RunBuildPipeline` | brain/pipeline.go:239-416 | the loop ends with the row, exit and stages run of the specified run, for every sequence of outcomes and failing writes |
| `Pipeline.RunsAreBounded` | brain/pipeline.go:258-416 | for every sequence of outcomes and failing writes: the handler runs are at most the chances left at the stage and its successors, plus one for each success whose write was lost |
| `Pipeline.LoopIsBounded` | brain/pipeline.go:258-416 | when successes are written down, at most the chances left at the stage and all its successors are used, and the loop then ends in monitoring or a pause, whatever else fails |
| `Pipeline.FourteenOrEleven` | brain/pipeline.go:258-416 | at most 14 handler runs from EXPAND and 11 from UPDATE_PLAN, and one more for each lost write of a success; with none lost the loop then ends in monitoring or a pause |
| `Pipeline.EachStageIsBounded` | brain/pipeline.go:333-390 | VALIDATE runs at most twice, every other stage at most three times, and once more for each lost write of a success |
| `Pipeline.BoundIsReached` | brain/pipeline.go:258-416 | there is a run that uses every chance and still reaches monitoring |
| `Pipeline.BoundIsReachedWithLosses` | brain/pipeline.go:258-416 | for every number of lost writes there is a run with that many more handler runs, and it still reaches monitoring |
| `Pipeline.LostAdvanceRepeats` | brain/pipeline.go:396-402 | after any number of successes whose writes were lost, one after the other, the loop is where it was: each ran the same stage once more, and no retry is counted |
| `PipelineRuns.AutoRecover` | brain/pipeline.go:193-235 | the writes of a crash recovery, each of which may fail, and whether the build goes on |
| `PipelineRuns.RecoveryKeepsOwnersPauses` | brain/pipeline.go:203-231 | a recovery never lifts an approval pause, nor an owner-answer pause while a question is pending, whatever fails |
| `PipelineRuns.StageNeverGoesBack` | brain/pipeline.go:239-416 | over every history of turns, crashes, restarts and wakes, with any failing writes, the persisted stage only moves forward in the stage graph unless an update or fresh build sets it, and a stage that was left is not reached again |
| `PipelineRuns.RowAndLoopAgree` | brain/pipeline.go:396-414 | without failing writes the stage in memory equals the persisted one at each loop head and each step takes at most one edge of the graph |
| `PipelineRuns.PartsIff` | brain/pipeline.go:347-355 | with failing writes exactly one path parts the two: a validation given up while its write fails |
| `PipelineRuns.PauseStopsIffFailed` | brain/pipeline.go:319-331 | a pause written during a handler stops the loop exactly when the handler fails |
| `PipelineRuns.LockSurvivesCrashes` | brain/pipeline.go:193-235 | a locked pause (approval, unanswered questions, three errors) runs no stage through any number of crashes and restarts; only where the errors alone lock does a restart have to read their count |
| `PipelineErrors.RestartBuildsIff` | brain/pipeline.go:162-235 | over every history without failing writes: a restart in building mode runs the persisted stage with all its retries exactly when fewer than three failures were counted since the stage was set or recovered and no pause is left that only the owner lifts |
| `PipelineErrors.ErrorCountIs` | brain/plan.go:826-829 | over every history without failing writes the persisted count is the number of failures counted since the last written stage, update, fresh build or recovery, and zero right after every change of the stage |
| `PipelineErrors.CountIsRetries` | brain/pipeline.go:370-394 | while a stage runs the count is that of its retries plus what a wake carried over, and none in validation |
| `PipelineErrors.BelowLimitWhileRunning` | brain/pipeline.go:370-394 | when no wake takes over errors a running stage has fewer than three counted, one for each retry |
| `PipelineErrors.WokenBuildIsNotRecovered` | brain/plan.go:850-854 | a wake leaves the count: the stage woken with three errors runs, and after a crash the restart waits with no pause set |
| `PipelineErrors.CommandsStart` | brain/pipeline.go:443-520 | a fresh build runs the first stage with nothing counted or paused, whatever the row held; an update clears the count, keeps a pause, and runs when there is none |
| `PipelineRuns.ExhaustionLocks` | brain/pipeline.go:370-381 | a stage out of retries waits with a locked row that keeps the stage and has the failure counted |
| `PipelineRuns.BreakerLocksIff` | brain/pipeline.go:360-368 | a pause for a permanent error is locked only with three errors counted; otherwise the next restart lifts it |
| `PipelineRuns.PausedUntilWake` | brain/pipeline.go:443-520 | over every history from a paused row: updates included, no stage is run until a wake, a fresh build or a restart in building mode; a wake then lifts the pause, whatever it was for, and starts with the update if one was written, else with the stage the row had |
| `PipelineRuns.LoopIsARun` | brain/pipeline.go:258-416 | the loop is a history of turns of the state machine, which runs the same stages and ends with the same row and in the corresponding loop |
| `Templates.ResolveTemplateVars` | tools/actions.go:337-343 | the loop over the payload map, for every order of its keys |
| `Templates.OneKeyAgrees` | tools/actions.go:337-343 | for one word as key replace-all and the single pass agree on every template and every value |
| `DryRuns.DryRunAgreesIff` | tools/actions.go:337-343 | for a payload whose keys are words: the dry run gives the runtime text for every order of the map and every template whose double opening braces begin placeholders, exactly when no value holds the placeholder of another key, or ends in a beginning of it, unless that key stands for itself |
| `DryRuns.DryRunAlwaysAgreesIff` | actions/runner.go:134-149 | and for all templates exactly when no value can go on with such a placeholder either: start with an end of it, or lie inside it as the empty value does |
| `DryRuns.InTurnAgrees` | tools/actions.go:337-343 | for one given order the condition concerns only keys that come later |
| `DryRuns.DryRunAgrees` | tools/actions.go:337-343 | in particular when no value has an opening brace |
| `DryRuns.NestedValueDependsOnOrder` | tools/actions.go:337-343 | a value with a placeholder: the two differ for one of the orders |
| `DryRuns.StrayBracesDependOnOrder` | tools/actions.go:337-343 | a template with stray braces: a value can complete a placeholder |
| `DryRuns.NoWordAgreesIff` | tools/actions.go:337-343 | a key that is no word agrees on all templates exactly when its value is its own placeholder: the runtime never resolves it |
| `DryRuns.NoWordBetweenWords` | tools/actions.go:337-343 | such a key can be found between the braces of two words, in a template written properly |
| `Templates.MatchIsPlaceholder` | actions/runner.go:137-138 | what the pattern matches is a word in two pairs of braces |
| `Templates.PlaceholderMatches` | actions/runner.go:137-138 | and every word in two pairs of braces is matched |
| `Templates.MatchesFilter` | actions/runner.go:117-132 | an action fires exactly when there is no filter or all entries of a parsable one are in the payload |
| `Templates.TestFilter` | tools/actions.go:305-319 | the dry run reports a match for an absent or unparsable filter, and for a parsable one whose entries are all there |
| `Templates.FilterReportIsRightIff` | tools/actions.go:305-319 | the dry run is right about the filter exactly when it can be parsed |
| `Layouts.LayoutTool.CaptureLayoutVersion` | tools/layout.go:18-31 | one row with the next number, or nothing when the database fails |
| `Layouts.LayoutTool.Save` | tools/layout.go:128-205 | capture, merge with what was there, upsert |
| `Layouts.SaveIs` | tools/layout.go:128-205 | a save that goes through sets each text that is given, keeps each that is omitted when the layout was found and empties it otherwise, keeps or assigns the id, and leaves the other layouts alone |
| `Layouts.LayoutTool.Patch` | tools/layout.go:229-291 | capture before the field is checked and the patches are applied, then one field is written |
| `Layouts.LayoutTool.Revert` | tools/layout.go:409-450 | the requested version becomes current after the current state is stored |
| `Layouts.NumbersAreOneToN` | tools/layout.go:18-31 | the versions of a layout are numbered 1 to n and each is found by its number |
| `Layouts.HistoryOnlyGrows` | tools/layout.go:18-31 | over every history, whatever fails, stored versions are never altered and layouts keep their ids |
| `Layouts.NothingIsLost` | tools/layout.go:177-291 | whatever a layout ever was is current or stored, if reads and captures succeed |
| `Layouts.RevertBringsBack` | tools/layout.go:409-450 | and one revert at most makes it current again |
| `Layouts.RevertIsReversible` | tools/layout.go:409-450 | reverting to v and then to the version that revert created restores every layout exactly |
| `Layouts.FailedPatchIsRecorded` | tools/layout.go:263-282 | a patch of a layout that was found fails exactly when it names no field or none of its search texts is in the text; it then changes no layout and still adds a version |
| `Layouts.ApplyKeepsIff` | tools/layout.go:177-450 | any save, patch or revert keeps the old content recoverable exactly when it is unchanged, was read and captured, or was stored before |
| `Layouts.SaveKeepsIff` | tools/layout.go:177-205 | for a save: exactly when it does not write, reads and captures, gives each text as it was, or the content was stored before |
| `Layouts.PatchKeepsIff` | tools/layout.go:229-291 | for a patch: exactly when it does not read or write, captures, is rejected, leaves the field as it is, or the content was stored before |
| `Layouts.RevertKeepsIff` | tools/layout.go:409-450 | for a revert: exactly when it does not read or write, captures, finds no version or the current content, or the content was stored before |
| `Resample.ResizeImage` | tools/media.go:174-191 | the nested loops draw the specified image |
| `Resample.CropCenter` | tools/media.go:194-215 | the square is copied and scaled when its size differs |
| `Resample.ReadsInside` | tools/media.go:182-188 | every source coordinate is within the bounds, for all positive sizes |
| `Resample.SourceIsProportional` | tools/media.go:182-188 | for all sizes, multiples of each other or not: the source position read is the one whose stretch of the source holds the target position in proportion |
| `Resample.ResizeToSameSize` | tools/media.go:174-191 | scaling to its own size is the identity |
| `Resample.EnlargedPixel` | tools/media.go:182-188 | enlarging by integer factors repeats every pixel in blocks |
| `Resample.EnlargeThenShrink` | tools/media.go:174-191 | enlarging by any integer factors and shrinking back is the identity |
| `Resample.AllReadIff` | tools/media.go:182-188 | no source line is skipped exactly when the target is not smaller than the source |
| `Resample.CropIsCentred` | tools/media.go:194-208 | the square lies within the bounds and its two margins differ by at most one |

## Left out

- Language-model providers, HTTP, SQLite, Telegram, Caddy, mail, encryption: replies, results and outcomes are parameters.
- Prompt texts, titles, log lines and events; the reminder and continuation messages keep only the parts that are read again.
- Regular-expression code: `applyRegexReplacements`, the sanitizers of pages and layouts (the model takes the text they leave), extraction of CSS and JavaScript references.
- The summaries of single tool calls: any function from a call to an optional text.
- Validation of tool arguments and the set of allowed tools: part of a call's outcome.
- Restoring a conversation from a checkpoint; only what is saved is modelled.
- PruneMessages: the source blanks stale contexts in the caller's slice; the model works on a value and does not capture that aliasing.
- ApplyPatch: sharing of the design pointer between plan and patch is not captured.
- BackoffGrows: the float-to-integer overflow of Go's conversion for 62 and more attempts is not modelled.
- DryRunAgreesIff: for payloads whose keys are words; a key that is no word is treated alone (`NoWordAgreesIff`), and not together with others.
- LineEditsAreSimultaneous: covers edits with positive numbers that do not interfere; edits with negative numbers follow `ApplyLineEdits` only.
- DeletesMeanOriginalLinesIff: for deletes of lines that no range swallows; a line inside a replaced range has no line of its own to delete.
- A failed read in the job worker's failure handling, which leaves zero counts and so fails the job with attempts left, and the job updates whose errors are ignored: every statement of `JobTable` and `JobProtocol` succeeds.
- Retry intervals, stage timeouts and the cost tracker across stages in the build loop.
- Mode and update commands that arrive in the monitoring loop, which does not re-enter the build loop; scheduled tasks and chat.
- Deletion of layouts and edits of layouts by the administration pages and `tools/site.go`; history of pages, where a save over a deleted page stores no version.
- Amendments to the plan by concurrent tool calls: an unguarded read-modify-write.
- Conversion of colours to RGBA and image codecs; the height computed from the aspect ratio in floating point.
- Integer overflow of Go's 64-bit numbers.
- Job execution itself (mail, HTTP, SQL): its outcome is a parameter. Deletion of job rows.
