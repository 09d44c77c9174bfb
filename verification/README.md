# Verified model of a skill workbench

The system is a workbench for AI skills: a backend that generates, versions, evaluates, grades and
publishes skills, a command-line client that installs them, and a web client that follows
evaluations live. This project models the parts whose correctness rests on several functions or on
interleavings, and proves what they promise. `dafny verify dfyconfig.toml` checks everything.

Each part has a specification on values (datatypes, functions, a step function over operations) with
its theorems, and, where the original updates objects or loops, classes and methods proved equal to
that specification statement by statement.

| part | files |
|---|---|
| section editing in shared instruction files | `Slugs`, `Text`, `Sections`, `Tidying`, `Documents`, `Sessions` |
| notions shared by several parts | `Common` |
| benchmark aggregation | `Tally`, `Benchmark`, `BenchmarkNumbers`, `BenchmarkOrder`, `BenchmarkLabels`, `BenchmarkService` |
| benchmark snapshot cache | `SnapshotCache`, `SnapshotService` |
| streamed evaluation runs and their client | `EvalPlan`, `EvalStream`, `EvalRunner`, `EvalStreamService` |
| in-flight deduplication | `SingleFlight` |
| stream gateway lifecycle | `StreamGateway`, `GatewayLaws`, `GatewayRequests`, `GatewayEvents`, `GatewayService` |
| marketplace lifecycle | `Marketplace`, `MarketplaceInvariant`, `MarketplaceLimits`, `MarketplaceService` |
| refresh tokens and login lockout | `RefreshTokens`, `RefreshOverlap`, `Lockout` |
| install receipt and its lock | `Receipt`, `ReceiptLock` |
| version snapshots | `VersionHistory` |
| grading | `Grading` |

Conventions. Time passes at awaits: a step is the code between two awaits, or a whole service method
where a part says so. Clocks, random values, model replies, password checks, database row orders and
regular-expression matching are parameters. Numbers are exact: integers are unbounded, averages and
rates are rationals, and a standard deviation is represented by its square before rounding.

Where the code and its own comments disagree, the model follows the code:

- `section-manager.ts:36` calls removal the inverse of insertion that leaves its surroundings intact.
  It is an inverse exactly on tidy files (`Sections.RemoveIsInverse`), and it rewrites other sections
  that hold three newlines in a row (`Sessions.RemoveRewritesOthers`).
- `installed-receipt.ts:63-67` says that a stale lock file is cleaned up and that the waiting budget
  is about 6 s. Nothing deletes it (`ReceiptLock.StaleLockStays`), and ten attempts sleep 13.1 s
  (`ReceiptLock.TotalSleep`).
- A comment on the listing entity says that deleting a skill deletes its listing. The migrations
  restrict the delete instead, so a skill once listed or requested for removal stays
  (`MarketplaceInvariant.OnceReferencedNeverDeleted`).
- The success path of the login passes an undefined `lockedUntil`, which the repository does not
  write; the lock time that stays behind is in the past and harmless (`Lockout.AfterExpiry`).

Promises that fail are stated with their exact condition and, where one input shows it best, a
witness:

- the two marketplace links: `MarketplaceLimits.PendingInReviewExactly` and `RequestMarkedExactly`;
- a removal that leaves the other sections alone: `Sessions.RemoveRewritesOthers`, `RemoveIsNotLocal`;
- benchmarks that do not depend on the order of the runs: `BenchmarkLabels.OrderIndependentExactly`,
  `LabelStableExactly`, `BenchmarkOrder.LabelDependsOnRunOrder`;
- snapshots after a cancelled run: `SnapshotCache.AbortCoherentExactly`, `CancelledRunGoesStale`;
- one terminal event per request: `GatewayEvents.TwiceExactly`, `GatewayRequests.TwoTerminalEvents`;
- every running request is told of a shutdown: `GatewayRequests.InterruptedExactly`, `ReusedIdHangs`;
- one successful rotation per token, when calls overlap: `RefreshOverlap.BothSucceedExactly`,
  `BothSucceed`;
- reuse of a rotated token revokes everything: `RefreshTokens.ReuseRevokesExactly`, `ReuseAfterCleanup`;
- the score tells the verdict: `Grading.HundredMeansPassExactly`, `Grading.ZeroMeansFailExactly`.

## Model

| member | source | states |
|---|---|---|
| `Slugs.SlugIsCanonical` | packages/cli/src/lib/slugify.ts:6-13 | every slug uses only `[a-z0-9-]`, has no double dash and no dash at either end |
| `Slugs.SlugFixedPoints` | packages/cli/src/lib/slugify.ts:6-13 | a text is left alone by `toSlug` if and only if it is canonical in that sense |
| `Slugs.SlugIdempotent` | packages/cli/src/lib/slugify.ts:6-13 | applying `toSlug` twice is applying it once |
| `Slugs.SlugIsScan` | packages/cli/src/lib/slugify.ts:6-13 | the five replacements compute a one-pass reading: lower-cased letters and digits in order, one dash wherever whitespace or a dash came between two of them |
| `Sections.SlugsArePlain` | packages/cli/src/lib/slugify.ts:6-13 | slugs never contain the characters that could break a marker |
| `Sections.MarkersWellFormed` | packages/cli/src/lib/section-manager.ts:12-13 | begin and end marker of a slug are proper markers: no self-overlap, no newline, and they differ |
| `Sections.MarkersInjective` | packages/cli/src/lib/section-manager.ts:12-13 | markers of two slugs are equal if and only if the slugs are, and a begin marker is never an end marker |
| `Sections.UpsertReplaces` | packages/cli/src/lib/section-manager.ts:23-31 | with the section present, exactly the bytes between its markers change, and its tail gets one leading newline if it had none |
| `Sections.UpsertAppends` | packages/cli/src/lib/section-manager.ts:16-20 | with the section absent, the file is kept whole and the section is added after a blank line, or directly in a blank file |
| `Sections.RemoveCuts` | packages/cli/src/lib/section-manager.ts:47-60 | removal cuts the section out and tidies what is left |
| `Sections.LastWriteWins` | packages/cli/src/lib/section-manager.ts:11-32 | writing a section twice equals writing it once with the second content, exactly when the first content holds no end marker of the slug |
| `Sections.TidyFixed` | packages/cli/src/lib/section-manager.ts:60-60 | the clean-up after a removal leaves a file alone if and only if it has no three newlines in a row and ends in exactly one newline after visible text |
| `Sections.RemoveUndoesUpsert` | packages/cli/src/lib/section-manager.ts:11-60 | for an absent slug and a content without end marker, removing after inserting gives the file with newline runs collapsed, its end trimmed and one newline added |
| `Sections.RemoveIsInverse` | packages/cli/src/lib/section-manager.ts:35-60 | hence removal is the promised inverse of insertion exactly on tidy files |
| `Documents.UpsertRefines` | packages/cli/src/lib/section-manager.ts:11-32 | on any rendered document the string edit never throws and equals the edit of the document, rendered |
| `Documents.UpsertEffect` | packages/cli/src/lib/section-manager.ts:11-32 | the document edit keeps well-formedness and changes what is read under its own slug only |
| `Documents.RemoveRefines` | packages/cli/src/lib/section-manager.ts:43-61 | removal on strings is removal on documents, rendered and tidied; an absent slug leaves the file as it is |
| `Documents.RemoveEffect` | packages/cli/src/lib/section-manager.ts:43-61 | removal on documents forgets its own slug and no other |
| `Documents.RemoveVerbatim` | packages/cli/src/lib/section-manager.ts:57-60 | the rest of the file survives a removal verbatim up to its end if and only if no three newlines in a row are left in it |
| `Documents.RenderInjective` | packages/cli/src/lib/section-manager.ts:14-14 | a file is the rendering of at most one well-formed document, so reading it back is unambiguous |
| `Tidying.CollapseFree` | packages/cli/src/lib/section-manager.ts:60-60 | collapsing newline runs brings no marker into being |
| `Tidying.SqueezedFixed` | packages/cli/src/lib/section-manager.ts:60-60 | a section keeps its content in a clean-up if and only if no three newlines in a row occur in it, counting the line breaks next to its markers |
| `Sessions.TidiedRender` | packages/cli/src/lib/section-manager.ts:57-60 | cleaning up the text of a well-formed document is cleaning up the document piece by piece |
| `Sessions.RemoveYields` | packages/cli/src/lib/section-manager.ts:43-61 | a removal never throws and leaves the rendering of a well-formed document: the removed slug reads nothing, every other slug its content with newline runs collapsed; an absent slug changes nothing |
| `Sessions.RemoveRewritesOthers` | packages/cli/src/lib/section-manager.ts:60-60 | a removal changes the content of another section, to a given value, if and only if three newlines in a row occur in that section |
| `Sessions.RemoveIsNotLocal` | packages/cli/src/lib/section-manager.ts:34-60 | a concrete two-section file on which removing one section turns the content of the other into another one |
| `Sessions.SessionRefines` | packages/cli/src/lib/section-manager.ts:11-61 | no sequence of inserts, replacements and removals ever throws, each leaves a well-formed document, and the contents are those of the same edits on a map |
| `Sessions.LastEditCounts` | packages/cli/src/lib/section-manager.ts:11-61 | after any session a slug reads the content last written to it, with newline runs collapsed if an effective removal came later, and nothing if it was removed last |
| `Sessions.Unnamed` | packages/cli/src/lib/section-manager.ts:57-60 | a slug that a session does not name keeps its content, squeezed once if some removal took effect |
| `BenchmarkNumbers.StatsInOrder` | packages/backend/src/eval/benchmark.service.ts:262-289 | reported minimum, mean and maximum of any non-empty series are in order, after rounding |
| `BenchmarkNumbers.PassRateVariance` | packages/backend/src/eval/benchmark.service.ts:246-286 | with p of n runs passing the sample variance of the pass series is 10000 p (n-p) / (n (n-1)), with or without the skill |
| `BenchmarkNumbers.Round2Exact` | packages/backend/src/eval/benchmark.service.ts:755-757 | rounding to two decimals does nothing to hundredths |
| `BenchmarkNumbers.RateBounds` | packages/backend/src/eval/benchmark.service.ts:346-346 | every pass rate is a number of hundredths between 0 and 100 |
| `BenchmarkNumbers.CasesConserve` | packages/backend/src/eval/benchmark.service.ts:353-386 | per-case run and pass counts add up to all runs and all passes |
| `BenchmarkNumbers.ValueKeyInjective` | packages/backend/src/eval/benchmark.service.ts:412-412 | the composite grouping key names one assertion type and value |
| `BenchmarkNumbers.ValuesConserve` | packages/backend/src/eval/benchmark.service.ts:392-473 | the with-skill checks of the values of a type add up to the checks of the type, likewise for the baseline |
| `BenchmarkNumbers.IterationsConserve` | packages/backend/src/eval/benchmark.service.ts:658-733 | iterations come in increasing order, only the first is the baseline, and their run counts add up to the runs that carry an iteration |
| `BenchmarkNumbers.DeltasTelescope` | packages/backend/src/eval/benchmark.service.ts:693-709 | the rounded deltas between iterations add up exactly to last minus first, for pass rate and score |
| `BenchmarkNumbers.GuardsAreExclusive` | packages/backend/src/eval/benchmark.service.ts:478-496 | on computed rates each discrimination label is equivalent to its own guard, so the order of the four tests is irrelevant |
| `BenchmarkNumbers.TypesConserve` | packages/backend/src/eval/benchmark.service.ts:326-348 | per-type check and pass counts add up to all checks and all passes |
| `BenchmarkNumbers.HeadlineAgrees` | packages/backend/src/eval/benchmark.service.ts:114-131 | the headline pass rate and score equal the means of the statistics, duration and tokens agree within rounding |
| `BenchmarkNumbers.DeltaIsExact` | packages/backend/src/eval/benchmark.service.ts:296-321 | deltas are exact differences of the reported means, positive where the skill does better |
| `BenchmarkNumbers.VerdictMirror` | packages/backend/src/eval/benchmark.service.ts:711-718 | a loss seen from the other iteration is a win, a tie is a tie, and exactly when both wins are possible |
| `BenchmarkOrder.BenchmarkIsOfScoped` | packages/backend/src/eval/benchmark.service.ts:71-95 | summary and timeline are both computed from the quality runs in scope, and from nothing else |
| `BenchmarkOrder.ScopedIsGlobal` | packages/backend/src/eval/benchmark.service.ts:84-95 | a benchmark of one version is the global benchmark over the runs of that version |
| `BenchmarkOrder.AddingIneligibleRun` | packages/backend/src/eval/benchmark.service.ts:71-95 | an unfinished run or one with a grading error can be added anywhere without changing the result |
| `BenchmarkOrder.OrderIndependent` | packages/backend/src/eval/benchmark.service.ts:61-221 | no number depends on the order of the runs; with a decided majority for every type and one version per iteration nothing does |
| `BenchmarkOrder.MajorityExactly` | packages/backend/src/eval/benchmark.service.ts:515-528 | the label of a type is the same for every order of its values if and only if one label has strictly the most values |
| `BenchmarkLabels.DecidedIsStable` | packages/backend/src/eval/benchmark.service.ts:515-528 | a strict majority for every type is enough for labels that no order of the runs changes |
| `BenchmarkOrder.LabelDependsOnRunOrder` | packages/backend/src/eval/benchmark.service.ts:521-528 | two concrete runs whose swap turns the label of their type from skill-adds-value into skill-hurts |
| `BenchmarkLabels.TypeLabelByRuns` | packages/backend/src/eval/benchmark.service.ts:515-528 | the label of a type is the one that the first run with a check in the lead tests first |
| `BenchmarkLabels.LabelStableExactly` | packages/backend/src/eval/benchmark.service.ts:515-528 | the label of a type is the same for every order of the runs if and only if all runs that test a value with a leading label test the same such label first |
| `BenchmarkLabels.OrderIndependentExactly` | packages/backend/src/eval/benchmark.service.ts:61-221 | a whole benchmark is the same for every order of the runs if and only if, among the runs that count, every shown label is stable in that sense and the runs of each iteration count as one version |
| `BenchmarkOrder.BenchmarkConserves` | packages/backend/src/eval/benchmark.service.ts:61-221 | in every benchmark, scoped or not, empty or not, the counts by case and by iteration add up to the totals |
| `BenchmarkService.CalculateAssertionStats` | packages/backend/src/eval/benchmark.service.ts:326-348 | the counting loop yields the grouped counts by type |
| `BenchmarkService.CalculateEvalCaseStats` | packages/backend/src/eval/benchmark.service.ts:353-386 | the grouping loop yields the statistics by case |
| `BenchmarkService.ValueMap.CountRun` | packages/backend/src/eval/benchmark.service.ts:412-448 | one run bumps the records of its with-skill checks, then those of its baseline checks |
| `BenchmarkService.CalculateAssertionValueStats` | packages/backend/src/eval/benchmark.service.ts:392-473 | the nested loops yield, for every assertion, its counts in both configurations, with the assertions in the order first met |
| `BenchmarkService.DiscriminationOfType` | packages/backend/src/eval/benchmark.service.ts:511-528 | counting and sorting the labels picks the first one with the most votes |
| `BenchmarkService.ApplyDiscriminationToTypeStats` | packages/backend/src/eval/benchmark.service.ts:502-530 | every type gets its label |
| `BenchmarkService.CalculateIterationStats` | packages/backend/src/eval/benchmark.service.ts:658-733 | grouping, sorting and comparing with the previous iteration yield the timeline |
| `BenchmarkService.ComputeBenchmark` | packages/backend/src/eval/benchmark.service.ts:61-221 | the whole computation, filters first, equals its specification |
| `SnapshotCache.StepKeeps` | packages/backend/src/eval/eval-execution.service.ts:192-229 | every operation keeps every stored snapshot a benchmark of the stored runs, and one version per iteration |
| `SnapshotCache.RunEvalsCoherent` | packages/backend/src/eval/eval-execution.service.ts:192-229 | a finished run rewrites two slots only, yet every other slot stays current |
| `SnapshotCache.SnapshotIsFresh` | packages/backend/src/eval/eval-execution.service.ts:682-700 | a stored snapshot equals a fresh computation over the runs in any order, but for labels on which the runs disagree |
| `SnapshotCache.SnapshotIsFreshExactly` | packages/backend/src/eval/eval-execution.service.ts:682-700 | a stored snapshot equals recomputation in every order of the runs if and only if no order changes a label |
| `SnapshotCache.ReadIsFresh` | packages/backend/src/eval/eval-execution.service.ts:673-717 | so does the answer to a read, cached or not, the repair of legacy versions included |
| `SnapshotCache.ReachableReads` | packages/backend/src/eval/eval-execution.service.ts:673-717 | the same after any sequence of operations from an empty store |
| `SnapshotCache.AbortCoherentExactly` | packages/backend/src/eval/eval-execution.service.ts:412-421 | a run cancelled inside a batch leaves the cache coherent if and only if it saved no run that counts or neither affected slot was stored |
| `SnapshotCache.CancelledRunGoesStale` | packages/backend/src/eval/eval-execution.service.ts:412-421 | one read and one cancelled run after which the snapshot is stale |
| `SnapshotService.Service.PersistBenchmarks` | packages/backend/src/eval/eval-execution.service.ts:192-229 | the global slot and the slot of the version are rewritten from the fetched and the new runs |
| `SnapshotService.Service.RunEvals` | packages/backend/src/eval/eval-execution.service.ts:244-285 | results are stamped and saved, then both slots are rewritten |
| `SnapshotService.Service.RunEvalsCancelled` | packages/backend/src/eval/eval-execution.service.ts:412-421 | a cancellation inside a batch skips the refresh |
| `SnapshotService.Service.DeleteEvalRun` | packages/backend/src/eval/eval-execution.service.ts:617-655 | the run goes, and with it all snapshots; a missing run changes nothing |
| `SnapshotService.Service.DeleteEvalCase` | packages/backend/src/eval/eval-case.service.ts:131-158 | the case goes with its runs and all snapshots; a missing case changes nothing |
| `SnapshotService.Service.GetBenchmark` | packages/backend/src/eval/eval-execution.service.ts:673-717 | answer from the slot, or compute and fill it |
| `EvalPlan.Expand` | packages/backend/src/eval/eval-execution.service.ts:166-171 | the schedule is the list of cases, repeated |
| `EvalPlan.SelectedCases` | packages/backend/src/eval/eval-execution.service.ts:112-146 | a case is run if and only if it was requested, if any were named, and existed at the target version |
| `EvalPlan.RepeatedCount` | packages/backend/src/eval/eval-execution.service.ts:166-171 | every case is scheduled `runsPerCase` times |
| `EvalPlan.RepeatedAt` | packages/backend/src/eval/eval-execution.service.ts:166-171 | after r whole rounds the next slots run the cases in order for the (r+1)-th time |
| `EvalPlan.RepeatedLength` | packages/backend/src/eval/eval-execution.service.ts:166-176 | the schedule has `runsPerCase` slots per case |
| `EvalPlan.RunInBatches` | packages/backend/src/common/utils/run-in-batches.ts:21-53 | results come in input order, for the batches that ran before the signal was found aborted; a concurrency below 1 counts as 1 |
| `EvalStream.Protocol` | packages/backend/src/eval/eval-execution.service.ts:321-394 | over every completion order: starts are 1, 2, ... k, at most three are not completed, each index completes at most once and after its start |
| `EvalStream.SummaryAddsUp` | packages/backend/src/eval/eval-execution.service.ts:396-411 | passed plus failed is the number of runs, which is the number of cases unless aborted, and no event follows the summary |
| `EvalStreamService.StreamedRun.StartNextBatch` | packages/backend/src/eval/eval-execution.service.ts:321-349 | the batch is announced in order and launched |
| `EvalStreamService.StreamedRun.WorkerFinished` | packages/backend/src/eval/eval-execution.service.ts:364-388 | a completion is reported once its run is saved |
| `EvalStreamService.StreamedRun.WorkerThrew` | packages/backend/src/eval/eval-execution.service.ts:412-421 | the first rejection ends the run, with an error event unless aborted |
| `EvalStreamService.StreamedRun.FinishRun` | packages/backend/src/eval/eval-execution.service.ts:396-411 | the summary counts both outcomes |
| `EvalRunner.EntriesAlwaysUnique` | packages/frontend/src/hooks/useEvalRunner.ts:138-165 | whatever events arrive, in whatever order, entries stay unique by index |
| `EvalRunner.CounterIsFinishedEntries` | packages/frontend/src/hooks/useEvalRunner.ts:184-250 | at every moment of every run, cancelled and interrupted ones included, the counter equals the number of finished entries |
| `EvalRunner.InterruptedIsFinal` | packages/frontend/src/hooks/useEvalRunner.ts:238-250 | a client whose pod shuts down ends idle with an error and keeps its entries and counter, whatever is emitted afterwards |
| `EvalRunner.EndsComplete` | packages/frontend/src/hooks/useEvalRunner.ts:205-223 | when the run concludes the client is idle with completed = total = number of runs, every entry finished, in schedule order |
| `EvalRunner.EveryCaseShown` | packages/backend/src/eval/eval-execution.service.ts:166-171 | from the expansion to the screen: after an unaborted run every case is shown `runsPerCase` times |
| `EvalStreamService.Hook.OnEvent` | packages/frontend/src/hooks/useEvalRunner.ts:133-240 | the state updates of the hook are the reducer |
| `SingleFlight.RunKeeps` | packages/backend/src/eval/eval-execution.service.ts:446-476 | over all interleavings the map holds exactly the executions not cleaned up, each under its key, with one creator each |
| `SingleFlight.AtMostOneInFlight` | packages/backend/src/generation/generation.service.ts:65-87 | two executions under one key are never in flight together |
| `SingleFlight.CleanupIsOwn` | packages/backend/src/eval/eval-execution.service.ts:470-475 | the entry that a creator deletes is its own |
| `SingleFlight.SameExecutionSameAnswer` | packages/backend/src/eval/eval-execution.service.ts:454-459 | callers that share an execution get the same answer and asked for the same key |
| `SingleFlight.NothingLeaks` | packages/backend/src/generation/generation.service.ts:80-86 | once every caller has its answer the map is empty |
| `SingleFlight.EvalKeyInjective` | packages/backend/src/eval/eval-execution.service.ts:452-452 | equal keys mean equal run index and version, and equal case and skill for ids without colons |
| `SingleFlight.SlotsNeverShare` | packages/backend/src/eval/eval-execution.service.ts:447-452 | two slots of one request are never collapsed into one execution |
| `SingleFlight.UsersNeverShare` | packages/backend/src/generation/generation.service.ts:65-87 | two users, or one user with two names, never share a generation |
| `SingleFlight.InflightMap.Request` | packages/backend/src/eval/eval-execution.service.ts:453-470 | look up, join or start and register, without an await in between |
| `SingleFlight.InflightMap.CallerResumes` | packages/backend/src/eval/eval-execution.service.ts:471-475 | take the result; the creator cleans up |
| `GatewayLaws.AbortExactly` | packages/backend/src/streaming/streaming.gateway.ts:272-305 | a step aborts a request if and only if it is a cancel naming it on its own socket, a failed or empty presence check of its own socket, or a shutdown reaching its socket |
| `GatewayLaws.AbortProvenance` | packages/backend/src/streaming/streaming.gateway.ts:246-363 | over every run a request is aborted if and only if it met one of these causes |
| `GatewayLaws.ReconnectIsSafe` | packages/backend/src/streaming/streaming.gateway.ts:246-305 | from the disconnect to the end of its grace check, if the user is back on this pod when the check looks, that check aborts nothing |
| `GatewayLaws.DrainingAdmitsNothing` | packages/backend/src/streaming/streaming.gateway.ts:312-321 | after a shutdown no request enters any map, on any socket, old or new |
| `GatewayLaws.ShutdownNotifiesExactly` | packages/backend/src/streaming/streaming.gateway.ts:332-363 | shutdown sends exactly one `interrupted` to each request registered on a connected authenticated socket, aborts it, and touches no other |
| `GatewayLaws.TerminalEvents` | packages/backend/src/streaming/streaming.gateway.ts:378-394 | a request gets at most two terminal events, and two if and only if it was interrupted and its work completed anyway |
| `GatewayEvents.ShutdownHits` | packages/backend/src/streaming/streaming.gateway.ts:332-363 | at a shutdown, the requests found in a map of a connected socket are exactly those running, unaborted and undisplaced on such a socket |
| `GatewayEvents.TwiceExactly` | packages/backend/src/streaming/streaming.gateway.ts:332-394 | over every run, a request gets two terminal events if and only if a shutdown reached it while it ran undisplaced on a connected socket and its work completed at a later step |
| `GatewayRequests.RegisteredExactly` | packages/backend/src/streaming/streaming.gateway.ts:332-394 | a request still running is in its socket map if and only if no step displaced it: an admission under its id on its socket, or the clean-up of another request with that id |
| `GatewayRequests.InterruptedExactly` | packages/backend/src/streaming/streaming.gateway.ts:332-363 | of the requests still running at shutdown, exactly those on a connected socket that no step displaced are aborted, with exactly one event each |
| `GatewayRequests.NobodyHangs` | packages/backend/src/streaming/streaming.gateway.ts:332-363 | hence, if ids are not reused while in flight, every such request of a connected socket is notified |
| `GatewayRequests.ReusedIdHangs` | packages/backend/src/streaming/streaming.gateway.ts:376-377 | a concrete run in which a second request under the same id leaves the first one unnotified |
| `GatewayRequests.TwoTerminalEvents` | packages/backend/src/streaming/streaming.gateway.ts:382-383 | a concrete run in which a request is interrupted and completed |
| `GatewayService.Gateway.HandleDisconnect` | packages/backend/src/streaming/streaming.gateway.ts:246-265 | a grace timer is set if and only if requests are pending |
| `GatewayService.Gateway.AbortIfUserGone` | packages/backend/src/streaming/streaming.gateway.ts:272-305 | after the check, the loop aborts what is then in the map, or nothing |
| `GatewayService.Gateway.OnApplicationShutdown` | packages/backend/src/streaming/streaming.gateway.ts:332-363 | the loops over sockets and requests |
| `GatewayService.Gateway.HandleRequest` | packages/backend/src/streaming/streaming.gateway.ts:367-382 | register, or refuse, and announce |
| `GatewayService.Gateway.WorkSettles` | packages/backend/src/streaming/streaming.gateway.ts:382-394 | completion or error, then the entry under the request id is deleted |
| `GatewayService.Gateway.HandleCancel` | packages/backend/src/streaming/streaming.gateway.ts:606-614 | abort and delete what the id names |
| `MarketplaceInvariant.StepKeeps` | packages/backend/src/marketplace/marketplace-submission.service.ts:52-369 | each of the operations keeps the joint invariant of the four tables, and all but a direct status edit keep stored statuses in line with them |
| `MarketplaceInvariant.RunKeeps` | packages/backend/src/marketplace/marketplace-submission.service.ts:52-369 | so does every run |
| `MarketplaceInvariant.ReachableLinks` | packages/backend/src/marketplace/marketplace-submission.service.ts:498-561 | per skill one pending submission, one open submission per version, one pending request; some submission is approved if and only if the listing is live; a live listing shows an approved submission at its version; a removal-requested listing has a pending request |
| `MarketplaceInvariant.DetailAlwaysFound` | packages/backend/src/marketplace/marketplace.service.ts:114-161 | an active listing of the caller's organisation, and nothing else, yields a detail result, with its submitter |
| `MarketplaceInvariant.DeleteGuardIsEnough` | packages/backend/src/skills/skills.service.ts:249-298 | a skill whose deletion passes the guards has no live listing, although deletion never reads the listing |
| `MarketplaceInvariant.OnceReferencedNeverDeleted` | packages/backend/src/skills/skills.service.ts:249-298 | a skill once listed or requested for removal can never be deleted: the rows that refer to it stay |
| `MarketplaceInvariant.MetadataIsStored` | packages/backend/src/skills/skills.service.ts:130-149 | without direct status edits, metadata always returns the stored status |
| `MarketplaceInvariant.MetadataHeals` | packages/backend/src/skills/skills.service.ts:130-149 | in general it differs if and only if an actively listed skill is stored as draft or ready |
| `MarketplaceLimits.DoneExactly` | packages/backend/src/marketplace/marketplace-submission.service.ts:52-369 | each operation is carried out if and only if its guards hold on the tables before the call, and changes nothing otherwise |
| `MarketplaceLimits.PendingInReviewExactly` | packages/backend/src/marketplace/marketplace-submission.service.ts:353-369 | the link from a pending submission to the in-review status survives an operation if and only if it is not one, with its guards met, that overwrites the status of such a skill |
| `MarketplaceLimits.PendingOutsideReview` | packages/backend/src/marketplace/marketplace-submission.service.ts:363-368 | a reachable state where that link is broken |
| `MarketplaceLimits.RequestMarkedExactly` | packages/backend/src/marketplace/marketplace-submission.service.ts:140-175 | the link from a pending request to a removal-requested listing survives if and only if the operation is not one, with its guards met, that rewrites the listing of such a skill |
| `MarketplaceLimits.RequestOnActiveListing` | packages/backend/src/marketplace/marketplace-submission.service.ts:159-159 | a reachable state where that link is broken |
| `MarketplaceService.Service.SubmitVersion` | packages/backend/src/marketplace/marketplace-submission.service.ts:52-111 | checks, then the submission row and the skill status |
| `MarketplaceService.Service.ApproveSubmission` | packages/backend/src/marketplace/marketplace-submission.service.ts:114-177 | checks, then submission, listing and skill status |
| `MarketplaceService.Service.RejectSubmission` | packages/backend/src/marketplace/marketplace-submission.service.ts:180-195 | checks, then submission and skill status |
| `MarketplaceService.Service.RemoveApprovedVersion` | packages/backend/src/marketplace/marketplace-submission.service.ts:202-224 | checks, then the removal of one approved version |
| `MarketplaceService.Service.RemoveApproved` | packages/backend/src/marketplace/marketplace-submission.service.ts:498-561 | take down the last version, or move the listing on |
| `MarketplaceService.Service.AskRemoval` | packages/backend/src/marketplace/marketplace-submission.service.ts:227-277 | checks in the order of the source, then the request row and the mark on the listing |
| `MarketplaceService.Service.GrantRemoval` | packages/backend/src/marketplace/marketplace-submission.service.ts:280-350 | checks, then a whole removal or one version |
| `MarketplaceService.Service.DenyRemoval` | packages/backend/src/marketplace/marketplace-submission.service.ts:353-369 | checks, then request, listing and skill status |
| `MarketplaceService.Service.TakeDown` | packages/backend/src/marketplace/marketplace.service.ts:255-264 | listing, submissions, skill status |
| `MarketplaceService.Service.Delete` | packages/backend/src/skills/skills.service.ts:249-298 | guards, then the delete that the foreign keys may refuse |
| `RefreshTokens.SingleUse` | packages/backend/src/auth/token.service.ts:142-185 | over any run each token rotates successfully at most once and a login chain never holds two unrevoked tokens |
| `RefreshTokens.RotatedIsRefused` | packages/backend/src/auth/token.service.ts:164-169 | a token once rotated is refused for ever after |
| `RefreshTokens.RotatesExactly` | packages/backend/src/auth/token.service.ts:142-185 | a rotation succeeds if and only if the token is stored for that user with that secret, unrevoked and unexpired, and it stays in its chain |
| `RefreshTokens.TheftRevokesAll` | packages/backend/src/auth/auth.service.ts:178-235 | presenting a stored revoked token, or a stored token with a wrong secret, revokes everything its user holds |
| `RefreshTokens.ReuseRevokesExactly` | packages/backend/src/auth/token.service.ts:149-169 | presenting a rotated token does so if and only if its record is still stored, or nothing was left to revoke |
| `RefreshTokens.ReuseAfterCleanup` | packages/backend/src/auth/token.service.ts:149-199 | a concrete run of two logins, a rotation and a cleanup after which the rotated token is presented again and the token of the second login stays usable |
| `RefreshTokens.UsersAreIsolated` | packages/backend/src/auth/auth.service.ts:178-262 | no operation for one user changes another user's tokens |
| `RefreshTokens.ForeignTokenIgnored` | packages/backend/src/auth/token.service.ts:152-157 | a token of another user changes nothing |
| `RefreshTokens.CleanupDropsDead` | packages/backend/src/auth/token.service.ts:76-81 | cleanup keeps exactly the tokens that could still rotate |
| `RefreshTokens.LogoutEnds` | packages/backend/src/auth/auth.service.ts:253-262 | right after a logout a token of the user can be rotated if and only if it could before and the logout named another one |
| `RefreshTokens.LogoutEndsForEver` | packages/backend/src/auth/auth.service.ts:253-262 | a token that a logout ended is never rotated again, whatever operations follow and whoever presents it |
| `RefreshTokens.DeadForEver` | packages/backend/src/auth/token.service.ts:142-199 | once every token of a chain is revoked no later operation rotates one of that chain |
| `RefreshTokens.ReuseEndsChains` | packages/backend/src/auth/auth.service.ts:178-235 | a detected reuse ends every chain of its user |
| `RefreshOverlap.BothSucceedExactly` | packages/backend/src/auth/token.service.ts:148-199 | two overlapping rotations of one token both succeed if and only if it was in order at the first look, nothing revoked or deleted it between the two looks, and it had not expired at the second |
| `RefreshOverlap.UsableUntilKilled` | packages/backend/src/auth/token.service.ts:148-199 | over every interleaving, a usable token stays usable and unchanged exactly until a step revokes or deletes it |
| `RefreshOverlap.NoSecondSuccess` | packages/backend/src/auth/token.service.ts:148-199 | a rotation that looks its token up after another one revoked it never succeeds |
| `RefreshOverlap.BothSucceed` | packages/backend/src/auth/token.service.ts:148-199 | a concrete interleaving in which both rotations succeed and their login chain holds two usable tokens |
| `RefreshTokens.TokenService.RotateRefreshTokenForUser` | packages/backend/src/auth/token.service.ts:142-185 | the checks in their order, then revoke and issue |
| `RefreshTokens.TokenService.RefreshTokens` | packages/backend/src/auth/auth.service.ts:178-248 | the user comes from the access token, else from the record; an inactive user gets no token back |
| `RefreshTokens.TokenService.LogOut` | packages/backend/src/auth/auth.service.ts:253-262 | one token, or all when none is named |
| `RefreshTokens.TokenService.ChangePassword` | packages/backend/src/auth/auth.service.ts:390-421 | a correct current password revokes all tokens of the user |
| `Lockout.RateBound` | packages/backend/src/auth/auth.service.ts:95-138 | from a cleared counter and without a success, the password is compared at most threshold + (T - t0) / duration times |
| `Lockout.BoundIsReached` | packages/backend/src/auth/auth.service.ts:95-138 | for every number of whole durations there is a run that reaches the bound |
| `Lockout.CounterAndLock` | packages/backend/src/auth/auth.service.ts:118-134 | the counter counts the comparisons, and past the threshold each one pushes the lock a duration further |
| `Lockout.LockedChangesNothing` | packages/backend/src/auth/auth.service.ts:101-109 | an attempt while locked changes nothing and does not extend the lock |
| `Lockout.AfterExpiry` | packages/backend/src/auth/auth.service.ts:110-146 | a correct password after expiry always gets in and clears the counter; a wrong one at the threshold locks again at once |
| `Lockout.LoginService.ValidateLocalUser` | packages/backend/src/auth/auth.service.ts:69-154 | all checks in their order |
| `Lockout.LoginService.UpdateCredential` | packages/storage/postgres/src/repositories/credential.repository.ts:33-44 | only fields that are given are written |
| `Receipt.UpsertEffect` | packages/cli/src/lib/installed-receipt.ts:102-117 | an upsert sets exactly its own install |
| `Receipt.RemoveEffect` | packages/cli/src/lib/installed-receipt.ts:124-142 | a removal clears exactly its own install and reports whether there was one |
| `Receipt.AppliedKeepsValid` | packages/cli/src/lib/installed-receipt.ts:97-142 | entries stay unique per slug, target and scope, and no slug is left without entries |
| `Receipt.UpsertEntry` | packages/cli/src/lib/installed-receipt.ts:103-116 | replace in place or append |
| `Receipt.RemoveEntry` | packages/cli/src/lib/installed-receipt.ts:129-141 | filter, and drop the slug when it is empty |
| `ReceiptLock.MutualExclusion` | packages/cli/src/lib/installed-receipt.ts:68-95 | for any number of processes at most one is between creating and deleting the lock file |
| `ReceiptLock.Serialised` | packages/cli/src/lib/installed-receipt.ts:68-142 | whenever the lock is free the file is the initial one with all operations applied in lock order |
| `ReceiptLock.AlwaysValid` | packages/cli/src/lib/installed-receipt.ts:97-142 | the file is a valid receipt at all times |
| `ReceiptLock.NothingSkipped` | packages/cli/src/lib/installed-receipt.ts:68-95 | the lock order holds the operation of every process that did not give up, by process and exactly once, and no others |
| `ReceiptLock.StaleLockStays` | packages/cli/src/lib/installed-receipt.ts:59-67 | a lock file left by a dead process is never cleaned up, and nothing is written any more |
| `ReceiptLock.TotalSleep` | packages/cli/src/lib/installed-receipt.ts:73-89 | ten failed attempts sleep 13,100 ms |
| `ReceiptLock.WaitingTime` | packages/cli/src/lib/installed-receipt.ts:68-95 | in every run a process still trying has slept what its failed attempts call for, at most 11,100 ms, and one that gave up slept exactly 13,100 ms |
| `ReceiptLock.Acquire` | packages/cli/src/lib/installed-receipt.ts:73-94 | the retry loop ends at the first success or after ten tries and 13,100 ms |
| `VersionHistory.NoVersionIsLost` | packages/backend/src/generation/generation.service.ts:180-235 | over every interleaving each version below the current one has a snapshot, unless its creator is still between its increment and its save |
| `VersionHistory.CompleteWhenQuiet` | packages/backend/src/skills/skills.service.ts:382-421 | when all operations have finished the history is exactly 1..current, but for a skill that began without a snapshot and is still at version 1 |
| `VersionHistory.HistoryReadCompletes` | packages/backend/src/skills/skills.service.ts:325-348 | an undisturbed history read completes the list to 1..current, also for a skill at version 1 |
| `VersionHistory.SnapshotsAreGenuine` | packages/storage/postgres/src/repositories/skill.repository.ts:177-189 | a snapshot of a version never edited in place holds what that version was created with |
| `VersionHistory.StepKeeps` | packages/backend/src/generation/generation.service.ts:180-235 | every step keeps the invariant behind these three |
| `VersionHistory.SkillStore.RefineSavesExisting` | packages/backend/src/generation/generation.service.ts:203-210 | the state before the refinement is saved if its version is missing from the history read earlier |
| `VersionHistory.SkillStore.CheckSaves` | packages/backend/src/skills/skills.service.ts:391-402 | the row read after the check is saved, whatever its version is by then |
| `VersionHistory.SkillStore.UpdateAndIncrementVersion` | packages/storage/postgres/src/repositories/skill.repository.ts:148-173 | the increment happens if and only if the version is still the one read |
| `VersionHistory.SkillStore.SaveUpdated` | packages/backend/src/generation/generation.service.ts:237-238 | the new version is saved after its increment |
| `Grading.Split` | packages/backend/src/eval/grading.service.ts:110-124 | the two groups, with original indices |
| `Grading.Merge` | packages/backend/src/eval/grading.service.ts:132-186 | merging by index equals grading every assertion on its own |
| `Grading.GradeRun` | packages/backend/src/eval/grading.service.ts:89-215 | results, assessment, score and error flag of a graded run |
| `Grading.SlotsAreIndependent` | packages/backend/src/eval/grading.service.ts:132-186 | slot i carries assertion i; deterministic slots ignore the reply, the others ignore the output |
| `Grading.RanksAreDistinct` | packages/backend/src/eval/grading.service.ts:394-410 | verdicts are used in order, each at most once |
| `Grading.MissingVerdictsFail` | packages/backend/src/eval/grading.service.ts:388-410 | an assertion whose verdict is missing fails |
| `Grading.ContainmentMeans` | packages/backend/src/eval/grading.service.ts:230-256 | `contains` passes if and only if the lower-cased value is part of the lower-cased output, and `not_contains` is its opposite |
| `Grading.RegexMeans` | packages/backend/src/eval/grading.service.ts:258-312 | a pattern passes if and only if it is at most 200 long, not catastrophic, valid, and matches the first 50,000 characters |
| `Grading.ScoreIsQuotient` | packages/backend/src/eval/grading.service.ts:437-438 | the score is the rounded-half-up percentage |
| `Grading.OverallMeans` | packages/backend/src/eval/grading.service.ts:428-450 | `pass` if and only if all passed, `fail` if and only if there are assertions and none passed, score within 0 and 100 |
| `Grading.HundredMeansPassExactly` | packages/backend/src/eval/grading.service.ts:437-448 | score 100 tells `pass` for every count of passes if and only if there are fewer than 200 assertions |
| `Grading.ZeroMeansFailExactly` | packages/backend/src/eval/grading.service.ts:437-448 | score 0 tells `fail` for every count of passes if and only if there are at most 200 assertions |
| `Grading.ScoreTellsOverall` | packages/backend/src/eval/grading.service.ts:428-450 | both directions on graded runs below those sizes |

## Left out

- SQL, ORM mapping, Redis and socket transport, HTTP controllers, guards and payload validation: tables and maps are modelled directly.
- Model calls, prompts, reply parsing and diagrams: any reply is possible.
- Password hashing, token hashing and signing: a stored hash stands for the value hashed, and new ids and secrets are fresh.
- Floating-point error and the square root: numbers are exact rationals, and the variance stands for the deviation.
- Analyst notes, log lines, timestamps such as `generatedAt`, and case names (`evalName`): a rename does not invalidate snapshots.
- Characters beyond ASCII in slugs and in case-insensitive matching, and CRLF line ends in section files.
- Names that every JavaScript object inherits, used as receipt slugs, case ids or map keys.
- Crashes between the statements of a service method, and failing snapshot writes (a failed refresh has the effect of a cancelled run).
- Overlapping evaluation runs, deletions and benchmark reads of one skill: the snapshot cache is proved for operations that do not overlap.
- Lockout.RateBound: speaks of login attempts one at a time; attempts that overlap between reading and writing the counter are not modelled. An account is assumed to start at a cleared counter; a reset by an administrator starts a new run.
- RefreshTokens.SingleUse: speaks of rotations one at a time; overlapping ones are the subject of `RefreshOverlap`.
- Marketplace methods as one step each, and an owner who changes organisation.
- The choice among the remaining approved versions when one is removed: any of them may become the listed one, which covers the newest-first order of the query.
- Deleting a skill while one of its version operations runs, and the explanation text of a snapshot.
- The order of messages on the wire: a client receives the events of its run in the order in which they were emitted.
- Categories, analytics, favourites, email, invitations, export, configuration and role helpers: they would add only easy members.
- EvalStream.Protocol: the two ways a worker can fail to save its run (cancellation, a failing database) are one step, `Throw`.
- BenchmarkService.ApplyDiscriminationToTypeStats: yields the labelled statistics as a new map; the original writes the label into the existing records.
- GatewayService.Gateway.WorkSettles: the last emission of a handler and its `finally` are one step.
