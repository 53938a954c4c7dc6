# Verified models of fleetdiff

fleetdiff compares and archives summaries of model usage. This project models the parts of
it whose correctness is not obvious from any one function, and proves what they promise.
`dafny verify dfyconfig.toml` checks everything. Source references in this file are paths
inside the fleetdiff repository.

## What is modelled

**The summary archive** (`ArchiveDisk`, `ArchiveInstall`, `ArchivePlan`, `ArchiveRecovery`).
A directory is its durable entries, the changes not yet synced, and the files they point to.
A crash keeps any subset of the unsynced changes, replayed in order, and any contents for
files that were never synced. The install protocol is an imperative method over such a
directory; it records every intermediate state, so that "whatever crash, whenever" is one
statement over that record. The planner selects snapshots and retained windows and checks
budgets. Recovery joins the two: what the next run finds, and where it leads.

**The what-if calculator** (`RepriceSpec`, `RepriceSums`, `RepricePrices`, `Calculator`,
`RepriceReport`, `RepriceResult`). The specification prices one record at a time; the
calculator is a class that fills buckets per move and workload, and a shadow calculator for
failures. Reports are priced from the buckets and proved to equal repricing record by
record.

**Window accounting, routing and agents** (`Windows`, `WindowCounts`, `WindowMeanings`,
`Ordering`, `Routing`, `RoutingReport`, `Agents`). Every counter of a row is a component of
one `Measures` value; sums of measures over selected rows are the specification of every
window, cohort, cell and agent.

**Sessions and duplicates** (`Sessions`, `SessionReport`, `SessionMeanings`, `Duplicates`).
The streaming review is proved equal to a group-by of the selected rows; identities are
compared only for equality.

**Rankings and scan** (`Rankings`, `ScanFlags`, `ScanWindows`). A frequent-items sketch
gives bounds for true weights; a ghost map holds the weights. Nothing is assumed about the
sketch except that its bounds are bounds.

**JSON and CSV readers of Langfuse exports** (`Utf8`, `JsonText`, `JsonScan`,
`JsonLanguage`, `JsonReads`, `JsonLexer`, `JsonFields`, `JsonRows`, `JsonMeanings`,
`CsvText`, `CsvReader`, `CsvTable`). `JsonText` and `CsvText` give the grammars of RFC 8259
sections 2 to 7 and of RFC 4180 section 2, the latter over fields of any Unicode text, with
every spelling kept. What the readers refuse of them (depth, members, unpaired surrogate
escapes, NUL) is in separate predicates. A recognizer is proved to accept exactly the rest,
and the byte-at-a-time lexer is proved to perform the recognizer's steps under the row and
field limits.

**Framing of spend exports** (`SpendCsv`, `SpendJson`, `SpendPreflight`, `SpendRecords`).
Splitting into records, and the sizes known before decoding.

Errors are `Option` results or a Boolean `ok`; which message an error carries is not
modelled. Go maps are iterated by choosing any remaining key, so no result depends on an
order. Machine integers are unbounded numbers with the source's explicit checks; where the
source adds or subtracts without a check, the model proves that nothing wraps around.
Rational numbers are reals.

## Findings

* `docs/SUMMARY_ARCHIVE.md` says that rerunning converges after a failed installation, and
  also that a source snapshot older than its archived sequence fails the batch. Both rules
  meet when a source holds two sequences of one slot that retention keeps: once a run over
  such a source has completed, repeating it is refused.
  `ArchiveRecovery.RerunStaleIffMixed` says exactly when, and
  `ArchiveRecovery.TwoSequencesRunOnce` is an example; with one sequence per slot reruns
  are never refused as stale (`ArchiveRecovery.NextRunNotStale`).
* The overlap check of the calculator is skipped for records with an unknown scope. It is
  still enough: such records are never covered, so the fractions of the moves a covered
  record enters never exceed one (`RepriceSums.CoveredOverlap`).

## Model

| member | source | states |
|---|---|---|
| `ArchivePlan.ArchiveNameInjective` | examples/archive/plan.go:35-39 | Two documents share an archive name only if they share window start, producer and epoch. |
| `ArchivePlan.SelectedNewest` | examples/archive/plan.go:80-96 | A slot is selected exactly when it is archived or some closed source document has its name, and then with the highest sequence on offer, preferring what is archived and then the first. |
| `ArchivePlan.SelectNewest` | examples/archive/plan.go:80-96 | The selection loop succeeds exactly when nothing is stale or unencodable, with that selection. |
| `ArchivePlan.NewestStartsCount` | examples/archive/plan.go:97-108 | Retention keeps as many windows as there are, at most `keep`, and every kept one is newer than every dropped one. |
| `ArchivePlan.NewestStartsStable` | examples/archive/plan.go:105-108 | Dropping windows that were not retained does not change which ones are. |
| `ArchivePlan.RetainedStarts` | examples/archive/plan.go:97-108 | Sorting the starts and dropping the oldest leaves exactly the newest `keep`. |
| `ArchivePlan.PlanChanges` | examples/archive/plan.go:109-131 | The plan removes exactly archived files outside the retained windows and writes exactly retained files that are new or differ; the counters are the bytes and files of the installed archive and of the staging. |
| `ArchivePlan.WritesClosed` | examples/archive/plan.go:68-100 | What is archived is an input document in its own encoding whose window has ended and which has been emitted. |
| `ArchivePlan.FitsMeans` | examples/archive/plan.go:132-137 | The budget test on the counters is the budget of the resulting directory. |
| `ArchivePlan.PlanArchive` | examples/archive/plan.go:66-140 | A plan is accepted exactly when every archived document is closed, the series is valid, nothing is stale, everything encodes and the budgets hold; then it is the plan the rules ask for. |
| `ArchiveDisk.OutcomeBounded` | examples/archive/storage.go:156-168 | Whatever a crash leaves has no more bytes and entries than a bound computed from durable state and pending links. |
| `ArchiveDisk.ChangeKeepsBound` | examples/archive/storage.go:285-315 | Renames and removals never raise that bound, whatever subset survives. |
| `ArchiveDisk.LinkBound` | examples/archive/storage.go:200-230 | Linking one new file raises it by one entry and the file's bytes. |
| `ArchiveInstall.StageFile` | examples/archive/storage.go:200-230 | On success the staged file is new, complete and synced; in every step, success or not, only staging names change and the budget holds. |
| `ArchiveInstall.RemoveStage` | examples/archive/storage.go:232-237 | Removes a staging name only while it still refers to the staged file. |
| `ArchiveInstall.StageAll` | examples/archive/storage.go:252-270 | Stages every planned file within the byte and entry budget of the whole batch. |
| `ArchiveInstall.Recheck` | examples/archive/storage.go:271-292 | Succeeds exactly when every archived and staged file is unchanged and every new destination is free. |
| `ArchiveInstall.InstallAll` | examples/archive/storage.go:299-304 | Renames staged files one by one; what is left staged and what is installed is known after every step. |
| `ArchiveInstall.PruneAll` | examples/archive/storage.go:308-315 | Removes the planned files, only after every write is durable. |
| `ArchiveInstall.CleanUp` | examples/archive/storage.go:259-263 | Removing leftover staging files keeps every safety property, wherever the run stopped; if no operation failed before any rename, the directory reads as it did at the start. |
| `ArchiveInstall.Commit` | examples/archive/storage.go:296-317 | Sync, rename, sync, remove, sync: every state is safe, and success leaves nothing pending. |
| `ArchiveInstall.InstallingSafe` | examples/archive/storage.go:296-317 | In any state between the first and last sync, any crash leaves every archived name at its old or its planned bytes, and a removal survives only if every write did. |
| `ArchiveInstall.StagingSafe` | examples/archive/storage.go:252-295 | Before the first sync any crash leaves the archived names as they were. |
| `ArchiveInstall.InstallPlan` | examples/archive/storage.go:252-318 | All states of a run are crash-safe and within the staging budget. It succeeds exactly when no directory operation failed, the archive is as it was read and no new name is taken; then the directory is the planned one, durably. A refusal without a failed operation leaves no trace, staging files included. |
| `ArchiveRecovery.ReadArchive` | examples/archive/storage.go:150-193 | Lists the archive exactly when entries, bytes, files and every document are acceptable, and reports its files, entries and bytes. |
| `ArchiveRecovery.InstalledIsKept` | examples/archive/plan.go:109-131 | Installing the plan gives the newest `keep` windows of archive and closed input, highest sequence per name. |
| `ArchiveRecovery.ReplanIsEmpty` | examples/archive/plan.go:66-140 | Planning again right after a full installation writes and removes nothing. |
| `ArchiveRecovery.RerunStaleIffMixed` | examples/archive/plan.go:91-94 | A repeated run is refused as stale if and only if the source holds an older sequence of a retained slot. |
| `ArchiveRecovery.TwoSequencesRunOnce` | examples/archive/plan.go:91-94 | Two sequences of one slot are accepted once and refused the second time. |
| `ArchiveRecovery.NextRunNotStale` | examples/archive/plan.go:91-94 | With one sequence per slot no rerun is refused as stale, from whatever crash state. |
| `ArchiveRecovery.KeptAfter` | examples/archive/plan.go:80-131 | However much of a plan was carried out, the rules ask for the same final archive. |
| `ArchiveRecovery.NextRunConverges` | examples/archive/storage.go:252-318 | A crash at any moment of an accepted run leaves a directory the next run can list, and from there the rules lead to the same archive. |
| `ArchiveRecovery.CrashesConverge` | examples/archive/storage.go:252-318 | However many accepted runs crash, at any moment each, the first run that then completes leaves the archive the very first one was for. |
| `ArchiveRecovery.RunArchive` | examples/archive/main.go:43-78 | One whole run: it succeeds exactly when no directory operation failed, the options are in range, the input is valid, the directory can be listed and the plan is acceptable. Then the archive is exactly what the rules ask for, otherwise every file is as it was or as planned, without a failed operation as it was; all states on the way are crash-safe. |
| `RepriceSums.CountsPartition` | internal/reprice/calculate.go:315-374 | For each move covered and excluded counts add up to the counts that entered it. |
| `RepriceSums.ReasonTrue` | internal/reprice/calculate.go:284-325 | The reason an excluded record is counted under is true of it. |
| `RepriceSums.WorkloadMeans` | internal/reprice/calculate.go:270-283 | Without a conflict every mapped identity of a record that enters a move says its workload, and without one there is none. |
| `RepriceSums.CoveredOverlap` | internal/reprice/calculate.go:255-311 | The fractions of the moves a covered record enters sum to at most one. |
| `RepriceSums.TiersHold` | internal/reprice/calculate.go:302-340 | No request of an accepted covered record is larger than its model's priced tier, nor after conversion than the tier of a model it moves to. |
| `RepriceSums.BucketFits` | internal/reprice/calculate.go:340-374 | No bucket of an accepted log outgrows a machine word. |
| `RepriceSums.PartitionedUncached` | internal/reprice/calculate.go:392-410 | The unsigned subtraction of cache tokens from a bucket's input never wraps around. |
| `RepriceSums.CostPlus` | internal/reprice/calculate.go:392-410 | Pricing is additive over token totals. |
| `RepriceSums.BucketCost` | internal/reprice/calculate.go:467-489 | Pricing a bucket's total is pricing its records one by one. |
| `RepricePrices.PriceCharged` | internal/reprice/calculate.go:392-409 | Raising one price raises a cost by that much per million of the tokens it is for: input price for input that is neither read from nor written to the cache, cache prices for cache tokens, output price for output, each with its conversion. |
| `RepricePrices.PriceRaised` | internal/reprice/calculate.go:392-409 | So does every total over any records: the baseline, and each move before it, after it and with a measured output factor, which is the mapped workload's own or the variant's. |
| `RepricePrices.OutputMeans` | internal/reprice/calculate.go:412-420 | Output changes by the first factor measured from the move's model to its target on that workload, and not at all where there is none. |
| `RepricePrices.FreeTotals` | internal/reprice/calculate.go:392-409 | With all prices zero every total is zero, so prices decide all of it. |
| `RepriceSums.MovesRepriceRecords` | internal/reprice/calculate.go:445-530 | Adding each move's share of the difference to the baseline is repricing every covered record by the unmoved share and each matching move's fraction, without cascading. |
| `RepriceSums.ShadowAccepts` | internal/reprice/failures.go:27-47 | Whatever failed record the calculator accepts, its failure shadow accepts too. |
| `RepriceSums.FailedPartCounts` | internal/reprice/failures.go:27-47 | Each of the shadow's counters is at most the parent's. |
| `RepriceSums.FailedPartBucket` | internal/reprice/failures.go:27-47 | Each of the shadow's buckets is at most the parent's. |
| `RepriceSums.NothingFailedTwice` | internal/reprice/failures.go:31-41 | The shadow never gets a shadow of its own. |
| `Calculators.AddBounded` | internal/accounting/accounting.go:164-169 | Fails exactly when the sum leaves the signed range. |
| `Calculators.Calculator.Match` | internal/reprice/calculate.go:237-266 | The moves entered, whether a scope is unknown, and the sum of selected fractions. |
| `Calculators.Calculator.MappedWorkload` | internal/reprice/calculate.go:270-283 | Refused exactly when two identities map to different workloads; otherwise the one they map to. |
| `Calculators.Calculator.Classify` | internal/reprice/calculate.go:284-314 | The exclusion reason, in the order of the checks. |
| `Calculators.Calculator.Inspect` | internal/reprice/calculate.go:216-339 | Accepts exactly the records that are admissible whatever came before. |
| `Calculators.Calculator.FillBuckets` | internal/reprice/calculate.go:355-374 | Adds the record to each matching move's bucket, refused exactly when a field would overflow. |
| `Calculators.Calculator.AddFailure` | internal/reprice/failures.go:27-47 | Passes a covered failed record on to the shadow, which cannot refuse it. |
| `Calculators.Calculator.Add` | internal/reprice/calculate.go:216-379 | A record is accepted exactly when it is admissible and every counter has room; the counters then describe the log with it, and the shadow its failed part. |
| `RepriceReport.PriceMove` | internal/reprice/calculate.go:467-489 | A move's source and target costs from buckets are the sums over its covered records. |
| `RepriceReport.PriceVariant` | internal/reprice/calculate.go:490-521 | Level 2 costs of one workload variant, exactly when every output factor is known. |
| `RepriceReport.PriceScenario` | internal/reprice/calculate.go:445-530 | Level 1 and every Level 2 total from buckets are the record-by-record totals. |
| `RepriceReport.FindEnvelope` | internal/reprice/calculate.go:532-543 | The envelope is the smallest that holds every line. |
| `RepriceResult.PricedFailures` | internal/reprice/failures.go:49-72 | The failure report is the report of a fresh calculator over the failed covered records. |
| `RepriceResult.FailedPartComplete` | internal/reprice/failures.go:49-63 | Whenever the whole supports its workloads, so does the failed part. |
| `RepriceResult.Result` | internal/reprice/calculate.go:422-548 | Every figure of the report is the record-by-record figure; failures are reported exactly when something failed, for the same workloads. |
| `RepriceResult.CoveredPlusExcluded` | internal/reprice/calculate.go:315-344 | Covered plus excluded counts are all counts that were added. |
| `RepriceResult.FailuresPlusSuccesses` | internal/reprice/failures.go:49-72 | Failed and other records share every total exactly. |
| `RepriceResult.FailureTokensOfPart` | internal/reprice/failures.go:41-45 | The reported failure tokens are those of the shadow's records. |
| `RepriceResult.TotalsOrdered` | internal/reprice/calculate.go:489-543 | No total is negative, and low, central and high are in order. |
| `RepriceResult.MoveSumsOrdered` | internal/reprice/calculate.go:467-521 | What one move takes and gives is nonnegative, with each variant's endpoints in order. |
| `RepriceResult.ReportBounds` | internal/reprice/calculate.go:489-543 | Every reported line, in the totals and in every move's part, is in order and nonnegative, and all total lines are within the envelope. |
| `RepriceResult.FailuresWithin` | internal/reprice/failures.go:49-72 | The failed part costs no more than the whole, at every level. |
| `Windows.Observe` | internal/accounting/accounting.go:43-64 | A field is its first count; a different later count is a conflict; only a count that is too large fails. |
| `Windows.Tokens` | internal/accounting/accounting.go:40-110 | All five fields are observed so, the total is input plus output, and it fails exactly on a count or a total out of range. |
| `Windows.MergeCounts` | internal/accounting/accounting.go:171-179 | Adds every counter whatever the order; fails exactly when one would wrap around. |
| `Windows.SumSplits` | internal/spend/routing.go:304-321 | Whatever is split in two adds up again, in every measure. |
| `Windows.SumConsistent` | internal/spend/investigate.go:69-124 | Tokens equal the total counter and input plus output; the request counter equals the requests and bounds those without token fields; failure tokens never exceed tokens; fallback classes partition the requests, and rows without a usable spend never exceed them. |
| `Windows.SumBelow` | internal/spend/routing.go:304-321 | No part exceeds the whole, in any counter. |
| `WindowMeanings.SumMeans` | internal/spend/investigate.go:69-125 | Every counter of a sum over selected rows is the number of those rows of which its name is true, or the total of their own field. |
| `WindowMeanings.WindowMeans` | internal/spend/cache.go:16-57 | The same for a window object, its error tokens and its cache coverage. |
| `WindowMeanings.RoutingMeans` | internal/spend/routing.go:304-321 | The same for the routing totals, every cohort and every cell: known-zero fallbacks are the rows with zero attempts, and so on. |
| `WindowMeanings.AgentsMean` | internal/spend/agents.go:229-285 | The same for the agent windows and every agent. |
| `WindowCounts.AddRow` | internal/spend/investigate.go:69-124 | Adds a row's measures; refused exactly when a counter would leave its range. |
| `WindowCounts.Merge` | internal/spend/routing.go:334-375 | Adds another window; refused exactly when a counter would leave its range. |
| `WindowCounts.AddDetail` | internal/spend/cache.go:16-57 | Counts a cache field as covered, missing or invalid; refused exactly when the row is covered and its input would leave the range. |
| `WindowCounts.Window.Add` | internal/spend/investigate.go:69-124 | Keeps the window invariant over any rows: coverage partitions requests, cache-read tokens stay below their input, attributed and error tokens below tokens; cache and error counters never refuse a row the token counters take. |
| `WindowCounts.Window.Uncached` | internal/spend/cache.go:58-61 | Subtracting cache reads from their input never wraps around. |
| `WindowCounts.UncachedWeight` | internal/spend/investigate.go:381-386 | A row's weight in the uncached ranking never wraps around. |
| `Ordering.Order` | internal/spend/routing.go:612-621 | Keys by descending weight, ties by order of appearance, whatever the map order. |
| `Routing.PartsFit` | internal/spend/routing.go:511-569 | A cohort and a cell never refuse a row the grand total accepts. |
| `Routing.RegisteredFits` | internal/spend/routing.go:497-509 | A known identity is refused exactly when it would be one more than the limit. |
| `Routing.Accumulator.Add` | internal/spend/routing.go:511-569 | Accepted exactly when the grand total and the registries have room; totals, cohorts and cells then are the sums of their rows. |
| `RoutingReport.PartsMerge` | internal/spend/routing.go:334-375 | Merging two disjoint parts of what was counted never overflows. |
| `RoutingReport.MergePair` | internal/spend/routing.go:334-375 | Merging therefore succeeds and gives the sum of both. |
| `RoutingReport.ShowCohort` | internal/spend/routing.go:668-703 | A cohort's largest cells are shown and the rest merged, without losing or counting any twice. |
| `RoutingReport.Result` | internal/spend/routing.go:623-707 | For any `top` the report succeeds, and the displayed cells plus the remainder equal all model rows; hidden cohorts and cells are counted. Displayed cohorts and models have ever fewer requests, and none that is hidden has more. |
| `Agents.AgentsPartition` | internal/spend/agents.go:229-285 | Known, unknown and ambiguous rows are all rows, in every measure. |
| `Agents.AgentAccumulator.Add` | internal/spend/agents.go:229-285 | A row goes to exactly one of the three windows and a known one to its agent, which never refuses what the window accepts. |
| `Agents.AgentValues` | internal/spend/agents.go:308-319 | Cost is available exactly when some row's spend is usable or there are no rows. |
| `Agents.CountingFirst` | internal/spend/agents.go:342-375 | The ranking puts all agents with usable cost first, so the list and its cost column agree. |
| `Agents.Finish` | internal/spend/agents.go:331-428 | The list is the first `top` counting agents; listed, unavailable and undisplayed agents add up to the known total. Listed changes never grow down the list, and no known change that is not listed is larger. |
| `Duplicates.FlatAt` | internal/spend/duplicates.go:32-32 | Dividing an index by the block size reaches the digest added in that place. |
| `Duplicates.FlatLength` | internal/spend/duplicates.go:25-30 | The length from the block count is the number of digests. |
| `Duplicates.RequestDigests.Add` | internal/spend/duplicates.go:17-23 | Appends one digest; every block but the last stays full. |
| `Duplicates.RequestDigests.At` | internal/spend/duplicates.go:32-32 | The digest in place `i`. |
| `Duplicates.RequestDigests.Swap` | internal/spend/duplicates.go:34-34 | Swaps two digests in place and keeps the multiset. |
| `Duplicates.RequestDigests.Sort` | internal/spend/duplicates.go:36-38 | Sorts in place by swaps and keeps the multiset. |
| `Duplicates.RequestDigests.Duplicated` | internal/spend/duplicates.go:36-44 | True exactly when two added digests are equal. |
| `Sessions.SessionsConserve` | internal/spend/session.go:331-415 | Every count, token and valid amount is in exactly one session or unattributed. |
| `Sessions.TokensAreSums` | internal/spend/session.go:252-330 | The report's totals are the sums over all selected rows. |
| `Sessions.Review.Tally` | internal/spend/session.go:252-330 | The counters over all rows; refused exactly on an unknown or contradictory rejection or too many tokens. |
| `Sessions.CountMembers` | internal/spend/session.go:367-386 | Counts each distinct identity of a session once; refused exactly beyond the membership limit. |
| `Sessions.AddAmounts` | internal/spend/session.go:387-418 | A session's amounts after one more row; spend is complete exactly when nothing is missing, invalid or unanalyzed. |
| `Sessions.Review.AddToSession` | internal/spend/session.go:345-418 | A session's state describes its group with the new row; refused exactly at the session or membership limit. |
| `Sessions.Review.Add` | internal/spend/session.go:238-419 | After any rows the review equals the group-by of the rows of the period; refusals are exactly characterized. |
| `SessionReport.SessionPeriod` | internal/spend/session.go:134-164 | A chosen period if it has ended; without one the whole passed days inside the span if there are any, otherwise the span, or an error if it reaches into the future or there are no rows. |
| `SessionReport.MarkClipped` | internal/spend/session.go:432-458 | A session is clipped exactly when a row outside the period has its ID, although the pass is skipped when the span stays inside. |
| `SessionReport.ReviewRows` | internal/spend/session.go:235-467 | The whole review: accepted exactly when every selected row is, and then equal to its group-by with clipping. |
| `SessionReport.SortedCounts` | internal/spend/session.go:579-588 | In sorted values, what is below and not above the value in a place. |
| `SessionReport.Distribute` | internal/spend/session.go:579-588 | p50 and p95 are the nearest ranks and the maximum is the largest value. |
| `SessionReport.SessionKinds` | internal/spend/session.go:482-577 | Sessions with calls, only rejections and only unanalyzed rows are all sessions. |
| `SessionReport.SummarizeSessions` | internal/spend/session.go:482-577 | Every count is the number of sessions of its kind, the largest are the first `top` with calls, and the collected values are the spend of sessions with complete spend and the calls of sessions with calls. |
| `SessionReport.FinishSessions` | internal/spend/session.go:482-577 | Every count is the number of sessions with its flag; the largest sessions have calls, cost ever less, and none that is left out costs more. The distributions are the nearest ranks of spend and calls, and sessions over the cap without a budget rejection are counted only if a cap is given and every row was classified. |
| `SessionReport.ClassifiedMeans` | internal/spend/session.go:502-504 | Every selected row was classified exactly when the two counters agree. |
| `SessionMeanings.SumMeans` | internal/spend/session.go:331-418 | Every counter of a session is a number of its rows, or the tokens or amounts of its calls. |
| `SessionMeanings.TotalsMean` | internal/spend/session.go:252-330 | The same for the counters over all selected rows. |
| `SessionMeanings.AdmissionMeans` | internal/spend/session.go:273-330 | A selected row is taken exactly when its rejection is known and failed, and tokens, sessions and memberships can still be counted. |
| `SessionMeanings.FlagsMean` | internal/spend/session.go:505-571 | Every flag of a session says what its rows say: calls, rejections only, complete spend, over the cap, positive spend further apart than the counter window, two identities of one kind. |
| `Rankings.ChangeBracketed` | internal/compare/compare.go:438-453 | The true weights and the true change of every key lie in its intervals, which fit a signed word, and a stated direction is never wrong. |
| `Rankings.UntrackedBounded` | internal/compare/compare.go:463-463 | A key no candidate list mentions changed by no more than the stated bound. |
| `Rankings.Sort` | internal/compare/compare.go:455-462 | A permutation in order. |
| `Rankings.RankCandidates` | internal/compare/compare.go:415-474 | Lists every candidate once with its interval, strongest possible change first. |
| `Rankings.StrongestFirst` | internal/compare/compare.go:455-462 | What ranks later changed no more, either way, than what ranks earlier may have. |
| `Rankings.Increase` | internal/spend/investigate.go:571-606 | The combined interval of up to two keys that certainly increased the most; none exactly if no key certainly increased or the total did not. |
| `Rankings.LeadersBracketed` | internal/spend/investigate.go:571-606 | It brackets the true combined change and fits a signed word, although its upper end is cut off. |
| `ScanFlags.UpperOfAll` | internal/compare/scan.go:309-313 | The largest upper bound of a window, or the error bound if that is larger. |
| `ScanFlags.UpperBoundsAll` | internal/compare/scan.go:309-313 | It bounds the true weight of every key, returned or not. |
| `ScanFlags.FlagRanking` | internal/compare/scan_signals.go:126-209 | Exactly which keys are flagged, and that a newly prominent key is not flagged as top share as well. |
| `ScanFlags.TopShareTrue` | internal/compare/scan_signals.go:132-150 | For the key `FlagRanking` flags: its true share is above the floor and strictly exceeds every key's true share in every baseline window. |
| `ScanFlags.ProminenceTrue` | internal/compare/scan_signals.go:155-192 | For the keys `FlagRanking` flags: a newly prominent key's true share is above the floor and strictly exceeds its own in every baseline window; an error surge its own count. |
| `ScanFlags.TopShareComplete` | internal/compare/scan_signals.go:132-150 | If the sketches lost nothing, the heaviest key is flagged whenever its share is above the floor and exceeds every key's share in every baseline window. |
| `ScanFlags.ProminenceComplete` | internal/compare/scan_signals.go:155-192 | If the sketches lost nothing, a key with a high enough score is flagged whenever its share, or its error count, exceeds its own in every baseline window. |
| `ScanWindows.BaselineSound` | internal/compare/scan.go:171-205 | In a usable history of windows of one length (`internal/compare/scan.go` line 287 gives every frame the same), whatever their order was before the check, every baseline window ends before any checked window starts, and baseline and checked windows together cover one stretch of time without a gap. |
| `ScanWindows.ReportGrounded` | internal/compare/scan.go:171-257 | The same in terms of what the report shows. |
| `ScanWindows.StreakMeans` | internal/compare/scan.go:210-242 | A streak is long enough exactly when the last windows all had the candidate. |
| `ScanWindows.PersistenceMeans` | internal/compare/scan.go:210-257 | A recent window yields a finding exactly when it is a candidate there and in each of the last `Persist` windows. |
| `ScanWindows.Persist` | internal/compare/scan.go:230-242 | Candidates against the streak map: findings, pending and the next map, which forgets what is missing. |
| `ScanWindows.Check` | internal/compare/scan.go:180-198 | Ready exactly when history is long enough, adjacent and complete. |
| `ScanWindows.Scan` | internal/compare/scan.go:133-260 | The whole scan: evaluated exactly when ready, with those findings; incomplete windows reset all streaks. For every evaluated report the baseline is long enough, complete, contiguous, ends before every reported window, and reaches with the checked windows exactly up to the first reported one. The report shows as many of the last closed windows as were asked for, or all there are, in order; its baseline is as long as asked for, or all that precedes the checked windows. A long enough history with nothing wrong is always evaluated. |
| `ScanWindows.ClosedMembers` | internal/compare/scan.go:160-165 | The closed windows are those that have ended. |
| `Utf8.EncodeDecode` | internal/langfuse/json.go:136-152 | The recognized byte sequences are exactly the encodings of scalar values. |
| `Utf8.DecodeEncode` | internal/langfuse/json.go:136-152 | Every scalar value has a recognized encoding that decodes to it. |
| `JsonLanguage.AcceptsExactly` | internal/langfuse/json.go:228-284 | A value is read off the input exactly when the input is its text, within the depth and member limits and with surrogates only in pairs, and what follows cannot continue it. |
| `JsonLanguage.SpacedSound` | internal/langfuse/json.go:228-284 | What is accepted is text of the grammar. |
| `JsonLanguage.SpacedComplete` | internal/langfuse/json.go:228-284 | All text of the grammar within those limits is accepted. |
| `JsonLexer.Lexer.Take` | internal/langfuse/json.go:31-49 | One byte, under the row limit and the line-break rule when discarding and the field limit when keeping. |
| `JsonLexer.Lexer.Hex` | internal/langfuse/json.go:68-89 | Four hexadecimal digits and their value. |
| `JsonLexer.Lexer.Quoted` | internal/langfuse/json.go:91-155 | A string of the grammar, surrogates only in pairs, and nothing else. |
| `JsonLexer.Lexer.Number` | internal/langfuse/json.go:171-226 | A number of the grammar and nothing else. |
| `JsonLexer.Lexer.Value` | internal/langfuse/json.go:228-284 | Performs exactly the recognizer's reading of a value: succeeds exactly when it does and the limits allow it, with the kept bytes stripped of whitespace. |
| `JsonFields.KeptReadsBack` | internal/langfuse/json.go:228-284 | What is kept of a value reads back as the same value without whitespace. |
| `JsonFields.TightIsStripped` | internal/langfuse/json.go:51-58 | The kept bytes are the value's text with insignificant whitespace removed. |
| `JsonFields.KeepDiscardAgree` | internal/langfuse/json.go:31-49 | Keeping and discarding consume the same input and differ only by the field limit. |
| `JsonFields.LookaheadEnough` | internal/langfuse/json.go:311-326 | Forty-four bytes decide the level as the whole string would. |
| `JsonFields.ReadLevel` | internal/langfuse/json.go:313-326 | Scans a value and classifies it as its full text would be. |
| `JsonRows.ReadName` | internal/langfuse/json.go:157-167 | A member's decoded name and its colon; refuses only what the grammar or the field limit does. |
| `JsonRows.ReadUsage` | internal/langfuse/json.go:328-387 | Accepted exactly when the usage value is within the limits with distinct names; gives numbers and nulls by key, counts unknown keys, and marks what is no object. |
| `JsonRows.ReadRow` | internal/langfuse/json.go:389-436 | A row is accepted exactly when it is an object within the limits with distinct names whose approved fields fit; the result depends only on the object. |
| `JsonRows.FieldKept` | internal/langfuse/json.go:417-423 | Every approved field of an accepted row is kept, as its own text without whitespace. |
| `JsonRows.UnapprovedUnseen` | internal/langfuse/json.go:417-423 | Changing the values of fields that are not approved changes nothing in the row. |
| `JsonMeanings.UsageSays` | internal/langfuse/json.go:328-387 | In an accepted usage object each of the six keys is known exactly when a member has its written name, with that member's own number or null, or "false"; all other members are counted as unknown. |
| `JsonMeanings.UsageAccepted` | internal/langfuse/json.go:328-387 | A usage object is accepted exactly when its names are distinct and names and known values fit. |
| `JsonMeanings.RowMeans` | internal/langfuse/json.go:389-436 | Everything an accepted row says is what its members say: fields, level and usage, and nothing without a member. |
| `JsonMeanings.RowAccepted` | internal/langfuse/json.go:389-436 | A row is accepted exactly when its names are distinct, names and approved fields fit, and its usage is accepted. |
| `JsonMeanings.LevelNames` | internal/langfuse/json.go:303-310 | Exactly the four level names are known, spelled in any way. |
| `JsonMeanings.Spellings` | internal/langfuse/json.go:91-155 | Exactly which escapes stand for an ASCII character, as section 7 of RFC 8259 says. |
| `CsvText.FieldsExactly` | internal/langfuse/csv.go:16-104 | A field and its end are read exactly when the input is their text and the field holds no NUL. |
| `CsvText.LineSound` | internal/langfuse/csv.go:106-135 | A record that is read is the text of its fields. |
| `CsvText.LineComplete` | internal/langfuse/csv.go:106-135 | A rendered record without NUL reads back as its fields. |
| `CsvReader.ReadCsvField` | internal/langfuse/csv.go:16-104 | The byte loop reads a field exactly when the grammar and limits allow, and returns what its column keeps. |
| `CsvTable.ReadRecord` | internal/langfuse/csv.go:106-135 | A record is read exactly when its fields, width and size are acceptable, with the values of its columns. |
| `CsvTable.ReadTable` | internal/langfuse/csv.go:137-160 | Header and rows of a whole table: accepted exactly when each record is and the names are distinct and not empty, and then with that table. |
| `CsvTable.RecordRoundTrip` | internal/langfuse/csv.go:106-135 | Quoting a record without NUL any way and reading it returns its approved values. |
| `CsvTable.RowsRoundTrip` | internal/langfuse/csv.go:155-190 | Rendered rows without NUL read back under given names. |
| `CsvTable.TableRoundTrip` | internal/langfuse/csv.go:137-191 | Rendering a table without NUL, header and rows, quoted in any way, and reading it as one input returns the names and every row. |
| `CsvTable.ValuesAt` | internal/langfuse/csv.go:110-120 | A value is everything in an approved column and nothing in any other. |
| `CsvTable.ColumnKept` | internal/langfuse/csv.go:110-120 | Column by column: an approved one is whole, a level is whole if it is short, and nothing is left of any other. |
| `CsvTable.LevelBufferEnough` | internal/langfuse/csv.go:18-30 | The bounded level buffer classifies as the full text would. |
| `SpendCsv.FramesRecord` | internal/spend/reader.go:253-273 | A rendered record's frame is the record, whatever its quoted fields hold. |
| `SpendCsv.FramesTable` | internal/spend/reader.go:253-273 | Framing a rendered table gives back its records one by one. |
| `SpendCsv.ReadFrame` | internal/spend/reader.go:253-273 | Reads up to the first newline of even quote parity, refused exactly beyond the record buffer. |
| `SpendCsv.SizeExact` | internal/spend/reader.go:348-351 | The announced size of a rendered field is the size of its decoded text. |
| `SpendCsv.PiecesAreFields` | internal/spend/reader.go:332-347 | Splitting a record at commas of even quote parity gives back its fields. |
| `SpendCsv.Preflight` | internal/spend/reader.go:332-357 | Passes exactly when there are at most 64 pieces and each announces an acceptable size. |
| `SpendCsv.PreflightExact` | internal/spend/reader.go:332-357 | For a rendered record these are its fields and the sizes of their decoded text. |
| `SpendJson.ObjectExact` | internal/spend/reader.go:405-437 | Any content in braces is framed at its matching brace, whatever strings it holds, unpaired surrogates included, exactly when nesting and size allow. |
| `SpendJson.ReadObject` | internal/spend/reader.go:405-437 | The depth, quote and escape loop computes that frame. |
| `SpendJson.ArrayExact` | internal/spend/reader.go:389-465 | An exported array is split into exactly its objects, or refused exactly when one cannot be framed or there are too many. |
| `SpendJson.SplitArray` | internal/spend/reader.go:389-465 | The reading loop, on any input. |
| `SpendPreflight.StringMeasured` | internal/spend/reader.go:561-605 | Any string of RFC 8259: its end is found exactly when no surrogate is unpaired and its decoded text takes at most 8192 bytes of UTF-8. |
| `SpendPreflight.LengthIsEncoded` | internal/spend/reader.go:598-598 | The counted length of a scalar is the length of its encoding. |
| `SpendPreflight.FindStringEnd` | internal/spend/reader.go:561-605 | The scanning loop, on any input. |
| `SpendPreflight.Restack` | internal/spend/reader.go:513-538 | The fixed array of field counters is a stack of open brackets. |
| `SpendPreflight.Preflight` | internal/spend/reader.go:508-559 | The whole check on any input: valid UTF-8 and the sizes and structure. |
| `SpendPreflight.ContentChecked` | internal/spend/reader.go:508-559 | Content passes exactly when its depth, the fields of each bracket, its strings and its words are within the limits. |
| `SpendPreflight.ObjectChecked` | internal/spend/reader.go:508-559 | The same for a whole object at any outer depth. |
| `SpendPreflight.ContentValid` | internal/spend/reader.go:509-511 | Content is valid UTF-8 exactly when its words are; strings always are. |
| `SpendPreflight.ObjectPasses` | internal/spend/reader.go:508-559 | An object passes exactly when its words are valid text and it is within every limit. |
| `SpendRecords.FieldsCounted` | internal/spend/reader.go:529-537 | The colons counted inside braces are the object's members, for objects of any size; array elements are not counted. |
| `SpendRecords.ObjectHandled` | internal/spend/reader.go:405-605 | Any JSON object of any depth and size is framed at its matching brace unless it is nested deeper than seven levels or larger than a record. It passes the checks exactly when no string or key has an unpaired surrogate and every decoded string, key and number, the depth, and the member count of every object are within the limits; arrays may be of any length. |

## Left out

- Opening files, symlink and ownership checks, locks, permissions, gzip and other operating-system effects: only create, write, sync, rename and remove are steps.
- Other processes changing the archive during a run: the re-checks are modelled, a concurrent writer is not.
- ArchivePlan.PlanArchive: whether a set of documents forms a valid series is a parameter, because it is decided by a summary library that is not part of this model.
- ArchivePlan.ArchiveNameInjective: the hash in the file name is taken to be injective.
- The canonical encoding and parsing of documents are parameters; only their round trip is required.
- Validating price books, factors and scenarios: the calculator starts from a valid configuration (`RepriceSpec.Config.Valid`).
- Hashing identities with a secret: identities are opaque values compared for equality.
- Decimal text of amounts, shares and their rounding: results are exact numbers.
- ScanFlags.FlagRanking: the floating-point score and threshold of a candidate are inputs, because rounding decides them; the exact comparisons beside them are modelled.
- ScanWindows.Scan: which candidates a window has is a parameter, and so the candidate and work limits are not modelled.
- SessionReport.FinishSessions: the review lists beside the largest sessions (over the cap, long spans, shared identities) and the counts of agent coverage are left out.
- Windows.SumConsistent: the map of observation levels is left out; error observations and their tokens are counted.
- Robust medians and the other scalar signals, display truncation, aliases and notes of all reports.
- The contents of sketches: a sketch is any set of bounds that hold.
- Windows.Observe: turning an attribute value into a count, including floating-point numbers, is an input; provenance labels are not modelled.
- Routing labels, field coverage per column, rows of other call types and cached shares.
- Routing.Accumulator.Add: nested totals are values in a map that is updated, not shared objects.
- Agents.AgentAccumulator.Add: the same; the coverage counters of tag shapes are left out.
- Duplicates.RequestDigests.Sort: the library sort is modelled by an in-place selection of minima through the same swaps.
- Checks of end times, timestamps and request identifiers of spend rows: rows are taken after them (`Sessions.Usable`).
- SessionReport.ReviewRows: the three passes read the same rows; comparing their digests to detect a changed file is left out, and so is the possibly-clipped note and count.
- JsonRows.ReadRow: splitting an export into its rows (array or lines) and calling the visitor is left out.
- CsvTable.ReadTable: parsing the usage column as JSON and re-encoding text columns as JSON strings is left out.
- JsonFields.ReadLevel: the library decoder on the lookahead is modelled as reading one string of the grammar.
- SpendCsv.Preflight: the check that a whole CSV record is valid UTF-8 comes before it and is left out.
- Decoding framed records, choosing columns, and the byte budget of the whole input.
- Partial state after an error, since results are discarded then.
- `internal/diagnose`, `internal/inspect`, the command line and the other examples: they would add classification tables and library calls.
