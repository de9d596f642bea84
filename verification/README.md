# Verified models of the HL-Mem operational scripts

This project models the protocols and algorithms in the operational scripts and the evaluation
runners of HL-Mem, and proves what they are for. Each module follows one component; code that
updates state is a class or a method with loops, proved against a specification, and code made of
expressions is a set of functions with lemmas about them. `dafny verify dfyconfig.toml` checks
everything.

* **`DirectoryLock`** The supervisor's directory lock as processes that interleave one filesystem
  operation at a time and may stop at any step. Mutual exclusion holds in every run in which a live
  holder keeps the lock for less than `stale_seconds`, and for no larger bound on the holds
  (`TimingIsExact`). A release frees the path for the next process (`ReleaseFrees`), and what a process
  does that runs alone without failures is exact from any state (`AcquiresAlone`, `ReleasesAlone`).
  Process ids are fresh and a process's random token is identified
  with its id.
* **`SupervisorState`, `ServiceRestart`, `Supervision`** One supervision cycle with arbitrary
  probes, clock ticks, listeners, query results and crashes, and a state file that survives them.
  What the system answers is a parameter, so that a restart that gives up has a cause among them.
  A ghost history records what was counted, marked healthy, attempted and launched; every reachable
  history is disciplined. The clock is read in whole seconds, is positive and never runs backwards.
  "Recorded" means saved: a launch whose process died before the save is not in the state file, and
  nothing is claimed about it.
* **`Connectivity`, `UnionFind`, `SubsetSums`, `SplitAllocation`, `RecallSplits`, `PairSplits`**
  The leak-free splits: union-find with path halving, grouping, a subset-sum table with witnesses,
  and writing the splits in place.
* **`Combinations`, `EntailmentSplits`** The category dynamic program, with its lexicographic
  tie-break. `rank` and the pair weights are arbitrary functions; `round(x * 0.40)` is exact
  rounding of two fifths, which never falls halfway.
* **`ReplayState`, `ReplayStates`, `ReplayRuns`** The resumable reader replay. One call is an
  arbitrary deterministic function from call to outcome whose results satisfy the per-case
  validator; a run may die between any two file writes.
* **`IngestCache`** The per-case database and manifest, with every unlink, write and rename a
  separate step, and the SQLite journal holding commits that are not checkpointed yet. The digests
  of trajectory and configuration are taken to be injective (`InjectiveSchemes` shows that such
  digests exist).
* **`Framing`, `Reembedding`** UTF-8 and the length-prefixed framing are written out and proved
  injective; only SHA-256 is taken to be. Other writers change the table in any way until the lock is held, also
  between the two reads of the first snapshot.
* **`Thresholds`, `SparseSums`, `InvertedIndex`, `CompressedRows`** Threshold selection, the
  inverted index and the compressed row form, over exact reals.
* **`ComplexityBudget`, `LogRotation`, `DiversePairs`** The budget ratchet, the log rotation and the
  greedy selection of pairs.

A parameter named `reliable` says that nothing raises, dies or is interrupted in this run; everything
else holds with and without it.

Where a promise does not hold of the code, the code is modelled as it is. The failing input is a
lemma, and another one says exactly when the promise holds:

* The lock excludes exactly if the holds are bounded by the stale threshold (`TimingIsNeeded`,
  `TimingIsExact`).
* Loading the state file should never raise. It does for an infinite number, whose conversion
  raises an error that is not caught, and for nesting too deep to parse (`InfiniteCountRaises`,
  `LoadRaises`).
* A restart should wait for the threshold and the cooldown. It does whenever the cycle found the
  port occupied, and only then; a listener that appears between the two queries can be killed below
  the threshold and within the cooldown (`EarlyKillHappens`, `KillInCooldownHappens`,
  `KillsWaitExactly`).
* The validator should accept only what a run could have left. It ignores `aborted_case_id` on
  states that are not aborted, and does not ask whether an abort came after a verified canary
  (`AcceptedButNeverWritten`, `SomeAcceptedIsNeverWritten`, `AcceptedIffWritten`).
* Fingerprints of identifiers joined without lengths can collide; equal ones mean equal lists
  exactly if the lengths agree too (`FingerprintsCollide`, `FingerprintTellsWithLengths`), as those of
  generated identifiers do (`EqualLengthsNeverCollide`).
* A ratchet that reports nothing should mean that no limit rose. With renames, the limit of the
  former name can rise, and that of the new one (`RenameCanRaise`, `RenameCanRaiseNewName`). It means
  so against every base exactly if, in the current budget alone, each limit of a path is matched by
  one of a path that answers for it, itself or the new name (`RatchetIsOrderExactly`; among budgets
  that can be read, `ReadRatchetIsOrderExactly`).
* The report on the claims as they were should be that of one table. The first snapshot reads twice,
  and a writer in between makes the report mix two (`ReportCanMix`, `ReportIsOfOneTable`).
* The first budget can fail for two callables of one name, exactly if one exceeds the last one over
  the default by more than its headroom (`SharedNameCanFail`, `InitialBudgetPasses`).

The greedy selection of pairs keeps the claim quota because no candidate pairs a claim with itself,
which the candidates' construction ensures (`LaterPairsHaveDistinctEnds`); `QuotaHoldsExactly` says
when it would be kept otherwise.

## Model

| member | source | states |
|---|---|---|
| DirectoryLock.MutualExclusion | scripts/hlmem_supervisor.py:343-447 | In every timely run, with any crashes, each live process between its mkdir and its rmdir is the creator of the directory on the lock path, so at most one holds the lock |
| DirectoryLock.HolderHasItsRecord | scripts/hlmem_supervisor.py:367-387 | In every timely run, whoever runs under the lock finds its own record in its own directory there |
| DirectoryLock.GuardIsOfTheLiving | scripts/hlmem_supervisor.py:295-340 | In every timely run the reclaim guard is held by a live reclaimer or by nobody, so a crash never leaves it behind |
| DirectoryLock.HolderKeepsItsDirectory | scripts/hlmem_supervisor.py:396-447 | The directory of a live holder leaves the path only by that holder's own operation, never by a reclaimer or a stale release |
| DirectoryLock.CrashRecovery | scripts/hlmem_supervisor.py:396-432 | From any reachable state with the reclaim guard free, a directory left by a dead process, once old, is reclaimed by the steps of a new process alone, which ends up holding a lock it owns |
| DirectoryLock.ReleaseFrees | scripts/hlmem_supervisor.py:434-447 | From any reachable state of a timely run, whoever runs under the lock and is through frees the path by its own steps, and a fresh process gets it at once, without reclaiming |
| DirectoryLock.AcquiresAlone | scripts/hlmem_supervisor.py:358-432 | From any state whatsoever, a process running alone without failures gets the lock exactly if the path is free, or holds an old directory that names no live owner with nobody reclaiming; otherwise it leaves all as it was |
| DirectoryLock.ReleasesAlone | scripts/hlmem_supervisor.py:434-447 | From any state whatsoever, a release without failures removes the directory exactly if it carries the own token |
| DirectoryLock.UndoesAlone | scripts/hlmem_supervisor.py:380-386 | A claim that failed frees the path again |
| DirectoryLock.TimingIsNeeded | scripts/hlmem_supervisor.py:367-432 | For every bound above the stale threshold there is a run without crashes, all of whose holds are shorter than the bound, that ends with two live processes both running under the lock |
| DirectoryLock.TimingIsExact | scripts/hlmem_supervisor.py:343-447 | All runs whose holds are shorter than a bound exclude exactly if the bound is at most the stale threshold |
| DirectoryLock.StepKeepsInv | scripts/hlmem_supervisor.py:343-447 | Every single operation, start or crash keeps the invariant as long as no live holder has held for `stale_seconds` |
| DirectoryLock.RunKeepsInvariant | scripts/hlmem_supervisor.py:343-447 | The inductive invariant holds after every step of every timely run |
| SupervisorState.Load | scripts/hlmem_supervisor.py:96-131 | Whatever the state file holds, a load that does not raise yields a valid state |
| SupervisorState.LoadIsExact | scripts/hlmem_supervisor.py:96-131 | A file that holds a valid state loads as that state; any other that does not raise, a missing or unreadable one among them, loads as the default |
| SupervisorState.LoadRaises | scripts/hlmem_supervisor.py:96-131 | A load raises exactly if the nesting is too deep or one of the counts is infinite and those before it convert |
| SupervisorState.InfiniteCountRaises | scripts/hlmem_supervisor.py:103-104 | An infinite failure count makes the load raise, for every supervisor |
| SupervisorState.SavedLoadsBack | scripts/hlmem_supervisor.py:96-141 | Loading a saved state never raises, and gives it back equal exactly when it is valid |
| ServiceRestart.VerifyOwnership | scripts/hlmem_supervisor.py:696-716 | It refuses exactly if some process cannot be identified or fails a check, and names the first such process |
| ServiceRestart.WaitForRelease | scripts/hlmem_supervisor.py:683-693 | It succeeds exactly if some query in time lists nothing, fails exactly if one fails before that, and otherwise gives up on what the last one lists |
| ServiceRestart.KillAll | scripts/hlmem_supervisor.py:754-767 | Each kill directly follows a passed check of that process, in order; all are killed exactly if no check refuses and no kill fails, and it ends at the first that does |
| ServiceRestart.Restart | scripts/hlmem_supervisor.py:742-799 | It launches exactly if no query, check, kill, wait or launch fails and every listener passes both checks; each error is given only for the step that went wrong. No kill before all listeners passed, each directly after its own check, launch only after an empty listing and after all were killed |
| Supervision.Supervisor.Save | scripts/hlmem_supervisor.py:134-141 | A saved state loads back as it is, and the file always tells the history |
| Supervision.Supervisor.MarkHealthy | scripts/hlmem_supervisor.py:551-586 | A recorded healthy probe resets the failures, confirms a start only if one is pending, and records the identity that was seen |
| Supervision.ServiceIsSeen | scripts/hlmem_supervisor.py:551-577 | The identity is recorded exactly if there is one listener, the process query answers about it, and it is one of the service |
| Supervision.Supervisor.StartAndConfirm | scripts/hlmem_supervisor.py:588-650 | An attempt launches exactly if nothing it asks for fails and all it finds may be killed; then the very process is recorded, and the first healthy probe in time, unless the supervisor died |
| Supervision.Supervisor.Confirm | scripts/hlmem_supervisor.py:607-650 | The wait ends; it marks health exactly if a probe in time is healthy after probes in vain by a live launcher, and otherwise changes nothing |
| Supervision.Supervisor.RunLocked | scripts/hlmem_supervisor.py:489-542 | Each cycle keeps the history disciplined; one that does not die marks health, waits out a startup, or counts the failure and attempts a restart exactly when one is due; a due restart in which nothing fails ends with a recorded launch |
| Supervision.Supervisor.RunCycles | scripts/hlmem_supervisor.py:468-542 | Every history of any cycles, whatever they observe, crashing anywhere, is disciplined |
| Supervision.StaysDisciplined | scripts/hlmem_supervisor.py:489-542 | Which further event keeps a history disciplined |
| Supervision.CountTells | scripts/hlmem_supervisor.py:526-527 | Counting an unhealthy cycle keeps state and history in step |
| Supervision.MarkTells | scripts/hlmem_supervisor.py:579-586 | Marking health keeps state and history in step, and is honest about what it confirms |
| Supervision.RecordTells | scripts/hlmem_supervisor.py:601-607 | Recording a launch keeps state and history in step |
| Supervision.ClearTells | scripts/hlmem_supervisor.py:500-516 | A starting state may be cleared exactly when it has timed out |
| Supervision.AttemptIsGuarded | scripts/hlmem_supervisor.py:530-542 | An attempt on an occupied port comes after enough counted failures and after the cooldown, and kills only the service on record |
| Supervision.EarlyKillsWereUnseen | scripts/hlmem_supervisor.py:530-542 | A kill below the threshold or within the cooldown happens only when the cycle saw no listener and the restart, asking again, found one |
| Supervision.EarlyKillHappens | scripts/hlmem_supervisor.py:530-542 | It happens below the threshold: the service on record can be killed at one failure under any threshold above one |
| Supervision.KillInCooldownHappens | scripts/hlmem_supervisor.py:530-542 | It happens within the cooldown: the service just confirmed can be killed under any threshold and any positive cooldown |
| Supervision.KillsWaitExactly | scripts/hlmem_supervisor.py:530-542 | With a threshold above one or a positive cooldown, every kill of every history is sure to have waited for both exactly in the cycles that saw the port occupied |
| Supervision.LaunchesSpread | scripts/hlmem_supervisor.py:498-542 | n recorded launches without a recorded healthy probe between the first and the last span at least n - 1 starting timeouts |
| Supervision.KilledWasSeen | scripts/hlmem_supervisor.py:278-285 | Whatever is killed was recorded as the service at a healthy probe, and no launch has been recorded since |
| Supervision.OnRecordMayBeKilled | scripts/hlmem_supervisor.py:278-285 | Between startups a process may be killed exactly if it is one of the service and the last one recorded at a healthy probe, with no launch recorded since |
| Supervision.LaunchedMayBeKilled | scripts/hlmem_supervisor.py:278-285 | While a launch is pending, the launched process may be killed as well |
| Supervision.FailuresAreCounted | scripts/hlmem_supervisor.py:526-542 | The failure counter is the number of unhealthy cycles counted since the last recorded healthy probe |
| LogRotation.LogDirectory.Rotate | scripts/hlmem_supervisor.py:719-739 | For every pattern of files: backup i + 1 is what backup i was, present or absent, backup 1 is the old log, and the log is gone |
| LogRotation.LogDirectory.RemoveBeyond | scripts/hlmem_supervisor.py:722-725 | Exactly the backups numbered above the retained count are removed |
| LogRotation.OnlyTheOldestIsLost | scripts/hlmem_supervisor.py:727-739 | Every file but the oldest backup and those beyond it is still there under some name |
| Orders.StrLessIff | scripts/generate_recall_eval_v1.py:291-297 | Strings compare at the first character that differs, and a proper prefix comes first |
| UnionFind.Root | scripts/generate_recall_eval_v1.py:284-289 | Following parents ends at a root at or before the item in string order |
| UnionFind.HalvingKeepsRoots | scripts/generate_recall_eval_v1.py:286-289 | A path halving step changes nobody's root |
| UnionFind.RootIffConnected | scripts/generate_recall_eval_v1.py:282-304 | Two nodes have one root exactly when the united edges connect them |
| UnionFind.RootIsLeast | scripts/generate_recall_eval_v1.py:291-297 | The root is the least node of the connected component |
| UnionFind.RootsDependOnTheGraphOnly | scripts/generate_recall_eval_v1.py:282-304 | Roots do not depend on the order of the unions |
| UnionFind.LinkingRepresents | scripts/generate_recall_eval_v1.py:291-297 | Linking the greater root under the less one represents the graph with the new edge |
| UnionFind.DisjointSets.Find | scripts/generate_recall_eval_v1.py:284-289 | The halving loop returns the root and keeps the represented graph |
| UnionFind.DisjointSets.Union | scripts/generate_recall_eval_v1.py:291-297 | After it the forest represents the graph with the new edge |
| SubsetSums.AttainableStep | scripts/generate_recall_eval_v1.py:314-321 | A total is attainable with one more size exactly if it was before, or the rest was |
| SubsetSums.AdditionsCompleteTable | scripts/generate_recall_eval_v1.py:316-321 | The additions complete the table to exactly the attainable totals within the limit |
| SubsetSums.Additions | scripts/generate_recall_eval_v1.py:315-320 | One pass over the table finds exactly the missing totals, each with a witness |
| SubsetSums.SubsetTable | scripts/generate_recall_eval_v1.py:313-321 | The keys are exactly the subset sums within the limit, each with an increasing witness of that sum |
| SplitAllocation.GroupByRoot | scripts/generate_recall_eval_v1.py:306-308 | The groups are the connected components, each row in exactly one |
| SplitAllocation.ExactSplitIsChoice | scripts/generate_recall_eval_v1.py:322-323 | Every leak-free exact split is a choice of components of that size |
| SplitAllocation.ChoiceIsExactSplit | scripts/generate_recall_eval_v1.py:324-328 | Every choice of components of that size is a leak-free exact split |
| SplitAllocation.RowsOfCardinality | scripts/generate_recall_eval_v1.py:313-321 | Choosing components takes as many rows as their sizes add up to |
| SplitAllocation.WriteSplits | scripts/generate_recall_eval_v1.py:325-328 | Every row gets the split of its component and nothing else of it changes |
| SplitAllocation.SplitByComponent | scripts/generate_recall_eval_v1.py:306-328 | It raises exactly if no leak-free exact split exists, and otherwise writes one |
| RecallSplits.UniteQueries | scripts/generate_recall_eval_v1.py:299-304 | The forest represents the links between queries and their gold claims |
| RecallSplits.AssignSplits | scripts/generate_recall_eval_v1.py:281-328 | It raises exactly if no exact split exists; otherwise exactly `test_size` rows are test, and rows linked by any chain of gold claims agree |
| RecallSplits.ConnectedIffChained | scripts/generate_recall_eval_v1.py:299-304 | Queries are connected exactly if a chain of queries that share gold claims joins them, unless a query has the id of a claim's node |
| PairSplits.AssignSplits | scripts/generate_claim_pair_eval_v1.py:841-888 | The same for claim pairs, linked by the claims they share |
| PairSplits.ClaimConnectsPairs | scripts/generate_claim_pair_eval_v1.py:861-866 | Pairs that share a claim on either side are connected, so never split |
| Orders.SortSorts | scripts/generate_entailment_eval_v1.py:418-420 | Sorting is by the key and keeps the order of equal ones |
| Combinations.FilterIsCombo | scripts/generate_entailment_eval_v1.py:419-419 | The events of a pool that lie in a set form one of its combinations |
| Combinations.ComboIsFilter | scripts/generate_entailment_eval_v1.py:419-419 | A combination of distinct events is what its own set selects |
| Combinations.NoCombos | scripts/generate_entailment_eval_v1.py:419-419 | There is no combination exactly when the pool is smaller than the quota |
| Orders.TupleLessIff | scripts/generate_entailment_eval_v1.py:427-427 | Tuples compare at the first element that differs, and a proper prefix comes first |
| EntailmentSplits.OfferKeepsLeast | scripts/generate_entailment_eval_v1.py:423-428 | Offering a candidate keeps, for each weight, the least list offered |
| EntailmentSplits.NextTable | scripts/generate_entailment_eval_v1.py:422-429 | Every entry joined with every option is offered, and the least of each weight kept |
| EntailmentSplits.OffersAreNextTable | scripts/generate_entailment_eval_v1.py:416-429 | One category more: the table keeps the least of all totals of each weight |
| EntailmentSplits.LeastTable | scripts/generate_entailment_eval_v1.py:415-429 | For every attainable weight the table holds the lexicographically least selection over all choices meeting each quota |
| EntailmentSplits.TwoFifths | scripts/generate_entailment_eval_v1.py:431-431 | The target is the integer nearest to two fifths of the pairs |
| EntailmentSplits.NearestWeight | scripts/generate_entailment_eval_v1.py:432-435 | The chosen weight is nearest to the target, the lesser of two equally near |
| EntailmentSplits.NearestIsBest | scripts/generate_entailment_eval_v1.py:432-436 | The chosen selection is best among all choices, by distance, weight and order |
| EntailmentSplits.BestIsOptimal | scripts/generate_entailment_eval_v1.py:415-437 | No quota-respecting set of events has a pair count nearer to the target, or a smaller one as near, or the same and an earlier list in rank order |
| EntailmentSplits.EventsMakePools | scripts/generate_entailment_eval_v1.py:408-410 | Grouping by category yields disjoint pools of distinct events |
| EntailmentSplits.InCategoryHolds | scripts/generate_entailment_eval_v1.py:408-410 | A category holds exactly its events, each as often as it is listed |
| EntailmentSplits.CategoriesAreThoseOfEvents | scripts/generate_entailment_eval_v1.py:416-416 | The categories are those of the events, each once, in string order |
| EntailmentSplits.PairsByPool | scripts/generate_entailment_eval_v1.py:415-420 | Counted pool by pool or event by event, the pairs are the same |
| EntailmentSplits.SelectionExists | scripts/generate_entailment_eval_v1.py:415-429 | A selection exists exactly if each category has its quota of events |
| EntailmentSplits.SplitByQuotas | scripts/generate_entailment_eval_v1.py:403-437 | Under any quotas, it fails exactly if a category has no quota or fewer events than its quota; otherwise the labels are those of the best selection |
| EntailmentSplits.BestSplitIsOptimal | scripts/generate_entailment_eval_v1.py:403-437 | For distinct event ids, each category has its quota of test events, and no other set of events with that property is preferred, by pair count or by the list of its events in rank order |
| EntailmentSplits.MakeSplits | scripts/generate_entailment_eval_v1.py:378-437 | Under the fixed quotas, it fails exactly if an event has a category without quota or a category has fewer events than its quota; otherwise, for distinct event ids, the test events meet every quota with the pair count nearest to the target, the first such set in rank order |
| ReplayState.OrderIsPermutation | evaluation/tools/run_chinese_reader_replay.py:1207-1215 | The canonical order calls every pair of an arm and one of its cases exactly once, the canary first |
| ReplayStates.WrittenIsAccepted | evaluation/tools/run_chinese_reader_replay.py:1334-1371 | Whatever state a run writes, aborted or not, the validator accepts it |
| ReplayStates.AcceptedIffWritten | evaluation/tools/run_chinese_reader_replay.py:1591-1713 | The validator accepts a state exactly if some run could have written it, but for three things it does not ask: that the preflight checks were over, that only an aborted state names an aborted case, and that an abort comes after a verified canary |
| ReplayStates.AcceptedButNeverWritten | evaluation/tools/run_chinese_reader_replay.py:1591-1713 | A state aborted at the second call after a failed canary is accepted and left by no run |
| ReplayStates.SomeAcceptedIsNeverWritten | evaluation/tools/run_chinese_reader_replay.py:1591-1713 | For some sources and some canary, the validator accepts a state that no run leaves |
| ReplayStates.RecordedRebuilds | evaluation/tools/run_chinese_reader_replay.py:1624-1640 | Performing the calls again with the recorded results rebuilds the case states |
| ReplayStates.BadCanaryStops | evaluation/tools/run_chinese_reader_replay.py:1992-2014 | Nothing is called after a canary that failed or whose mode was not confirmed |
| ReplayStates.StatesAreResults | evaluation/tools/run_chinese_reader_replay.py:1989-1990 | What is kept for an arm is, call by call, what its calls yielded |
| ReplayRuns.PrefixIsRemaining | evaluation/tools/run_chinese_reader_replay.py:1942-1944 | The calls that remain are the rest of the canonical order |
| ReplayRuns.CompletedAfter | evaluation/tools/run_chinese_reader_replay.py:1942-1942 | The completed pairs read off the case states are exactly the calls made |
| ReplayRuns.Replay.Project | evaluation/tools/run_chinese_reader_replay.py:1374-1424 | When it gets through, every arm file and the summary are projections of the state file |
| ReplayRuns.Replay.Persist | evaluation/tools/run_chinese_reader_replay.py:1427-1459 | The state file is written first and as a whole |
| ReplayRuns.Replay.ResumeState | evaluation/tools/run_chinese_reader_replay.py:1846-1878 | It yields the state exactly if it can be resumed, and repairs the projections |
| ReplayRuns.Replay.MakeCall | evaluation/tools/run_chinese_reader_replay.py:1951-2014 | One call moves the state file to the next state of the fixed sequence, or to its abort |
| ReplayRuns.Replay.Run | evaluation/tools/run_chinese_reader_replay.py:1894-2015 | A finished full run ends in the one final state of its setting; a resumed run never loses or changes what was recorded, and changes nothing when it may not resume or when nothing is left to call |
| ReplayRuns.Replay.AfterAnyRuns | evaluation/tools/run_chinese_reader_replay.py:1894-2015 | After any fresh, resumed, canary-only or crashed runs, a full run that ends leaves the state an uninterrupted run leaves; with a good canary, no fatal failure and no crash it does end |
| ReplayRuns.FinalReportsFailures | evaluation/tools/run_chinese_reader_replay.py:1357-1362 | A replay that ended with a good canary is completed exactly if no call of the order failed, and lists exactly the calls that did |
| ReplayRuns.FailedAreThose | evaluation/tools/run_chinese_reader_replay.py:1357-1362 | After any calls, the failed cases are exactly the calls made whose result failed |
| ReplayRuns.FailedOfLists | evaluation/tools/run_chinese_reader_replay.py:1357-1362 | For an arm exactly the results with a reader error are listed, under their case ids |
| ReplayRuns.ArmsReportProgress | evaluation/tools/run_chinese_reader_replay.py:1190-1204 | After any number of calls, canary only or not, each arm file holds the results and ids of its calls so far in order, and its status says how far it got, how it ended, or what was wrong with the canary |
| ReplayRuns.SummaryReportsProgress | evaluation/tools/run_chinese_reader_replay.py:1286-1331 | After any number of calls the summary names them, exactly those of them that failed, and the result of the canary |
| ReplayRuns.AbortIsReported | evaluation/tools/run_chinese_reader_replay.py:1190-1204 | After an abort every arm says so, and the summary names the case |
| ReplayRuns.SummaryAgreesWithArms | evaluation/tools/run_chinese_reader_replay.py:1190-1204 | At the end each arm reports its own completion over all of its cases, and the summary reports one without failures exactly if every arm does |
| ReplayRuns.Grown | evaluation/tools/run_chinese_reader_replay.py:1963-2009 | A state written later extends the order and the results of an earlier one |
| IngestCache.ManifestTellsIngest | evaluation/tools/run_memdaily_benchmark.py:455-501 | A manifest written for one ingest fits another exactly when trajectory and configuration are the same |
| InjectiveSchemes.InjectiveSchemeExists | evaluation/tools/run_memdaily_benchmark.py:367-453 | Digests with the injectivity assumed of those of trajectory and configuration exist |
| IngestCache.Cache.RemoveArtifacts | evaluation/tools/run_memdaily_benchmark.py:504-516 | Stopped anywhere, the removal never leaves a manifest beside an incomplete database, nor a database without the journal it needs |
| IngestCache.Cache.Ingest | evaluation/tools/run_memdaily_benchmark.py:526-600 | When it gets through, every message was ingested |
| IngestCache.Cache.WriteManifest | evaluation/tools/run_memdaily_benchmark.py:1091-1095 | The manifest appears as a whole, beside a complete database |
| IngestCache.Cache.Validate | evaluation/tools/run_memdaily_benchmark.py:473-501 | The cache is valid exactly if the manifest can be read and the database is a complete ingest of this trajectory under this configuration, in one extractor version |
| IngestCache.Cache.TryCase | evaluation/tools/run_memdaily_benchmark.py:965-1015 | The cache is reused exactly if asked for and valid; otherwise a new database is ingested |
| IngestCache.Cache.RunCase | evaluation/tools/run_memdaily_benchmark.py:929-1049 | A run that finishes put its questions to a complete ingest of this trajectory under this configuration, even if two case ids share a file name; it finishes if nothing fails, and reuses exactly a valid cache when asked to |
| IngestCache.Cache.RunMany | evaluation/tools/run_memdaily_benchmark.py:929-1049 | Over any runs, settings changes, crashes and damaged manifests, a database beside a manifest that can be read is a complete ingest for that manifest |
| Framing.CodeUnitsReadBack | scripts/reembed_all_claims.py:87-94 | The code units of a character read back as it, carry the marks of UTF-8 and are as few as can be |
| Framing.EncodeIsInjective | scripts/reembed_all_claims.py:87-94 | No two texts have the same UTF-8 bytes |
| Framing.BigEndianReadsBack | scripts/reembed_all_claims.py:59-61 | The eight length bytes determine the length |
| Framing.StreamIsInjective | scripts/reembed_all_claims.py:59-61 | No two lists of parts give the same framed stream |
| Framing.DigitsReadBack | scripts/reembed_all_claims.py:90-90 | The text of a dimension is that of the number in base ten, without leading zeros |
| Framing.DecimalInjective | scripts/reembed_all_claims.py:90-90 | No two dimensions have the same text |
| Framing.JoinTellsWithLengths | scripts/reembed_all_claims.py:64-65 | Two lists of one size and one join are equal exactly if the lengths agree position by position |
| Reembedding.FingerprintTellsWithLengths | scripts/reembed_all_claims.py:64-65 | Identifier lists are equal exactly if their sizes, their fingerprints and the lengths position by position agree |
| Reembedding.FingerprintsCollide | scripts/reembed_all_claims.py:64-65 | Moving characters from one identifier to the next leaves the fingerprint as it is, also where both lists are ascending as the queries return them |
| Reembedding.AscendingIdsCollide | scripts/reembed_all_claims.py:64-65 | Two different ascending lists of one size with one fingerprint exist |
| Reembedding.EqualLengthsNeverCollide | scripts/reembed_all_claims.py:64-65 | Identifiers of one common length have equal fingerprints exactly if the lists are equal |
| Reembedding.InjectiveCodecExists | scripts/reembed_all_claims.py:59-95 | Digests with the injectivity assumed of SHA-256 exist |
| Reembedding.GuardTellsTargets | scripts/reembed_all_claims.py:83-95 | The guard is unchanged exactly when every target is, up to no model against the empty one and no dimension against zero |
| Reembedding.SameTargetsAreSameRows | scripts/reembed_all_claims.py:72-82 | In ordered tables, the targets are the same exactly if the active embedded rows are, in id, text, vector, model and dimension |
| Reembedding.FingerprintTellsEmbeddings | scripts/reembed_all_claims.py:83-93 | The embedding fingerprint is unchanged exactly when every id, vector, model and dimension is |
| Reembedding.ActiveIdsAreThose | scripts/reembed_all_claims.py:69-71 | Exactly the active claims are listed and counted |
| Reembedding.TakeSnapshot | scripts/reembed_all_claims.py:68-106 | Feeding the hashers part by part fingerprints the framed parts of all targets; the active identifiers are from the first of the two reads and the targets from the second |
| Reembedding.ReportIsOfOneTable | scripts/reembed_all_claims.py:68-106 | With identifiers of one length, the report is that of the table at the second read exactly if the active claims did not change between the reads |
| Reembedding.ReportCanMix | scripts/reembed_all_claims.py:69-75 | A claim that becomes a target between the reads makes the report count more targets than active claims |
| Reembedding.ReportsTell | scripts/reembed_all_claims.py:43-57 | The counts of a report are those of the active claims and the targets, and each fingerprint agrees with another exactly if what it covers does |
| Reembedding.EmbedTargets | scripts/reembed_all_claims.py:109-118 | It fails exactly if the embedder raises on one of the batches of the targets; otherwise the batches yield each target's own vector, in order |
| Reembedding.UpdateAll | scripts/reembed_all_claims.py:153-159 | Exactly the rows of the targets get their vectors |
| Reembedding.UpdateIsCurrent | scripts/reembed_all_claims.py:147-159 | Vectors computed before the lock are right for the rows found under it when the guard agrees |
| Reembedding.FinalCheckHolds | scripts/reembed_all_claims.py:160-162 | The set check after the update never fires |
| Reembedding.Store.WriteLocked | scripts/reembed_all_claims.py:147-166 | The transaction commits exactly if the database lets it and no target changed, and otherwise leaves the table alone |
| Reembedding.Store.ReembedAll | scripts/reembed_all_claims.py:121-173 | With any writers between the two first reads and before the lock: nothing is written, for a cause that is one, or every active embedded claim stores the embedding of its current text and nothing else changed; the second report is that of the table left behind, and the first that of the two tables read |
| Thresholds.CandidatesRealiseAll | evaluation/tools/run_embedding_ablation.py:292-296 | Whatever a real threshold predicts, in either direction, some candidate predicts too |
| Thresholds.MetricsAreThose | evaluation/tools/run_embedding_ablation.py:250-278 | The counts are numbers of items and add up; precision, recall and accuracy are their ratios and F1 is 2 tp / (2 tp + fp + fn), each 0 when there is nothing to divide by |
| Thresholds.SameMetrics | evaluation/tools/run_embedding_ablation.py:250-278 | Thresholds with the same predictions have the same metrics |
| Thresholds.CandidatesAreThose | evaluation/tools/run_embedding_ablation.py:292-296 | The candidates are the distinct scores, the midpoints of neighbouring ones and one beyond each end |
| Thresholds.MedianIsMiddle | evaluation/tools/run_embedding_ablation.py:301-309 | The median is halfway between the two middle scores |
| Thresholds.BestIsGreatest | evaluation/tools/run_embedding_ablation.py:301-309 | The first of the greatest is taken |
| Thresholds.SelectionIsOptimal | evaluation/tools/run_embedding_ablation.py:281-309 | No real threshold is better in F1, then accuracy, then precision |
| Thresholds.TiesGoToTheMedian | evaluation/tools/run_embedding_ablation.py:301-309 | Among equally good candidates the one nearest to the median is taken, then the least |
| SparseSums.SumRemove | evaluation/tools/run_embedding_ablation.py:736-743 | A sum over features does not depend on their order |
| InvertedIndex.PostingListsOnce | evaluation/tools/run_embedding_ablation.py:728-733 | A posting lists each document that has the feature exactly once, with its weight |
| InvertedIndex.BuildPostings | evaluation/tools/run_embedding_ablation.py:728-733 | The postings of all documents |
| InvertedIndex.IndexedAdd | evaluation/tools/run_embedding_ablation.py:741-743 | Indexed addition that reads before it writes adds once to each listed document |
| InvertedIndex.SparseDotMatrix | evaluation/tools/run_embedding_ablation.py:724-744 | Every entry is the sum of the products over the shared features |
| CompressedRows.SparseToArrays | evaluation/tools/run_embedding_ablation.py:532-545 | Bounds rise from 0 to the number of entries, and each row's indices increase strictly |
| CompressedRows.ArraysToSparse | evaluation/tools/run_embedding_ablation.py:548-555 | Whatever the bounds, it raises exactly if two slices differ in length; otherwise each row has the keys of its slice, the last of equal indices giving the value |
| CompressedRows.RoundTrip | evaluation/tools/run_embedding_ablation.py:532-555 | Writing rows out and reading them back gives the very rows, and as many empty ones as asked for where there are none |
| ComplexityBudget.CheckRatchet | scripts/check_complexity_budget.py:297-326 | Exactly the raised limits are reported |
| ComplexityBudget.NothingRaisedIffBelow | scripts/check_complexity_budget.py:297-326 | Nothing is reported exactly if no effective limit is above that of the base path, former names excepted |
| ComplexityBudget.RatchetIsOrder | scripts/check_complexity_budget.py:297-326 | Without renames nothing is reported exactly if every effective limit is pointwise no larger |
| ComplexityBudget.RatchetIsOrderExactly | scripts/check_complexity_budget.py:297-326 | Reporting nothing means that no limit rose, against every base, exactly if each limit of the current budget is matched by a path that answers for its path |
| ComplexityBudget.ReadRatchetIsOrderExactly | scripts/check_complexity_budget.py:158-326 | The same among the budgets that can be read; there, a limit of one needs no match |
| ComplexityBudget.ReadableIsRead | scripts/check_complexity_budget.py:158-204 | Every budget with names that are not empty and positive limits is what some list reads as |
| ComplexityBudget.ReadIsReadable | scripts/check_complexity_budget.py:158-204 | Every budget read has such names and limits |
| ComplexityBudget.OnlyMovedPathsCanRise | scripts/check_complexity_budget.py:297-326 | If nothing is reported, no limit rose exactly if none rose at a renamed path or a former name |
| ComplexityBudget.BelowIsTransitive | scripts/check_complexity_budget.py:297-326 | That order is transitive |
| ComplexityBudget.ChainOnlyFalls | scripts/check_complexity_budget.py:297-326 | Along any chain of commits that each pass, with every limit after the first budget matched in this way, the last budget is below the first |
| ComplexityBudget.RenameCanRaise | scripts/check_complexity_budget.py:299-303 | With a rename, the limit of the former name can rise unreported |
| ComplexityBudget.RenameCanRaiseNewName | scripts/check_complexity_budget.py:299-306 | With a rename, the limit of the new name can rise unreported, and no other |
| ComplexityBudget.WithinCarriesOver | scripts/check_complexity_budget.py:231-251 | Modules within the current limits are within the base limits |
| ComplexityBudget.CheckCurrentBudget | scripts/check_complexity_budget.py:217-253 | Exactly the unmeasured names and the broken limits are reported, so nothing exactly if every name is measured and every limit kept |
| ComplexityBudget.LastAtIsLast | scripts/check_complexity_budget.py:219-219 | Of modules with one path the last one counts |
| ComplexityBudget.ParseBudget | scripts/check_complexity_budget.py:158-204 | A budget is read exactly if it is a list of well-formed entries whose paths differ, and then each path has the limits of its own entry and no other path has any |
| ComplexityBudget.InitialLimits | scripts/check_complexity_budget.py:329-357 | A module gets an entry exactly if it exceeds a default; its limits are the measured ones of the last exceeding callable of each name with one percent headroom, between 5 and 10, and the defaults everywhere else |
| ComplexityBudget.InitialBudgetPasses | scripts/check_complexity_budget.py:329-357 | The first budget of modules with distinct paths reads back, measures everything and renames nothing; the modules pass it exactly if no callable exceeds the last one of its name over the default by more than that one's headroom |
| ComplexityBudget.KeptIffCovered | scripts/check_complexity_budget.py:336-345 | The same for one module and one measure, whatever names its callables share |
| ComplexityBudget.DistinctNamesAreCovered | scripts/check_complexity_budget.py:336-345 | Callables of distinct names always pass |
| ComplexityBudget.SharedNameCanFail | scripts/check_complexity_budget.py:336-345 | With one name for two callables the first budget can fail |
| DiversePairs.Diverse | scripts/generate_claim_pair_eval_v1.py:776-792 | An order-preserving selection within all quotas; each candidate is taken exactly if there was room and it fitted, and short of the limit nothing left out could be added |
| DiversePairs.UsesGrow | scripts/generate_claim_pair_eval_v1.py:780-786 | A candidate that does not fit never fits later |
| DiversePairs.LaterPairsHaveDistinctEnds | scripts/generate_claim_pair_eval_v1.py:693-722 | Candidates that pair a claim with a later one of a list of distinct claims never pair a claim with itself |
| DiversePairs.QuotaHoldsExactly | scripts/generate_claim_pair_eval_v1.py:776-792 | For any candidates, a run keeps every claim within its quota exactly if each pair of a claim with itself that it took came before any other use of the claim |
| DiversePairs.SelfPairOverdraws | scripts/generate_claim_pair_eval_v1.py:776-792 | For the candidates (a, b), (a, a), every run with room for two takes a three times |

## Left out

- HTTP clients, model calls, retries, response parsing and secrets: one call is an arbitrary function or an arbitrary choice.
- SQLite, JSON text, netstat, PowerShell, process queries and command lines: maps, atomic steps and arbitrary answers stand for them.
- Floating point, numpy layout and the insides of SHA-256: exact reals and injective functions stand for them.
- The wall clock below one second in the supervisor: all of its decisions read whole seconds.
- Supervision.Supervisor.RunLocked: runs one process at a time; that cycles exclude each other is the subject of `DirectoryLock`.
- Supervision.Supervisor.Save: an outside edit of the state file between cycles is not modelled beyond `Load`, which describes any content and says when it raises.
- ServiceRestart.Restart: an exception and a crash both end it without a launch; log rotation inside it is `LogRotation`.
- LogRotation.LogDirectory.Rotate: a crash inside the rotation and digits outside ASCII are not modelled.
- ReplayRuns.Replay.Run: takes sources and endpoint as accepted; the state written when they are rejected, and the migration of the older format, are not modelled. Time stamps and metrics in the files are left out.
- RecallSplits.AssignSplits: the digest that orders the components is an arbitrary function.
- EntailmentSplits.MakeSplits: the rank digest is an arbitrary function, and the pair weights are those of the listed events, one each.
- IngestCache.Cache.RunCase: the entity alias file is part of the configuration and taken as unchanged during a run, though the code reads it again for the manifest; recall and question answering leave the database's ingest as it is.
- Reembedding.Store.ReembedAll: that a batch returns one vector per text, in order, is an assumption on the embedder; the code compares the totals only.
- ComplexityBudget.CheckRatchet: the order and wording of messages is left out, and so is measuring modules from their syntax trees.
- DiversePairs.Diverse: how candidates are found and ranked is not modelled.
- `scripts/reextract_claims.py`, the snapshot and schema checkers, the release checks and the drivers of other benchmarks.
- Ranking, recall and flip counts, confusion matrices and report rendering: each is a single pass or a formula, with no state or invariant to keep.
