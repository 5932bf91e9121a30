# IT Labor Pulse: verified model of the collector and the matching assistant

A Dafny 4.11 model of the vacancy collector (planning, daily discovery, checkpointed ingest, scheduling), of the AI
matching assistant (gates, batch resolver, worker, run lifecycle, snapshot paging) and of the web list's poll merge.
`dafny verify dfyconfig.toml` checks everything.

Code that updates state step by step is modelled as classes and methods with loops, proved against specification
functions; protocols are state machines over their atomic steps, and their theorems hold for every sequence of steps.
HH, the AI provider, HTTP failures, save failures, cancellation and the random draw are parameters (an answer for every
call), so every theorem is for all of their behaviours. Time is whole seconds, and `time.Sub` saturates as in Go.

| file | models |
|---|---|
| `Planner.dfy` | the recursive bisection of the search window |
| `DiscoveryCycle.dfy`, `MemoryStore.dfy` | the cycle counters and the memory store that caches them |
| `DiscoveryProtocol.dfy`, `DiscoveryRequests.dfy`, `Discovery.dfy`, `PgDiscovery.dfy`, `PgStatuses.dfy` | the crawl as a crash-restart protocol, its driver, and where PostgreSQL differs |
| `Checkpoint.dfy`, `Runner.dfy`, `ItBatch.dfy`, `Decimal.dfy` | page decisions and cursors, one ingest run, the budgeted batch |
| `Scheduler.dfy` | the event loop, its channel, and the failure backoff |
| `Matcher.dfy`, `HardGates.dfy` | the gates and how an AI answer is combined with them |
| `Packing.dfy`, `BatchTokens.dfy`, `BatchResolver.dfy` | greedy packing, prompt tokens, waves and divide-and-conquer retries |
| `Worker.dfy`, `Snapshot.dfy`, `RunLifecycle.dfy` | counters of one page, durable paging, the run table |
| `PollMerge.dfy` | merging a freshness poll into loaded pages |
| `Sums.dfy`, `Sorting.dfy`, `Assistant.dfy` | shared sums, orders and types |

## Findings

Properties that fail, each with the exact condition under which they hold:

- The memory store keeps its cached totals only for pages saved in turn (`SaveKeepsIff`) and page counts set on rows
  that are still open (`SetExpectedKeepsIff`); the driver never leaves that discipline (`ReachableFromStart`).
- Restarting a PostgreSQL cycle with a partition key it does not know breaks the totals (`PgRestartKeepsIff`). If the
  cycle is running and the new row has pages, no later sequence of steps can complete it (`RestartBlocksCompletion`); a
  cycle that is complete already, or one whose new rows are empty, can still be completed (`RestartCompletableIff`).
  Over any run the totals end up right iff no restart brought an unknown key (`PgRunConsistentIff`).
- The two stores end with different active vacancies exactly for hh vacancies that no saved page held and that a stale
  page held or that were active outside the listing scope (`StoresDisagreeIff`).
- A row for which HH keeps reporting the same page count closes iff the count is not negative (`ClosesIff`). The
  memory-store driver ends unless one negative count is repeated for ever; PostgreSQL rejects negative counts.
- A page with items at the last page of the depth limit for which HH reports no page count leaves a cursor no later run
  can move; nothing else does (`RunSticksIff`, `UncountedScopeSticks`). The IT cycle then never gets past that partition
  (`RunBatches`).
- An item id of the form `v2` loses its token to a later item whose id cannot be shown, such as a UUID or an id of more
  than 64 bytes (`NumberedIdMisattributed`); `FaithfulIff` says for which ids the tokens identify the items.
- Setting a specialization can raise a decision (`SpecializationCanRaise`), for exactly the vacancies of
  `SpecializationRaisesIff`.
- The code's own id-list match survives the unknown-criteria check, whatever the unknowns are (`IdListMatchStands`); any
  answer marked so does iff its own proofs settle the unknowns it mentions (`IdListSettlesIff`).
- The stored processed count is not always the position of the cursor: a page that fails half-way adds to it
  (`FailedPageDrifts`) and a failed users lookup after the claim resets it to zero (`FailedLookupResets`);
  `SnapshotEnumerated` and `CountedIff` say when they agree.
- `RunOnce` marks a run succeeded without reading a page when the store answers that it has no user
  (`NoUsersSucceedsUnread`). The schema excludes this in PostgreSQL: a run references its preference row and nothing
  deletes it (migrations/postgres/000018_assistant_full_snapshot_runs.up.sql:7).
- Only pausing a failed run depends on the unique index for "one active run per user" (`OnlyPauseNeedsTheIndex`).

## Model

| member | source | states |
|---|---|---|
| `Planner.PlanPartition` | apps/ingest/internal/pipeline/it_planner.go:108-164 | appends leaves that cover the part exactly, pays 2·leaves−1 probes, adds up their found counts, stays within both ceilings; the leaves are exactly the probed parts HH answered with at most 2000, so a part is split only when it is over the cap; every failure is justified by its cause and the one-second error never occurs |
| `Planner.PlanIT` | apps/ingest/internal/pipeline/it_planner.go:50-106 | a role whose unbounded search finds at most 2000 yields that one leaf, any other role a tiling of [Earliest, Now]; the partitions are exactly the probes answered with at most 2000; probes = 1 + 2·partitions − roles ≤ MaxRequests; the final sort keeps the depth-first order; a max-depth failure is on a part no longer than ceil(N/2^MaxDepth) seconds |
| `Planner.PlanDefaults` | apps/ingest/internal/pipeline/it_planner.go:50-75 | the values used where no option is given |
| `Planner.TilesCoverOnce` | apps/ingest/internal/pipeline/it_planner.go:118-164 | every second of the window lies in exactly one leaf |
| `Planner.HalvedSeconds` | apps/ingest/internal/pipeline/it_planner.go:139-159 | a depth-k part has at most ceil(N/2^k) of the N seconds, so it is a single second once 2^k ≥ N |
| `Planner.AppendRoleSorted` | apps/ingest/internal/pipeline/it_planner.go:89-104 | the leaves of later roles extend a strictly sorted plan to a strictly sorted plan |
| `DiscoveryCycle.SaveKeepsIff` | apps/ingest/internal/store/mem.go:220-255 | a page save keeps all cached totals equal to their sums iff it is stale or the next page of an open row |
| `DiscoveryCycle.SetExpectedKeepsIff` | apps/ingest/internal/store/mem.go:194-218 | changing a page count keeps them iff the row has started, is open, or is set to zero |
| `DiscoveryCycle.SaveTwice` | apps/ingest/internal/store/mem.go:220-255 | saving the same page again changes nothing |
| `DiscoveryCycle.DrainedIsComplete` | apps/ingest/internal/store/mem.go:257-268 | with no open row left, completion cannot report an incomplete cycle |
| `DiscoveryCycle.CompleteIsDrained` | apps/ingest/internal/store/mem.go:257-268 | conversely, a cycle whose partitions are all counted complete has no open row |
| `DiscoveryProtocol.ReachableFromStart` | apps/ingest/internal/store/mem.go:157-255 | over any sequence of starts, passes, answers and crashes the totals equal the sums over the rows and each row's committed pages are 0, 1, …, NextPage−1, once each, in order |
| `DiscoveryProtocol.ReachableConsistent` | apps/ingest/internal/pipeline/discovery.go:137-202 | the same from any state satisfying the invariant |
| `DiscoveryProtocol.ReachableBounded` | apps/ingest/internal/pipeline/discovery.go:137-202 | if HH never reports a negative count, every row stays within its expected pages |
| `DiscoveryProtocol.PassConsumes` | apps/ingest/internal/pipeline/discovery.go:137-202 | each error-free pass strictly lowers the remaining work, even when it raises a page count, or repeats the negative count of a row already past the cap |
| `DiscoveryProtocol.PassBudget` | apps/ingest/internal/pipeline/discovery.go:153-153 | the remaining work is at most partitions · ceil(2000/PerPage) |
| `DiscoveryProtocol.NegativeCountNeverCloses` | apps/ingest/internal/pipeline/discovery.go:153-174 | under a repeated negative page count n passes save n pages and the row is never complete |
| `DiscoveryProtocol.ClosesIff` | apps/ingest/internal/pipeline/discovery.go:153-190 | an open row at page zero whose page count is reported the same every time is ever closed iff the count is not negative |
| `MemoryStore.Memory.StartCycle` | apps/ingest/internal/store/mem.go:93-107 | resumes the cycle of the same source, scope and end untouched if there is one, else adds a running one |
| `MemoryStore.Memory.CompleteCycle` | apps/ingest/internal/store/mem.go:121-135 | succeeds iff the cycle exists and the count equals its partition count; otherwise nothing changes |
| `MemoryStore.Memory.StartDiscoveryCycle` | apps/ingest/internal/store/mem.go:157-178 | resumes the day's cycle untouched if there is one, else stores the cycle with its rows |
| `MemoryStore.Memory.NextDiscoveryPartition` | apps/ingest/internal/store/mem.go:180-192 | returns the first open row, or nothing iff there is none |
| `MemoryStore.Memory.SetDiscoveryExpectedPages` | apps/ingest/internal/store/mem.go:194-218 | the loop computes the specified state and touches no other cycle |
| `MemoryStore.Memory.SaveDiscoveryPage` | apps/ingest/internal/store/mem.go:220-255 | advances the row and totals as specified and records the observations; a stale page changes nothing at all |
| `MemoryStore.Memory.CompleteDiscoveryCycle` | apps/ingest/internal/store/mem.go:257-268 | succeeds iff both pages and partitions are complete |
| `MemoryStore.Memory.ReconcileDiscoveryStatuses` | apps/ingest/internal/store/mem.go:270-311 | makes exactly the seen hh vacancies active and reports the exact number of flips; only for a finished daily cycle |
| `MemoryStore.ActiveBalance` | apps/ingest/internal/store/mem.go:286-310 | active after = active before + reactivated − deactivated |
| `MemoryStore.ReconcileTwice` | apps/ingest/internal/store/mem.go:286-310 | a second reconciliation flips nothing and changes nothing |
| `MemoryStore.LoggedKeysMeaning` | apps/ingest/internal/store/mem.go:250-254 | a key was logged iff some saved page of that cycle contained it |
| `MemoryStore.Memory.SavePage` | apps/ingest/internal/store/mem.go:330-347 | every item is counted as upserted or unchanged, the rows are upserted in order and the cursor is stored |
| `Discovery.PlanRows` | apps/ingest/internal/pipeline/discovery.go:88-107 | rows built from a plan have distinct keys, fresh page counters and at most ceil(2000/PerPage) pages |
| `Discovery.BuildRows` | apps/ingest/internal/pipeline/discovery.go:88-107 | every row searches its leaf's role and window and has just the pages its results need: (pages−1)·PerPage < found ≤ pages·PerPage, none and complete if it is empty; the totals are the sums over the rows |
| `Discovery.PlanDay` | apps/ingest/internal/pipeline/discovery.go:79-107 | the rows are those of a plan of all the catalog's roles |
| `Discovery.EffectiveDay` | apps/ingest/internal/pipeline/discovery.go:64-78 | without given instants the run is about the day before the clock's day, cut off at midnight; given ones are kept |
| `DiscoveryRequests.PassAsks` | apps/ingest/internal/pipeline/discovery.go:146-150 | a pass requests exactly the page that becomes due, for the row's own role and window |
| `Discovery.CommitPass` | apps/ingest/internal/pipeline/discovery.go:153-190 | reconcile-then-save has the effect of one pass and keeps the whole store sound |
| `Discovery.FetchPage` | apps/ingest/internal/pipeline/discovery.go:137-202 | one loop turn keeps the invariant, lowers the remaining work and requests the next page of the first open row, or stops with an outcome justified by HH's answer |
| `Discovery.FetchPages` | apps/ingest/internal/pipeline/discovery.go:137-202 | the loop ends, unless one negative count is repeated for ever from a pass it can get to, within partitions · ceil(2000/PerPage) passes and one per negative count; what is saved is exactly what HH delivered; on completion every row was requested for exactly its pages from where it stood, each once, in order, and every answer agreed with its page count |
| `Discovery.FetchAll` | apps/ingest/internal/pipeline/discovery.go:137-199 | the loop itself, with the termination argument: remaining work, then the distance to the next answer that differs |
| `Discovery.SavePass` | apps/ingest/internal/pipeline/discovery.go:153-192 | a pass that saves keeps the invariant, logs exactly the answer's vacancies in scope, and fails exactly on an unreadable item |
| `Discovery.FinishCycle` | apps/ingest/internal/pipeline/discovery.go:200-207 | on a drained cycle completion and reconciliation always succeed |
| `Discovery.AgreeOnPages` | apps/ingest/internal/pipeline/discovery.go:154-174 | agreeing on HH's page count, whatever it is, keeps the whole store sound |
| `Discovery.CommitPage` | apps/ingest/internal/pipeline/discovery.go:186-190 | saving the driver's page keeps the store sound and logs exactly that page |
| `Discovery.OpenCycle` | apps/ingest/internal/pipeline/discovery.go:109-120 | a stored cycle of the day is resumed untouched, a new one starts consistent |
| `Discovery.RunDailyDiscovery` | apps/ingest/internal/pipeline/discovery.go:45-222 | never ends "incomplete"; when complete, an hh vacancy is active iff a saved page of the cycle contained it, other sources are untouched and the active count balances; for a new cycle every leaf of the plan with results was requested, all its pages once and in order; otherwise no vacancy changed |
| `PgDiscovery.PgSaveKeepsIff` | apps/ingest/internal/store/pg.go:489-584 | an accepted save keeps the totals iff it is stale or, in a running cycle, does not skip a page |
| `PgDiscovery.PgSaveAgrees` | apps/ingest/internal/store/pg.go:489-584 | for the page the driver asks for, PostgreSQL and the memory store do the same iff the cycle is running |
| `PgDiscovery.PgRestartKeepsIff` | apps/ingest/internal/store/pg.go:384-398 | a restart keeps the totals iff every planned key is already stored |
| `PgDiscovery.RestartFallsBehind` | apps/ingest/internal/store/pg.go:384-398 | an unknown key with pages puts the expected total of a running cycle behind its rows |
| `PgDiscovery.PgRunDrift` | apps/ingest/internal/store/pg.go:434-608 | a running cycle that is behind stays running and behind, whatever steps, restarts and completion attempts follow |
| `PgDiscovery.RestartBlocksCompletion` | apps/ingest/internal/store/pg.go:384-608 | so a running cycle can never be completed after such a restart |
| `PgDiscovery.Drain` | apps/ingest/internal/store/pg.go:489-608 | every other cycle is completed by saving the next page of its open rows, one after the other |
| `PgDiscovery.RestartCompletableIff` | apps/ingest/internal/store/pg.go:352-608 | a restarted cycle can still be completed iff it was complete already or no unknown row has pages |
| `PgDiscovery.FinishedCompletesIff` | apps/ingest/internal/store/pg.go:474-608 | a finished cycle's row never changes again, and completion succeeds on it exactly when its rows are drained |
| `PgDiscovery.PgStepKeeps` | apps/ingest/internal/store/pg.go:434-608 | every step but a restart with an unknown key keeps totals, bounds and keys, and a finished cycle complete |
| `PgDiscovery.PgRunConsistentIff` | apps/ingest/internal/store/pg.go:352-608 | over any sequence of steps the totals agree with the rows at the end iff no restart brought an unknown key |
| `PgStatuses.CallsAgree` | apps/ingest/internal/store/pg.go:489-584 | over any page saves in turn both stores hold the same rows and totals, and PostgreSQL has observed the stale pages too |
| `PgStatuses.StoresDisagreeIff` | apps/ingest/internal/store/pg.go:613-690 | after the same saves the stores disagree on an active vacancy iff it is an hh one that no saved page held and that a stale page held or that was active outside the listing scope |
| `PgStatuses.PgReconcileTwice` | apps/ingest/internal/store/pg.go:613-690 | a second PostgreSQL reconciliation changes nothing |
| `Packing.GreedyStaysAhead` | libs/go-common/assistant/batch.go:71-96 | greedy packing of any later suffix needs no more batches than any split of the whole |
| `Packing.GreedyMinimal` | libs/go-common/assistant/batch.go:71-96 | no order-preserving split under the same rule has fewer batches |
| `Packing.PackBatchItems` | libs/go-common/assistant/batch.go:71-96 | the loop returns non-empty batches that concatenate to the input, each a singleton or within both limits, and as few as possible |
| `Packing.CostCovers` | libs/go-common/assistant/batch.go:98-104 | an item's cost covers every byte sent for it at three bytes a token |
| `Packing.LimitsMeaning` | libs/go-common/assistant/batch.go:71-80 | the overhead of a request and the limits used when none are given |
| `BatchTokens.FaithfulIff` | libs/go-common/assistant/batch.go:549-574 | every prompt token resolves to its own item iff no item shown under its number finds that number as the shown id of an earlier item, and no shown id has space at its edges: a condition on the ids alone |
| `BatchTokens.TokenFromIds` | libs/go-common/assistant/batch.go:549-558 | which token an item gets, from the ids alone |
| `BatchTokens.ReusedIff` | libs/go-common/assistant/batch.go:549-558 | a token is handed out twice exactly there |
| `BatchTokens.ResolvesToOwn` | libs/go-common/assistant/batch.go:560-574 | for distinct ids not of the form v<k>, an answer resolves to an item iff it is that item's token or id |
| `BatchTokens.FaithfulIfNoNumberedIds` | libs/go-common/assistant/batch.go:549-574 | distinct ids none of which reads v<k> are identified |
| `BatchTokens.NumberedIdMisattributed` | libs/go-common/assistant/batch.go:549-574 | the item `v2` and any item whose id cannot be shown: the answer about `v2` is given to the other item |
| `BatchTokens.NotShown` | libs/go-common/assistant/batch.go:551-553 | ids that cannot be shown: UUIDs, and long ids of multi-byte characters, since the limit counts bytes |
| `BatchResolver.ApplyIdList` | libs/go-common/assistant/batch.go:483-515 | every item gets a verdict: match if named, else a review with the reason of its last review entry, else reject |
| `BatchResolver.ApplyDecisions` | libs/go-common/assistant/batch.go:455-481 | fails iff some item's first decision is invalid, else each named item gets its first decision and no other item any |
| `BatchResolver.DeepSeek.CompleteDetailed` | libs/go-common/assistant/deepseek.go:165-207 | at most MaxAttempts requests, all for this item, each but the last failed by rate limit, server, network or timeout, or by an invalid first answer; unless cancelled it gives up only when the attempts are used up or the last failure is none of these |
| `BatchResolver.DeepSeek.CompleteBatchOnce` | libs/go-common/assistant/batch.go:313-442 | outputs are exactly what the answer says about items of the batch; what it leaves open is returned in order; when and how the answer counts as failed |
| `BatchResolver.DeepSeek.CompleteBatchWithRetries` | libs/go-common/assistant/batch.go:251-311 | the same retry rule for a batch; outputs only for items of the batch, unresolved is the rest |
| `BatchResolver.DeepSeek.CompleteBatchRecursive` | libs/go-common/assistant/batch.go:206-249 | unless cancelled resolves exactly these ids, changes no other id, costs at most 2n−1 calls and goes at most as deep as halving needs; every result stems from a logged request about that item |
| `BatchResolver.LevelsLogarithmic` | libs/go-common/assistant/batch.go:206-249 | up to 2^k items are halved at most k times |
| `BatchResolver.DeepSeek.MergeWave` | libs/go-common/assistant/batch.go:174-190 | merging a finished wave resolves the ids of its batches too; a given-up batch stops it; the wave is adverse iff a batch met a rate limit, timeout, context limit or invalid answer |
| `BatchResolver.DeepSeek.CompleteBatchDetailed` | libs/go-common/assistant/batch.go:149-204 | unless cancelled every id is in Outputs or Errors, no other id is, never both for distinct ids; the batches keep the configured limits and the waves follow the adaptive concurrency; at most 2n−1 calls, HTTPAttempts ≤ MaxAttempts·Batches; every output stems from a request of this call for items of this call holding that id, every error from that item's own requests after all retries worth making; for ids not of the form v<k> an output is the verdict on that item's own token or id |
| `BatchResolver.DeepSeek.RunPacked` | libs/go-common/assistant/batch.go:152-203 | the wave loop: after each wave the merged result resolves exactly the batches run so far; every wave is as large as the concurrency the earlier waves left allows |
| `BatchResolver.OutputsAreOwnVerdicts` | libs/go-common/assistant/batch.go:425-515 | for well-named items every output is what a request of the call said under that item's own token or id: last review, first decision, match before review before silence |
| `BatchResolver.ConcurrencyBounded` | libs/go-common/assistant/batch.go:152-202 | over any sequence of waves concurrency stays in [1, MaxConcurrency] |
| `BatchResolver.WaveEffect` | libs/go-common/assistant/batch.go:191-201 | an adverse wave halves the concurrency, the third calm one in a row raises it by one |
| `BatchResolver.ConcurrencyRecovers` | libs/go-common/assistant/batch.go:191-201 | three quiet waves per step bring it back to the maximum |
| `Matcher.MatchVacancy` | libs/go-common/assistant/matcher.go:71-198 | the early-returning code computes the meet of all gate verdicts; reject iff one of the nine reasons holds of the vacancy and the preferences (`Rejects`), else the unknowns are exactly the open questions in order (`OpenQuestions`) and it is a match iff there are none |
| `Matcher.RejectsIff` | libs/go-common/assistant/matcher.go:71-236 | the gates reject exactly for an excluded skill, unwanted leadership, another field, no approved role, too low a salary, another region, no remote work, a missing skill or age |
| `Matcher.UnknownsAre` | libs/go-common/assistant/matcher.go:71-236 | the unknowns of the gates are exactly the questions the vacancy leaves open, in order |
| `Matcher.ApplyCatalogRoleGate` | libs/go-common/assistant/matcher.go:204-237 | stops exactly when the role gate clashes and otherwise adds exactly its unknown |
| `Matcher.MeetMeaning` | libs/go-common/assistant/matcher.go:71-198 | the meet is reject iff a gate clashes and match iff all pass |
| `Matcher.TighteningNeverRaises` | libs/go-common/assistant/matcher.go:71-236 | tightening any criterion but the specialization never raises the decision |
| `Matcher.SpecializationRaisesIff` | libs/go-common/assistant/matcher.go:204-237 | setting one raises the decision iff it lifts a role clash (no other gate rejects, field is the chosen one or unknown) or settles an unsure role (all other gates match, field is the chosen one, proven, not low confidence) |
| `Matcher.SpecializationHarmless` | libs/go-common/assistant/matcher.go:204-237 | it never does when the role gate already passes |
| `Matcher.SpecializationCanRaise` | libs/go-common/assistant/matcher.go:213-222 | a concrete vacancy goes from reject to match |
| `HardGates.AppendedMeaning` | libs/go-common/assistant/matcher.go:311-323 | nothing lost, every non-empty addition present, nothing else, no addition doubled |
| `HardGates.AppendUnique` | libs/go-common/assistant/matcher.go:311-323 | the loop with its seen set computes that |
| `HardGates.EnrichedMeaning` | libs/go-common/assistant/matcher.go:292-309 | enrichment keeps every given proof and adds a passing one for every unknown |
| `HardGates.IdListSettlesIff` | libs/go-common/assistant/matcher.go:266-309 | an answer marked as an id-list match settles all unknowns iff it settles, by its own proofs, those it mentions |
| `HardGates.ApplyHardGatePrecedence` | libs/go-common/assistant/matcher.go:249-290 | the whole combined output, case by case, and its decision |
| `HardGates.Decide` | libs/go-common/assistant/matcher.go:71-309 | match iff no reason to reject and either no open question, or an AI match with a passing, sourced proof under the right name for every open question (an id-list match need not prove what it does not mention); a rejected vacancy stays rejected |
| `HardGates.AllBackedMeaning` | libs/go-common/assistant/matcher.go:266-309 | what counts as a proof: the name each question is proved under, pass set, source not blank |
| `HardGates.IdListMatchStands` | libs/go-common/assistant/matcher.go:292-309 | the code's own id-list match settles any unknowns |
| `HardGates.PlainMatchNeedsProofs` | libs/go-common/assistant/matcher.go:266-289 | any other match falls to review on one unproved unknown |
| `Worker.ProcessPair` | libs/go-common/assistant/worker.go:422-526 | one candidate and one user: a store error iff a needed call fails; a job iff the pair is eligible, the user enabled the AI, a provider is there, no result exists and no gate rejects; each counter by its own condition |
| `Worker.FinishJob` | libs/go-common/assistant/worker.go:568-623 | one job counts once, as failure or under its final decision; when it is delivered and when it fails |
| `Worker.GroupJobs` | libs/go-common/assistant/worker.go:625-633 | every group is exactly the jobs of its preference text in arrival order, and all groups together are the jobs as a multiset |
| `Worker.ProcessGroup` | libs/go-common/assistant/worker.go:634-693 | every job of the group is finished once, in order; its answer was given by the provider about its own id in this call, its failure by a request for it alone |
| `Worker.ProcessAIJobs` | libs/go-common/assistant/worker.go:552-694 | every job is finished exactly once, with what the provider said about it in the call for its preference group, and counted as failure or under its own final decision |
| `Worker.ProcessCandidates` | libs/go-common/assistant/worker.go:397-550 | the four counter equations of a page, for any users, settings and answers; the jobs are exactly the pairs that go to the AI, in order; Matched moves by the matched pairs, the AI counters by the final decisions of the finished jobs, each answered by the provider about its own candidate |
| `RunLifecycle.ReachableTableOk` | libs/go-common/assistant/postgres.go:401-612 | after any sequence of statements: lease iff running, finish time iff terminal, origin iff superseded, at most one active run per user, one run per request |
| `RunLifecycle.OnlyPauseNeedsTheIndex` | libs/go-common/assistant/postgres.go:482-496 | every statement but pausing a failed run keeps both uniqueness rules by itself |
| `RunLifecycle.PauseFailedIff` | libs/go-common/assistant/postgres.go:482-496 | that one keeps them iff the user has no active run |
| `RunLifecycle.DisabledForever` | libs/go-common/assistant/postgres.go:401-612 | a disabled row never changes again |
| `RunLifecycle.SupersededLeftByRecovery` | apps/assistant/cmd/worker/main.go:374-422 | a superseded row changes only by recovery, and only if it was running and unfinished |
| `RunLifecycle.SupersededForever` | apps/assistant/cmd/worker/main.go:383-390 | any other superseded row never changes again |
| `RunLifecycle.WorkerWritesNeedRunning` | libs/go-common/assistant/postgres.go:552-612 | completion, heartbeat and progress change nothing on a row that is not running |
| `RunLifecycle.RowsPersist` | libs/go-common/assistant/postgres.go:401-612 | no step removes a row or changes whose it is |
| `RunLifecycle.Runs.QueueAnalysis` | libs/go-common/assistant/postgres.go:378-426 | a repeated request returns its run and changes nothing; refused only without preferences or with an active run |
| `RunLifecycle.Runs.ClaimAssistantRun` | libs/go-common/assistant/postgres.go:442-480 | claims the oldest row that is queued or whose lease ran out before now, for ten minutes; nothing iff there is none |
| `RunLifecycle.Runs.PauseAssistantRun` | libs/go-common/assistant/postgres.go:482-496 | exactly when it succeeds, including the index violation, and the row it leaves |
| `RunLifecycle.Runs.ResumeAssistantRun` | libs/go-common/assistant/postgres.go:498-511 | succeeds exactly on a paused row, which is queued again |
| `RunLifecycle.Runs.SupersedeAssistantRun` | libs/go-common/assistant/postgres.go:513-550 | succeeds exactly on the user's own outdated run that is active, failed unfinished or succeeded, and keeps where it came from |
| `RunLifecycle.Runs.CompleteAssistantRun` | libs/go-common/assistant/postgres.go:552-584 | refuses other outcomes; on a row that is not running it changes nothing and still reports success |
| `RunLifecycle.Runs.HeartbeatAssistantRun` | libs/go-common/assistant/postgres.go:586-612 | extends the lease of a running row, else fails |
| `RunLifecycle.Runs.UpdateAssistantRunProgress` | libs/go-common/assistant/postgres.go:1228-1269 | stores count and cursor of a running row, keeping the cursor when none is given, else fails |
| `RunLifecycle.Runs.RecoverAssistantRun` | apps/assistant/cmd/worker/main.go:374-422 | disables the user's active rows and requeues the run, in one step |
| `Snapshot.QueryIsSlice` | libs/go-common/assistant/postgres.go:1148-1226 | the keyset query returns the next rows of the ordered snapshot after the cursor |
| `Snapshot.AllIsSnapshot` | libs/go-common/assistant/postgres.go:1178-1191 | the snapshot is strictly increasing in (created_at, id) and holds exactly the vacancies up to the cutoff |
| `Snapshot.SnapshotIncreasing` | libs/go-common/assistant/postgres.go:1178-1191 | the snapshot is increasing in creation time, then id, and holds exactly the vacancies up to the cutoff |
| `Snapshot.LifeKeeps` | libs/go-common/assistant/worker.go:156-248 | through claims, users lookups, pages, pauses, resumes, crashes, failures, supersession and recovery the saved pages are the snapshot up to the cursor and the count is what they hold since its last reset plus what failed pages counted |
| `Snapshot.SnapshotEnumerated` | libs/go-common/assistant/worker.go:156-248 | hence a succeeded run has read every row once, in order, unless the store named no user for it; the processed count equals the cursor position iff failed pages counted as many rows since the last reset as the reset dropped |
| `Snapshot.CountedIff` | libs/go-common/assistant/worker.go:156-248 | in a life without a failed users lookup they are equal iff no failed page counted a row |
| `Snapshot.FailedPageDrifts` | libs/go-common/assistant/worker.go:156-170 | a page over two vacancies that fails after one, then pause and resume: one row counted, cursor still at the start |
| `Snapshot.FailedLookupResets` | libs/go-common/assistant/worker.go:184-188 | one saved page, a pause, a resume and a failed users lookup: count zero, cursor after the row, no failed page |
| `Snapshot.NoUsersSucceedsUnread` | libs/go-common/assistant/worker.go:204-206 | the branch for a store that answers "no user": the run succeeds with nothing read |
| `Snapshot.ScanSnapshot` | libs/go-common/assistant/worker.go:210-248 | the page loop: processed is the distance moved, it ends at the snapshot's end or at the page limit |
| `Checkpoint.CursorRoundTrip` | apps/ingest/internal/checkpoint/scope.go:29-47 | parsing a formatted page number gives it back |
| `Checkpoint.PagesBetweenTerminals` | apps/ingest/internal/checkpoint/scope.go:71-97 | the pages between two terminal commits are exactly 0, 1, 2, … |
| `Checkpoint.DecisionFollowsLog` | apps/ingest/internal/checkpoint/scope.go:71-97 | an advancing decision stores the next page of the log, zero after a terminal one |
| `Checkpoint.ReachableScopeOk` | apps/ingest/internal/pipeline/runner.go:138-282 | over any runs, failed pages and aborts of a scope the cursor is the next uncommitted page and the log is in order |
| `Checkpoint.StuckAtLimit` | apps/ingest/internal/pipeline/runner.go:138-150 | once the cursor is at the depth limit no later event changes the log or the cursor |
| `Checkpoint.GetsStuckIff` | apps/ingest/internal/checkpoint/scope.go:71-97 | a step takes a live scope there iff it is a good page with items and no page count at the limit's last page |
| `Checkpoint.RunSticksIff` | apps/ingest/internal/pipeline/runner.go:138-282 | over any runs, failures and aborts the scope ends there iff such a step happened |
| `Checkpoint.UncountedScopeSticks` | apps/ingest/internal/pipeline/runner.go:138-282 | from nothing, one run over pages without a page count gets there, for good |
| `Runner.ResolvePageLimit` | apps/ingest/internal/pipeline/runner.go:58-70 | the most pages that start below 2000 results, within the hard limit and the request |
| `Runner.FetchItems` | apps/ingest/internal/pipeline/runner.go:176-237 | every item is an error, excluded or a write, the writes are exactly the ready items in order; vanished vacancies are marked inactive; the page is good iff every item was handled |
| `Runner.RunPage` | apps/ingest/internal/pipeline/runner.go:138-282 | one page: exactly when it is fatal, not committed or the end of the scope, what is stored, what is counted |
| `Runner.RunPages` | apps/ingest/internal/pipeline/runner.go:144-282 | the loop: all requested pages but the last were committed, and it breaks off exactly when the last one could not be |
| `Runner.Run` | apps/ingest/internal/pipeline/runner.go:72-318 | log in order over all runs, cursor the next uncommitted page, no other scope touched; completed iff the last requested page could be committed and is empty or the last reported one, and no earlier page is; the vacancies written are those of committed pages; Fetched = Upserted + Unchanged + Excluded + Errors whenever the last requested page could be committed, else off by exactly what that page left; the status in every case |
| `ItBatch.OpenPlan` | apps/ingest/internal/pipeline/it_batch.go:94-153 | resumes an unfinished stored cycle for no probes or starts a sorted plan within the budget; an invalid cursor is refused and nothing changes |
| `ItBatch.RunPartitions` | apps/ingest/internal/pipeline/it_batch.go:175-219 | fetched + pages are those of the runs and ≤ budget for honest page sizes; the cursor moves by exactly the completed partitions, each with a terminal page committed; why it stopped; a stuck partition stops it for good |
| `ItBatch.WithinBudget` | apps/ingest/internal/pipeline/it_batch.go:180-200 | the affordable pages of a partition with all their details fit the remaining budget |
| `ItBatch.AffordableMost` | apps/ingest/internal/pipeline/it_batch.go:181-184 | the pages are the most the remaining budget covers |
| `ItBatch.PagesFor` | apps/ingest/internal/pipeline/it_batch.go:180-191 | enough pages for the partition unless the budget or the limit allows fewer, and no page too many |
| `ItBatch.RunITBatch` | apps/ingest/internal/pipeline/it_batch.go:58-249 | probes + fetched + pages ≤ MaxRequests if pages hold at most PerPage items and partitions planned empty are empty; a resumed cycle advances by the completed partitions and is complete only when all are |
| `ItBatch.RunBatches` | apps/ingest/internal/pipeline/it_batch.go:58-249 | over any sequence of batches every scope's committed pages only grow, in order, and a cycle whose next partition stands at the depth limit never moves again |
| `Scheduler.Backoff` | apps/ingest/internal/scheduler/scheduler.go:289-300 | equals min(initial·2^(failures−1), max) in 64-bit arithmetic; no intermediate value passes the maximum |
| `Scheduler.JitterWithinPercent` | apps/ingest/internal/scheduler/scheduler.go:301-307 | the jittered delay is non-negative and within the percentage, up to truncation |
| `Scheduler.StreakMeaning` | apps/ingest/internal/scheduler/scheduler.go:233-241 | the failure count is the length of the run of failures at the end of the received outcomes |
| `Scheduler.ReachableInv` | apps/ingest/internal/scheduler/scheduler.go:155-249 | in every interleaving at most one batch runs or waits in the channel, no sender blocks, a cancel function exists iff a batch is active, the timer is the interval or the backoff of the current streak |
| `Scheduler.ReachableTimer` | apps/ingest/internal/scheduler/scheduler.go:225-246 | right after a received failure the timer is the jittered backoff of the streak, after any other outcome or a tick the interval; a tick starts a batch iff none is active |
| `Scheduler.CleanShutdown` | apps/ingest/internal/scheduler/scheduler.go:199-223 | a return without timeout leaves no batch running and every started batch has reported |
| `Scheduler.Engine.Handle` | apps/ingest/internal/scheduler/scheduler.go:159-249 | each branch of the loop is the specified step |
| `Scheduler.Engine.Loop` | apps/ingest/internal/scheduler/scheduler.go:136-249 | the engine against any schedule of events ends in a state satisfying the invariant |
| `PollMerge.DedupeFirst` | apps/web/src/pages/vacancyPagination.ts:29-39 | deduplication keeps exactly the first vacancy of every key |
| `PollMerge.KeyIdentifies` | apps/web/src/pages/vacancyPagination.ts:14-16 | vacancies with ids are told apart by id, those without by source and external id |
| `PollMerge.DedupeVacancies` | apps/web/src/pages/vacancyPagination.ts:29-39 | the nested loops with the seen set compute it |
| `PollMerge.OrderedMap.Set` | apps/web/src/pages/vacancyPagination.ts:55-69 | setting a key keeps its place in the insertion order or appends it |
| `PollMerge.AddedMeaning` | apps/web/src/pages/vacancyPagination.ts:62-69 | announced polled rows override or extend, later rows win, places are kept, and the growth is at most the added count |
| `PollMerge.PagedMeaning` | apps/web/src/pages/vacancyPagination.ts:72-79 | slicing loses nothing when the pages have room |
| `PollMerge.MergedMeaning` | apps/web/src/pages/vacancyPagination.ts:48-79 | every loaded and every announced polled key exactly once, newest first (a dated vacancy never follows an older or undated one), polled version where one exists, even for overlapping pages |
| `PollMerge.MergeTwice` | apps/web/src/pages/vacancyPagination.ts:48-79 | merging the same poll again changes nothing |
| `PollMerge.MergePolledVacancies` | apps/web/src/pages/vacancyPagination.ts:48-79 | the source's loops compute that merge; an empty page list is returned as it is |

## Left out

- Discovery.RunDailyDiscovery: requires that HH does not repeat one negative page count for ever from a pass the driver can get to, the one case in which the loop need not end.
- Discovery.FetchPages: the same requirement.
- Discovery.FetchAll: the same requirement.
- ItBatch.RunITBatch: a cursor stored without a cycle id, SyncRoles and the JSON form of the cursor are not modelled; probes of a failed plan are not counted.
- ItBatch.RunITBatch: a stored cycle reused with another partition count makes CompleteCycle fail; the model reports the error and does not say when that happens.
- Scheduler.JitterWithinPercent: real arithmetic instead of float64, and no 64-bit overflow of the jittered value.
- PollMerge.MergePolledVacancies: dates are already parsed, so an unparsable published_at (NaN in the comparator) is not covered; localeCompare is an arbitrary rank.
- Snapshot.ScanSnapshot: AI-retry rows are not modelled, and the set of vacancies is fixed for the life of the run.
- Worker.ProcessCandidates: AI-retry rows, work-item retry and completion, token and latency counters, and providers without batches are not modelled; Telegram eligibility is one parameter.
- Instants before year one, the area string (constant per run) and composite string keys (pairs here; cycle ids are a kind and a number) are not modelled.
- SHA-256 scope, partition and content hashes are assumed free of collisions.
- FailDiscoveryCycle, PendingDiscoveryCycle, run-error rows and the heartbeat goroutine are not modelled.
- PostgreSQL reconciliation: the counts it reports and the last-seen columns are not modelled; soft deletion and the listing scope are one parameter.
- PostgreSQL isolation and advisory locks: every statement or transaction is one atomic step.
- Match scores, weights, reason texts, regex classification, skill normalisation, PII redaction, prompts and JSON decoding are parameters or absent.
- getNextVacancyPageParam and parseVacancyPollInterval, salary and FX conversion, analytics, delivery backoff and the user interface are not modelled.
