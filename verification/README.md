# Solana indexer: a verified model

The indexer copies the transaction history of Solana addresses into PostgreSQL. Workers claim jobs from a
table, page the signatures of the address, lease batches of them, fetch each transaction from an RPC server,
save what they fetched, mark the batch processed, and set the final status of the job. Saving, marking and the
status update are separate statements without a common transaction; what holds the system together is leases
that expire, inserts that ignore duplicates and a guarded status update.

The model has two layers.

* **The code, one worker at a time.** `Backoff`, `Transfers`, `Fetching`, `Pagination`, `Paging`, `Database` and
  `Indexer` follow the source's own loops and fields: a delay that steps, a deadline behind a lock, lists filled
  in nested loops, tables changed by statements. `Tables` states each SQL statement as a function from tables
  to tables; every `Database` method is proved against its function.
* **The protocol, any number of workers.** `Protocol` is a state machine over the same table functions. One step
  is one statement or one local action of a worker. A worker can crash or give up between any two steps, a claim
  can be one step or be split into select-and-lock and update, and the clock only moves forward. `JobSafety`,
  `LeaseSafety`, `StorageSafety`, `Convergence` and `Verdict` prove what holds in every reachable state or over
  every run. `Cooldown` is a second, smaller machine: the request tasks that share the rate-limit deadline.

`Tracing` joins the two layers: the methods of `Indexer` also produce the run of the protocol machine that their
execution takes, statement by statement and whatever fails, so what is proved of all runs holds of the tables the
code leaves (`Indexer.ExecutionKeepsPromises`).

`TransferProperties`, `TableProperties` and `Reports` hold the laws of the extraction and of the statements;
`WindowSafety` relates the rows a job writes to the window its gate looks at; `Coverage` takes that window from the
ledger to the stored data; `CrashFree` and `BlockedPipeline` construct runs.

The small functions everything else is stated with (what counts as a rate limit, the type of a transfer, the columns of
a row, a page and its cutoff) have their own laws in terms of the payload and the source's constants, written out:
`FetchReadings`, `TransferReadings`, `RowReadings` and `PagingReadings`, and for the statements of `Database` the
contracts of its methods.

## Assumptions

Each is visible in a contract; nothing is assumed outside the contracts.

* One SQL statement is one atomic step. A failed statement changes no table. `clock(n)` and `fails(n)` give the
  time and the fate of the n-th statement of a worker's database handle; that clock does not run backwards.
* A transaction received for a signature carries that signature first (`Protocol.IsFetch`,
  `Indexer.NamesRequested`). The transactions row is keyed by the response and the mark by the request, so without
  it a marked row may have no transaction; `TableProperties.RowFollowsResponse` gives the exact condition.
* The history of an address is a fixed finite list with distinct signatures; a page holds the up to 1000 entries
  after `before`. Coverage further needs newest-first block times and a client clock that does not run backwards
  between pages, both as premises of that one clause.
* Statements about one address being exclusive take claims in one step (`Protocol.AllAtomic`); nothing else does.
* Convergence speaks of a fixed RPC answer per signature.

## Where the code does not do what it promises

Each of these is a lemma that shows the failure or states exactly when the promise holds.

* A job can write rows that its own gate and report never count. The cutoff of a page uses the client's clock, the
  window of the job uses the time the database gave it; nothing orders the two. With one requested hour, a job
  created at 10000 and a page answered at client time 9000, an entry at 6000 is kept although the window starts at
  6400 (`SlowClockWritesBeforeWindow`). Every page stays in the window exactly when the client's clock has reached
  the creation of the job (`WrittenLiesInWindowIff`, and for the rows added in any state of a run
  `WindowSafety.PagesAddIntoWindowIff`).
* A `ready` job need not have written the entries of its own window: a page answered after the job was created cuts
  off the start of it, second for second. With one requested hour, a job created at 10000 and a page at 10100, an
  entry at 6450 lies in the window and is cut off (`LatePageCutsWindow`). The cutoff spares the window exactly when
  the page is answered no later than the job's creation (`CutoffKeepsWindowIff`). From the last cutoff on, `ready`
  does mean done for the history itself (`Indexer.ProcessClaimedJob`, `Coverage.WindowStored`).
* With negative `requested_hours` the window of a job is empty, so the `ready` gate is open whatever is
  unprocessed, although pages are still filtered as if the hours were zero (`NegativeHoursEmptyWindow`,
  `NegativeHoursOpenGate`).
* A transfer can be lost: two equal transfers of one transaction become one row under the natural unique index
  (`SharedIndexLosesTransfer`). The first save adds one row per transfer exactly when, in every transaction, slots
  that share an index pair read differently (`FirstSaveInsertsEveryTransferIff`). Index pairs are shared exactly
  when a list is longer than an i32 counts or two non-empty inner groups have the same index
  (`SlotPairsDistinctIff`), so fitting indices are enough (`FittingIndicesLoseNothing`).
* The closed form of the delay sequence fails for a negative lower bound, and only then (`ClosedFormIff`).
* A request can be sent while a cooldown is live: the deadline is registered by another task after the request's
  second wait (`SentDuringCooldown`, and `SentAfterClearMoment` for the exact guarantee).
* A pipeline can return Ok and its job still not become `ready`: the lease statement finds nothing to claim while
  rows of the window are under a live lease left by an earlier job. `OkCanBeBlocked` is a run in which it happens,
  `OkEndsReadyIff` the exact condition.
* The repository's README (lines 100-102) says the atomic claim prevents duplicate processing. If select and
  update are not one atomic step, two jobs of one address can be indexing at once (`SplitClaimsOverlap`).
  An address stays exclusive throughout a run exactly when no such update is taken while a job of the address is
  indexing (`ExclusiveIffNoLateCommit`, and for all addresses at once `OneIndexingIffNeverLate`); that no job is
  claimed twice survives in any case (`NoJobClaimedTwice`).
* The repository's README (lines 185, 191 and 200) lists a unique index on `processing_data(address)` and
  `PRIMARY KEY (signature)`; the migrations replace both (20260505142800, 20260506163300). The model follows the
  migrations: several jobs per address, signature rows keyed by owner and signature.

## Model

| member | source | states |
|---|---|---|
| `Verdict.PipelineVerdict` | src/indexer.rs:11-70 | End to end, over every interleaving: a job claimed while its address has no live lease, by a worker that survives, ends in `ready` if its pipeline returned Ok and in `error` if it returned Err; it is `indexing` only while still being worked on. Exclusivity of the address is derived from the claim. |
| `Verdict.OkEndsReadyIff` | src/indexer.rs:32-45 | Without the assumption on leases: after the empty lease statement, the `ready` update succeeds exactly when no row of the job's window was under a live lease at that statement; otherwise it is blocked and changes no job. |
| `BlockedPipeline.OkCanBeBlocked` | src/indexer.rs:43-50 | A run with atomic claims in which a pipeline returns Ok, its update is blocked by a live lease an earlier job left, and its job is still indexing. |
| `Verdict.AbandonedForever` | src/main.rs:61-86 | In every run, claims split or not: a job that is indexing while nobody works on it keeps its row for ever, and no job of its address is eligible again. |
| `Verdict.RunStaysOnCourse` | src/indexer.rs:11-70 | Induction over runs: a worker stays on course to the status its pipeline earned, whatever the other workers do. |
| `Verdict.OwnStepOnCourse` | src/indexer.rs:106-222 | Each own step of the worker keeps the job on course: pages and marks keep the address free of foreign leases, an empty batch means nothing is left. |
| `Verdict.OthersKeepCourse` | src/db/jobs.rs:22-45 | With atomic claims, no step of another worker touches the rows, the job or the outcome of this one. |
| `Verdict.FinalStays` | src/db/jobs.rs:66-85 | A job with a final status keeps it, and nobody works on it again. |
| `Verdict.AddressesDiffer` | src/db/jobs.rs:22-45 | Two workers at work are on different addresses. |
| `StorageSafety.MarkedOnlyAfterStored` | src/indexer.rs:175-199 | In every reachable state, each processed row has its transactions row and every transfer computed by the worker that marked it, stored for its owner. |
| `StorageSafety.StepKeepsStored` | src/indexer.rs:193-199 | The step invariant behind it: what a worker has saved so far stays stored while it goes on to the next statement. |
| `StorageSafety.StepGrows` | src/db/transactions.rs:23-142 | No step of anyone removes or overwrites a stored transaction or transfer. |
| `StorageSafety.InsertedTransactions` | src/db/transactions.rs:34-66 | The keyed insert keeps every old row, ends with a row for every payload entry, and adds only rows taken from the payload. |
| `StorageSafety.AllRowsMembers` | src/db/transactions.rs:83-128 | The rows collected by the nested loops are exactly the rows of the payload's transactions. |
| `RowReadings.TransactionColumnsOf` | src/db/transactions.rs:41-59 | Column by column: slot, block time, error, fee and compute units are the transaction's own; signers are the header's count, else the signatures, else the signing keys; counts beyond an i32 become 0. |
| `RowReadings.InsertReading` | src/db/transactions.rs:34-66 | After the insert, a key that had no row has the columns of the first payload entry with that signature; a row that was there stays. |
| `RowReadings.TransfersReading` | src/db/transactions.rs:83-128 | After the insert, a transfers row is there exactly when it was before, or holds the slot, block time and one transfer of a payload entry under its signature. |
| `RowReadings.StoredColumns` | src/db/transactions.rs:145-176 | With fixed answers, over every run: each transactions row has the columns of the answer for its signature, each transfers row the slot and block time of that answer and one of its transfers. |
| `RowReadings.ProcessedColumns` | src/db/transactions.rs:145-176 | And a processed row has its transactions row and a row for every transfer of its answer. |
| `CrashFree.MatchesCrashFreeRun` | src/db/transactions.rs:145-176 | Crash-retry convergence: for any run with fixed answers there is a run without crash or error over the same signature rows that stores everything the run has stored, and the same tables once the run has processed every row. |
| `CrashFree.CrashFreeRunExists` | src/indexer.rs:11-70 | For every finite set of signature rows there is a run without crash or error that processes exactly these and ends with the ideal tables. |
| `Convergence.RetriesConverge` | src/db/transactions.rs:145-176 | With a fixed answer per signature, after any crashes, expired leases, repeated saves and overlapping jobs, the stored data is part of the ideal tables, and equal to them once every row is processed. |
| `Convergence.FinishedRunsAgree` | src/db/transactions.rs:145-176 | Any two runs that processed the same signature rows hold the same transactions and transfers. |
| `Convergence.PartialWithinFinished` | src/db/transactions.rs:145-176 | Whatever a partial run has stored is stored alike by every run that finished the same signature rows or more. |
| `Convergence.StepKeepsIdeal` | src/indexer.rs:183-199 | No step stores anything the fixed answers do not yield. |
| `Convergence.ReadyMeansDone` | src/db/jobs.rs:66-85 | A `ready` job became so at some step, by its own worker's guarded update; every row in its window was processed then and is in every later state. |
| `Convergence.RunKeepsProcessed` | src/db/signatures.rs:27-85 | No run removes a signature row, changes its block time or clears its processed flag. |
| `Convergence.BecomesReady` | src/db/jobs.rs:66-85 | Only the guarded update makes a job `ready`, and only through its guard. |
| `LeaseSafety.LeasesExcludeEachOther` | src/db/signatures.rs:27-48 | In every run, two leases of one (owner, signature) are more than 300 seconds apart, and a processed row has exactly the leases it had when it was marked. |
| `LeaseSafety.LiveBatchesDisjoint` | src/db/signatures.rs:27-48 | Two workers that hold one row hold it under leases of which one is more than 300 seconds old: live batches are disjoint. |
| `LeaseSafety.ClaimableIffLeaseOver` | src/db/signatures.rs:36-42 | In every reachable state a row can be leased exactly when it has not been marked and was never leased, or its last lease is more than 300 seconds old. |
| `LeaseSafety.StepKeepsLeases` | src/db/signatures.rs:27-85 | The row shows its last lease until it is processed; kept by every step. |
| `LeaseSafety.ClaimableIsSpaced` | src/db/signatures.rs:36-42 | The lease condition leaves more than 5 minutes since any earlier lease, because `is_processing` implies a start time. |
| `LeaseSafety.StepKeepsHolds` | src/indexer.rs:175-199 | Whoever works on a batch holds a recorded lease on each of its rows. |
| `Tables.InsertedRows` | src/db/signatures.rs:99-131 | Writing a page keeps every existing row, adds only fresh rows of the owner, and ends with a row for every entry. |
| `JobSafety.NoJobClaimedTwice` | src/db/jobs.rs:22-45 | In every run, also with claims split into lock and update, no job is claimed twice and no two workers hold one job. |
| `JobSafety.OneIndexingJobPerAddress` | src/db/jobs.rs:22-45 | With atomic claims, in every reachable state at most one job of an address is indexing, and the jobs of an address were claimed in creation order. |
| `JobSafety.SplitClaimsOverlap` | src/db/jobs.rs:22-37 | A run with split claims in which two jobs of one address are indexing. |
| `JobSafety.ExclusiveIffNoLateCommit` | src/db/jobs.rs:22-45 | In every run, claims split or not: an address is exclusive after every prefix exactly when no claim update is taken while a job of the address is indexing. |
| `JobSafety.OneIndexingIffNeverLate` | src/db/jobs.rs:22-45 | In every run: no address has two indexing jobs after any prefix exactly when no claim update is taken while a job of its address is indexing. |
| `JobSafety.CommitKeepsExclusiveIff` | src/db/jobs.rs:22-45 | One claim update keeps its address exclusive exactly when the address is not busy at that moment. |
| `JobSafety.StepKeepsJobs` | src/db/jobs.rs:18-99 | The invariant over every step: workers' copies agree with the job table, claims name each non-pending job once. |
| `JobSafety.StepKeepsQueue` | src/db/jobs.rs:22-45 | One indexing job per address, oldest first and claim order are kept by every step with atomic claims. |
| `JobSafety.UpdatedJobs` | src/db/jobs.rs:66-85 | A status update changes one row and nothing a worker has copied from it. |
| `Protocol.RunConcat` | src/main.rs:61-86 | Runs compose. |
| `Protocol.RunSplit` | src/main.rs:61-86 | Every run splits at every point into two runs with the same end state. |
| `Protocol.LocalStepMoves` | src/indexer.rs:106-222 | Paging, leasing, fetching, saving, marking and crashing touch no job row and no other worker. |
| `Indexer.ProcessPendingJobOnce` | src/indexer.rs:92-104 | None exactly says that no job was eligible and nothing changed; otherwise the report is that of the oldest eligible job, `ready` implies nothing remains, and without any failure the two are equivalent. Whatever fails, the execution is a run of the protocol by this worker that ends in the tables left behind. |
| `Indexer.ExecutionKeepsPromises` | src/indexer.rs:11-104 | After any execution that extends a run from the empty database: one indexing job per address, every processed row stored, stored data part of the ideal tables and equal to them once all is processed. |
| `Indexer.FirstJob` | src/indexer.rs:92-104 | From an empty database, one job and one round, whatever fails: a run of the protocol from its initial state, with all its promises for the tables left. |
| `Indexer.ProcessClaimedJob` | src/indexer.rs:11-70 | `ready` is only set through an open gate; with a working database the job ends in `ready` or `error` and never stays `indexing`; from a state without live leases Ok means `ready` with every row processed; after a paging that saw the end, `ready` means every entry of the history from the last cutoff to the job's creation is processed; an Ok pipeline paged up to the job's own tx_limit (1000 for a negative one) or to the end of the history, and no page further; the execution is a run of the protocol that records how the pipeline returned. |
| `Indexer.RunPipeline` | src/indexer.rs:17-28 | Paging, then the batch loop, leaving the worker about to set the status its result calls for; an error is always traced to a failed statement, fetch or page. Every entry written has a row. Ok means that the history ended or at least tx_limit entries were written (1000 for a negative limit), fewer than max(limit, 1) + 1000, and that before the last page the limit had not been reached. |
| `Indexer.ProcessUnprocessedSignatures` | src/indexer.rs:171-222 | Terminates; owning n claimable rows it takes exactly ceil(n/100) non-empty batches and leaves none unprocessed; an Ok result leaves only rows under a live lease; the batches counted are the non-empty leases of the run. |
| `Indexer.ProcessBatch` | src/indexer.rs:175-218 | One turn leases a batch and, if nothing fails, marks exactly the rows it leased; an empty batch means nothing is claimable; its statements are a run of the protocol. |
| `Indexer.FetchAndStore` | src/indexer.rs:184-217 | The turn after the lease: Ok means the whole batch is marked, Err is traced to a failed statement or fetch. |
| `Indexer.StoreBatch` | src/indexer.rs:193-199 | Save, then mark: the tables are those after the first `done` of the three statements, and the result is Ok exactly when all three took effect. |
| `Indexer.BatchIsFetch` | src/requests/client.rs:306-368 | What a batch yields is a fetch the protocol allows: processed signatures are distinct members of the batch, each with its own transaction, and it failed exactly when one is missing. |
| `Indexer.TurnOnSchedule` | src/indexer.rs:171-222 | After k full turns on n claimable rows, max(0, n - 100k) are left. |
| `Indexer.MarkJobError` | src/indexer.rs:72-90 | The error update, or no change at all when its statement fails. |
| `Tracing.FollowStore` | src/indexer.rs:184-217 | Fetching and any number of the three storing statements is a run of the protocol, ending in the tables the code leaves and in the stage its result calls for. |
| `Tracing.FollowLease` | src/indexer.rs:175-182 | The lease statement at a later time is a clock step and a lease step. |
| `Tracing.FollowClaim` | src/indexer.rs:96-98 | The claim statement is an atomic claim step of the protocol. |
| `Tracing.InitTrace` | src/db/jobs.rs:12-15 | A new database is the initial state of the protocol. |
| `Tracing.FollowReady` | src/indexer.rs:32-50 | The `ready` statement is a protocol step that frees or blocks the worker, as the gate decides. |
| `Tracing.FixedTrace` | src/requests/client.rs:370-442 | A run of the code receives only what the network answered, so fixed answers make a run with fixed answers. |
| `Indexer.Conclude` | src/indexer.rs:32-69 | The status decision: `ready` if the pipeline was Ok and the gate allows it, `error` otherwise, unchanged if the statement fails. |
| `Indexer.BatchDone` | src/indexer.rs:175-199 | Leasing and marking a batch takes exactly its rows off the unprocessed ones. |
| `Indexer.TurnCounts` | src/indexer.rs:175-199 | The unprocessed count falls by the batch size, which is min(100, unprocessed) under sole ownership. |
| `Indexer.BatchOutcome` | src/indexer.rs:184-217 | Without errors the processed signatures are the whole batch; processed signatures always come from the batch. |
| `Paging.FetchSignatures` | src/indexer.rs:106-169 | Terminates on the unread suffix for every limit; visits no entry twice; writes exactly the recent parts of the pages answered, nothing before the first page's cutoff; counts fewer than max(limit, 1) + 1000, and fewer than the limit before the last of several pages; whenever the last page reached a cutoff or the end, also at the limit, it has written every timed entry at or after the last page's cutoff. |
| `Tracing.FollowPaging` | src/indexer.rs:123-157 | The paging loop is a run of one page step per answered page, ending before the leases or, after a failed page, with a failed pipeline. |
| `Paging.FetchPage` | src/indexer.rs:123-147 | One page: fetched, written, and accounted for; an error leaves the tables as they were. |
| `Paging.NextPage` | src/indexer.rs:123-157 | How one page advances coverage, positions and cutoffs. |
| `Paging.PageCovered` | src/requests/client.rs:685-699 | A page without a stop entry is covered; with one, everything after it on a newest-first ledger is older than the cutoff. |
| `Paging.InsertConcat` | src/db/signatures.rs:99-131 | Writing page by page equals writing the concatenation. |
| `PagingReadings.PageReading` | src/requests/client.rs:674-717 | Every page, from the history itself: up to 1000 entries, the last one named; the cutoff is now minus 3600 seconds per requested hour, negative hours counting as none; an entry is kept exactly when it is timed, not before the cutoff, and not behind an entry that lies before it. |
| `PagingReadings.EndReading` | src/indexer.rs:147-154 | The n-th page ends the history exactly when the history has fewer than 1000 n entries or one of the page's thousand lies before its cutoff. |
| `PagingReadings.WrittenReading` | src/indexer.rs:121-157 | What n pages write: an entry is written exactly when it is kept of some thousand among the first n, by that page's own cutoff. |
| `Pagination.TakeRecentSignaturesAt` | src/requests/client.rs:674-717 | The loop keeps the timed entries at or after the cutoff that precede the first older one, says whether there was one, and counts the untimed ones before it. |
| `Pagination.FirstOld` | src/requests/client.rs:685-699 | The stop position: nothing before it is too old, and the entry at it is. |
| `Pagination.KeepRecent` | src/requests/client.rs:685-699 | Exactly the entries that are timed and recent. |
| `Pagination.GetSignatures` | src/requests/client.rs:197-226 | The page after `before`, its last raw signature, raw count and cutoff flag. |
| `Pagination.PositionAfterEntry` | src/requests/client.rs:118-125 | Paging from an entry continues right after it when signatures are distinct. |
| `Fetching.TryFetchTransactionOnce` | src/requests/client.rs:444-528 | Every error of an attempt names the requested signature. |
| `FetchReadings.AttemptReading` | src/requests/client.rs:444-528 | Every reply: rate limited exactly when the body is undecodable or an rpc error and the status is 429, the code -32429, or the text says one of the three phrases in any case, then with the reply's own hint; a success exactly when there is a decoded result and no error, then with that result; fatal otherwise. The error carries the reply's status, code and text. |
| `FetchReadings.DecisiveReading` | src/requests/client.rs:386-429 | Retries in terms of the replies: the attempt that decides is the first whose reply reports no limit, or the last of max_retries+1. |
| `FetchReadings.FetchReading` | src/requests/client.rs:370-442 | A fetch succeeds exactly when the deciding reply delivers, with what it delivers; each earlier reply has registered its own Retry-After, in order. |
| `FetchReadings.ContainsIffSays` | src/requests/types.rs:56-72 | Lower-casing and searching finds a phrase exactly when it stands somewhere in the text in any mixture of cases. |
| `Fetching.HeliusApi.FetchTransactionBySignature` | src/requests/client.rs:370-442 | The retry loop equals the one-line reading; registers a cooldown once per retried attempt, with that attempt's hint, and makes the idle check after a success and only then; its fallback is unreachable. |
| `Fetching.DecisiveIsFirstUndelayed` | src/requests/client.rs:386-429 | The decisive attempt is the first that is not rate limited, within the budget. |
| `Fetching.ExhaustedOnlyWhenAllLimited` | src/requests/client.rs:407-424 | A fetch ends in a rate limit exactly when all max_retries+1 attempts were limited, and then with the last error. |
| `Fetching.HeliusApi.FetchTransactionChunk` | src/requests/client.rs:235-303 | A chunk sorts the outcomes of its signatures into successes and failures, in order. |
| `Fetching.HeliusApi.GetTransaction` | src/requests/client.rs:306-368 | Chunks of ten change nothing: the batch is the partition of all outcomes, with every transaction's transfers computed. |
| `Fetching.PartitionIsComplementary` | src/requests/client.rs:254-273 | Processed and failed signatures are complementary subsequences in input order; transactions line up with the processed, errors with the failed. |
| `Fetching.PartitionConcat` | src/requests/client.rs:331-338 | Appending the parts of two chunks is partitioning their concatenation. |
| `Fetching.HeliusApi.Sort` | src/requests/client.rs:254-273 | The sorting loop meets the partition. |
| `Cooldown.StoredIsLatestDeadline` | src/requests/client.rs:557-604 | In every interleaving, while the latest registered deadline is in the future it is the stored one: never shortened, never dropped early. |
| `Cooldown.DelayIsKept` | src/requests/client.rs:580-604 | Over every run: once a task has registered a delay that fits the clock, the stored deadline is at least the time of the computation plus that delay, and until then no check of any task goes through or drops it. |
| `Cooldown.RegisteredWasComputed` | src/requests/client.rs:588-597 | Over every run: every registered deadline is the time of some step plus its delay, or that time itself when the sum does not fit; none is made up or shortened on the way. |
| `Cooldown.ComputedIsRegistered` | src/requests/client.rs:588-597 | A computed deadline is registered unchanged by its own task, whatever the other tasks do in between. |
| `Cooldown.SentAfterClearMoment` | src/requests/client.rs:549-555 | Every sent request had a moment after its permit when no deadline registered by then was live; a live deadline meanwhile is exactly one registered since. |
| `Cooldown.SentDuringCooldown` | src/requests/client.rs:549-555 | A run in which a request goes out during a live cooldown. |
| `Cooldown.PermitsConserved` | src/requests/client.rs:530-555 | Permits are conserved; at most the configured number of requests is out. |
| `Cooldown.StepKeepsDeadline` | src/requests/client.rs:557-604 | The deadline invariant is kept by every lock-held section. |
| `Cooldown.RateLimit.Check` | src/requests/client.rs:557-571 | A stored deadline that is not in the future is dropped and nobody waits; one in the future stays, and the wait is the time up to it. |
| `Cooldown.RateLimit.RegisterRateLimit` | src/requests/client.rs:580-604 | Takes the server's hint unless it is zero, else the next backoff delay. The stored deadline becomes the later of the old one and now plus that delay, or now itself when the clock cannot hold the sum; the time of the rate limit is recorded. |
| `Cooldown.RateLimit.ResetRateLimitBackoffIfIdle` | src/requests/client.rs:606-630 | The backoff starts over exactly when no cooldown is live and the last rate limit is more than five seconds ago or there was none; a passed deadline is dropped. |
| `Transfers.TransactionResult.CalculateTokenTransfer` | src/requests/types.rs:308-342 | The nested loops yield the flat filter-map over top-level, then inner instructions. |
| `Transfers.TransactionResult.CollectTokenTransfer` | src/requests/types.rs:344-405 | Appends the transfer of one slot, or nothing. |
| `Transfers.TransactionResult.CollectInner` | src/requests/types.rs:329-339 | The inner loops append the transfers of all groups in order. |
| `Transfers.TokenAccountMetaMap` | src/requests/types.rs:532-556 | The map filled with overwriting holds exactly the accounts some balance resolves to, each with its last balance. |
| `Transfers.MetaMapUnique` | src/requests/types.rs:532-556 | There is one such map. |
| `Transfers.LastMetaIsLatestBalance` | src/requests/types.rs:536-552 | The last balance, by position: the greatest index that resolves to the account, over pre then post balances. |
| `Transfers.FilterMapAppend` | src/requests/types.rs:308-342 | Extraction distributes over concatenation of instruction lists. |
| `TransferProperties.TransferPositions` | src/requests/types.rs:308-342 | The transfers sit at increasing slot positions and every slot with a transfer is among them. |
| `TransferProperties.SlotPairsDistinctIff` | src/requests/types.rs:312-338 | The index pairs of all slots are pairwise distinct exactly when lengths fit an i32 and non-empty inner groups have distinct indices. |
| `TransferProperties.TransfersDistinctIff` | src/requests/types.rs:308-342 | No two transfers of a transaction are equal exactly when slots that share an index pair do not read as the same transfer. |
| `TransferProperties.TransfersDistinct` | src/requests/types.rs:308-342 | When the indices fit, no two transfers of a transaction are equal. |
| `TransferProperties.SplTransferReading` | src/requests/types.rs:438-530 | Owners come from the last balance of the transfer's own accounts; absent mint and decimals fall back to source, then destination. |
| `TransferReadings.SlotReading` | src/requests/types.rs:344-530 | Every instruction: it yields a transfer exactly when it is parsed, of one of the six types, and of a token program with a readable amount, or else of the system program with lamports. The type is transfer, mint or burn by the instruction's type, the kind spl or native by its program; a mint takes the account field as destination only, a burn as source only. |
| `TransferReadings.TopSlotReading` | src/requests/types.rs:312-327 | The i-th top-level instruction is read i-th, with its own position and no inner index. |
| `TransferReadings.InnerSlotReading` | src/requests/types.rs:329-339 | Each inner instruction is read after all top-level ones and all earlier groups, with its group's index and its position in the group. |
| `TransferReadings.SlotCount` | src/requests/types.rs:312-339 | Nothing else is read. |
| `TransferReadings.KeysReading` | src/requests/types.rs:299-306 | Account n is the n-th of the transaction's own keys, then the loaded writable, then the loaded readonly ones. |
| `TransferReadings.PostBalanceReading` | src/requests/types.rs:532-556 | Owner, mint and decimals of an account are those of its last post balance. |
| `TransferReadings.PreBalanceReading` | src/requests/types.rs:532-556 | Without a post balance, those of its last pre balance. |
| `TransferReadings.NoBalanceReading` | src/requests/types.rs:532-556 | Without either, nothing is known. |
| `TransferReadings.ParsePlus` | src/requests/types.rs:448-460 | A leading plus sign is read as none. |
| `TransferReadings.ParseRejectsText` | src/requests/types.rs:448-460 | A text with anything but digits after its sign is no amount. |
| `TransferReadings.Pow10Written` | src/requests/types.rs:506-511 | The scale of n decimals is a one and n zeros. |
| `TransferProperties.SplAmount` | src/requests/types.rs:446-511 | There is a transfer exactly when the amount text is an i128; the UI amount is the stated one, else raw scaled by the decimals. |
| `TransferProperties.ParseWritten` | src/requests/types.rs:448-460 | Reading back a written amount yields it when it fits 128 bits and nothing otherwise. |
| `TransferProperties.NativeAmountExact` | src/requests/types.rs:407-436 | The 32-bit halves rejoin to the lamports; one SOL is 10^9 of them. |
| `Reports.ReportAgreesWithGate` | src/db/jobs.rs:66-117 | Total is processed plus remaining; the gate is open, and the `ready` update of an indexing job succeeds, exactly when remaining is 0; an empty window counts zero. |
| `TableProperties.WrittenLiesInWindowIff` | src/requests/client.rs:674-717 | For every job, also with negative hours: whatever the page holds, what the job writes of it lies in its window unless newer than the job, exactly when the client's clock has reached the creation time the database gave the job. |
| `TableProperties.SlowClockWritesBeforeWindow` | src/requests/client.rs:679-691 | The failing input: a clock 1000 seconds behind keeps an entry from before the window. |
| `WindowSafety.PagesAddIntoWindowIff` | src/indexer.rs:123-147 | In any state in which a worker pages, its pages add only rows of its job's window, or newer than the job, exactly when the client's clock has reached the job. |
| `WindowSafety.AddedRowsStayInWindow` | src/db/jobs.rs:66-117 | Over every run: a row that a page of a job adds is timed, not before the page's cutoff, and in every later state counted by the job's gate exactly when it lies between window start and creation; with the clock not behind, exactly when it is not newer than the job. |
| `WindowSafety.RunKeepsTerms` | src/db/jobs.rs:18-99 | No run removes a job or changes its address, creation time, hours or limit. |
| `TableProperties.CutoffKeepsWindowIff` | src/requests/client.rs:679-691 | The cutoff of a page spares the whole window of its job exactly when the window is empty or the page is answered no later than the job was created. |
| `TableProperties.LatePageCutsWindow` | src/requests/client.rs:679-691 | The failing input: an entry of the window that a page 100 seconds later cuts off. |
| `Coverage.WritingAgrees` | src/db/signatures.rs:99-131 | Writing entries of the history gives each a row with its block time and keeps the rows in agreement with the history. |
| `Coverage.CoveredAndOpen` | src/db/jobs.rs:66-85 | Paging completeness and an open gate together: every entry of the history from the cutoff to the job's creation has a processed row. |
| `Coverage.WindowStored` | src/indexer.rs:175-199 | And, from an empty database on, its transactions row and all of its transfers. |
| `TableProperties.NegativeHoursEmptyWindow` | src/db/jobs.rs:72-82 | The window is empty exactly when the hours are negative. |
| `TableProperties.NegativeHoursOpenGate` | src/db/jobs.rs:72-82 | With negative hours the gate is always open. |
| `TableProperties.FirstSaveInsertsEveryTransferIff` | src/db/transactions.rs:78-142 | The first save of a payload adds at most one row per transfer, and exactly one per transfer if and only if in every transaction slots that share an index pair read differently. |
| `TableProperties.FittingIndicesLoseNothing` | src/db/transactions.rs:78-142 | Corollary: no transfer is lost when lengths fit an i32 and non-empty inner groups have distinct indices. |
| `TableProperties.RowsDistinctIff` | src/db/transactions.rs:83-128 | The rows of a payload are as many as its transfers, and pairwise distinct exactly when no transaction repeats a transfer. |
| `TableProperties.SecondSaveInsertsNothing` | src/db/transactions.rs:145-176 | Saving a payload again changes neither table. |
| `TableProperties.SharedIndexLosesTransfer` | migrations/20260511060000_add_token_transfers_natural_unique_index.sql:36-58 | A transaction with two transfers of which one row is kept. |
| `TableProperties.RowFollowsResponse` | src/db/transactions.rs:41-48 | After saving, the requested signature has its row exactly when the response carries it first. |
| `Database.Database.constructor` | src/db/jobs.rs:12-15 | An empty database whose clock never runs backwards. |
| `Database.Database.ClaimPendingJob` | src/db/jobs.rs:18-57 | Claims the oldest pending job whose address nothing is indexing, and None only when there is none; the row becomes indexing, with the time and the worker's id (2147483647 when larger), and the worker gets its address, hours and limit. |
| `Database.Database.UpdateProcessingStatusByJobId` | src/db/jobs.rs:60-99 | The guarded update: it takes effect exactly on an indexing job, for `ready` only when no timed row of its address within its hours before creation is unprocessed; then status and time are the only changes, and the count says whether it did. |
| `Database.Database.GetJobInfo` | src/db/jobs.rs:101-126 | None exactly for an unknown job; otherwise its status, time of update, and the number of timed rows of its address within its hours before creation, split into processed and remaining; remaining 0 exactly when none is unprocessed; no table changes. |
| `Database.Database.CreateProcessingJob` | src/db/jobs.rs:128-146 | Adds one pending job under a fresh id, created and updated now, with the address, limit and hours asked for. |
| `Database.Database.GetUnprocessedSignatures` | src/db/signatures.rs:21-61 | Leases distinct rows that are unprocessed and not leased within the last 300 seconds, as many as the limit allows, and below the limit all of them; each shows the lease and its time, and no other row changes. |
| `Database.Database.MarkSignaturesProcessed` | src/db/signatures.rs:64-96 | Marks the unprocessed rows among the given signatures, ends their leases, keeps everything else, and counts them. |
| `Database.Database.WriteSignatures` | src/db/signatures.rs:99-131 | Adds the entries that have no row and counts them. |
| `Database.WrittenRows` | src/db/signatures.rs:99-131 | Old rows stay, every entry has a row, and a new row has the block time of an entry and is neither processed nor leased. |
| `Database.BatchTakesAll` | src/db/signatures.rs:27-48 | A lease that stays below its limit leaves no leasable row behind. |
| `Database.GateIsHours` | src/db/jobs.rs:66-85 | Gate and report look at exactly the rows of the job's address timed from requested_hours * 3600 seconds before its creation up to it. |
| `Database.WaitingIsEligible` | src/db/jobs.rs:26-35 | A job can be claimed exactly when it is pending and no job of its address is being indexed. |
| `Database.Database.WriteTransactionInfo` | src/db/transactions.rs:23-75 | The keyed insert and its count; a failed statement changes nothing. |
| `Database.Database.WriteTokenTransfers` | src/db/transactions.rs:78-142 | The set-like insert and its count; nothing is sent when there is no transfer. |
| `Database.Database.BuildRows` | src/db/transactions.rs:83-89 | The nested loops collect one row per transfer in order. |
| `Database.Database.SaveTransactionData` | src/db/transactions.rs:145-176 | Transactions first, transfers second; a failure leaves nothing or only the first stored. |
| `Backoff.WorkerBackoff.constructor` | src/backoff.rs:11-18 | Starts at the minimum; a multiplier below 1 becomes 1. |
| `Backoff.WorkerBackoff.Reset` | src/backoff.rs:20-22 | Back to step zero. |
| `Backoff.WorkerBackoff.StepAndGetSleepDuration` | src/backoff.rs:24-42 | The k-th call after a reset sleeps by the k-th delay, and moves on to the next. |
| `Backoff.ClosedForm` | src/backoff.rs:24-42 | With integral bounds and multiplier 2 the k-th delay is min(max, min * 2^k). |
| `Backoff.ClosedFormIff` | src/backoff.rs:24-42 | It is so at every step exactly when the lower bound is not negative. |
| `Backoff.DelayBoundedAndNondecreasing` | src/backoff.rs:35-38 | For every multiplier of at least 1 the delay stays within its bounds and never decreases between resets. |
| `Backoff.DelayReading` | src/backoff.rs:35-38 | Every delay after the first is the one before it times the multiplier, rounded to the nearest whole number with halves away from zero, raised to the lower and then cut to the upper bound. |
| `Backoff.SleepReading` | src/backoff.rs:25-33 | The sleep is half the delay times one plus the random draw, but at least a millisecond. |
| `Backoff.SleepWithinDelay` | src/backoff.rs:25-33 | For delays of at least 2 ms the sleep before truncation lies between half the delay and the delay. |

## Left out

- HTTP transport and JSON decoding: a request is answered by a reply that any function may give.
- PostgreSQL internals: row locks inside one statement, connection pooling, NULL in the two boolean columns, and
  a worker id beyond the smallint column. A lease statement that skips rows locked by a concurrent lease
  statement is not distinguished from one that runs before or after it.
- Sub-second timestamps: all times are whole seconds, in the cooldown whole milliseconds.
- Floating point: delays and UI amounts are exact reals, so no rounding, NaN or infinity; raw amounts are exact.
- TransferProperties.SplAmount: the UI amount is the exact quotient, not the nearest f64.
- TransferProperties.NativeAmountExact: the UI amount is exact also above 2^53 lamports, where an f64 rounds.
- A final status statement that fails: the worker goes idle and the job stays `indexing`, as in the code; in the
  protocol that is a `Crash` step.
- Interference inside a round: the methods of `Indexer` are proved with nobody else at the database while they run,
  so they link uninterrupted rounds to runs of `Protocol`; that other workers' statements come in between is proved
  in the protocol alone. The endless worker loop repeats such rounds.
- A statement that takes effect although its acknowledgement is lost: in `Protocol` it is the step followed by
  `GiveUp` or `Crash`; in `Database` a failed statement has no effect.
- The retry loop around getSignaturesForAddress: it has the shape of the transaction retry loop, with its own
  rate-limit test; a page is the answer it ends with.
- The link between the two views of the cooldown: `HeliusApi` records its calls, `Cooldown` says how
  registrations move the shared deadline.
- The five concurrent requests of a chunk: `buffered` returns answers in request order, so they are taken one
  after another; their interleaving on the deadline is the subject of `Cooldown`.
- The idle check among interleaved tasks: its two locks give no guarantee on the backoff, so in the machine of
  `Cooldown` it is a step that at most drops a passed deadline.
- The request-per-second limiter, parsing of Retry-After, log excerpts, address masking, the HTTP server,
  settings, telemetry and the fixture updater.
- Liveness across dead workers: no code returns an abandoned job to the queue (`AbandonedForever`).
- The pauses between chunks.
