# Verification model of the multi-worker messaging and payroll core

This project models, in Dafny, the parts of the repository where several workers
share tables (leases, queue rows, runtime nodes, locks, versioned rows), where
bridges fail and messages are retried, where the poller must neither lose nor
repeat a message, and where a payroll ledger is kept beside its transactions. It
proves what those parts keep over every run and every interleaving.

Each component is written twice. A `Step` function on values says what one SQL
statement or one call does to the tables, and the theorems quantify over `Run`s of
such steps. Beside it a class (or a loop in a method) updates its fields in the way
the source does, and its methods are proved equal to the `Step` functions, so the
theorems hold of the objects too. Where one SQL statement works on many rows, the
method works on them row by row.

Conventions: time is an integer clock, money is an integer, floating-point scores
are `real`, SHA and MD5 digests are injective on their input fields, one SQL
statement is one atomic step, and a database transaction is all or nothing.

| module | file | models |
|---|---|---|
| `LeaseTable`, `LeaseRuns`, `LeaseSweep`, `LeaseInterleaving` | `Lease*.dfy` | `shared/queue_arbiter.py` |
| `MessageQueue`, `NodeGateway` | `MessageQueue.dfy`, `NodeGateway.dfy` | `shared/queue.py`, `shared/runtime_gateway.py`, `arbitrated_dequeue` |
| `WriteLocks`, `OptimisticUpdate` | `WriteLocks.dfy`, `OptimisticUpdate.dfy` | `shared/locks.py`, `shared/write_router.py`, `shared/consistency.py` |
| `Ledger`, `Matching`, `Repairs` | `Ledger.dfy`, `Repairs.dfy` | `modules/admin_transactions`, `tools/repair_fpe_transactions.py`, `tools/review_repairs.py` |
| `CircuitBreaker`, `CrossBridgeDedup`, `RetryQueue`, `BridgeHealth`, `SelfHeal` | same names, `DedupCaches.dfy` | `app/bridge.py`, `shared/bridge_orchestrator.py`, `shared/self_heal.py` |
| `Poller`, `ReplyCooldown` | same names | `modules/bridge_poller` |
| `DraftQuality`, `Drafts`, `CommandDedup`, `Verification` | `Drafts.dfy`, `DedupCaches.dfy`, `Verification.dfy` | `modules/draft_quality`, `modules/admin_commands`, `modules/employee_verification` |

## Where the code and its documentation differ

The model follows the code. Each of these is a lemma below.

- `complete_lease` and `fail_lease` match on `lease_id` alone, which a reclaim does
  not change. A late success can complete a pair twice, a late failure can let a
  second worker in or reopen a completed pair (`LateSuccessCompletesTwice`,
  `LateFailureMakesTwoLive`, `LateReportReopens`). Lateness itself is harmless: a
  report breaks exclusivity exactly when its pair is completed or another worker has
  an outstanding grant of it (`StepKeepsExclusiveIff`). With SELECT and UPDATE
  interleaved two workers can both reclaim one lease (`BothReclaim`; exactly when, in
  `WriteAcquireKeepsIff`).
- `retry_after` is written but `acquire_lease` never reads it (`BackoffIsNotEnforced`).
- `fail_message` promises that an exhausted row is dead-lettered by the next dequeue;
  no dequeue touches it, and `detect_starvation`, whose bound is 5 attempts and not 3,
  counts it for ever (`ExhaustedRowIsLeftPending`, `ExhaustedRowStarvesForever`).
- A clean shutdown, or a sweep that fails between its mark and a release, leaves the
  node's processing rows claimed for ever (`CleanShutdownStrandsRows`,
  `AbandonedSweepStrandsRows`). The release does not ask whether its node has come
  back, so it can take a row that an online node has just claimed
  (`LateReleaseTakesAFreshClaim`; exactly when, in `LostIffClaimedBetween`).
- A worker past its TTL is evicted by the next one on its key, or by the cleanup, and
  then shares the key; its own `release_lock` deletes whichever row is there
  (`StepKeepsGuardIff`, `EvictedKeyAdmitsTwo`, `LateReleaseFreesAnothersLock`).
- `optimistic_update` stamps only `updated_at`; on another version column two writers
  may both succeed (`BothSucceedIff`, `UnstampedColumnLosesUpdates`).
- An edit that changes only the category leaves the old ledger column, and a repair
  moves an advance in the paid column (`EditKeepsColumnsIff`, `RepairKeepsColumnsIff`);
  dating an undated row breaks the totals too (`EditKeepsAgreementIff`).
- A repair that finds its references in use still moves the ledger
  (`RepairKeepsAgreementIff`), a soft-deleted payment is repaired like a live one
  (`PaymentNetsOutIffLive`), and a list fetched once may act twice on one transaction
  (`GuardsAllowOneRepairIff`, `TwoReviewsRepairTwice`).
- A WBOM hit without a payroll link ends the search for the employee
  (`FirstPhoneHitDecides`), where the priority list suggests that the next column is tried.
- The five-minute dedup bucket has edges (`RepeatIsSkippedIff`).
- Every fetched poller message has non-empty text (`TextIsNeverEmpty`), so the
  branches for image, audio and document messages without text are not reached, no
  document acknowledgement is sent, and loop detection never pauses
  (`NoAcknowledgementNoPause`). A batch of 50 blank rows stops the cursor
  (`BlankBatchStalls`), and a second split between batches loses its remaining rows
  (`SplitSecondLosesARow`, `MissedForGood`; exactly when, in `NothingLostIff`).
- `BridgeClient.status` never raises, so no bridge ever reaches outage and panic mode
  is unreachable (`PanicIsUnreachable`).
- A half-open probe that is never reported blocks the breaker for ever
  (`OneProbeBetweenReports`).
- A message is marked processed before it is routed, so one whose handling raises is
  not tried again (`RaisedMessageIsNotRetried`).
- EDIT reopens a sent draft (`EditReopensASentDraft`). Verification sessions live in
  the draft table, so EDIT reopens a closed one too, and a start whose cleanup fails
  adds to the open ones (`OneOpenStepIff`, `EditReopensAClosedSession`).
- Requests that overlap are not guarded: two deletes may reverse one payment twice
  (`OverlappingDeletesIff`), two APPROVEs may send one draft twice
  (`OverlappingApprovesIff`).

## Model

| member | source | states |
|---|---|---|
| LeaseTable.Arbiter.AcquireLease | shared/queue_arbiter.py:210-386 | the early-return code computes the decision and single write of `Acquire`: same table, same grant or refusal, on every table |
| LeaseTable.Arbiter.FailLease | shared/queue_arbiter.py:414-459 | failed or dead_letter by the row's attempts, with the capped doubling backoff; the answer says whether the id exists, and an unknown one changes nothing |
| LeaseTable.Arbiter.RecoverStaleLeases | shared/queue_arbiter.py:496-540 | row by row, exactly the leased or processing rows expired longer than the threshold become failed, and as many are counted |
| LeaseTable.RecoverEffect | shared/queue_arbiter.py:496-540 | after a sweep nothing is left in force past its expiry and the threshold; only such rows changed, to failed |
| LeaseTable.Arbiter.IsWorked | shared/queue_arbiter.py:623-653 | searching the lease rows finds one in force on the message exactly when there is one |
| MessageQueue.Store.DetectStarvation | shared/queue_arbiter.py:623-665 | counting queue rows one by one gives the number of pending rows below 5 attempts that no lease in force covers |
| MessageQueue.EveryPendingRowIsWatched | shared/queue_arbiter.py:623-653 | on a bounded queue the count is over every pending row |
| LeaseTable.Arbiter.ArbitratedProcess | shared/queue_arbiter.py:721-771 | acquire, then complete or fail by whether the handler raised; a refused lease runs nothing |
| LeaseRuns.AcquireEffect | shared/queue_arbiter.py:243-381 | an acquire touches only its own row, refuses terminal and active ones, and otherwise grants with one more attempt, never past MAX_ATTEMPTS |
| LeaseRuns.GrantedIff | shared/queue_arbiter.py:243-381 | granted exactly when never leased, or neither finished nor in force with attempts left; refused for want of attempts exactly then dead-lettered; any other refusal changes nothing |
| LeaseRuns.BuriedIff | shared/queue_arbiter.py:302-314 | an acquire dead-letters an unfinished pair exactly when it is not in force and all five grants are used |
| LeaseRuns.GivenUpForGood | shared/queue_arbiter.py:462-491 | giving up dead-letters the pair, and through every run that does not reopen it it is granted no more |
| LeaseRuns.IndexedAcquire | shared/queue_arbiter.py:352-381 | the lease_id and the (message, intent) key keep naming the same rows |
| LeaseRuns.CountedStep | shared/queue_arbiter.py:210-540 | every step keeps attempts equal to the number of grants, at most MAX_ATTEMPTS, and each grant tied to its row |
| LeaseRuns.GrantsNeverExceedMaxAttempts | shared/queue_arbiter.py:302-381 | over every run, timely or not, leases ever granted for a pair equal its attempts field and never exceed MAX_ATTEMPTS |
| LeaseRuns.ExclusiveStep | shared/queue_arbiter.py:210-540 | each timely step keeps one live lease per pair, one completion per pair, and every terminal row |
| LeaseRuns.StepKeepsExclusiveIff | shared/queue_arbiter.py:210-540 | from exclusive leases, a step keeps them so exactly when it is no report on a completed pair or beside another worker's outstanding grant, and no sweep of an outstanding grant's lease |
| LeaseRuns.ExclusiveThroughoutIff | shared/queue_arbiter.py:210-540 | over every run, timely or not, leases are exclusive and completions single throughout exactly when every step is safe in that sense |
| LeaseRuns.UnsafeSuccessCompletesTwice | shared/queue_arbiter.py:389-411 | after a success beside another outstanding grant, that grant's own timely success is a second completion |
| LeaseRuns.TimelyIsSafe | shared/queue_arbiter.py:389-491 | a worker that reports once, before its own lease runs out, is always safe |
| LeaseRuns.LeasesAreExclusive | shared/queue_arbiter.py:210-491 | so if workers report before expiry, every interleaving has at most one live lease per pair and at most one completion |
| LeaseRuns.NoGrantAfterTheEnd | shared/queue_arbiter.py:283-300 | once completed or dead-lettered, a pair stays so and is never granted again in any timely run |
| LeaseRuns.AtMostOneLeasePerPair | shared/queue_arbiter.py:210-491 | the above from the empty table, in plain terms |
| LeaseRuns.FailureOutcome | shared/queue_arbiter.py:414-459 | a timely failure dead-letters exactly at the fifth grant and otherwise schedules 1, 2, 4 or 8 seconds |
| LeaseRuns.BackoffIsNotEnforced | shared/queue_arbiter.py:302-350 | a failed pair with attempts left is granted at once, whatever its retry time |
| LeaseRuns.LateReportReopensIff | shared/queue_arbiter.py:389-459 | a report on a finished pair reopens it exactly when it is a failure and grants are left |
| LeaseRuns.FinishedStepIff | shared/queue_arbiter.py:283-300 | a step leaves a finished pair finished exactly when it is not a failure report with grants left, and never grants it |
| LeaseRuns.FinishedThroughoutIff | shared/queue_arbiter.py:283-300 | over every run, timely or not, a finished pair stays finished and ungranted exactly as long as no step reopens it |
| LeaseRuns.LateSuccessCompletesTwice | shared/queue_arbiter.py:389-411 | a run with no failure in which a late success and a timely one complete a pair twice |
| LeaseRuns.LateFailureMakesTwoLive | shared/queue_arbiter.py:414-459 | a run in which a late failure beside a live grant lets a third worker in beside the second |
| LeaseRuns.LateReportReopens | shared/queue_arbiter.py:389-459 | a run in which a late failure reopens a completed pair and a third worker is granted it |
| LeaseSweep.SimilarStep | shared/queue_arbiter.py:283-350 | tables that differ only in swept rows answer every step alike and stay so |
| LeaseSweep.SweepIsInvisible | shared/queue_arbiter.py:496-540 | removing every sweep from any run changes no grant, no report outcome, no starvation answer and no attempts field |
| LeaseSweep.SweepTakesLiveLeasesIff | shared/queue_arbiter.py:496-540 | a sweep can take a lease still in force exactly when its threshold is below -1 |
| LeaseSweep.SweepShowsIff | shared/queue_arbiter.py:496-540 | on any table and for any threshold, a sweep changes what some asker is told exactly when it takes a lease in force with attempts left |
| LeaseSweep.EagerSweepIsVisible | shared/queue_arbiter.py:496-540 | a concrete negative threshold that changes an acquire's answer |
| LeaseInterleaving.BoundedStep | shared/queue_arbiter.py:302-381 | every separate SELECT or write keeps the attempt bounds, also of what workers remember from their SELECTs |
| LeaseInterleaving.AdjacentAcquireIsAtomic | shared/queue_arbiter.py:243-381 | a SELECT and its write with nothing between are the atomic acquire |
| LeaseInterleaving.AdjacentFailIsAtomic | shared/queue_arbiter.py:414-456 | the same for the reports |
| LeaseInterleaving.InterleavedBounds | shared/queue_arbiter.py:302-381 | however statements interleave, attempts stay in 1..5, exactly one INSERT wins per pair, and backoffs stay in 1..16 |
| LeaseInterleaving.BackoffBelowCap | shared/queue_arbiter.py:438-452 | within the bounds the backoff is the exact power of two and below the 3600 s cap |
| LeaseTable.BackoffIsCapped | shared/queue_arbiter.py:438-442 | left to itself the doubling would stop at 3600 s, from the thirteenth attempt on |
| LeaseInterleaving.GrantedInForceIff | shared/queue_arbiter.py:302-350 | an acquire whose write finds the lease in force is granted it all the same exactly when its SELECT led it to reclaim |
| LeaseInterleaving.SecondLiveGrantIff | shared/queue_arbiter.py:302-381 | with exclusivity so far, a write makes a second live grant exactly when it reclaims a lease in force for a positive time |
| LeaseInterleaving.UndisturbedClobbersNothing | shared/queue_arbiter.py:243-350 | if the row is as the SELECT returned it, the write overwrites nothing in force or finished |
| LeaseInterleaving.WriteAcquireKeepsIff | shared/queue_arbiter.py:302-381 | an acquire's write keeps grants exclusive exactly when it overwrites neither a lease in force nor a completed pair |
| LeaseInterleaving.StepKeepsExclusiveIff | shared/queue_arbiter.py:210-540 | the exact condition for every separate statement: writes, reports, sweeps and SELECTs |
| LeaseInterleaving.ExclusiveThroughoutIff | shared/queue_arbiter.py:210-540 | over every interleaving of the statements grants are exclusive throughout exactly when every statement is safe |
| LeaseInterleaving.UndisturbedIsSafe | shared/queue_arbiter.py:243-381 | a timely statement that is not overtaken is safe |
| LeaseInterleaving.ExclusiveStep | shared/queue_arbiter.py:210-540 | every timely statement that is not overtaken keeps one live grant and one completion per pair, and rows in force only under a live grant |
| LeaseInterleaving.UndisturbedRunsAreExclusive | shared/queue_arbiter.py:210-540 | if nobody writes a pair between another worker's SELECT and its write, and reports are timely, every interleaving of the statements is exclusive |
| LeaseInterleaving.OneLiveGrantPerPair | shared/queue_arbiter.py:210-540 | the same from the empty table, in plain terms |
| LeaseInterleaving.BothReclaim | shared/queue_arbiter.py:302-350 | two workers that read one expired lease both end with a live grant of it, and attempts counts one of them |
| MessageQueue.Store.EnqueueMessage | shared/queue.py:37-82 | inserts once per idempotency key and returns the new id or nothing |
| MessageQueue.EnqueueRecords | shared/queue.py:37-82 | a new key becomes a pending row, untried, nobody's and eligible; a known one changes nothing |
| MessageQueue.ClosedRowIsFinal | shared/queue.py:127-175 | an acknowledged row is done and a dead-lettered one failed, and through every run in which nobody reports on it again it stays so and is never eligible |
| MessageQueue.FailedRowWaits | shared/queue.py:142-158 | a failed message is pending with its attempts, and eligible again exactly below three |
| MessageQueue.SelectOldest | shared/queue.py:87-122 | walking the rows by age until the limit finds the oldest eligible ones |
| MessageQueue.Store.DequeueBatch | shared/queue.py:87-122 | selecting and then claiming one by one claims exactly the oldest eligible rows up to the limit |
| MessageQueue.Store.ReleaseClaimedItems | shared/runtime_gateway.py:354-386 | exactly the pending and processing rows of that node are freed, with attempts capped at 2 |
| MessageQueue.ReleaseForgets | shared/runtime_gateway.py:354-386 | exactly the node's pending and processing rows are freed, and only an exhausted one loses an attempt |
| MessageQueue.Store.ArbitratedDequeue | shared/queue_arbiter.py:670-718 | claiming twice the limit and leasing from it computes `ArbitratedBatch` over both tables |
| MessageQueue.Store.TryCandidate | shared/queue_arbiter.py:690-718 | asks for the candidate's lease and, refused, puts its row back to pending |
| MessageQueue.Store.LeaseCandidates | shared/queue_arbiter.py:690-718 | the loop with its early break equals trying candidates in order until the limit |
| MessageQueue.ArbitratedDequeueIsSound | shared/queue_arbiter.py:670-718 | at most `limit` distinct rows, all among the oldest eligible, each claimed by and leased to the caller; refused candidates pending again; untried ones only when the limit is reached; other rows and other pairs' leases unchanged |
| MessageQueue.Oldest | shared/queue.py:87-122 | eligible rows only, in order of age, at most the limit |
| MessageQueue.OldestFirst | shared/queue.py:87-122 | a dequeue skips an eligible row only if it is full with older ones |
| MessageQueue.BoundedStep | shared/queue.py:37-175 | every queue operation keeps attempts in 0..3 and keys unique |
| MessageQueue.AttemptsStayBounded | shared/queue.py:87-175 | the same over every run |
| MessageQueue.ReleasedRowIsEligible | shared/runtime_gateway.py:354-386 | after any history, a row a release touches is eligible for the next dequeue |
| MessageQueue.ClaimThenOffline | shared/runtime_gateway.py:354-386 | what a node claims is in its hands and comes back eligible when the node goes offline |
| MessageQueue.AttemptsCountClaims | shared/queue.py:87-158 | without a release the attempts field counts the claims exactly |
| MessageQueue.ExhaustedUntilReleased | shared/queue.py:87-175 | a row at MAX_ATTEMPTS is eligible again only if a node-offline release touched it |
| MessageQueue.ExhaustedRowIsLeftPending | shared/queue.py:142-158 | no dequeue touches an exhausted pending row |
| MessageQueue.ExhaustedRowStarvesForever | shared/queue_arbiter.py:623-653 | through every run in which nobody acknowledges, dead-letters or releases it, such a row stays as it is and counts as starving exactly when no lease on it is in force |
| NodeGateway.Gateway.Touch | shared/runtime_gateway.py:222-262 | a heartbeat revives a known node and reports an unknown one |
| NodeGateway.Gateway.MarkStaleNodes | shared/runtime_gateway.py:292-351 | run alone, the mark and the loop of releases free exactly the rows of the nodes it returns |
| NodeGateway.SweepAlone | shared/runtime_gateway.py:292-386 | as steps, a sweep that nothing comes between does the same in whatever order it visits the nodes |
| NodeGateway.SweepReleasesExactlyTheStale | shared/runtime_gateway.py:317-386 | a mark takes every stale node offline and makes its release due; whatever comes between, after that release the node holds nothing, what it held is eligible, and no other row changed |
| NodeGateway.TakenIff | shared/runtime_gateway.py:354-386 | one statement takes a row from its claimer exactly when it is a due release of that claimer |
| NodeGateway.KeptUnlessPulled | shared/runtime_gateway.py:292-386 | over every run a row nobody reports on is lost exactly when a due release of its claimer is carried out |
| NodeGateway.LostIffClaimedBetween | shared/runtime_gateway.py:317-351 | a claimer not found stale since its claim loses the row exactly when the claim fell between an earlier mark of it and the release due to that mark |
| NodeGateway.ClaimIsExclusive | shared/runtime_gateway.py:292-386 | a row claimed while no release of its claimer is due stays the claimer's through every run, until it is reported on or the claimer is found stale |
| NodeGateway.BeatingNodeKeepsItsRows | shared/runtime_gateway.py:222-262 | a node whose heartbeats are never more than 90 s behind a mark keeps what it claims through every run |
| NodeGateway.SilentNodeIsFoundStale | shared/runtime_gateway.py:292-351 | a mark takes an online node offline, and makes its release due, exactly after more than 90 s of silence |
| NodeGateway.LateReleaseTakesAFreshClaim | shared/runtime_gateway.py:317-351 | a run in which a node that came back after its mark loses a row it has just claimed, while online and fresh |
| NodeGateway.OfflineNodeFreesIff | shared/runtime_gateway.py:265-351 | what a node offline for good was processing is freed exactly when a release was already due and is carried out |
| NodeGateway.CleanShutdownStrandsRows | shared/runtime_gateway.py:265-289 | a deregistration releases nothing: the rows stay claimed through every run in which the node does not return, unless a release was already due |
| NodeGateway.AbandonedSweepStrandsRows | shared/runtime_gateway.py:330-351 | a sweep that dies between its mark and a release strands that node's rows the same way |
| WriteLocks.Router.AcquireLock | shared/locks.py:54-100 | succeeds exactly when no unexpired row has the key, and then holds it until now plus the TTL |
| WriteLocks.Router.CleanupExpiredLocks | shared/locks.py:118-142 | deletes exactly the expired rows and counts them |
| WriteLocks.Router.RoutedWrite | shared/write_router.py:111-213 | ok exactly when the lock was free and the writer did not raise, contention exactly when it was held; the same store, locks and result as the five interleaved statements run alone |
| WriteLocks.SettleOutcome | shared/write_router.py:163-203 | a writer that finishes commits once, on its key, its update of what it read, and reports ok; one that does not changes nothing and reports not ok |
| WriteLocks.EntersFreeKey | shared/locks.py:54-100 | an idle worker on a free or expired key gets the row and reads the current value |
| WriteLocks.AloneOutcome | shared/write_router.py:143-213 | the five statements of a write with nothing between commit, report and leave no lock |
| WriteLocks.HeldKeyIsContention | shared/write_router.py:143-160 | on an unexpired row a write reports contention and changes nothing |
| WriteLocks.StepKeepsGuardIff | shared/locks.py:54-142 | from one owner inside per key, a statement of any worker keeps it so exactly when it deletes no row of a worker still inside: a newcomer to the key, or the cleanup, past that worker's TTL |
| WriteLocks.GuardedThroughoutIff | shared/locks.py:54-169 | over every run one owner is inside per key throughout exactly when no step evicts anyone |
| WriteLocks.EvictedKeyAdmitsTwo | shared/locks.py:54-100 | after an eviction by a newcomer, its INSERT succeeds and both are inside |
| WriteLocks.TimelyRunEvictsNobody | shared/locks.py:145-169 | holders that leave within their TTL are never evicted |
| WriteLocks.GuardedStep | shared/locks.py:54-169 | so each statement in time keeps one insider per key owning its row, and every pending read current |
| WriteLocks.SerialStep | shared/write_router.py:143-213 | each step keeps the store equal to the serial replay of the commits |
| WriteLocks.RoutedWritesAreSerial | shared/write_router.py:143-213 | in every interleaving without an eviction, one writer per key at a time and a store equal to running the committed writers in commit order |
| WriteLocks.AccountedStep | shared/write_router.py:143-213 | only a crash between commit and report separates a worker's commits from its ok results |
| WriteLocks.OkMeansCommitted | shared/write_router.py:143-213 | over every run, timely or not, commits are ok results plus the one still owed plus reports lost in crashes |
| WriteLocks.OneWriterPerKey | shared/locks.py:54-169 | the three results from the empty lock table |
| WriteLocks.ReleaseSparesOthersIff | shared/locks.py:103-115 | once two share a key, a release takes the other's row: it leaves every other insider its row exactly when none has the same key |
| WriteLocks.LateReleaseFreesAnothersLock | shared/locks.py:103-115 | a concrete run past the TTL that puts two workers inside one key twice over |
| OptimisticUpdate.Record.Execute | shared/consistency.py:85-154 | the loop that numbers SET placeholders yields a statement that sets exactly the given columns, guarded by the version |
| OptimisticUpdate.AsColumnsIs | shared/consistency.py:120-126 | every column given holds its value, and no other is set |
| OptimisticUpdate.BindIgnoresTail | shared/consistency.py:120-136 | parameters appended later do not disturb placeholders already bound |
| OptimisticUpdate.ChainedStep | shared/consistency.py:85-154 | each step keeps the log a chain of versions whose replay is the row |
| OptimisticUpdate.ChainedStepIff | shared/consistency.py:85-154 | a step keeps the log such a chain exactly when it does not succeed without a later stamp |
| OptimisticUpdate.ChainedThroughoutIff | shared/consistency.py:85-154 | over every interleaving versions increase along the log throughout exactly when every successful write advances |
| OptimisticUpdate.StampedRunAdvances | shared/consistency.py:128-133 | increasing stamps are enough for that |
| OptimisticUpdate.OneWriterPerVersion | shared/consistency.py:85-154 | then at most one of the writers that read a version succeeds, and the row is the updates in version order |
| OptimisticUpdate.SuccessMeansUnchanged | shared/consistency.py:120-154 | a write succeeds exactly when the row still has the version its writer read |
| OptimisticUpdate.ReadThenWriteSucceeds | shared/consistency.py:85-212 | a read and a write with nothing between succeed, with the columns and the stamp in the row |
| OptimisticUpdate.BothSucceedIff | shared/consistency.py:85-154 | two readers of one version both succeed exactly when the first leaves that version in place |
| OptimisticUpdate.DefaultColumnExcludes | shared/consistency.py:117-133 | two readers of one version both succeed exactly when the version column is neither set to a new value by the caller nor the default updated_at |
| OptimisticUpdate.UnstampedColumnLosesUpdates | shared/consistency.py:85-154 | a concrete lost update on a version column that is not stamped |
| Ledger.Desk.AdjustLedger | modules/admin_transactions/__init__.py:291-306 | adds the signed amount to the column of its category and nothing else |
| Ledger.Desk.AddTransaction | modules/admin_transactions/__init__.py:311-385 | appends a dated row and posts it; a non-positive amount changes nothing |
| Ledger.Desk.EditTransaction | modules/admin_transactions/__init__.py:388-496 | rewrites the row, and reposts only if amount or period changed; succeeds exactly when accepted and no undated posting raises |
| Ledger.Desk.SoftDelete | modules/admin_transactions/__init__.py:499-550 | marks the row and reverses its posting, once; succeeds exactly when accepted and nothing undated is to be reversed |
| Ledger.AddRecords | modules/admin_transactions/__init__.py:311-385 | an accepted add appends one live row with exactly the values given, under the month of its date |
| Ledger.EditRecords | modules/admin_transactions/__init__.py:428-469 | an accepted edit leaves the values given, the old ones where none is given, and everything else alone; any other does nothing |
| Ledger.DeleteRecords | modules/admin_transactions/__init__.py:499-550 | a delete marks a live row and no other |
| Ledger.AddMoves | modules/admin_transactions/__init__.py:311-385 | an add moves its amount into its employee's month and nothing else |
| Ledger.EditMoves | modules/admin_transactions/__init__.py:487-492 | an edit takes the old amount out of the old month and puts the new one into the new |
| Ledger.DeleteMoves | modules/admin_transactions/__init__.py:536-546 | a delete takes the amount out again |
| Ledger.AddKeepsAgreement | modules/admin_transactions/__init__.py:311-385 | an add keeps ledger and live transactions equal, in total and in each column |
| Ledger.DeleteKeepsAgreement | modules/admin_transactions/__init__.py:499-550 | a soft-delete keeps them equal, in total and in each column |
| Ledger.EditDrift | modules/admin_transactions/__init__.py:487-492 | the exact difference an accepted edit makes between ledger and transactions, per account and column |
| Ledger.EditKeepsAgreementIff | modules/admin_transactions/__init__.py:388-496 | an accepted edit keeps the totals equal exactly when it does not date an undated row |
| Ledger.EditKeepsColumnsIff | modules/admin_transactions/__init__.py:487-492 | it keeps every column equal exactly when, besides, it does not merely switch a payment's column |
| Ledger.RequestKeepsAgreementIff | modules/admin_transactions/__init__.py:311-550 | on any books in agreement, the only request that breaks the totals is an accepted edit that dates an undated row |
| Ledger.RequestKeepsColumnsIff | modules/admin_transactions/__init__.py:311-550 | column by column, only that and a column-switching edit do |
| Ledger.OverlappingDeletesIff | modules/admin_transactions/__init__.py:499-550 | two deletes that both read the row first break the totals exactly when there is a booked amount to reverse |
| Ledger.ColumnsMakeTheTotal | modules/fazle_payroll_engine/accounting.py:190-228 | agreement in both columns implies agreement of the total |
| Ledger.CategoryEditStaysInItsColumn | modules/admin_transactions/__init__.py:487-492 | a concrete category-only edit that leaves the amount in the old column |
| Matching.StrongMeansPhone | tools/repair_fpe_transactions.py:321-432 | a match the tool may act on is tied to the payout phone; a fuzzy name never is |
| Matching.FirstPhoneHitDecides | tools/repair_fpe_transactions.py:335-405 | exactly when a phone gives a strong match, and that an unlinked WBOM hit ends the search |
| Matching.PriorityDecides | tools/repair_fpe_transactions.py:336-374 | primary phone before id phone before alias |
| Matching.WbomPriority | tools/repair_fpe_transactions.py:377-405 | then bKash before Nagad before mobile, followed to its payroll link |
| Matching.NameIsSuggested | tools/repair_fpe_transactions.py:407-432 | without any phone hit the most similar name is suggested and no more |
| Matching.WbomHit | tools/repair_fpe_transactions.py:377-405 | a WBOM answer names the column it came from and follows that row's link |
| Repairs.RepairDrift | tools/repair_fpe_transactions.py:501-628 | the exact difference a repair makes between ledger and transactions, per account and column |
| Repairs.RepairRecords | tools/repair_fpe_transactions.py:501-567 | a fresh repair appends the payment's mirror image, naming it, and the same payment for the new employee as salary, field by field |
| Repairs.RepairKeepsAgreementIff | tools/repair_fpe_transactions.py:501-628 | a repair to another employee keeps the totals equal exactly when its references are fresh |
| Repairs.RepairKeepsColumnsIff | tools/repair_fpe_transactions.py:501-628 | it keeps the columns equal exactly when, besides, the payment was not an advance |
| Repairs.UndatedRepairKeepsView | tools/repair_fpe_transactions.py:590-628 | a repair of an undated payment moves nothing and keeps every view in agreement |
| Repairs.StepKeepsAgreementIff | tools/repair_fpe_transactions.py:501-628 | from any books in agreement, an add, edit, delete or repair keeps the totals exactly when it is not an edit dating an undated row nor a dated repair with a used reference |
| Repairs.StepKeepsColumnsIff | tools/repair_fpe_transactions.py:501-628 | the same column by column, with the two column conditions |
| Repairs.LedgerAlwaysAgreesIff | tools/repair_fpe_transactions.py:501-628 | over every run of add, edit, soft-delete and repair, dated or not, totals agree throughout exactly when every step is harmless |
| Repairs.ColumnsAlwaysAgreeIff | tools/repair_fpe_transactions.py:501-628 | the run theorem column by column |
| Repairs.LedgerAlwaysAgrees | tools/repair_fpe_transactions.py:501-628 | in particular the books agree at the end of every harmless run |
| Repairs.BatchConservesMoney | tools/repair_fpe_transactions.py:775-819 | a fresh batch only appends rows, keeps the total of all amounts, and shifts exactly the repaired payments between accounts |
| Repairs.FreshAtFirstIsEnough | tools/repair_fpe_transactions.py:440-541 | references fresh before the batch stay fresh through it when its fixes have different references and correction keys |
| Repairs.DistinctBatchConservesMoney | tools/repair_fpe_transactions.py:775-819 | so a batch on distinct transactions and keys conserves money if its references are fresh when it starts |
| Repairs.ApplyListRepairsAll | tools/repair_fpe_transactions.py:775-819 | the tool's loop does to the books what repairing its acting items one after another does |
| Repairs.PaymentNetsOutIffLive | tools/repair_fpe_transactions.py:501-567 | payment plus reversal is zero for the old employee exactly when the payment was live; the new row carries the amount |
| Repairs.ApplyListCounts | tools/repair_fpe_transactions.py:775-819 | a fetched list adds one applied repair per acting item, whatever earlier items did |
| Repairs.GuardsAllowOneRepairIff | tools/review_repairs.py:68-107 | the scan and review guards leave at most one applied repair per transaction exactly when no fetched list repeats one |
| Repairs.AppliedIsNotFetched | tools/review_repairs.py:223-288 | once an item is acted on or its review confirmed, no guard lets the transaction through again |
| Repairs.AnyReversalStopsTheScan | tools/repair_fpe_transactions.py:173-210 | a payment that some row reverses is not scanned, and neither is that row |
| Repairs.ReversedIsNotScanned | tools/repair_fpe_transactions.py:173-210 | neither the reversal nor what it reverses is scanned |
| Repairs.NewPaymentIsScanned | tools/repair_fpe_transactions.py:173-210 | a payment just added is scanned, and an unknown transaction is never touched |
| Repairs.OneRepairPerTransaction | tools/repair_fpe_transactions.py:173-210 | over every sequence of guarded scans and review sessions, no transaction ever has two applied repairs exactly when no fetched list acts on one twice |
| Repairs.RepeatedRepairBreaksLedger | tools/repair_fpe_transactions.py:501-628 | the first fresh repair keeps the ledger right and the same repair again makes it wrong |
| Repairs.TwoReviewsRepairTwice | tools/review_repairs.py:68-107 | from any agreeing shop, two scans with a weak match let the console fetch two reviews of one payment; confirming both applies two repairs and leaves the ledger wrong |
| Repairs.WeakMatchOnlyFilesAReview | tools/repair_fpe_transactions.py:474-499 | without a phone, or on a fuzzy name, neither transactions nor ledger change and no repair is applied |
| Repairs.RepairTool.ApplyRepair | tools/repair_fpe_transactions.py:451-638 | the step-by-step repair, with the review row resolved, equals `Apply` |
| Repairs.RepairTool.ApplyAll | tools/review_repairs.py:322-423 | a session applies its fetched items in order |
| CircuitBreaker.Circuit.AllowRequest | app/bridge.py:27-81 | the early returns compute `Allow`, whose answer `AllowedIff` gives |
| CircuitBreaker.Circuit.RecordSuccess | app/bridge.py:27-81 | a success resets the breaker entirely |
| CircuitBreaker.Circuit.RecordFailure | app/bridge.py:27-81 | the trimming loop keeps exactly the failures inside the window, and opens at the threshold |
| CircuitBreaker.TrimmedListIsEnough | app/bridge.py:27-81 | over every run the trimmed list is the full closed-state history filtered at its last failure, and the breaker opens as one over the full history does |
| CircuitBreaker.OpensAtThreshold | app/bridge.py:27-81 | after any run, a failure opens a closed breaker exactly when the full history then has the threshold within the window |
| CircuitBreaker.OpensAtCount | app/bridge.py:27-81 | the same by counting the failures of the full history less than the window ago |
| CircuitBreaker.AllowedIff | app/bridge.py:45-58 | after every run a request is let through exactly when the full-history breaker is closed, or was opened at least open_seconds ago with no probe pending |
| CircuitBreaker.ProbesAreSpaced | app/bridge.py:27-81 | two probes with no success between are at least open_seconds apart |
| CircuitBreaker.OneProbeBetweenReports | app/bridge.py:27-81 | between reports at most one probe is granted, however long it takes |
| CircuitBreaker.FailedProbeRearms | app/bridge.py:27-81 | a failure while opened is no new opening and re-arms the full open time |
| SlidingWindow.TrimTwice | app/bridge.py:27-81 | a list trimmed earlier and again now is the full list trimmed now |
| SlidingWindow.RecentCounts | app/bridge.py:27-81 | the window keeps as many as lie less than its length back |
| CrossBridgeDedup.Registry.DedupSweep | shared/bridge_orchestrator.py:174-189 | the deletion loop removes exactly the expired keys |
| CrossBridgeDedup.SweepDropsExpired | shared/bridge_orchestrator.py:174-189 | a sweep drops exactly the keys whose time is up |
| CrossBridgeDedup.Registry.RegisterMessage | shared/bridge_orchestrator.py:191-239 | sweep when large, answer, and remember an accepted key for the TTL |
| CrossBridgeDedup.RegisterKeepsFaith | shared/bridge_orchestrator.py:174-239 | one registration answers as the full history does and keeps the cache faithful to it |
| CrossBridgeDedup.CacheEqualsHistory | shared/bridge_orchestrator.py:174-239 | over every run, with sweeps anywhere, a message is a duplicate exactly when its key was accepted less than 120 s ago |
| CrossBridgeDedup.RepeatIsSkippedIff | shared/bridge_orchestrator.py:164-172 | a repeat within the TTL is skipped exactly when sender, first 200 characters and five-minute bucket agree |
| CrossBridgeDedup.BucketEdgeSplitsAMessage | shared/bridge_orchestrator.py:164-172 | one second across a bucket edge defeats the check |
| CommandDedup.Commands.DedupSeen | modules/admin_commands/__init__.py:37-57 | the eviction loop, lookup and size cap compute `Check` |
| CommandDedup.CheckAgainstHistory | modules/admin_commands/__init__.py:37-57 | one call answers as the full history does, and keeps the cache its time-ordered tail |
| CommandDedup.CacheEqualsHistory | modules/admin_commands/__init__.py:37-57 | over every run a command is seen exactly when accepted within 30 s and among the last 256 accepted |
| RetryQueue.Orchestrator.SendWithFailover | shared/bridge_orchestrator.py:315-366 | the loop over bridges delivers by the first that takes the message, and queues it only if none does |
| RetryQueue.Orchestrator.RetryPass | shared/bridge_orchestrator.py:414-525 | one loop pass or drain, removing items while walking a snapshot, settles each queued item exactly once |
| RetryQueue.PreferredBridgeFirst | shared/bridge_orchestrator.py:315-366 | the preferred bridge is used if usable, else the other, else none |
| RetryQueue.SubmitOutcome | shared/bridge_orchestrator.py:315-412 | delivered at once exactly when some bridge is usable, otherwise queued for the preferred one, due in 5 s |
| RetryQueue.LoopPassOutcome | shared/bridge_orchestrator.py:484-525 | a loop pass delivers a message exactly when it is due, below five attempts and its bridge takes it; a failed one waits its backoff, an exhausted one is dropped, one not due is left |
| RetryQueue.DelayIs | shared/bridge_orchestrator.py:484-525 | the waits are 5, 10, 30, 60 and 120 s, and 120 s ever after |
| RetryQueue.DrainOutcome | shared/bridge_orchestrator.py:414-443 | a drain delivers exactly its bridge's messages that the bridge takes; a failed one has an attempt more or is dropped at the fifth |
| RetryQueue.EveryDeliveryWasTaken | shared/bridge_orchestrator.py:315-525 | over every run a delivered message was taken by a bridge at some step |
| RetryQueue.SettleConserves | shared/bridge_orchestrator.py:414-525 | each item ends in exactly one place, within the attempt bounds |
| RetryQueue.ConservedStep | shared/bridge_orchestrator.py:315-525 | every send, pass and drain keeps each message in exactly one place |
| RetryQueue.EveryMessageInOnePlace | shared/bridge_orchestrator.py:315-525 | over every run: delivered once, queued, or dropped after 5 or 6 failed retries; queued attempts at most 5 |
| RetryQueue.DeliveredQueuedOrDropped | shared/bridge_orchestrator.py:315-525 | the same from a fresh orchestrator, message by message |
| RetryQueue.KeptAtLeast230Seconds | shared/bridge_orchestrator.py:484-525 | without drains no message is dropped sooner than 230 s after queueing |
| RetryQueue.DrainsDropAtOnce | shared/bridge_orchestrator.py:414-443 | five failed drains drop a message in the second it was queued |
| BridgeHealth.Tracker.RecordProbeResult | shared/bridge_orchestrator.py:252-311 | the field updates compute the health state machine |
| BridgeHealth.OutageOnlyAfterSilence | shared/bridge_orchestrator.py:252-311 | after every history of probes, the failure count is the current run of raised ones, and outage holds exactly when the last raised more than 120 s after the last answer |
| BridgeHealth.ReconnectIff | shared/bridge_orchestrator.py:252-311 | a reconnect is counted exactly when an outage ends in an answer in time |
| BridgeHealth.StatusNeverRaises | app/bridge.py:176-181 | the status call always returns, and allows sends exactly when the bridge said so |
| SelfHeal.Monitor.RunAllChecks | shared/self_heal.py:164-189 | the pressure is stored and the two hysteresis tests applied in order; nothing when disabled |
| SelfHeal.SignalsAreUnits | shared/self_heal.py:193-325 | each signal is in [0,1], and without an outage the bridges give at most 0.30 |
| SelfHeal.StallNeeds88 | shared/self_heal.py:193-325 | the stall signal reaches a quarter exactly at 88 pending |
| SelfHeal.SignalEdges | shared/self_heal.py:193-325 | where each signal starts and where it is full |
| SelfHeal.PressureIsWeighted | shared/self_heal.py:458-464 | with two bridges nothing is clipped and the pressure is the weighted sum |
| SelfHeal.PanicNeedsEverything | shared/self_heal.py:390-464 | pressure is in [0,1] and reaches 0.85 only with an outage, a dead worker and 88 pending |
| SelfHeal.PanicIsUnresolvedAlarm | shared/self_heal.py:390-417 | over every sequence of checks, panic exactly when some check reached 0.85 with none at or below 0.60 since; throttled equals panic |
| SelfHeal.PanicIsUnreachable | app/bridge.py:176-181 | over every run of probes and checks no bridge is in outage, pressure is at most 0.79 and panic is never entered |
| SelfHeal.ProbeConcernsOne | shared/bridge_orchestrator.py:447-464 | a probe, whatever the bridge does, is recorded as an answer for its own bridge alone |
| SelfHeal.BridgesWeigh | shared/self_heal.py:193-325 | the bridges' own part of the pressure, state by state |
| SelfHeal.PanicWithAnOutage | shared/self_heal.py:458-464 | with an outage 88 pending suffice and 87 do not |
| Poller.Loop.Fetch | modules/bridge_poller/__init__.py:248-396 | the row loop keeps exactly the rows with text or media, in order, and finds the latest of their seconds |
| Poller.Loop.HandleMessages | modules/bridge_poller/__init__.py:639-802 | each message passes the dedup check once, up to where handling raises |
| Poller.Loop.PollOnce | modules/bridge_poller/__init__.py:625-802 | one iteration: fetch, mark and handle each message, and move the cursor only if none raised; a raise after the mark leaves the message marked |
| Poller.HandleAllEffect | modules/bridge_poller/__init__.py:194-210 | handling adds exactly the batch's ids to the processed set and routes none twice |
| Poller.PollCovers | modules/bridge_poller/__init__.py:1074-1077 | a complete poll leaves everything up to the cursor processed exactly when it splits no unprocessed row off its last second |
| Poller.CoveredStep | modules/bridge_poller/__init__.py:639-802 | every possible arrival, poll or cut-short poll routes no id twice and forgets none, and keeps coverage exactly when it is orderly: no late row that still matters, no split second |
| Poller.NothingTwice | modules/bridge_poller/__init__.py:194-210 | over every possible run, orderly or not, each id is routed at most once |
| Poller.NothingLostIff | modules/bridge_poller/__init__.py:118-143 | over every possible run everything up to the cursor is processed throughout exactly when every step is orderly |
| Poller.NothingLostNothingTwice | modules/bridge_poller/__init__.py:118-143 | over every orderly run each row with text or media up to the cursor is processed, and each id is routed at most once |
| Poller.RaisedMessageIsNotRetried | modules/bridge_poller/__init__.py:802-812 | a message whose handling raises after it was marked stays processed through every later possible run, and that attempt is its only one |
| Poller.ShortBatchIsWhole | modules/bridge_poller/__init__.py:248-396 | a batch below 50 rows never splits a second |
| Poller.QuietPollMovesCursor | modules/bridge_poller/__init__.py:1074-1077 | an iteration in which nothing raises moves the cursor to the latest second of its messages, never back |
| Poller.EveryWorldCanBePolled | modules/bridge_poller/__init__.py:248-396 | whatever the store and the cursor, the query has an answer, so no run is stuck |
| Poller.PassedRowIsNeverFetched | modules/bridge_poller/__init__.py:248-396 | a row the cursor has passed is in no later batch |
| Poller.MissedForGood | modules/bridge_poller/__init__.py:248-396 | a row passed unprocessed is never routed in any later run that brings no other row with its id |
| Poller.SplitSecondLosesARow | modules/bridge_poller/__init__.py:248-396 | of any 51 messages of one second a possible poll takes 50 and passes the last |
| Poller.BlankBatchStalls | modules/bridge_poller/__init__.py:248-396 | a poll leaves the cursor exactly when no row of its batch carries a message |
| Poller.TextIsNeverEmpty | modules/bridge_poller/__init__.py:248-396 | every fetched message has non-empty text |
| Poller.TextTaken | modules/bridge_poller/__init__.py:350-366 | content before recognised text, stripped, and a media placeholder only if that is blank |
| Prelude.StripIs | modules/bridge_poller/__init__.py:355-356 | stripping cuts off blanks at the ends and nothing else |
| ReplyCooldown.Poller.RecordReply | modules/bridge_poller/__init__.py:542-581 | records the reply for that phone only |
| ReplyCooldown.Poller.CheckLoopDetect | modules/bridge_poller/__init__.py:542-581 | trims the window, pauses at three replies, and touches no other phone |
| ReplyCooldown.OrdinaryRepliesAreSpaced | modules/bridge_poller/__init__.py:848-850 | over every run an ordinary reply is at least 60 s after any earlier recorded reply |
| ReplyCooldown.RepliedIff | modules/bridge_poller/__init__.py:542-581 | told from the replies alone: replied to exactly 60 s after the last reply, unpaused, with fewer than three in 120 s; three begin a pause of 600 s |
| ReplyCooldown.LoopCheckTrims | modules/bridge_poller/__init__.py:542-581 | a check that finds no pause leaves in the window exactly the replies of the last 120 s |
| ReplyCooldown.RecordedIff | modules/bridge_poller/__init__.py:768-779 | acknowledgements are recorded regardless, messages stopped before their send are not |
| ReplyCooldown.FreshPauseNeedsTwoAcknowledgements | modules/bridge_poller/__init__.py:974-980 | a fresh pause needs two document acknowledgements in the 120 s window; with ordinary replies only, the window holds at most one |
| ReplyCooldown.NoAcknowledgementNoPause | modules/bridge_poller/__init__.py:768-779 | without acknowledgements no run ever pauses a phone |
| ReplyCooldown.AcknowledgementsCanPause | modules/bridge_poller/__init__.py:459-467 | three acknowledgements in a burst do |
| DraftQuality.GatePassesClean | modules/draft_quality/__init__.py:55-84 | with the gate on exactly the clean texts pass |
| DraftQuality.FirstBadFinds | modules/draft_quality/__init__.py:55-84 | no pattern is reported exactly when none occurs |
| DraftQuality.GateReasons | modules/draft_quality/__init__.py:55-84 | which reason is given, and none with the gate off |
| DraftQuality.ContainsIff | modules/draft_quality/__init__.py:74-78 | the pattern test is containment as a substring |
| Drafts.Office.ApproveDraft | modules/admin_commands/__init__.py:486-560 | only open drafts are approved, sent or left approved by the outcome |
| Drafts.Office.RejectDraft | modules/admin_commands/__init__.py:563-581 | anything but a sent or rejected draft is rejected |
| Drafts.Office.EditDraft | modules/admin_commands/__init__.py:584-612 | any draft is rewritten and reopened |
| Drafts.Office.ApproveMany | modules/admin_commands/__init__.py:451-465 | approving a list is approving its members in turn |
| Drafts.ParseIdList | modules/admin_commands/__init__.py:433-448 | exactly the numbers given, each once, in order of first appearance |
| Drafts.DeliveriesAreBounded | modules/admin_commands/__init__.py:486-612 | over every run delivery attempts are at most one plus the edits, and none for a gated draft nobody edited |
| Drafts.SaveRecords | modules/bridge_poller/__init__.py:1185-1223 | what the gate passes is stored pending, the rest rejected, with its text |
| Drafts.ApproveOutcome | modules/admin_commands/__init__.py:486-560 | APPROVE delivers the text once exactly when the draft is open and nothing aborts it |
| Drafts.DeliversCurrentText | modules/admin_commands/__init__.py:486-612 | until the next EDIT every delivery, over every run, carries the text saved or last edited in |
| Drafts.EditedTextIsDelivered | modules/admin_commands/__init__.py:584-612 | after an EDIT that is its text |
| Drafts.RejectedIsNotDelivered | modules/admin_commands/__init__.py:563-581 | a rejected draft is not delivered, through every run, until it is edited |
| Drafts.RejectSpares | modules/admin_commands/__init__.py:563-581 | what is sent or rejected REJECT leaves as it is |
| Drafts.UneditedDeliveriesAreClean | modules/bridge_poller/__init__.py:1185-1223 | with the gate on, whatever is delivered unedited is clean |
| Drafts.EditReopensASentDraft | modules/admin_commands/__init__.py:584-612 | the bound is tight |
| Drafts.OverlappingApprovesIff | modules/admin_commands/__init__.py:486-560 | two APPROVEs that both read an unedited draft first exceed the bound exactly when neither aborts |
| Verification.Current | modules/employee_verification/__init__.py:62-87 | the newest open session of the phone, and none newer is open |
| Verification.Desk.CreateSession | modules/employee_verification/__init__.py:90-111 | row by row, closes the phone's open sessions, unless that update failed, and adds one |
| Verification.StartRecords | modules/employee_verification/__init__.py:90-176 | a start adds one session as asked and, with the cleanup, closes exactly its phone's open ones |
| Verification.AdminRecords | modules/admin_commands/__init__.py:486-612 | which session rows EDIT, APPROVE and REJECT change, and to what |
| Verification.SayConcernsOne | modules/employee_verification/__init__.py:179-248 | a message concerns the newest open session of its phone and nothing else |
| Verification.Desk.StartAdvanceVerification | modules/employee_verification/__init__.py:136-148 | an advance starts at the selfie |
| Verification.Desk.StartSlipVerification | modules/employee_verification/__init__.py:151-176 | a slip request that is an image starts at the payment method, otherwise at the slip |
| Verification.Desk.AdvanceVerification | modules/employee_verification/__init__.py:179-248 | a message moves the newest open session one step, and drafts a payment at its end; a row an admin command has touched takes none |
| Verification.Desk.ApproveRow | modules/admin_commands/__init__.py:486-560 | APPROVE acts on a session row only after an EDIT |
| Verification.DraftsAreEarned | modules/employee_verification/__init__.py:179-357 | over every run of messages and admin commands each session yields at most one draft, after a payment method that follows two images, or one for a slip, in that session |
| Verification.HeardIsDrafted | modules/employee_verification/__init__.py:179-357 | whatever else it is sent, a waiting session with a known employee ends in exactly one draft when it hears what it waits for, and in none otherwise |
| Verification.StartedIsDraftedIff | modules/employee_verification/__init__.py:136-248 | an advance is drafted exactly after picture, picture, payment method in that order; a slip exactly after a picture, in the request or later, and a payment method |
| Verification.OneOpenStepIff | modules/employee_verification/__init__.py:62-111 | a step keeps at most one open session per phone exactly when it is neither a start with a failed cleanup nor an EDIT of a closed row, while the phone has one open |
| Verification.OneOpenSession | modules/employee_verification/__init__.py:62-111 | over every run of messages and admin commands that holds throughout exactly when no step opens a second |
| Verification.CleanRunsNeverOpenASecond | modules/employee_verification/__init__.py:90-111 | messages and starts whose cleanups succeed never open a second |
| Verification.EditReopensAClosedSession | modules/admin_commands/__init__.py:584-612 | EDIT of a closed session row leaves a phone two open sessions though every cleanup succeeded |
| Verification.CreateKeepsOneOpenIff | modules/employee_verification/__init__.py:90-111 | a start keeps at most one open session exactly when its cleanup succeeds or the phone had none open |

## Left out

- HTTP routes, webhooks, dashboards, text generation and classification: transport and text heuristics.
- Regex and Bangla parsing of commands, names, amounts and dates: the model takes parsed values.
- The SQL engine, asyncpg, SQLite and Redis; `shared/state_version.py`, whose two backends count separately.
- Logging, metrics counters, audit text, event payloads and last_error strings.
- The in-process locks of `shared/write_router.py`: the database lock alone is proved to give exclusion.
- Clock readings inside one `arbitrated_dequeue`: all its acquires use one time value. Candidates left claimed by its early break are part of what `ArbitratedDequeueIsSound` states.
- The fallbacks taken when the arbiter is switched off or has no database pool, and the swallowing of database errors by the lease calls: a statement that fails is no step.
- Overlap of the retry loop and a drain at an await: passes are taken one at a time.
- Overlapping add, edit and delete requests and overlapping admin commands: taken one at a time, except for two deletes of one row and two APPROVEs of one draft, whose effect is stated.
- Overlapping verification messages of one phone from the two pollers: a message is looked up and carried out in one step.
- `list.remove` by dataclass equality in the retry queue: messages are numbered, so equal items do not occur.
- Crashes between the separate statements of one add, edit or delete request; a repair whose database transaction fails is no step.
- `closing_balance`, `txn_count` and `total_earned` of the ledger rows, and the reading of the optimistic-lock header of an edit, which is the flag `outdated`.
- The attendance side effect of APPROVE, except that it may abort the send.
- Cascaded deletion of lease rows together with their queue rows.
- Python's `strip` on characters other than space, tab, newline and carriage return, and `lower`: a media type is taken as already in lower case.
- Several pollers sharing one phone, and the keyword and flood filters before a reply: they only remove replies.
- MessageQueue.Store.DequeueBatch: does not model rows that another transaction has locked and `FOR UPDATE SKIP LOCKED` passes over; each dequeue is one statement.
- NodeGateway.Gateway.Touch: models the row that a heartbeat updates, not the heartbeat loop's back-off counters.
