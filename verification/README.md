# BehaviorSim API: the job queue, its quota ledger and their limits, verified

This project models the part of BehaviorSim API that has to stay right under
concurrency and failure, and proves what it keeps. `dafny verify dfyconfig.toml`
checks everything.

**The queue and the ledger.** Clients reserve monthly quota and then create a
pending row; workers claim rows oldest first under a per-user cap, run the
engine outside any transaction and commit the outcome fenced by their name;
leases expire, stuck rows are claimed again, three attempts in all, old pending
rows time out, users delete rows and retention cleaners remove old ones.
`Database.dfy` holds the tables as mutable fields; `UsageService`, `SimulationJobService`,
`WorkerService`, `SimulationsApi`, `RetentionService` and `SyncPath` are the
services as methods over them, each proved equal to a function on the value of
the tables or to a statement of its effect. `ClaimTheorem` says what one call of
the claim loop does without mentioning the loop. `Protocol` interleaves
submitters, workers, crashes, deletions and cleaners step by step on those same
functions; a run is any sequence of steps. `Ledger`, `AuditLog`, `Invariants`,
`Evolution`, `Executions` and `SystemInvariant` build one invariant for all runs,
and `QuotaTheorems`, `RefundTheorems`, `FencingTheorems`, `LeaseTheorems`,
`WorkTheorems`, `ExactlyOnce`, `QueueProgress` and `RetentionTheorems` read the
results off it. `Scenarios` holds the runs that contradict expectations.
`SimulationWorker` is the polling worker.

**The claim call taken apart.** The protocol takes a claim call as one step. In
the code it is one transaction only until it fails a candidate. `SplitClaim` and
`SplitRuns` model it as a fetch under row locks and one look per candidate at the
row as it was fetched; `SplitOnce`, `SplitInvariant` and `SplitResults` prove what
holds then, and `SplitScenarios` holds runs that show what does not.

**On the columns.** Each operation is also stated on the columns of the rows alone,
with no definition it is made of: `ClaimContract` for the claim call,
`RateLimiterContract` for the rate limiter, and predicates such as `AnsweredByPlan`,
`GaveBack`, `Concludes`, `Booked`, `SyncDone`, `Cleaned`, `OwnRows` and `Follows`
beside the other operations. A wrong query, limit, stamp, code or order in an
operation contradicts one of these.

**Beside the queue.** `RateLimiter` and `RateLimiterTheorems`: the pruned and
swept sliding-window store against the full history of admissions.
`ConcurrencyLimiter` and `SyncPath`: the synchronous endpoint.
`SimulationHistory`: pagination. `FiniteSums`, `JobOrder`, `Domain`: the common
ground.

The tables carry a `History` that no service reads: the reservations ever
granted, the removed rows, and which reservations were released in a later month
than they were charged, with that month. It exists so that properties can speak
about the past.

## Where the code falls short of its documentation

* docs/operations.md:218 says every failed simulation gets its quota back.
  `refund_usage` refunds the current month, so a reservation charged in one month
  and released in the next leaves the first month charged forever.
  `MonthBoundaryBreaksConservation` is such a run. `CountersAreConserved` is the
  exact law: a user's counters equal the reservations they should stand for if
  and only if none of the user's reservations was released in a later month;
  `ConservedWithinOneMonth` shows that runs within a month always conserve, and
  `RunSimulationSync` states the same condition for one synchronous request. The
  bounds 0..limit hold regardless (`CountersStayWithinPlan`).
* The clamps to zero of `refund_usage` (app/services/usage.py:296-306) take effect
  only around month boundaries, but there they do. `RefundsNeverClamp` covers every
  refund of every step: its row covers it unless a reservation of an earlier month
  is being released or was released into the same month before it, in the same
  claim call included. `MonthIsExactUnlessLanded` is the same month by month: the
  counters of a month are exact unless a reservation of an earlier month was
  released into it. `BacklogRefundIsClamped` is a run in which one claim call
  refunds an overdue job of last month and then finds nothing left for the one of
  this month. `ClampsAreIdleIffMonthNeverEnds`: over all runs the clamps do nothing
  if and only if the month of the start never ends.
* README.md:593 promises exactly-once processing. `JobExecutedTwice` is a run in
  which two workers execute one job at the same time. If every claim call is one
  step, a job is executed at most once if and only if no claim took it while it was
  running under an expired lease (`AtMostOnceIffNeverRecovered`), and exactly once
  if its owner's outcome or heartbeat always lands within the lease
  (`KeptLeaseMeansExactlyOnce`); the committed outcome is final in every such run
  (`TerminalRowsAreFinal`).
* Claim calls are not always one step. The commit that fails an overdue or
  exhausted candidate (app/services/worker.py:151-165, 212-226, through
  app/services/usage.py:311) gives up the locks on the other fetched rows, and
  `expire_on_commit=False` (app/db/session.py:45) leaves them as they were read.
  A look that acts does what it would do with the row read again if and only if
  the row has not changed since the fetch (`FetchedRowIsAsGoodAsCurrentIffUnchanged`).
  Until a call has failed a candidate its rows cannot change
  (`CallIsAtomicUntilItFailsOne`), so a call with no doomed candidate before its
  winner takes it as it is; after that they can. `AttemptStartedTwice` is a run in which two
  workers run the same attempt of a job whose lease never expired,
  `CompletedJobRevived` one in which a completed job is running again with its
  result in the row, and two calls that hold copies of one overdue row refund it
  twice (`StaleFailureRefundsAgain`). The law for the calls as they are: a job is
  executed at most once if and only if no call took it after fetching it running
  under an expired lease and none took it after fetching it pending once it had
  been claimed (`AtMostOnceIffNeitherRecoveredNorOvertaken`), the latter only in a
  call that had failed a candidate before (`OvertakingFollowsAFailure`). As long as
  no look acts on a changed row, the invariant of the protocol holds all the same
  (`RunWithoutStaleLookKeepsInv`), and with it conservation, exclusive attempts and
  final outcomes (`SplitCountersAreConserved`, `SplitAttemptsAreExclusive`,
  `SplitTerminalRowsAreFinal`). All other results about runs are for claim calls
  that are one step.
* "Quota has been refunded" (app/services/simulation_job.py:195) is not always so.
  Nothing rolls the session back between a failed commit of the new row and the
  refund (app/api/v1/simulations.py:246-263), so if the commit leaves the session
  unusable the refund raises too and the reservation stays charged for good. Both
  outcomes are modelled (`Write`): `RunSimulationQueued` and `RunSimulationSync` say
  which exit charges, and `SubmitIsReserveThenCreate` that such a request is its
  reservation and nothing more.
* A claim call looks at ten rows only, so it can do nothing while there is work.
  `ProgressIffUnblockedNearTheFront` says exactly when it does something.
  `StarvedForGood`: a job behind ten abandoned rows of deactivated users is never
  claimed and never times out until one of those users is activated again;
  `QueueCanJam`: such a state is reachable, and then no call of any worker does
  anything for anybody.
* `prune_expired` takes its own window. It is harmless exactly when that window
  is at least the one of the checks (`PruneIsInvisibleIffWindowIsLonger`);
  `ShortPruneIsSeen` gives the calls.

## Assumptions

* One call of `claim_next_job`, one outcome commit (with its fallback), one
  deletion, and one refund with its log record are each a single step. In the
  code `refund_usage` and `record_usage_result` commit on their own, so this is
  an assumption, not a consequence. For the claim call the `Split` modules do
  without it: there a fetch and each look are steps of their own, a step that
  would write a row locked by a call waits, and an exception ends a call as a
  crash does. Reserving and creating are separate steps,
  and a claim call that raises part-way is a step of its own (`ClaimBreaks`):
  what it failed, refunded and logged before stays so.
* Worker names are distinct among running workers and a worker has one job at a
  time. A crash frees the name, and the same name may be used again.
* The clock does not run backwards, months follow one another
  (`MonotonePeriod`), and plans do not change. Every row has the default three
  attempts.
* An engine run is a function of the request and of the randomness it draws: the
  seed if there is one, anything otherwise.
* The invariants over runs are about queued jobs. Synchronous rows carry no
  heartbeat and look abandoned to the queue (`SyncRunLooksAbandoned`), so the
  synchronous path is modelled by itself.
* All requests use one window length, and the limit of a key is constant and at
  least one; a limit of zero is modelled and raises as the code does.

## Model

| member | source | states |
|---|---|---|
| QuotaTheorems.CountersAreConserved | app/services/usage.py:125-139 | in every reachable state of any interleaving, a user's request and interaction counters of every month equal the sum over in-flight, pending, running, completed and completed-then-removed reservations if and only if none was released in a later month |
| QuotaTheorems.MonthIsExactUnlessLanded | app/services/usage.py:288-311 | in every reachable state the counters of a month equal its reservations still charged and those released later, unless a reservation of an earlier month was released into it |
| QuotaTheorems.ConservedWithinOneMonth | app/services/usage.py:288-311 | every run that stays within one month conserves every user's counters |
| QuotaTheorems.MonthBoundaryBreaksConservation | app/services/usage.py:288-294 | a concrete run across a month boundary after which January still counts a released reservation |
| RefundTheorems.RefundsNeverClamp | app/services/usage.py:288-311 | every refund of every step, the later ones of one claim call included, is covered by the row it is taken from, unless it is of an earlier month or one of the user's reservations of an earlier month was released into this month before it; and a step other than a reservation changes the counters by exactly these refunds |
| RefundTheorems.ClampsAreIdleIffMonthNeverEnds | app/services/usage.py:296-306 | no refund of any run from a start is ever clamped if and only if the month of the start never ends |
| RefundTheorems.OneMonthRunIsCovered | app/services/usage.py:288-311 | in a run within one month every refund of every step is covered |
| RefundTheorems.CoveredIsExact | app/services/usage.py:296-306 | covered refunds are the same as refunds without clamps |
| Scenarios.BacklogRefundIsClamped | app/services/worker.py:196-226 | a run after which one claim call gives up overdue jobs of two months and the refund of the second, a job of this month with nothing released late before the call, is clamped |
| QuotaTheorems.CountersStayWithinPlan | app/services/usage.py:126-140 | whatever is interleaved and in whatever month refunds land, counters stay within 0 and the limits of the user's plan, 100 and 10000 without one |
| QuotaTheorems.LogAccountsForEverything | app/services/usage.py:181-233 | request events equal completed plus failed events plus open reservations; replaying the log rebuilds every request counter; in a month into which nothing was released late the counter is requests minus failures |
| Ledger.ConservedIffNothingLate | app/services/usage.py:275-311 | the ledger law behind conservation, both directions |
| Ledger.LedgerReleases | app/services/usage.py:289-310 | a refund keeps the ledger balanced, whether it lands in the month of the charge or later |
| Ledger.LedgerReserves | app/services/usage.py:125-139 | a reservation keeps the ledger balanced |
| AuditLog.AuditReleases | app/services/usage.py:206-233 | a refund with its failure record keeps one outcome per reservation and the replay of the log |
| UsageService.ReserveUsage | app/services/usage.py:79-203 | the reservation service as a function of the tables; by the fields of the user's own plan, or 1000, 100 and 10000 without one, the answer with its figures, the charge and the request event |
| UsageService.ReservationGoesByPlan | app/services/usage.py:96-203 | on the plan row and the usage row: granted exactly within the three limits of the user's own plan, the first exceeded one is reported with its figure, and what each answer does to the tables |
| UsageService.ReleaseGivesBack | app/services/usage.py:206-311 | on the usage row: one request and the interactions go back to this month's row, not below zero, with one failure event and nothing else |
| UsageService.RefusalIsJustified | app/services/usage.py:103-179 | granted exactly when all three limits allow; a refusal names a limit really exceeded with the current figures and charges nothing; a grant adds exactly (1, n) |
| UsageService.QuotaIsNeverWasted | app/services/usage.py:125-139 | from an unused month N reservations of n interactions, at any times of the month, admit exactly min(N, monthly requests, monthly interactions / n) |
| UsageService.RefundUsage | app/services/usage.py:275-311 | the refund service: current month's row only, clamped at zero |
| UsageService.GetOrCreateMonthlyUsage | app/services/usage.py:33-76 | returns the month's row, creating an empty one if there is none |
| UsageService.GetUserUsageSummary | app/services/usage.py:236-272 | used is this month's row; used and remaining add up to the limits of the user's plan within the quota, remaining is zero beyond it and never negative |
| WorkerService.CandidatesAreRows | app/services/worker.py:106-127 | the query returns exactly the eligible rows, strictly oldest first by (created_at, id), the first ten if there are more |
| WorkerService.GetUserConcurrencyCapacity | app/services/worker.py:47-81 | capacity exactly when the user is active and the other running jobs are below the limit |
| WorkerService.InspectCandidate | app/services/worker.py:131-255 | one candidate of the loop: failed with refund, passed over, or taken |
| WorkerService.ClaimNextJob | app/services/worker.py:87-257 | the claim loop over the mutable tables, with nobody else writing meanwhile, computes the claim function, also when the database raises after some candidates |
| ClaimTheorem.ClaimMeetsSpecification | app/services/worker.py:106-257 | the first claimable candidate wins; exactly the doomed rows before it are failed, refunded and logged once each in order; every other row is untouched |
| ClaimTheorem.EachRowAfterClaim | app/services/worker.py:135-255 | field by field what a taken row and a given-up row look like and why; rows that were not eligible do not change |
| ClaimTheorem.IdleClaimMeansNothingClaimable | app/services/worker.py:127-129 | a call that returns nothing and writes nothing had no doomed and no claimable candidate |
| ClaimTheorem.BrokenClaimMeetsSpecification | app/services/worker.py:129-226 | a call that raises part-way got to the exception or to the candidate it would have taken; it has failed, refunded and logged the doomed before that, once each in order, and nothing else |
| ClaimContract.QueryOnColumns | app/services/worker.py:106-127 | the rows fetched are exactly the pending ones and the running ones without a heartbeat within the lease, whatever their attempts, that have fewer than ten such rows before them by creation time and id |
| ClaimContract.ClaimRowByRow | app/services/worker.py:106-257 | every column of every row after a call: among the first ten and not behind the row taken, an abandoned row without attempts left fails with execution_timeout, an overdue pending one with queue_timeout, one whose active owner has a slot by plan is taken, and every other row stays as it was |
| ClaimContract.ClaimBooks | app/services/worker.py:136-226 | each row that turned failed is refunded to its owner's current month once and logged once, oldest first; nothing else is booked |
| ClaimContract.BrokenClaimRowByRow | app/services/worker.py:129-226 | a call that raises gives up exactly the rows the complete call would give up with fewer than that many candidates before them |
| ClaimContract.BrokenClaimBooks | app/services/worker.py:129-226 | and refunds and logs exactly those |
| QueueProgress.FetchedIffNearTheFront | app/services/worker.py:106-127 | a row is fetched exactly when it is eligible and fewer than ten eligible rows are ahead of it |
| QueueProgress.ProgressIffUnblockedNearTheFront | app/services/worker.py:106-257 | a claim call does something if and only if some eligible row that is neither at capacity nor inactive, or is doomed, has fewer than ten eligible rows ahead of it |
| QueueProgress.IdleClaimOnShortQueue | app/services/worker.py:106-127 | with fewer than ten eligible rows a call is idle exactly when no eligible row of the whole table could be taken or given up |
| QueueProgress.StarvedForGood | app/services/worker.py:125-172 | a job behind ten abandoned rows of deactivated users is untouched by any run that neither activates one of them again nor deletes the job |
| Scenarios.QueueCanJam | app/services/worker.py:125-172 | a reachable state in which a job of an active user with free capacity waits so, and every claim call of every worker does nothing |
| WorkerService.ProcessClaimedJob | app/services/worker.py:278-440 | the outcome transaction with its fence, failure path, success path and rollback-and-fail fallback |
| WorkerService.FinishConcludes | app/services/worker.py:319-440 | on the columns: who is turned away, the completed row with its event, the failed row with its code, refund and event, and that nothing else changes |
| WorkerService.UpdateJobHeartbeat | app/services/worker.py:261-275 | only the running row of this worker is refreshed |
| FencingTheorems.NameFencesAttempt | app/services/worker.py:320-328 | in every reachable state the row names a busy worker exactly when its attempt is the last one and has no outcome, so the name fences as well as an attempt token |
| FencingTheorems.StaleExecutionIsHarmless | app/services/worker.py:320-328 | an execution displaced by a later attempt or an outcome changes no row, counter or event |
| FencingTheorems.UndisplacedOwnerCompletes | app/services/worker.py:373-402 | a worker nobody displaced finds its row running and commits the engine's output, one completion event and no refund |
| FencingTheorems.UndisplacedOwnerFails | app/services/worker.py:341-371 | an engine error or a rolled-back commit of the owner fails the row with one refund and one failure event |
| FencingTheorems.AttemptsAreExclusive | app/worker.py:42-77 | with claim calls of one step no two workers ever execute the same attempt, and never do two own a row |
| FencingTheorems.TerminalRowsAreFinal | app/services/simulation_job.py:39-46 | through any run a terminal row never changes again, and is archived as it was when removed |
| FencingTheorems.StepsFollowLifecycle | app/services/simulation_job.py:41-57 | every step of every participant follows the transition table and never rewrites what was submitted |
| FencingTheorems.RowsAgreeWithStatus | app/db/models/simulation.py:99-148 | data, error, owner, attempts and all timestamps of every row, heartbeats included, agree with its status, in order |
| FencingTheorems.ResultsSurviveCrashes | app/services/worker.py:287-309 | a completed job holds engine output for the parameters it was submitted with; with a seed it is the reference output, whatever crashed or lagged |
| FencingTheorems.ConcurrencyIsCapped | app/services/worker.py:47-81 | no reachable state has more running jobs of a user than the user's plan allows, one without a plan or with a limit of zero |
| FencingTheorems.StuckJobHasCapacity | app/services/worker.py:170-172 | a stuck job of an active user always passes its own capacity check |
| FencingTheorems.LeaseProtectsOwner | app/services/worker.py:104-120 | until its lease has expired no claim touches a running row |
| FencingTheorems.ClaimsStartLease | app/services/worker.py:174-181 | a claim, a recovery and a heartbeat each start a full lease |
| LeaseTheorems.PromptWorkerDelivers | app/services/worker.py:174-182 | a worker that ends its execution within the lease it claimed always commits the engine's output, whatever all others do meanwhile |
| LeaseTheorems.RunKeepsLease | app/services/worker.py:104-120 | through any steps of others within the lease the row stays with its worker and attempt |
| WorkTheorems.AttemptsCountExecutions | app/services/worker.py:136-182 | attempt_count equals the executions ever started: zero while pending, at least one once running, never above the maximum |
| ExactlyOnce.AtMostOnceIffNeverRecovered | app/services/worker.py:170-194 | over all runs whose claim calls are one step each, a job is executed at most once if and only if no claim took it while it was running under an expired lease |
| ExactlyOnce.KeptLeaseMeansExactlyOnce | app/services/worker.py:261-275 | with claim calls of one step: if the owner's outcome or a heartbeat always lands within the lease, a job is executed at most once, and exactly once as soon as it has an owner or a result |
| Scenarios.JobExecutedTwice | app/services/worker.py:111-194 | a run in which a second worker starts a job the first is still executing |
| SplitClaim.FetchedRowIsAsGoodAsCurrentIffUnchanged | app/services/worker.py:127-257 | for a row as others can have left it (gone, untouched, on a later attempt, or no candidate any more), a candidate failed or taken by its fetched copy comes out as by its current row if and only if the row has not changed since the fetch |
| SplitClaim.UndisturbedCallIsClaim | app/services/worker.py:106-257 | with nothing in between, the fetch and the looks are the claim function |
| SplitClaim.LookDecides | app/services/worker.py:135-255 | by the row as fetched and the room there is now: which candidate is given up, taken, passed over, or raises because it is gone |
| SplitClaim.LookOnColumns | app/services/worker.py:145-250 | what a look writes, stamped with the time of the fetch: the whole outcome on an unchanged row, the columns it sets on a changed one |
| SplitClaim.StaleFailureRefundsAgain | app/services/worker.py:196-226 | two calls that hold copies of one doomed row both fail it, with two refunds and two failure records |
| SplitRuns.CallIsAtomicUntilItFailsOne | app/services/worker.py:104-129 | in every run, until a call has failed a candidate, all its fetched rows are current and its next look is the one that reads the row again |
| SplitOnce.AtMostOnceIffNeitherRecoveredNorOvertaken | app/services/worker.py:127-257 | over all runs of calls in several transactions: at most one execution if and only if no call took the job after fetching it running under an expired lease, and none took it after fetching it pending once it had been claimed |
| SplitOnce.OvertakingFollowsAFailure | app/services/worker.py:151-226 | a call takes a job claimed since its fetch only after it has failed a candidate |
| SplitInvariant.RunWithoutStaleLookKeepsInv | app/services/worker.py:87-257 | a run in which no look acts on a row changed since its fetch keeps the invariant of the protocol, and its fetched rows have evolved soundly |
| SplitInvariant.StaleIsDifferent | app/services/worker.py:127-257 | in such a run a look that acts differs from one that reads the row again exactly when its row has changed |
| SplitResults.SplitCountersAreConserved | app/services/usage.py:125-139 | in such a run a user's counters equal the charged reservations if and only if none was released late |
| SplitResults.SplitAttemptsAreExclusive | app/worker.py:42-77 | in such a run no two workers execute the same attempt |
| SplitResults.SplitTerminalRowsAreFinal | app/services/simulation_job.py:39-46 | in such a run an outcome never changes again |
| SplitResults.SplitAtMostOnceIffNeverRecovered | app/services/worker.py:170-194 | in such a run a job is executed at most once if and only if it was never recovered |
| SplitScenarios.AttemptStartedTwice | app/services/worker.py:196-240 | a run in which a call, after failing an older candidate, takes a job that another worker claimed meanwhile: two executions of one attempt, no lease expired |
| SplitScenarios.CompletedJobRevived | app/services/worker.py:196-240 | the same after the other worker has completed the job: the completed row is running again |
| WorkTheorems.StepsUseUpWork | app/services/worker.py:135-255 | every claim, recovery and outcome lowers the measure by the rows it works on; only a new row raises it, by four |
| WorkTheorems.WorkIsBounded | app/services/worker.py:135-255 | over any run claims, recoveries and outcomes number at most what was open at the start plus four per created row |
| Invariants.ClaimKeeps | app/services/worker.py:87-257 | a claim call keeps identity, rows, books and cap |
| Invariants.FinishKeeps | app/services/worker.py:319-440 | every exit of the outcome transaction keeps identity, rows, books and cap |
| Invariants.DeleteKeeps | app/api/v1/simulations.py:592-659 | deletion keeps identity, rows, books and cap |
| SystemInvariant.StepKeepsInv | app/services/worker.py:87-440 | the invariant is inductive for every step |
| SystemInvariant.RunKeepsInv | app/services/worker.py:87-440 | the invariant holds through every run |
| SimulationJobService.TransitionJobStatus | app/services/simulation_job.py:60-128 | rejected exactly when the table forbids it, no-op when already there, otherwise the row with its timestamps |
| SimulationJobService.CreateSimulationJob | app/services/simulation_job.py:151-201 | a new pending row, or nothing when the commit fails |
| SimulationsApi.RunSimulationQueued | app/api/v1/simulations.py:205-300 | Mode A: reserve, then create or give back; accepted exactly when the row is in the table, then pending with this user and these parameters; not persisted exactly when granted and the insert raised, without a row and with the refund and its event; with the session lost by the insert the reservation stays charged without a row |
| SimulationsApi.SubmitBooks | app/api/v1/simulations.py:235-273 | the books of each answer: one charge by the user's plan with its event, and on failure one refund with its event |
| Protocol.SubmitIsReserveThenCreate | app/api/v1/simulations.py:235-273 | a submit request is two interleavable steps of the protocol, or only the first if its session is lost |
| SimulationsApi.DeleteSimulation | app/api/v1/simulations.py:592-659 | hidden from others and refused while running, both without effect; otherwise exactly this row goes, with one refund and one event if it was pending |
| SimulationWorker.SimulationWorker.RunOnce | app/worker.py:42-85 | one round is a claim and later the end of the execution; an exception in the claim keeps what the claim had committed, one later leaves the row running |
| RetentionTheorems.CleanupIsSafe | app/services/retention.py:299-325 | deleting by id without looking at the status again removes only expired rows and touches no counter, event or other row, whatever ran since the selection |
| RetentionTheorems.ExpiredStaysExpired | app/services/retention.py:300-305 | an expired row stays expired and unchanged through any run until it is removed |
| RetentionTheorems.CleanersCountEachRowOnce | app/services/retention.py:213-226 | the counts of any number of overlapping cleaners add up to the rows they removed |
| RetentionTheorems.FailedBatchKeepsCount | app/services/retention.py:257-270 | a failing batch removes nothing, and through any later run what was deleted before it stays counted |
| RetentionService.CleanupExpiredSimulations | app/services/retention.py:65-270 | alone, a run deletes exactly the completed and failed rows created more than the given days ago, or before the time given instead, the oldest first, in full batches but for the last; failing at batch k it has deleted and counted the oldest k batches; a failing count, dry or live, reports failure and deletes nothing |
| RetentionService.PerformBatchDelete | app/services/retention.py:292-328 | one batch removes exactly the oldest expired rows up to the batch size, or nothing when the database raises |
| RetentionService.BatchOnColumns | app/services/retention.py:299-321 | on the columns: a batch is the oldest completed and failed rows before the cutoff, as many as there are up to the batch size |
| RetentionTheorems.SelectThenDelete | app/services/retention.py:292-328 | with nothing in between, the two steps of a cleaner remove and count such a batch, and a run ends when none is left |
| RetentionService.NextBatch | app/services/retention.py:299-321 | after the oldest n are gone the next batch is the next stretch of the same order |
| RetentionService.CleanupIsIdempotent | app/services/retention.py:109-110 | a second run with the same cutoff finds nothing |
| RetentionService.CountEligibleSimulations | app/services/retention.py:70-84 | counts the completed and failed rows older than the cutoff |
| RateLimiterTheorems.DecisionsRefineFullHistory | app/core/rate_limit.py:48-76 | every decision is "fewer than limit admissions of this key in (now - W, now]" of the full history, a rejection with the wait that its oldest admission implies |
| RateLimiterContract.DecisionByCounting | app/core/rate_limit.py:48-76 | by counting the full history: admitted exactly if fewer than limit admissions are in (now - W, now], otherwise the wait until the oldest of them leaves |
| RateLimiterContract.CheckOnFields | app/core/rate_limit.py:48-76 | one check of a store in any state: the sweep at the hundredth, the verdict, the wait, the list left for the key and every other list |
| RateLimiterContract.PruneOnFields | app/core/rate_limit.py:78-89 | pruning drops exactly the empty lists and those whose last stamp is out of its window |
| RateLimiterTheorems.NoWindowExceedsLimit | app/core/rate_limit.py:64-76 | no interval (t, t + W], for any t, ever contains more than limit admissions |
| RateLimiterTheorems.RetryAfterIsSufficientAndTight | app/core/rate_limit.py:68-72 | the wait is between 1 and W + 1, suffices if nothing else is admitted, and overshoots by at most a second |
| RateLimiterTheorems.StoredListsAreShort | app/core/rate_limit.py:64-75 | stored lists stay sorted and at most limit long |
| RateLimiterTheorems.StoreHoldsLittleBeyondTheLive | app/core/rate_limit.py:54-62 | at most a hundred keys are stored beyond those that, by the full history, had a live admission at the last hundredth check |
| RateLimiterTheorems.SweepKeepsTheLive | app/core/rate_limit.py:54-62 | a sweep keeps exactly the keys with an admission in the window of the full history |
| RateLimiterTheorems.PruneIsInvisibleIffWindowIsLonger | app/core/rate_limit.py:78-89 | inserting a pruning anywhere in any sequence of calls changes no later decision if and only if its window is at least that of the checks |
| RateLimiterTheorems.ShortPruneIsSeen | app/core/rate_limit.py:78-89 | check, shorter pruning, check from the empty store: the second check is admitted only because of the pruning |
| RateLimiter.InMemoryRateLimiter.CheckRateLimit | app/core/rate_limit.py:48-76 | the mutable store: sweep, evict, decide, record |
| RateLimiter.InMemoryRateLimiter.PruneExpired | app/core/rate_limit.py:78-89 | pops the dead keys and returns how many |
| ConcurrencyLimiter.ConcurrencyLimiter.Acquire | app/core/concurrency.py:27-49 | a slot exactly when the count is below the limit |
| ConcurrencyLimiter.ConcurrencyLimiter.Release | app/core/concurrency.py:51-68 | one slot less, never below zero, no empty entries kept |
| ConcurrencyLimiter.CountsAreSlotsHeld | app/core/concurrency.py:27-68 | in any interleaving that releases only held slots, each user's count equals the slots granted less those released, and no entry is empty |
| ConcurrencyLimiter.SlotsWithinLimit | app/core/concurrency.py:27-49 | and no user ever holds more slots than the largest limit asked with |
| SyncPath.ExecuteSimulationJob | app/services/simulation_job.py:204-315 | a pending job runs to completed with one event, or to failed with one refund and one event, or stays running and charged when the commit of its result loses the session; a call that reserves the quota itself fails the job uncharged when it is refused |
| SyncPath.RunSimulationSync | app/api/v1/simulations.py:303-402 | which of the six exits is taken, exactly; charged exactly on success and when the session is lost; a created job ends terminal unless the session is lost, one request event and one outcome event per reservation likewise, and the limiter is as before; giving up leaves the counters unchanged if and only if it happens in the month of the charge |
| SyncPath.NetEffect | app/services/usage.py:288-294 | charging and refunding cancel exactly within one month |
| SyncPath.SyncRunLooksAbandoned | app/services/simulation_job.py:101-106 | a synchronously started row is always eligible for recovery |
| SimulationHistory.PaginationIsLossless | app/api/v1/simulations.py:455-508 | following has_next to the end shows each matching row of the caller once, newest first |
| SimulationHistory.PageShowsOwnRows | app/api/v1/simulations.py:427-508 | on the columns: a page holds only rows of the caller with the preset and status asked for, newest first, as many as are left for it, and total and has_next count all of them |
| SimulationHistory.PagesShowAllOwnRows | app/api/v1/simulations.py:427-508 | up to the last page each of these rows is shown once and nothing else |
| SimulationHistory.PagesAreAPrefix | app/api/v1/simulations.py:479-484 | pages follow each other without gap or repeat |
| SimulationHistory.NextPageIffNonEmpty | app/api/v1/simulations.py:508 | has_next exactly when the next page is not empty |

## Left out

- UsageService.ReserveUsage: the number of requests charged is one, as in every call of the code; the request and API-key identifiers of events are not modelled.
- SyncPath.ExecuteSimulationJob: a refresh that fails after its commit went through is not modelled.
- SimulationJobService.CreateSimulationJob: likewise; after such a refresh the row exists and its quota is given back.
- SyncPath.RunSimulationSync: expects non-negative counters, which the queue's invariant provides.
- SimulationHistory.PaginationIsLossless: for a table that does not change between pages; parsing of the filters is left out.
- SimulationWorker.SimulationWorker.RunOnce: an exception between a refund and its log record is not modelled, since the two are one step here.
- RateLimiter.InMemoryRateLimiter.CheckRateLimit: one call is one step, although the code reads the clock before it takes its lock; times are exact numbers.
- Mixed runs of synchronous and queued jobs of one user: the code does not keep the two apart.
- WorkerService.ClaimNextJob: nobody else writes during the call; `SplitClaim` and `SplitRuns` are the model without that.
- Sessions and SQL text beyond what the `Split` modules say of locks, SKIP LOCKED and stale copies; deadlocks; the order in which waiting writers proceed.
- Deleting users with their rows, changing plans, and API keys, sessions and OAuth.
- Calendar arithmetic of the usage period: a month is an abstract, monotone function of time.
- The engine, preset tables, aliases and parameter validation: the engine is an uninterpreted function, parameters are taken as validated.
- HTTP schemas, error envelopes, middleware, metrics, logging, configuration, migrations, signals and sleeps.
- Error messages, versions and storage columns of a row, which no decision reads.
