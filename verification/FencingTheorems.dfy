/** Who may write an outcome, how often, and what the outcome is. */
module FencingTheorems {
  import opened Domain
  import opened UsageService
  import opened SimulationJobService
  import opened WorkerService
  import opened Invariants
  import opened Evolution
  import opened Protocol
  import opened Executions
  import opened SystemInvariant
  import ClaimTheorem

  /** Comparing the worker's name is as good as comparing the attempt: the row
      names a busy worker exactly when no later attempt was started and no
      outcome was written, and then the row is this very attempt. */
  lemma NameFencesAttempt(cfg: Config, s: System, w: WorkerId)
    requires Reachable(cfg, s) && MonotonePeriod(cfg) && WorkerAt(s, w).Busy?
    ensures var e := WorkerAt(s, w).exec;
            && Known(s.db, e.job)
            && (Owns(s.db, e.job, w) <==> Owner(s.db, w, e))
            && (Owns(s.db, e.job, w) <==>
                  (LastRow(s.db, e.job).attempts == e.attempt && !LastRow(s.db, e.job).status.Terminal()))
  {
    ReachableInv(cfg, s);
    assert ExecutionOk(s.db, w, s.workers[w].exec);
  }

  /** No two workers ever run the same attempt of a job. */
  lemma AttemptsAreExclusive(cfg: Config, s: System, v: WorkerId, w: WorkerId)
    requires Reachable(cfg, s) && MonotonePeriod(cfg) && v != w
    requires WorkerAt(s, v).Busy? && WorkerAt(s, w).Busy? && WorkerAt(s, v).exec.job == WorkerAt(s, w).exec.job
    ensures WorkerAt(s, v).exec.attempt != WorkerAt(s, w).exec.attempt
    ensures !(Owns(s.db, WorkerAt(s, v).exec.job, v) && Owns(s.db, WorkerAt(s, w).exec.job, w))
  {
    ReachableInv(cfg, s);
  }

  /** A displaced execution leaves the database exactly as it was. */
  lemma StaleExecutionIsHarmless(cfg: Config, s: System, w: WorkerId, run: EngineRun, commit: Commit)
    requires Reachable(cfg, s) && MonotonePeriod(cfg) && WorkerAt(s, w).Busy?
    requires var e := WorkerAt(s, w).exec;
             Known(s.db, e.job) ==> LastRow(s.db, e.job).attempts > e.attempt || LastRow(s.db, e.job).status.Terminal()
    ensures Apply(cfg, s, FinishJob(w, run, commit)) == WithWorker(s, w, Idle)
  {
    NameFencesAttempt(cfg, s, w);
  }

  /** The conditions under which a worker has not been displaced: its attempt is
      the row's last one, and there is no outcome yet. */
  ghost predicate Undisplaced(s: System, w: WorkerId) {
    WorkerAt(s, w).Busy? &&
    var e := WorkerAt(s, w).exec;
    Known(s.db, e.job) && LastRow(s.db, e.job).attempts == e.attempt && !LastRow(s.db, e.job).status.Terminal()
  }

  /** Only the row of `id` differs. */
  ghost predicate OnlyRow(db: Db, db': Db, id: JobId) {
    db'.jobs.Keys == db.jobs.Keys && forall i :: i in db.jobs && i != id ==> db'.jobs[i] == db.jobs[i]
  }

  lemma UndisplacedOwns(cfg: Config, s: System, w: WorkerId)
    requires Reachable(cfg, s) && MonotonePeriod(cfg) && Undisplaced(s, w)
    ensures var e := WorkerAt(s, w).exec;
            Owns(s.db, e.job, w) && s.db.jobs[e.job].params == e.params && s.db.jobs[e.job].data.None?
  {
    ReachableInv(cfg, s);
    NameFencesAttempt(cfg, s, w);
    var e := WorkerAt(s, w).exec;
    assert RowMatches(s.db.hist, e.job, s.db.jobs[e.job]) && RowOk(cfg, s.db.jobs[e.job], s.now);
    assert ExecutionOk(s.db, w, s.workers[w].exec);
  }

  /** A worker nobody displaced commits its result: the row completes with the
      engine's output, the completion is logged once, nothing is refunded. */
  lemma UndisplacedOwnerCompletes(cfg: Config, s: System, w: WorkerId, entropy: int, ms: nat)
    requires Reachable(cfg, s) && MonotonePeriod(cfg) && Undisplaced(s, w)
    ensures var e := WorkerAt(s, w).exec;
            var s' := Apply(cfg, s, FinishJob(w, Produces(entropy, ms), Committed));
            && e.job in s.db.jobs && OnlyRow(s.db, s'.db, e.job) && WorkerAt(s', w) == Idle
            && s'.db.jobs[e.job].status == Completed && s'.db.jobs[e.job].attempts == e.attempt
            && var params := s.db.jobs[e.job].params;
            && s'.db.jobs[e.job].data == Some(RunEngine(cfg, params, entropy))
            && s'.db.jobs[e.job].data
                 == Some(cfg.engine(params, if params.seed == None then entropy else params.seed.value))
            && s'.db.jobs[e.job].computeMs == Some(ms) && s'.db.jobs[e.job].completedAt == Some(s.now)
            && s'.db.usage == s.db.usage
            && s'.db.events
                 == s.db.events + [Event(e.user, SimulationCompleted, s.now, e.params.interactions, Some(ms), true)]
  {
    UndisplacedOwns(cfg, s, w);
  }

  /** A worker nobody displaced whose engine raised, or whose commit was rolled
      back, marks the row failed, refunds it and logs the failure, once each. */
  lemma UndisplacedOwnerFails(cfg: Config, s: System, w: WorkerId, run: EngineRun, commit: Commit)
    requires Reachable(cfg, s) && MonotonePeriod(cfg) && Undisplaced(s, w)
    requires run.Raises? || commit.MarkedFailed?
    ensures var e := WorkerAt(s, w).exec;
            var s' := Apply(cfg, s, FinishJob(w, run, commit));
            && e.job in s.db.jobs && OnlyRow(s.db, s'.db, e.job) && WorkerAt(s', w) == Idle
            && s'.db.jobs[e.job].status == Failed && s'.db.jobs[e.job].data == None
            && s'.db.jobs[e.job].completedAt == Some(s.now)
            && s'.db.jobs[e.job].errorCode == Some(if run.Raises? then run.code else PERSISTENCE_FAILED)
            && s'.db.usage == Refund(cfg, s.db.usage, e.user, e.params.interactions, s.now)
            && s'.db.events == s.db.events + [FailedEvent(e.user, s.now)]
  {
    UndisplacedOwns(cfg, s, w);
  }

  /** While the lease of a running row lasts, no claim by anyone touches it. */
  lemma LeaseProtectsOwner(cfg: Config, s: System, id: JobId, v: WorkerId)
    requires id in s.db.jobs && s.db.jobs[id].status.Running? && s.db.jobs[id].heartbeatAt.Some?
    requires s.now <= s.db.jobs[id].heartbeatAt.value + cfg.leaseTimeout
    ensures id in Apply(cfg, s, ClaimNext(v)).db.jobs && Apply(cfg, s, ClaimNext(v)).db.jobs[id] == s.db.jobs[id]
  {
    ClaimShape(cfg, s, v);
    ClaimTheorem.EachRowAfterClaim(cfg, s.db, v, s.now, id);
  }

  /** Claims and heartbeats start a full lease. */
  lemma ClaimsStartLease(cfg: Config, db: Db, id: JobId, worker: WorkerId, now: Time, later: Time)
    requires now <= later <= now + cfg.leaseTimeout
    ensures Claim(cfg, db, worker, now).1 == Some(id) ==>
              && id in Claim(cfg, db, worker, now).0.jobs
              && !Eligible(cfg, Claim(cfg, db, worker, now).0.jobs[id], later)
              && Claim(cfg, db, worker, now).0.jobs[id].status == Running
              && Claim(cfg, db, worker, now).0.jobs[id].heartbeatAt == Some(now)
    ensures Heartbeat(db, id, worker, now).1 ==>
              && id in Heartbeat(db, id, worker, now).0.jobs
              && !Eligible(cfg, Heartbeat(db, id, worker, now).0.jobs[id], later)
              && Heartbeat(db, id, worker, now).0.jobs[id].status == Running
              && Heartbeat(db, id, worker, now).0.jobs[id].heartbeatAt == Some(now)
  {
    ClaimKeepsKeys(cfg, db, worker, now);
    if Claim(cfg, db, worker, now).1 == Some(id) {
      ClaimTheorem.EachRowAfterClaim(cfg, db, worker, now, id);
    }
  }

  /** The row, or what was archived of it, is completed or failed. */
  ghost predicate FinalIn(db: Db, id: JobId) {
    Known(db, id) && LastRow(db, id).status.Terminal()
  }

  /** The row of `db` is still there unchanged or was removed and archived unchanged. */
  ghost predicate StaysFinal(db: Db, db': Db, id: JobId)
    requires Known(db, id)
  {
    Known(db', id) && LastRow(db', id) == LastRow(db, id) && (id !in db.jobs ==> id !in db'.jobs)
  }

  lemma {:induction false} FinalThroughRun(cfg: Config, s: System, steps: seq<Step>, id: JobId)
    requires Inv(cfg, s) && MonotonePeriod(cfg)
    requires FinalIn(s.db, id)
    ensures StaysFinal(s.db, Run(cfg, s, steps).db, id)
    decreases |steps|
  {
    if steps != [] {
      var before, last := steps[..|steps| - 1], steps[|steps| - 1];
      FinalThroughRun(cfg, s, before, id);
      RunKeepsInv(cfg, s, before);
      var mid := Run(cfg, s, before);
      StepKeepsDb(cfg, mid, last);
      FinalStep(mid.db, Apply(cfg, mid, last).db, ClaimerOf(last), CreatedBy(last), id);
    }
  }

  /** Terminal writes happen at most once: from then on the row never changes,
      and when it is removed it is archived as it was. */
  lemma TerminalRowsAreFinal(cfg: Config, s: System, steps: seq<Step>, id: JobId)
    requires Reachable(cfg, s) && MonotonePeriod(cfg) && FinalIn(s.db, id)
    ensures StaysFinal(s.db, Run(cfg, s, steps).db, id)
  {
    ReachableInv(cfg, s);
    FinalThroughRun(cfg, s, steps, id);
  }

  lemma FinalStep(db: Db, db': Db, claimer: Option<WorkerId>, created: set<JobId>, id: JobId)
    requires IdsOk(db) && IdsOk(db') && Continues(db, db', claimer, created)
    requires FinalIn(db, id)
    ensures StaysFinal(db, db', id)
  {
  }

  /** Every step follows the lifecycle table or leaves the status alone, and
      never rewrites what was submitted. */
  lemma StepsFollowLifecycle(cfg: Config, s: System, step: Step, id: JobId)
    requires Reachable(cfg, s) && MonotonePeriod(cfg)
    requires id in s.db.jobs && id in Apply(cfg, s, step).db.jobs
    ensures var j, j' := s.db.jobs[id], Apply(cfg, s, step).db.jobs[id];
            && (j'.status == j.status || CanTransition(j.status, j'.status))
            && (|| j'.status == j.status
                || (j.status == Pending && j'.status in {Running, Failed})
                || (j.status == Running && j'.status in {Completed, Failed}))
            && j'.user == j.user && j'.params == j.params && j'.createdAt == j.createdAt
            && (j.status.Terminal() ==> j' == j)
            && (j.status.Pending? && j'.status.Pending? ==> j' == j)
            && SameIdentity(j, j')
  {
    ReachableInv(cfg, s);
    StepKeepsDb(cfg, s, step);
    if s.db.jobs[id].status.Pending? && Apply(cfg, s, step).db.jobs[id].status.Pending? {
      assert Moves(s.db.jobs[id], Apply(cfg, s, step).db.jobs[id], ClaimerOf(step));
    }
  }

  /** Result, error, owner and timestamps agree with the status. */
  ghost predicate Agrees(j: Job, now: Time) {
    && (j.data.Some? <==> j.status.Completed?) && (j.errorCode.Some? <==> j.status.Failed?)
    && (j.completedAt.Some? <==> j.status.Terminal())
    && (j.status.Pending? ==> j.worker.None? && j.startedAt.None? && j.attempts == 0)
    && (j.status.Running? || j.status.Completed? ==> j.worker.Some? && j.startedAt.Some? && j.claimedAt.Some?)
    && (j.startedAt.Some? <==> j.claimedAt.Some?) && (j.heartbeatAt.Some? <==> j.claimedAt.Some?)
    && (j.worker.Some? <==> j.claimedAt.Some?) && (j.attempts >= 1 <==> j.claimedAt.Some?)
    && (j.heartbeatAt.Some? ==> j.claimedAt.value <= j.heartbeatAt.value <= now)
    && (j.heartbeatAt.Some? && j.completedAt.Some? ==> j.heartbeatAt.value <= j.completedAt.value)
    && (j.startedAt.Some? ==> j.createdAt <= j.startedAt.value <= j.claimedAt.value <= now)
    && (j.completedAt.Some? ==> j.createdAt <= j.completedAt.value <= now)
    && (j.claimedAt.Some? && j.completedAt.Some? ==> j.claimedAt.value <= j.completedAt.value)
  }

  lemma SoundRowAgrees(cfg: Config, j: Job, now: Time)
    requires RowOk(cfg, j, now)
    ensures Agrees(j, now)
  {
  }

  /** So it is with every row, in the table or removed from it. */
  lemma RowsAgreeWithStatus(cfg: Config, s: System, id: JobId)
    requires Reachable(cfg, s) && MonotonePeriod(cfg) && Known(s.db, id)
    ensures Agrees(LastRow(s.db, id), s.now)
  {
    ReachableInv(cfg, s);
    SoundRowAgrees(cfg, LastRow(s.db, id), s.now);
  }

  /** However many workers crashed, recovered or lagged behind, a completed job
      holds an output of the engine for the parameters it was submitted with;
      with a seed, the very output of a single undisturbed run. */
  lemma ResultsSurviveCrashes(cfg: Config, s: System, id: JobId, anyEntropy: int)
    requires Reachable(cfg, s) && MonotonePeriod(cfg)
    requires Known(s.db, id) && LastRow(s.db, id).status.Completed?
    ensures id in s.db.hist.submitted
    ensures var j, params := LastRow(s.db, id), s.db.hist.submitted[id];
            && j.params == params && j.data.Some?
            && (exists entropy: int :: j.data.value == RunEngine(cfg, params, entropy))
            && (params.seed.Some? ==> j.reproducible && j.data.value == RunEngine(cfg, params, anyEntropy))
            && (exists drawn: int :: j.data.value == cfg.engine(params, drawn))
            && (params.seed.Some? ==> j.data.value == cfg.engine(params, params.seed.value))
  {
    ReachableInv(cfg, s);
    var j := LastRow(s.db, id);
    assert RowOk(cfg, j, s.now) && RowMatches(s.db.hist, id, j);
    var entropy :| RunEngine(cfg, j.params, entropy) == j.data.value;
  }

  // ---- The concurrency cap ----

  /** Whichever workers claim or recover, no user ever has more running jobs
      than the plan allows. */
  lemma ConcurrencyIsCapped(cfg: Config, s: System, user: UserId)
    requires Reachable(cfg, s) && MonotonePeriod(cfg) && user in s.db.users
    ensures |RunningIds(s.db.jobs, user)| <= ConcurrencyLimit(s.db.users[user])
    ensures WithinPlan(s.db, user)
  {
    ReachableInv(cfg, s);
    CappedIsWithinPlan(s.db, user);
  }

  /** The user's running rows, counted on the columns, against the user's plan; no
      plan and a limit of zero mean one. */
  ghost predicate WithinPlan(db: Db, user: UserId)
    requires user in db.users
  {
    var running := |set id | id in db.jobs && db.jobs[id].status == Running && db.jobs[id].user == user|;
    match db.users[user].plan
    case Some(p) => running <= if p.maxConcurrentSimulations == 0 then 1 else p.maxConcurrentSimulations
    case None => running <= 1
  }

  lemma CappedIsWithinPlan(db: Db, user: UserId)
    requires Capped(db) && user in db.users
    ensures WithinPlan(db, user)
  {
    assert (set id | id in db.jobs && db.jobs[id].status == Running && db.jobs[id].user == user)
        == RunningIds(db.jobs, user);
  }

  /** A stuck job of an active user always passes the capacity check of its own
      recovery, so recovery is never starved by the cap. */
  lemma StuckJobHasCapacity(cfg: Config, s: System, id: JobId)
    requires Reachable(cfg, s) && MonotonePeriod(cfg)
    requires id in s.db.jobs && s.db.jobs[id].status.Running?
    requires s.db.jobs[id].user in s.db.users && s.db.users[s.db.jobs[id].user].active
    ensures HasCapacity(s.db.users, s.db.jobs, s.db.jobs[id].user, {id})
  {
    ReachableInv(cfg, s);
    var running := RunningIds(s.db.jobs, s.db.jobs[id].user);
    assert id in running;
    assert |running - {id}| == |running| - 1;
  }
}
