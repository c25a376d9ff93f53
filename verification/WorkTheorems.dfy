/** How much work a run can contain. */
module WorkTheorems {
  import opened Domain
  import opened FiniteSums
  import opened WorkerService
  import opened Invariants
  import opened Evolution
  import opened Protocol
  import opened Executions
  import opened SystemInvariant

  // ---- Attempts are executions ----

  function AttemptsOf(db: Db, id: JobId): nat {
    if Known(db, id) then LastRow(db, id).attempts else 0
  }

  /** Does this step start an execution of `id`? */
  predicate Starts(cfg: Config, s: System, step: Step, id: JobId) {
    step.ClaimNext? && WorkerAt(s, step.worker).Idle? && Claim(cfg, s.db, step.worker, s.now).1 == Some(id)
  }

  function StartsIn(cfg: Config, s: System, steps: seq<Step>, id: JobId): nat {
    if steps == [] then 0 else
    var before := steps[..|steps| - 1];
    StartsIn(cfg, s, before, id) + (if Starts(cfg, Run(cfg, s, before), steps[|steps| - 1], id) then 1 else 0)
  }

  lemma AttemptsAfterClaim(cfg: Config, db: Db, worker: WorkerId, now: Time, id: JobId)
    ensures AttemptsOf(Claim(cfg, db, worker, now).0, id)
         == AttemptsOf(db, id) + (if Claim(cfg, db, worker, now).1 == Some(id) then 1 else 0)
  {
    ClaimKeepsKeys(cfg, db, worker, now);
    if id in db.jobs {
      ClaimOnRow(cfg, db, worker, now, id);
    }
  }

  lemma AttemptsWithoutClaim(db: Db, db': Db, created: set<JobId>, id: JobId)
    requires IdsOk(db) && IdsOk(db') && Continues(db, db', None, created)
    ensures AttemptsOf(db', id) == AttemptsOf(db, id)
  {
    if id in db.jobs {
      assert SameIdentity(db.jobs[id], LastRow(db', id));
    }
  }

  lemma ClaimStepCountsAttempts(cfg: Config, s: System, w: WorkerId, id: JobId)
    ensures AttemptsOf(Apply(cfg, s, ClaimNext(w)).db, id)
         == AttemptsOf(s.db, id) + (if Starts(cfg, s, ClaimNext(w), id) then 1 else 0)
  {
    ClaimShape(cfg, s, w);
    AttemptsAfterClaim(cfg, s.db, w, s.now, id);
    assert Apply(cfg, s, ClaimNext(w)) == ApplyClaim(cfg, s, w);
  }

  lemma OtherStepsKeepAttempts(cfg: Config, s: System, step: Step, id: JobId)
    requires DbStepOk(cfg, s, step) && IdsOk(s.db) && !step.ClaimNext?
    ensures AttemptsOf(Apply(cfg, s, step).db, id) == AttemptsOf(s.db, id)
  {
    AttemptsWithoutClaim(s.db, Apply(cfg, s, step).db, CreatedBy(step), id);
  }

  lemma StepCountsAttempts(cfg: Config, s: System, step: Step, id: JobId)
    requires Inv(cfg, s) && MonotonePeriod(cfg)
    ensures AttemptsOf(Apply(cfg, s, step).db, id) == AttemptsOf(s.db, id) + (if Starts(cfg, s, step, id) then 1 else 0)
  {
    if step.ClaimNext? {
      ClaimStepCountsAttempts(cfg, s, step.worker, id);
    } else {
      StepKeepsDb(cfg, s, step);
      OtherStepsKeepAttempts(cfg, s, step, id);
    }
  }

  lemma AttemptsAgreeWithStatus(cfg: Config, s: System, id: JobId)
    requires Inv(cfg, s) && Known(s.db, id)
    ensures AttemptsOf(s.db, id) <= DEFAULT_MAX_ATTEMPTS
    ensures LastRow(s.db, id).status.Pending? ==> AttemptsOf(s.db, id) == 0
    ensures LastRow(s.db, id).status.Running? ==> AttemptsOf(s.db, id) >= 1
  {
    assert RowOk(cfg, LastRow(s.db, id), s.now);
  }

  lemma {:induction false} AttemptsAreStarts(cfg: Config, start: System, steps: seq<Step>, id: JobId)
    requires Initial(start) && MonotonePeriod(cfg)
    ensures AttemptsOf(Run(cfg, start, steps).db, id) == StartsIn(cfg, start, steps, id)
    decreases |steps|
  {
    if steps != [] {
      var before := steps[..|steps| - 1];
      AttemptsAreStarts(cfg, start, before, id);
      InitialInv(cfg, start);
      RunKeepsInv(cfg, start, before);
      StepCountsAttempts(cfg, Run(cfg, start, before), steps[|steps| - 1], id);
    }
  }

  /** A job's attempt count is the number of executions ever started for it: none
      while it is pending, at least one once it runs, never more than the maximum. */
  lemma AttemptsCountExecutions(cfg: Config, start: System, steps: seq<Step>, id: JobId)
    requires Initial(start) && MonotonePeriod(cfg)
    ensures var s := Run(cfg, start, steps);
            && AttemptsOf(s.db, id) == StartsIn(cfg, start, steps, id) <= DEFAULT_MAX_ATTEMPTS
            && (Known(s.db, id) && LastRow(s.db, id).status.Pending? ==> AttemptsOf(s.db, id) == 0)
            && (Known(s.db, id) && LastRow(s.db, id).status.Running? ==> AttemptsOf(s.db, id) >= 1)
  {
    AttemptsAreStarts(cfg, start, steps, id);
    var s := Run(cfg, start, steps);
    if Known(s.db, id) {
      InitialInv(cfg, start);
      RunKeepsInv(cfg, start, steps);
      AttemptsAgreeWithStatus(cfg, s, id);
    }
  }

  // ---- The measure ----

  /** The claims and the one terminal write a row has left. */
  function WorkLeft(job: Job): nat {
    match job.status
    case Pending => job.maxAttempts + 1
    case Running => if job.attempts <= job.maxAttempts then job.maxAttempts - job.attempts + 1 else 0
    case Completed => 0
    case Failed => 0
  }

  ghost function WorkMap(jobs: map<JobId, Job>): map<nat, int> {
    map id | id in jobs :: WorkLeft(jobs[id])
  }

  ghost function WorkTotal(db: Db): int { Sum(WorkMap(db.jobs)) }

  /** Rows that were claimed, recovered or given an outcome between two states. */
  function WorkedOn(db: Db, db': Db): set<JobId> {
    set id | id in db.jobs && id in db'.jobs
          && (db'.jobs[id].status != db.jobs[id].status || db'.jobs[id].attempts != db.jobs[id].attempts)
  }

  function NewRows(db: Db, db': Db): set<JobId> {
    set id | id in db'.jobs && id !in db.jobs
  }

  lemma MoveCostsWork(cfg: Config, j: Job, j': Job, claimer: Option<WorkerId>, now: Time)
    requires RowOk(cfg, j, now) && SameIdentity(j, j') && Moves(j, j', claimer)
    ensures WorkLeft(j') <= WorkLeft(j)
    ensures j'.status != j.status || j'.attempts != j.attempts ==> WorkLeft(j') < WorkLeft(j)
  {
  }

  lemma OldRowsWork(cfg: Config, db: Db, db': Db, claimer: Option<WorkerId>, created: set<JobId>, now: Time)
    requires RowsOk(cfg, db, now) && Continues(db, db', claimer, created)
    ensures Sum(WorkMap(db'.jobs - NewRows(db, db'))) + |WorkedOn(db, db')| <= WorkTotal(db)
  {
    var before, after := WorkMap(db.jobs), WorkMap(db'.jobs - NewRows(db, db'));
    forall id | id in after
      ensures id in before && after[id] <= before[id] && (id in WorkedOn(db, db') ==> after[id] < before[id])
    {
      MoveCostsWork(cfg, db.jobs[id], db'.jobs[id], claimer, now);
    }
    SumFalls(before, after, WorkedOn(db, db'));
  }

  lemma NewRowsWork(cfg: Config, db: Db, db': Db, now: Time, id: JobId)
    requires NewRows(db, db') <= {id} && RowsOk(cfg, db', now)
    requires id in NewRows(db, db') ==> db'.jobs[id].status.Pending?
    ensures Sum(WorkMap(db'.jobs))
         == Sum(WorkMap(db'.jobs - NewRows(db, db'))) + (DEFAULT_MAX_ATTEMPTS + 1) * |NewRows(db, db')|
  {
    var kept := WorkMap(db'.jobs - NewRows(db, db'));
    if id in NewRows(db, db') {
      assert NewRows(db, db') == {id};
      assert RowOk(cfg, db'.jobs[id], now);
      assert WorkMap(db'.jobs) == kept[id := DEFAULT_MAX_ATTEMPTS + 1];
      SumPut(kept, id, DEFAULT_MAX_ATTEMPTS + 1);
    } else {
      assert NewRows(db, db') == {};
      assert db'.jobs - {} == db'.jobs;
    }
  }

  /** What is done, and what is left afterwards, was there before or came with new rows. */
  ghost predicate UsesUpWork(db: Db, db': Db) {
    WorkTotal(db') + |WorkedOn(db, db')| <= WorkTotal(db) + (DEFAULT_MAX_ATTEMPTS + 1) * |NewRows(db, db')|
  }

  /** Each row claimed, recovered or given an outcome uses up a unit of work;
      only a new row brings work, one claim per attempt and one outcome. */
  lemma StepsUseUpWork(cfg: Config, s: System, step: Step)
    requires Inv(cfg, s) && MonotonePeriod(cfg)
    ensures UsesUpWork(s.db, Apply(cfg, s, step).db)
    ensures NewRows(s.db, Apply(cfg, s, step).db) <= CreatedBy(step)
  {
    var s' := Apply(cfg, s, step);
    StepKeepsDb(cfg, s, step);
    OldRowsWork(cfg, s.db, s'.db, ClaimerOf(step), CreatedBy(step), s.now);
    NewRowsWork(cfg, s.db, s'.db, s'.now, match step case CreateRow(id, _) => id case _ => 0);
  }

  function WorkDone(cfg: Config, s: System, steps: seq<Step>): nat {
    if steps == [] then 0 else
    var before := steps[..|steps| - 1];
    WorkDone(cfg, s, before) + |WorkedOn(Run(cfg, s, before).db, Run(cfg, s, steps).db)|
  }

  function RowsCreated(cfg: Config, s: System, steps: seq<Step>): nat {
    if steps == [] then 0 else
    var before := steps[..|steps| - 1];
    RowsCreated(cfg, s, before) + |NewRows(Run(cfg, s, before).db, Run(cfg, s, steps).db)|
  }

  /** The same over a run. */
  ghost predicate RunUsesUpWork(cfg: Config, start: System, steps: seq<Step>) {
    var left := WorkTotal(Run(cfg, start, steps).db);
    && 0 <= left
    && WorkDone(cfg, start, steps) + left <= WorkTotal(start.db)
         + (DEFAULT_MAX_ATTEMPTS + 1) * RowsCreated(cfg, start, steps)
  }

  lemma {:induction false} RunUsesWork(cfg: Config, start: System, steps: seq<Step>)
    requires Inv(cfg, start) && MonotonePeriod(cfg)
    ensures RunUsesUpWork(cfg, start, steps)
    decreases |steps|
  {
    SumNonNegative(WorkMap(Run(cfg, start, steps).db.jobs));
    if steps != [] {
      var before := steps[..|steps| - 1];
      RunUsesWork(cfg, start, before);
      RunKeepsInv(cfg, start, before);
      StepsUseUpWork(cfg, Run(cfg, start, before), steps[|steps| - 1]);
    }
  }

  /** The claims, recoveries and outcomes of any run are bounded by what was
      open at its start and four per submission; without new submissions only
      finitely many such steps can happen. */
  lemma WorkIsBounded(cfg: Config, start: System, steps: seq<Step>)
    requires Reachable(cfg, start) && MonotonePeriod(cfg)
    ensures RunUsesUpWork(cfg, start, steps)
    ensures RowsCreated(cfg, start, steps) == 0 ==> WorkDone(cfg, start, steps) <= WorkTotal(start.db)
    ensures start.db.jobs == map[] ==>
        WorkDone(cfg, start, steps) <= (DEFAULT_MAX_ATTEMPTS + 1) * RowsCreated(cfg, start, steps)
  {
    ReachableInv(cfg, start);
    RunUsesWork(cfg, start, steps);
    if start.db.jobs == map[] {
      assert WorkMap(start.db.jobs) == map[];
    }
  }
}
