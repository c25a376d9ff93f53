/** How often a job is executed when claim calls are several transactions. */
module SplitOnce {
  import opened Domain
  import opened SimulationJobService
  import opened WorkerService
  import opened SimulationsApi
  import opened Protocol
  import opened SplitClaim
  import opened SplitRuns
  import ClaimTheorem

  /** Does this step start an execution of `id`? */
  predicate StartsSplit(cfg: Config, s: Split, step: SplitStep, id: JobId) {
    && step.Look? && Looking(s, step.worker) && Candidate(s, step.worker).id == id
    && MayLook(cfg, s, step.worker) && NextLook(cfg, s, step.worker).1.Taken?
  }

  /** The row was fetched running under an expired lease. */
  predicate RecoversSplit(cfg: Config, s: Split, step: SplitStep, id: JobId) {
    && StartsSplit(cfg, s, step, id)
    && var row := Candidate(s, step.worker).row;
       row.status.Running? && LeaseExpired(cfg, row, s.calls[step.worker].at)
  }

  /** The row was fetched pending, and by now somebody has claimed it. */
  predicate Overtakes(cfg: Config, s: Split, step: SplitStep, id: JobId) {
    && StartsSplit(cfg, s, step, id)
    && Candidate(s, step.worker).row.status.Pending? && id in s.base.db.jobs && s.base.db.jobs[id].attempts >= 1
  }

  function SplitStartsIn(cfg: Config, s: Split, steps: seq<SplitStep>, id: JobId): nat {
    if steps == [] then 0 else
    var before := steps[..|steps| - 1];
    SplitStartsIn(cfg, s, before, id)
    + (if StartsSplit(cfg, SplitRun(cfg, s, before), steps[|steps| - 1], id) then 1 else 0)
  }

  predicate SplitRecoveredIn(cfg: Config, s: Split, steps: seq<SplitStep>, id: JobId) {
    if steps == [] then false else
    var before := steps[..|steps| - 1];
    SplitRecoveredIn(cfg, s, before, id) || RecoversSplit(cfg, SplitRun(cfg, s, before), steps[|steps| - 1], id)
  }

  predicate OvertakenIn(cfg: Config, s: Split, steps: seq<SplitStep>, id: JobId) {
    if steps == [] then false else
    var before := steps[..|steps| - 1];
    OvertakenIn(cfg, s, before, id) || Overtakes(cfg, SplitRun(cfg, s, before), steps[|steps| - 1], id)
  }

  // ---- What survives even stale writes ----

  /** No id is used twice, and an attempt count of zero means never claimed. */
  ghost predicate CountsOk(db: Db) {
    && db.hist.inFlight <= db.hist.tickets.Keys
    && db.hist.submitted.Keys <= db.hist.tickets.Keys && db.hist.submitted.Keys !! db.hist.inFlight
    && db.jobs.Keys <= db.hist.submitted.Keys
    && (forall id :: id in db.jobs ==> CountOk(db.jobs[id]))
  }

  predicate CountOk(job: Job) {
    (job.status.Pending? ==> job.attempts == 0) && (job.status.Running? ==> job.attempts >= 1)
  }

  /** Attempt counts stay, and a row that appears has a new id and none. */
  ghost predicate KeepsCounts(db: Db, db': Db) {
    && (forall id :: id in db.hist.submitted ==> id in db'.hist.submitted)
    && (forall id :: id in db'.jobs ==>
          if id in db.jobs then db'.jobs[id].attempts == db.jobs[id].attempts
          else id !in db.hist.submitted && db'.jobs[id].attempts == 0)
  }

  lemma PutKeepsCounts(db: Db, db': Db, id: JobId, row: Job)
    requires CountsOk(db) && id in db.jobs && db'.jobs == db.jobs[id := row] && CountOk(row)
    requires row.attempts == db.jobs[id].attempts
    requires db'.hist.tickets == db.hist.tickets && db'.hist.submitted == db.hist.submitted
    requires db'.hist.inFlight <= db.hist.inFlight
    ensures CountsOk(db') && KeepsCounts(db, db')
  {
  }

  lemma RemoveKeepsCounts(db: Db, db': Db, gone: set<JobId>)
    requires CountsOk(db) && db'.jobs == db.jobs - gone
    requires db'.hist.tickets == db.hist.tickets && db'.hist.submitted == db.hist.submitted
    requires db'.hist.inFlight <= db.hist.inFlight
    ensures CountsOk(db') && KeepsCounts(db, db')
  {
  }

  lemma FinishKeepsCounts(cfg: Config, s: System, w: WorkerId, run: EngineRun, commit: Commit)
    requires CountsOk(s.db)
    ensures var db' := ApplyFinish(cfg, s, w, run, commit).db;
            CountsOk(db') && KeepsCounts(s.db, db')
  {
    var db' := ApplyFinish(cfg, s, w, run, commit).db;
    if WorkerAt(s, w).Busy? && Owns(s.db, WorkerAt(s, w).exec.job, w) {
      var id := WorkerAt(s, w).exec.job;
      PutKeepsCounts(s.db, db', id, db'.jobs[id]);
    }
  }

  lemma BeatKeepsCounts(s: System, w: WorkerId)
    requires CountsOk(s.db)
    ensures CountsOk(ApplyBeat(s, w).db) && KeepsCounts(s.db, ApplyBeat(s, w).db)
  {
    var db' := ApplyBeat(s, w).db;
    if WorkerAt(s, w).Busy? && Owns(s.db, WorkerAt(s, w).exec.job, w) {
      var id := WorkerAt(s, w).exec.job;
      PutKeepsCounts(s.db, db', id, db'.jobs[id]);
    }
  }

  lemma DeleteKeepsCounts(cfg: Config, db: Db, caller: UserId, id: JobId, now: Time)
    requires CountsOk(db)
    ensures CountsOk(Delete(cfg, db, caller, id, now).0) && KeepsCounts(db, Delete(cfg, db, caller, id, now).0)
  {
    var db' := Delete(cfg, db, caller, id, now).0;
    if id in db.jobs && id !in db'.jobs {
      assert db'.jobs == db.jobs - {id};
      RemoveKeepsCounts(db, db', {id});
    }
  }

  lemma CleanKeepsCounts(s: System, c: nat)
    requires CountsOk(s.db)
    ensures var db' := ApplyDeleteBatch(s, c).db;
            CountsOk(db') && KeepsCounts(s.db, db')
  {
    if c in s.cleaners && s.cleaners[c].active && s.cleaners[c].selected.Some? {
      RemoveKeepsCounts(s.db, ApplyDeleteBatch(s, c).db, Remaining(s, c));
    }
  }

  lemma SameRowsKeepCounts(db: Db, db': Db)
    requires CountsOk(db) && db'.jobs == db.jobs && db'.hist.submitted == db.hist.submitted
    requires db.hist.tickets.Keys <= db'.hist.tickets.Keys && db'.hist.inFlight <= db'.hist.tickets.Keys
    requires db'.hist.inFlight - db.hist.inFlight !! db.hist.tickets.Keys
    ensures CountsOk(db') && KeepsCounts(db, db')
  {
  }

  lemma ReserveKeepsCounts(cfg: Config, s: System, id: JobId, user: UserId, n: nat)
    requires CountsOk(s.db)
    ensures var db' := ApplyReserve(cfg, s, id, user, n).db;
            CountsOk(db') && KeepsCounts(s.db, db')
  {
    SameRowsKeepCounts(s.db, ApplyReserve(cfg, s, id, user, n).db);
  }

  lemma CreateKeepsCounts(s: System, id: JobId, params: Params)
    requires CountsOk(s.db)
    ensures CountsOk(ApplyCreate(s, id, params).db) && KeepsCounts(s.db, ApplyCreate(s, id, params).db)
  {
  }

  lemma CreateFailsKeepsCounts(cfg: Config, s: System, id: JobId)
    requires CountsOk(s.db)
    ensures CountsOk(ApplyCreateFails(cfg, s, id).db) && KeepsCounts(s.db, ApplyCreateFails(cfg, s, id).db)
  {
    SameRowsKeepCounts(s.db, ApplyCreateFails(cfg, s, id).db);
  }

  lemma OtherTablesKeepCounts(cfg: Config, s: System, step: Step)
    requires step.Tick? || step.SetActive? || step.Crash? || step.StartCleaner? || step.SelectBatch?
             || step.CleanerFails?
    ensures Apply(cfg, s, step).db.jobs == s.db.jobs && Apply(cfg, s, step).db.hist == s.db.hist
  {
  }

  /** No step of the protocol but a claim changes an attempt count. */
  lemma PlainKeepsCounts(cfg: Config, s: System, step: Step)
    requires CountsOk(s.db) && !step.ClaimNext? && !step.ClaimBreaks?
    ensures CountsOk(Apply(cfg, s, step).db) && KeepsCounts(s.db, Apply(cfg, s, step).db)
  {
    if step.FinishJob? {
      FinishJobIs(cfg, s, step);
      FinishKeepsCounts(cfg, s, step.worker, step.run, step.commit);
    } else if step.Beat? {
      BeatIs(cfg, s, step);
      BeatKeepsCounts(s, step.worker);
    } else if step.DeleteRow? {
      DeleteRowIs(cfg, s, step);
      DeleteKeepsCounts(cfg, s.db, step.caller, step.id, s.now);
    } else if step.DeleteBatch? {
      DeleteBatchIs(cfg, s, step);
      CleanKeepsCounts(s, step.cleaner);
    } else if step.ReserveQuota? {
      ReserveQuotaIs(cfg, s, step);
      ReserveKeepsCounts(cfg, s, step.id, step.user, step.interactions);
    } else if step.CreateRow? {
      CreateRowIs(cfg, s, step);
      CreateKeepsCounts(s, step.id, step.params);
    } else if step.CreateFails? {
      CreateFailsIs(cfg, s, step);
      CreateFailsKeepsCounts(cfg, s, step.id);
    } else {
      OtherTablesKeepCounts(cfg, s, step);
    }
  }

  // ---- Calls ----

  /** A candidate fetched running has an attempt, in its copy and in the table. */
  ghost predicate CopyOk(db: Db, seen: Seen) {
    && CountOk(seen.row)
    && (seen.row.status.Running? && seen.id in db.jobs ==> db.jobs[seen.id].attempts >= 1)
    && seen.id in db.hist.submitted
  }

  ghost predicate CopiesOk(cfg: Config, db: Db, calls: map<WorkerId, Call>) {
    forall w, i :: w in calls && 0 <= i < |calls[w].seen| ==>
      CopyOk(db, calls[w].seen[i]) && Eligible(cfg, calls[w].seen[i].row, calls[w].at)
  }

  lemma CopiesStay(cfg: Config, db: Db, db': Db, calls: map<WorkerId, Call>)
    requires CopiesOk(cfg, db, calls) && KeepsCounts(db, db')
    ensures CopiesOk(cfg, db', calls)
  {
  }

  lemma GivingUpKeepsCounts(cfg: Config, db: Db, seen: Seen, w: WorkerId, at: Time, now: Time)
    requires CountsOk(db) && LookAt(cfg, db, seen, w, at, now).1.GivenUp?
    ensures var db' := LookAt(cfg, db, seen, w, at, now).0;
            CountsOk(db') && KeepsCounts(db, db')
  {
    var job, current := seen.row, db.jobs[seen.id];
    var row := Written(job, FailedRow(job, ClaimTheorem.DoomCode(job), at), current);
    assert row.status.Failed? && row.attempts == current.attempts;
    PutKeepsCounts(db, LookAt(cfg, db, seen, w, at, now).0, seen.id, row);
  }

  lemma TakenRowCount(fetched: Job, current: Job, w: WorkerId, at: Time)
    requires !fetched.status.Terminal() && CountOk(fetched) && CountOk(current)
    requires fetched.status.Running? ==> current.attempts >= 1
    ensures var row := Written(fetched, ClaimedRow(fetched, w, at), current);
            CountOk(row) && row.attempts >= 1
  {
  }

  /** Where the row was taken. */
  ghost predicate TookRow(db: Db, db': Db, id: JobId) {
    && id in db.jobs && db'.jobs.Keys == db.jobs.Keys && db'.jobs[id].attempts >= 1
    && db'.hist == db.hist
    && forall i :: i in db.jobs && i != id ==> db'.jobs[i] == db.jobs[i]
  }

  lemma TakingCounts(cfg: Config, db: Db, seen: Seen, w: WorkerId, at: Time, now: Time)
    requires CountsOk(db) && CopyOk(db, seen) && LookAt(cfg, db, seen, w, at, now).1.Taken?
    ensures var db' := LookAt(cfg, db, seen, w, at, now).0;
            CountsOk(db') && TookRow(db, db', seen.id)
  {
    TakenRowCount(seen.row, db.jobs[seen.id], w, at);
  }

  /** How a look changes the tables. */
  lemma LookKeepsCounts(cfg: Config, db: Db, seen: Seen, w: WorkerId, at: Time, now: Time)
    requires CountsOk(db) && CopyOk(db, seen)
    ensures var (db', result) := LookAt(cfg, db, seen, w, at, now);
            CountsOk(db') && if result.Taken? then TookRow(db, db', seen.id) else KeepsCounts(db, db')
  {
    var result := LookAt(cfg, db, seen, w, at, now).1;
    if result.GivenUp? {
      GivingUpKeepsCounts(cfg, db, seen, w, at, now);
    } else if result.Taken? {
      TakingCounts(cfg, db, seen, w, at, now);
    }
  }

  lemma FetchesStay(cfg: Config, db: Db, calls: map<WorkerId, Call>, calls': map<WorkerId, Call>)
    requires CopiesOk(cfg, db, calls) && SameFetches(calls, calls')
    ensures CopiesOk(cfg, db, calls')
  {
  }

  /** `starts` executions of `id` were started. */
  ghost predicate StartsOk(db: Db, id: JobId, starts: nat) {
    && (starts == 0 && id in db.jobs ==> db.jobs[id].attempts == 0)
    && (starts >= 1 ==> id in db.hist.submitted && (id in db.jobs ==> db.jobs[id].attempts >= 1))
  }

  ghost predicate OnceInv(cfg: Config, s: Split, id: JobId, starts: nat) {
    CountsOk(s.base.db) && CopiesOk(cfg, s.base.db, s.calls) && StartsOk(s.base.db, id, starts)
  }

  lemma PlainKeepsOnce(cfg: Config, s: Split, step: Step, id: JobId, starts: nat)
    requires OnceInv(cfg, s, id, starts)
    ensures OnceInv(cfg, ApplyPlain(cfg, s, step), id, starts)
  {
    if !step.ClaimNext? && !step.ClaimBreaks? {
      PlainKeepsCounts(cfg, s.base, step);
      CopiesStay(cfg, s.base.db, Apply(cfg, s.base, step).db, s.calls);
    }
  }

  lemma FetchKeepsOnce(cfg: Config, s: Split, w: WorkerId, id: JobId, starts: nat)
    requires OnceInv(cfg, s, id, starts)
    ensures OnceInv(cfg, ApplyFetch(cfg, s, w), id, starts)
  {
    FetchedAreRows(cfg, s.base.db.jobs, Locked(s.calls), s.base.now);
  }

  lemma NotTakenKeepsOnce(cfg: Config, db: Db, db': Db, calls: map<WorkerId, Call>, id: JobId, starts: nat)
    requires CopiesOk(cfg, db, calls) && StartsOk(db, id, starts) && KeepsCounts(db, db')
    ensures CopiesOk(cfg, db', calls) && StartsOk(db', id, starts)
  {
  }

  lemma TakenKeepsOnce(cfg: Config, db: Db, db': Db, calls: map<WorkerId, Call>, taken: JobId, id: JobId, starts: nat)
    requires CountsOk(db) && CopiesOk(cfg, db, calls) && StartsOk(db, id, starts) && TookRow(db, db', taken)
    ensures CopiesOk(cfg, db', calls) && StartsOk(db', id, starts + if taken == id then 1 else 0)
  {
  }

  lemma LookKeepsOnce(cfg: Config, s: Split, w: WorkerId, id: JobId, starts: nat)
    requires OnceInv(cfg, s, id, starts)
    ensures OnceInv(cfg, ApplyLook(cfg, s, w), id, starts + if StartsSplit(cfg, s, Look(w), id) then 1 else 0)
  {
    LookShape(cfg, s, w);
    FetchesStay(cfg, s.base.db, s.calls, ApplyLook(cfg, s, w).calls);
    if Looking(s, w) && MayLook(cfg, s, w) {
      var (db', result) := NextLook(cfg, s, w);
      LookKeepsCounts(cfg, s.base.db, Candidate(s, w), w, s.calls[w].at, s.base.now);
      if result.Taken? {
        TakenKeepsOnce(cfg, s.base.db, db', ApplyLook(cfg, s, w).calls, Candidate(s, w).id, id, starts);
      } else {
        NotTakenKeepsOnce(cfg, s.base.db, db', ApplyLook(cfg, s, w).calls, id, starts);
      }
    }
  }

  /** A start is the first one, a recovery, or acts on a row claimed since its fetch. */
  lemma SecondStartIsEither(cfg: Config, s: Split, step: SplitStep, id: JobId, starts: nat)
    requires OnceInv(cfg, s, id, starts) && StartsSplit(cfg, s, step, id)
    ensures starts >= 1 <==> RecoversSplit(cfg, s, step, id) || Overtakes(cfg, s, step, id)
  {
    LookKeepsCounts(cfg, s.base.db, Candidate(s, step.worker), step.worker, s.calls[step.worker].at, s.base.now);
  }

  lemma StepKeepsOnceInv(cfg: Config, s: Split, step: SplitStep, id: JobId, starts: nat)
    requires OnceInv(cfg, s, id, starts)
    ensures OnceInv(cfg, ApplySplit(cfg, s, step), id, starts + if StartsSplit(cfg, s, step, id) then 1 else 0)
  {
    match step
    case Plain(plain) => PlainKeepsOnce(cfg, s, plain, id, starts);
    case Fetch(w) => FetchKeepsOnce(cfg, s, w, id, starts);
    case Look(w) => LookKeepsOnce(cfg, s, w, id, starts);
  }

  lemma {:induction false} RunKeepsOnceInv(cfg: Config, start: Split, steps: seq<SplitStep>, id: JobId)
    requires SplitInitial(start)
    ensures OnceInv(cfg, SplitRun(cfg, start, steps), id, SplitStartsIn(cfg, start, steps, id))
    decreases |steps|
  {
    if steps != [] {
      var before := steps[..|steps| - 1];
      RunKeepsOnceInv(cfg, start, before, id);
      StepKeepsOnceInv(cfg, SplitRun(cfg, start, before), steps[|steps| - 1], id,
                       SplitStartsIn(cfg, start, before, id));
    }
  }

  /** Claim calls in several transactions: a job is executed at most once if and
      only if no call took it after fetching it running under an expired lease,
      and none took it after fetching it pending once it had been claimed. */
  lemma {:induction false} AtMostOnceIffNeitherRecoveredNorOvertaken(cfg: Config, start: Split, steps: seq<SplitStep>,
                                                                     id: JobId)
    requires SplitInitial(start)
    ensures SplitStartsIn(cfg, start, steps, id) <= 1
            <==> !SplitRecoveredIn(cfg, start, steps, id) && !OvertakenIn(cfg, start, steps, id)
    decreases |steps|
  {
    if steps != [] {
      var before, step := steps[..|steps| - 1], steps[|steps| - 1];
      AtMostOnceIffNeitherRecoveredNorOvertaken(cfg, start, before, id);
      RunKeepsOnceInv(cfg, start, before, id);
      var s := SplitRun(cfg, start, before);
      if StartsSplit(cfg, s, step, id) {
        SecondStartIsEither(cfg, s, step, id, SplitStartsIn(cfg, start, before, id));
      }
    }
  }

  /** The second kind happens only in a call that has failed a candidate before. */
  lemma OvertakingFollowsAFailure(cfg: Config, start: Split, steps: seq<SplitStep>, step: SplitStep, id: JobId)
    requires SplitInitial(start) && Overtakes(cfg, SplitRun(cfg, start, steps), step, id)
    ensures !NoneFailed(cfg, SplitRun(cfg, start, steps).calls[step.worker])
  {
    RunKeepsOnceInv(cfg, start, steps, id);
    RunKeepsLocks(cfg, start, steps);
  }
}
