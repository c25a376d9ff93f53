/** Claim calls in several transactions keep the invariant of the protocol as
    long as every look that acts finds its row as it was fetched. */
module SplitInvariant {
  import opened Domain
  import opened SimulationJobService
  import opened WorkerService
  import opened ClaimTheorem
  import opened Invariants
  import opened Evolution
  import opened Protocol
  import opened Executions
  import opened SystemInvariant
  import opened SplitClaim
  import opened SplitRuns

  /** The step gives up or takes a row that is no longer the one fetched. */
  predicate Stale(cfg: Config, s: Split, step: SplitStep) {
    && step.Look? && Looking(s, step.worker)
    && !NextLook(cfg, s, step.worker).1.PassedOver? && !Unchanged(s.base.db, Candidate(s, step.worker))
  }

  predicate NeverStale(cfg: Config, s: Split, steps: seq<SplitStep>) {
    if steps == [] then true else
    var before := steps[..|steps| - 1];
    NeverStale(cfg, s, before) && !Stale(cfg, SplitRun(cfg, s, before), steps[|steps| - 1])
  }

  /** A fetched row is a sound candidate of its time, and has evolved soundly. */
  ghost predicate FetchOk(cfg: Config, db: Db, seen: Seen, at: Time) {
    && RowOk(cfg, seen.row, at) && Eligible(cfg, seen.row, at) && Evolved(cfg, db, seen, at)
    && seen.id in db.hist.submitted
  }

  ghost predicate FetchesOk(cfg: Config, db: Db, calls: map<WorkerId, Call>, now: Time) {
    forall w :: w in calls ==>
      && calls[w].at <= now
      && forall i :: 0 <= i < |calls[w].seen| ==> FetchOk(cfg, db, calls[w].seen[i], calls[w].at)
  }

  /** A worker in a call runs nothing. */
  ghost predicate CallersIdle(s: Split) {
    forall w :: w in s.calls ==> WorkerAt(s.base, w).Idle?
  }

  ghost predicate SplitInv(cfg: Config, s: Split) {
    Inv(cfg, s.base) && FetchesOk(cfg, s.base.db, s.calls, s.base.now) && CallersIdle(s)
  }

  // ---- Steps of the protocol ----

  /** A row stays, ends, or is refreshed by its owner now. */
  predicate Settles(j: Job, j': Job, now: Time) {
    || j' == j
    || j'.status.Terminal()
    || (j.status.Running? && j'.status.Running? && j'.heartbeatAt == Some(now))
  }

  ghost predicate RowsSettle(db: Db, db': Db, now: Time) {
    forall id :: id in db.jobs && id in db'.jobs ==> Settles(db.jobs[id], db'.jobs[id], now)
  }

  lemma FinishSettles(cfg: Config, s: System, w: WorkerId, run: EngineRun, commit: Commit)
    ensures RowsSettle(s.db, ApplyFinish(cfg, s, w, run, commit).db, s.now)
  {
  }

  lemma BeatSettles(s: System, w: WorkerId)
    ensures RowsSettle(s.db, ApplyBeat(s, w).db, s.now)
  {
  }

  lemma DeleteSettles(cfg: Config, s: System, caller: UserId, id: JobId)
    ensures RowsSettle(s.db, ApplyDelete(cfg, s, caller, id).db, s.now)
  {
  }

  lemma CreateSettles(s: System, id: JobId, params: Params)
    requires IdsOk(s.db)
    ensures RowsSettle(s.db, ApplyCreate(s, id, params).db, s.now)
  {
  }

  lemma RestSettles(cfg: Config, s: System, step: Step)
    requires !step.ClaimNext? && !step.ClaimBreaks? && !step.FinishJob? && !step.Beat? && !step.DeleteRow?
    requires !step.CreateRow?
    ensures Apply(cfg, s, step).db.jobs == s.db.jobs - (s.db.jobs.Keys - Apply(cfg, s, step).db.jobs.Keys)
  {
  }

  lemma PlainSettles(cfg: Config, s: System, step: Step)
    requires !step.ClaimNext? && !step.ClaimBreaks? && IdsOk(s.db)
    ensures RowsSettle(s.db, Apply(cfg, s, step).db, s.now)
  {
    if step.FinishJob? {
      FinishJobIs(cfg, s, step);
      FinishSettles(cfg, s, step.worker, step.run, step.commit);
    } else if step.Beat? {
      BeatIs(cfg, s, step);
      BeatSettles(s, step.worker);
    } else if step.DeleteRow? {
      DeleteRowIs(cfg, s, step);
      DeleteSettles(cfg, s, step.caller, step.id);
    } else if step.CreateRow? {
      CreateRowIs(cfg, s, step);
      CreateSettles(s, step.id, step.params);
    } else {
      RestSettles(cfg, s, step);
    }
  }

  lemma EvolvedStays(cfg: Config, db: Db, db': Db, seen: Seen, at: Time, now: Time, created: set<JobId>)
    requires FetchOk(cfg, db, seen, at) && at <= now && RowsOk(cfg, db, now)
    requires Continues(db, db', None, created) && RowsSettle(db, db', now)
    ensures FetchOk(cfg, db', seen, at)
  {
    if seen.id in db'.jobs && seen.id in db.jobs {
      assert RowOk(cfg, db.jobs[seen.id], now);
      assert Settles(db.jobs[seen.id], db'.jobs[seen.id], now);
      assert SameIdentity(db.jobs[seen.id], db'.jobs[seen.id]);
    }
  }

  lemma FewerFetches(cfg: Config, db: Db, calls: map<WorkerId, Call>, calls': map<WorkerId, Call>, now: Time)
    requires FetchesOk(cfg, db, calls, now) && SameFetches(calls, calls')
    ensures FetchesOk(cfg, db, calls', now)
  {
  }

  lemma PlainKeepsFetches(cfg: Config, s: Split, step: Step)
    requires SplitInv(cfg, s) && MonotonePeriod(cfg) && !step.ClaimNext? && !step.ClaimBreaks?
    ensures var base := Apply(cfg, s.base, step);
            FetchesOk(cfg, base.db, s.calls, base.now)
  {
    var base := Apply(cfg, s.base, step);
    StepKeepsDb(cfg, s.base, step);
    PlainSettles(cfg, s.base, step);
    forall w, i | w in s.calls && 0 <= i < |s.calls[w].seen|
      ensures FetchOk(cfg, base.db, s.calls[w].seen[i], s.calls[w].at)
    {
      EvolvedStays(cfg, s.base.db, base.db, s.calls[w].seen[i], s.calls[w].at, s.base.now, CreatedBy(step));
    }
    TimeGoesOn(cfg, s.base, step);
  }

  lemma TimeGoesOn(cfg: Config, s: System, step: Step)
    ensures Apply(cfg, s, step).now >= s.now
  {
  }

  lemma PlainKeepsIdle(cfg: Config, s: Split, step: Step)
    requires CallersIdle(s)
    ensures CallersIdle(ApplyPlain(cfg, s, step))
  {
    if !step.ClaimNext? && !step.ClaimBreaks? {
      StepWorkers(cfg, s.base, step);
    }
  }

  lemma PlainShape(cfg: Config, s: Split, step: Step)
    ensures var s' := ApplyPlain(cfg, s, step);
            s' == s || (!step.ClaimNext? && !step.ClaimBreaks? && s'.base == Apply(cfg, s.base, step)
                        && SameFetches(s.calls, s'.calls))
  {
  }

  lemma PlainKeepsSplitInv(cfg: Config, s: Split, step: Step)
    requires SplitInv(cfg, s) && MonotonePeriod(cfg)
    ensures SplitInv(cfg, ApplyPlain(cfg, s, step))
  {
    var s' := ApplyPlain(cfg, s, step);
    PlainShape(cfg, s, step);
    if s' != s {
      StepKeepsInv(cfg, s.base, step);
      PlainKeepsFetches(cfg, s, step);
      FewerFetches(cfg, s'.base.db, s.calls, s'.calls, s'.base.now);
      PlainKeepsIdle(cfg, s, step);
    }
  }

  // ---- Fetches ----

  lemma FetchedRowOk(cfg: Config, db: Db, locked: set<JobId>, now: Time, seen: Seen)
    requires RowsOk(cfg, db, now) && seen in FetchRows(cfg, db.jobs, locked, now)
    ensures FetchOk(cfg, db, seen, now)
  {
    FetchedAreRows(cfg, db.jobs, locked, now);
    assert RowOk(cfg, db.jobs[seen.id], now) && RowMatches(db.hist, seen.id, db.jobs[seen.id]);
  }

  lemma FetchKeepsFetches(cfg: Config, db: Db, calls: map<WorkerId, Call>, w: WorkerId, locked: set<JobId>, now: Time)
    requires RowsOk(cfg, db, now) && FetchesOk(cfg, db, calls, now)
    ensures FetchesOk(cfg, db, calls[w := Call(FetchRows(cfg, db.jobs, locked, now), 0, now, true)], now)
  {
    forall seen | seen in FetchRows(cfg, db.jobs, locked, now) ensures FetchOk(cfg, db, seen, now) {
      FetchedRowOk(cfg, db, locked, now, seen);
    }
  }

  lemma FetchKeepsSplitInv(cfg: Config, s: Split, w: WorkerId)
    requires SplitInv(cfg, s)
    ensures SplitInv(cfg, ApplyFetch(cfg, s, w))
  {
    FetchKeepsFetches(cfg, s.base.db, s.calls, w, Locked(s.calls), s.base.now);
  }

  // ---- Looks ----

  /** The tables after a look that is not stale are sound and legally evolved. */
  ghost predicate SoundLook(cfg: Config, db: Db, db': Db, result: LookResult, w: WorkerId, now: Time) {
    DbOk(cfg, db', now) && Continues(db, db', if result.Taken? then Some(w) else None, {})
  }

  lemma GivenUpContinues(cfg: Config, db: Db, id: JobId, at: Time, now: Time)
    requires id in db.jobs && !db.jobs[id].status.Terminal()
    ensures Continues(db, GivenUpDb(cfg, db, id, db.jobs[id], at, now), None, {})
  {
    var job := db.jobs[id];
    FailureMoves(job, DoomCode(job), at, None);
    PutRowContinues(db, GivenUpDb(cfg, db, id, job, at, now), id, FailedRow(job, DoomCode(job), at));
  }

  lemma TakenContinues(db: Db, id: JobId, w: WorkerId, at: Time)
    requires id in db.jobs && !db.jobs[id].status.Terminal() && db.jobs[id].attempts < db.jobs[id].maxAttempts
    ensures Continues(db, PutRow(db, id, ClaimedRow(db.jobs[id], w, at)), Some(w), {})
  {
    ClaimMoves(db.jobs[id], w, at);
  }

  lemma GivingUpIsSound(cfg: Config, db: Db, id: JobId, w: WorkerId, at: Time, now: Time)
    requires DbOk(cfg, db, now) && id in db.jobs && RowOk(cfg, db.jobs[id], at) && at <= now
    requires !db.jobs[id].status.Terminal()
    ensures SoundLook(cfg, db, GivenUpDb(cfg, db, id, db.jobs[id], at, now), GivenUp, w, now)
  {
    FailKeeps(cfg, db, id, DoomCode(db.jobs[id]), at, now);
    GivenUpContinues(cfg, db, id, at, now);
  }

  lemma SparesAttempts(cfg: Config, job: Job, at: Time)
    requires RowOk(cfg, job, at) && !job.status.Terminal() && !Exhausted(job)
    ensures job.attempts < job.maxAttempts
  {
  }

  lemma TakingIsSound(cfg: Config, db: Db, id: JobId, w: WorkerId, at: Time, now: Time)
    requires DbOk(cfg, db, now) && id in db.jobs && RowOk(cfg, db.jobs[id], at) && at <= now
    requires !db.jobs[id].status.Terminal() && !Exhausted(db.jobs[id])
    requires HasCapacity(db.users, db.jobs, db.jobs[id].user, if db.jobs[id].status.Running? then {id} else {})
    ensures SoundLook(cfg, db, PutRow(db, id, ClaimedRow(db.jobs[id], w, at)), Taken, w, now)
  {
    AssignKeeps(cfg, db, id, w, at, now);
    SparesAttempts(cfg, db.jobs[id], at);
    TakenContinues(db, id, w, at);
  }

  /** A row that is gone, terminal, on a later attempt or as before has evolved soundly. */
  lemma PutKeepsFetch(cfg: Config, db: Db, db': Db, id: JobId, row: Job, seen: Seen, when: Time, now: Time)
    requires FetchOk(cfg, db, seen, when) && id in db.jobs && db'.jobs == db.jobs[id := row]
    requires db'.hist.submitted == db.hist.submitted && SameIdentity(db.jobs[id], row) && RowOk(cfg, row, now)
    requires (row.status.Terminal() && row.attempts == db.jobs[id].attempts) || db.jobs[id].attempts < row.attempts
    ensures FetchOk(cfg, db', seen, when)
  {
  }

  lemma LookIsSound(cfg: Config, s: Split, w: WorkerId)
    requires SplitInv(cfg, s) && Looking(s, w) && !Stale(cfg, s, Look(w)) && !NextLook(cfg, s, w).1.PassedOver?
    ensures var (db', result) := NextLook(cfg, s, w);
            SoundLook(cfg, s.base.db, db', result, w, s.base.now) && !result.Vanished?
  {
    var db, seen, at, now := s.base.db, Candidate(s, w), s.calls[w].at, s.base.now;
    assert FetchOk(cfg, db, seen, at);
    LookAtUnchanged(cfg, db, seen, w, at, now);
    if NextLook(cfg, s, w).1.GivenUp? {
      GivingUpIsSound(cfg, db, seen.id, w, at, now);
    } else {
      TakingIsSound(cfg, db, seen.id, w, at, now);
    }
  }

  lemma LookKeepsFetches(cfg: Config, s: Split, w: WorkerId)
    requires SplitInv(cfg, s) && Looking(s, w) && !Stale(cfg, s, Look(w)) && !NextLook(cfg, s, w).1.PassedOver?
    ensures FetchesOk(cfg, NextLook(cfg, s, w).0, s.calls, s.base.now)
  {
    var db, looked, now := s.base.db, Candidate(s, w), s.base.now;
    var db' := NextLook(cfg, s, w).0;
    LookIsSound(cfg, s, w);
    LookAtUnchanged(cfg, db, looked, w, s.calls[w].at, now);
    assert RowOk(cfg, db'.jobs[looked.id], now);
    forall v, i | v in s.calls && 0 <= i < |s.calls[v].seen|
      ensures FetchOk(cfg, db', s.calls[v].seen[i], s.calls[v].at)
    {
      PutKeepsFetch(cfg, db, db', looked.id, db'.jobs[looked.id], s.calls[v].seen[i], s.calls[v].at, now);
    }
  }

  lemma OthersSurviveTaking(s: System, id: JobId, w: WorkerId, row: Job)
    requires ExecutionsOk(s) && IdsOk(s.db) && id in s.db.jobs && row.attempts == s.db.jobs[id].attempts + 1
    requires IdsOk(PutRow(s.db, id, row)) && Continues(s.db, PutRow(s.db, id, row), Some(w), {})
    ensures forall v :: v in s.workers && v != w && s.workers[v].Busy? ==>
              && ExecutionOk(PutRow(s.db, id, row), v, s.workers[v].exec)
              && (s.workers[v].exec.job == id ==> s.workers[v].exec.attempt < row.attempts)
  {
    var db' := PutRow(s.db, id, row);
    forall v | v in s.workers && v != w && s.workers[v].Busy?
      ensures ExecutionOk(db', v, s.workers[v].exec)
      ensures s.workers[v].exec.job == id ==> s.workers[v].exec.attempt < row.attempts
    {
      assert ExecutionOk(s.db, v, s.workers[v].exec);
      ExecutionSurvives(s.db, db', v, s.workers[v].exec, Some(w), {});
    }
  }

  /** The execution a look starts is sound and has an attempt of its own. */
  lemma TakenExecution(s: System, id: JobId, w: WorkerId, row: Job)
    requires ExecutionsOk(s) && IdsOk(s.db) && id in s.db.jobs && RowMatches(s.db.hist, id, s.db.jobs[id])
    requires SameIdentity(s.db.jobs[id], row) && row.attempts == s.db.jobs[id].attempts + 1
    requires row.status.Running? && row.worker == Some(w)
    requires IdsOk(PutRow(s.db, id, row)) && Continues(s.db, PutRow(s.db, id, row), Some(w), {})
    ensures ExecutionsOk(Employ(s, w, PutRow(s.db, id, row), id))
  {
    OthersSurviveTaking(s, id, w, row);
    assert ExecutionOk(PutRow(s.db, id, row), w, Execution(id, row.user, row.params, row.attempts));
  }

  lemma TakingKeepsExecutions(cfg: Config, s: Split, w: WorkerId)
    requires SplitInv(cfg, s) && Looking(s, w) && !Stale(cfg, s, Look(w)) && NextLook(cfg, s, w).1.Taken?
    ensures ExecutionsOk(Employ(s.base, w, NextLook(cfg, s, w).0, Candidate(s, w).id))
  {
    var db, seen, at := s.base.db, Candidate(s, w), s.calls[w].at;
    LookIsSound(cfg, s, w);
    LookAtUnchanged(cfg, db, seen, w, at, s.base.now);
    ClaimMoves(seen.row, w, at);
    TakenExecution(s.base, seen.id, w, ClaimedRow(seen.row, w, at));
  }

  lemma EmployKeepsCleaners(s: System, w: WorkerId, db': Db, id: JobId)
    requires CleanersOk(s) && Continues(s.db, db', Some(w), {})
    ensures CleanersOk(Employ(s, w, db', id))
    ensures Employ(s, w, db', id).db == db' && Employ(s, w, db', id).now == s.now
  {
    CleanersSurvive(s, Employ(s, w, db', id), Some(w), {});
  }

  lemma TakingKeepsInv(cfg: Config, s: Split, w: WorkerId)
    requires SplitInv(cfg, s) && Looking(s, w) && !Stale(cfg, s, Look(w)) && NextLook(cfg, s, w).1.Taken?
    ensures Inv(cfg, Employ(s.base, w, NextLook(cfg, s, w).0, Candidate(s, w).id))
  {
    LookIsSound(cfg, s, w);
    TakingKeepsExecutions(cfg, s, w);
    EmployKeepsCleaners(s.base, w, NextLook(cfg, s, w).0, Candidate(s, w).id);
  }

  lemma GivingUpKeepsInv(cfg: Config, s: Split, w: WorkerId)
    requires SplitInv(cfg, s) && Looking(s, w) && !Stale(cfg, s, Look(w)) && NextLook(cfg, s, w).1.GivenUp?
    ensures Inv(cfg, WithDb(s.base, NextLook(cfg, s, w).0))
  {
    var base' := WithDb(s.base, NextLook(cfg, s, w).0);
    LookIsSound(cfg, s, w);
    ExecutionsSurvive(s.base, base', {});
    CleanersSurvive(s.base, base', None, {});
  }

  /** What a look that is not stale leaves of the protocol's state. */
  lemma LookKeepsBase(cfg: Config, s: Split, w: WorkerId)
    requires SplitInv(cfg, s) && Looking(s, w) && MayLook(cfg, s, w) && !Stale(cfg, s, Look(w))
    ensures Inv(cfg, ApplyLook(cfg, s, w).base)
    ensures FetchesOk(cfg, ApplyLook(cfg, s, w).base.db, s.calls, s.base.now)
  {
    var result := NextLook(cfg, s, w).1;
    if result.PassedOver? {
    } else {
      LookIsSound(cfg, s, w);
      LookKeepsFetches(cfg, s, w);
      if result.Taken? {
        TakingKeepsInv(cfg, s, w);
      } else {
        GivingUpKeepsInv(cfg, s, w);
      }
    }
  }

  lemma LookKeepsIdle(cfg: Config, s: Split, w: WorkerId)
    requires CallersIdle(s)
    ensures CallersIdle(ApplyLook(cfg, s, w)) && ApplyLook(cfg, s, w).base.now == s.base.now
  {
  }

  lemma LookKeepsSplitInv(cfg: Config, s: Split, w: WorkerId)
    requires SplitInv(cfg, s) && !Stale(cfg, s, Look(w))
    ensures SplitInv(cfg, ApplyLook(cfg, s, w))
  {
    LookShape(cfg, s, w);
    LookKeepsIdle(cfg, s, w);
    if Looking(s, w) && MayLook(cfg, s, w) {
      LookKeepsBase(cfg, s, w);
    }
    FewerFetches(cfg, ApplyLook(cfg, s, w).base.db, s.calls, ApplyLook(cfg, s, w).calls, s.base.now);
  }

  // ---- Runs ----

  lemma SplitStepIs(cfg: Config, s: Split, step: SplitStep)
    ensures ApplySplit(cfg, s, step) ==
              if step.Plain? then ApplyPlain(cfg, s, step.step)
              else if step.Fetch? then ApplyFetch(cfg, s, step.worker)
              else ApplyLook(cfg, s, step.worker)
  {
  }

  lemma StepKeepsSplitInv(cfg: Config, s: Split, step: SplitStep)
    requires SplitInv(cfg, s) && MonotonePeriod(cfg) && !Stale(cfg, s, step)
    ensures SplitInv(cfg, ApplySplit(cfg, s, step))
  {
    SplitStepIs(cfg, s, step);
    if step.Plain? {
      PlainKeepsSplitInv(cfg, s, step.step);
    } else if step.Fetch? {
      FetchKeepsSplitInv(cfg, s, step.worker);
    } else {
      assert step == Look(step.worker);
      LookKeepsSplitInv(cfg, s, step.worker);
    }
  }

  lemma SplitInitialInv(cfg: Config, s: Split)
    requires SplitInitial(s)
    ensures SplitInv(cfg, s)
  {
    InitialInv(cfg, s.base);
  }

  /** A run in which no look acts on a row changed since its fetch keeps the
      invariant of the protocol, and with it all that follows from it. */
  lemma {:induction false} RunWithoutStaleLookKeepsInv(cfg: Config, start: Split, steps: seq<SplitStep>)
    requires SplitInitial(start) && MonotonePeriod(cfg) && NeverStale(cfg, start, steps)
    ensures SplitInv(cfg, SplitRun(cfg, start, steps))
    decreases |steps|
  {
    if steps == [] {
      SplitInitialInv(cfg, start);
    } else {
      RunWithoutStaleLookKeepsInv(cfg, start, steps[..|steps| - 1]);
      StepKeepsSplitInv(cfg, SplitRun(cfg, start, steps[..|steps| - 1]), steps[|steps| - 1]);
    }
  }

  /** In such a run a look that acts still does what one would do that reads the
      row again, up to the first time it finds its row changed. */
  lemma StaleIsDifferent(cfg: Config, start: Split, steps: seq<SplitStep>, w: WorkerId)
    requires SplitInitial(start) && MonotonePeriod(cfg) && NeverStale(cfg, start, steps)
    requires Looking(SplitRun(cfg, start, steps), w)
    requires !NextLook(cfg, SplitRun(cfg, start, steps), w).1.PassedOver?
    ensures var s := SplitRun(cfg, start, steps);
            NextLook(cfg, s, w) == LookAtCurrent(cfg, s.base.db, Candidate(s, w).id, w, s.calls[w].at, s.base.now)
            <==> !Stale(cfg, s, Look(w))
  {
    var s := SplitRun(cfg, start, steps);
    RunWithoutStaleLookKeepsInv(cfg, start, steps);
    assert FetchOk(cfg, s.base.db, Candidate(s, w), s.calls[w].at);
    FetchedRowIsAsGoodAsCurrentIffUnchanged(cfg, s.base.db, Candidate(s, w), w, s.calls[w].at, s.base.now);
  }
}
