/** One invariant for every interleaving. */
module SystemInvariant {
  import opened Domain
  import opened UsageService
  import opened SimulationJobService
  import opened WorkerService
  import opened Invariants
  import opened Evolution
  import opened Protocol
  import opened Executions

  ghost predicate Inv(cfg: Config, s: System) {
    DbOk(cfg, s.db, s.now) && ExecutionsOk(s) && CleanersOk(s)
  }

  /** Who claims in a step, and which row it may create. */
  function ClaimerOf(step: Step): Option<WorkerId> {
    match step case ClaimNext(w) => Some(w) case _ => None
  }

  function CreatedBy(step: Step): set<JobId> {
    match step case CreateRow(id, _) => {id} case _ => {}
  }

  /** Sound tables, legally evolved. */
  ghost predicate DbStepOk(cfg: Config, s: System, step: Step) {
    var s' := Apply(cfg, s, step);
    DbOk(cfg, s'.db, s'.now) && Continues(s.db, s'.db, ClaimerOf(step), CreatedBy(step))
  }

  lemma SameDbContinues(db: Db, db': Db, claimer: Option<WorkerId>, created: set<JobId>)
    requires db'.jobs == db.jobs && db'.hist == db.hist
    ensures Continues(db, db', claimer, created)
  {
  }

  /** `s'` has sound tables, legally evolved from those of `s`, at the same time. */
  ghost predicate SoundChange(cfg: Config, s: System, s': System, claimer: Option<WorkerId>, created: set<JobId>) {
    s'.now == s.now && DbOk(cfg, s'.db, s'.now) && Continues(s.db, s'.db, claimer, created)
  }

  lemma Became(cfg: Config, s: System, step: Step, s': System)
    requires Apply(cfg, s, step) == s' && SoundChange(cfg, s, s', ClaimerOf(step), CreatedBy(step))
    ensures DbStepOk(cfg, s, step)
  {
  }

  /** A step that leaves the tables and the clock alone. */
  lemma NoChange(cfg: Config, s: System, step: Step)
    requires Inv(cfg, s) && Apply(cfg, s, step).db == s.db && Apply(cfg, s, step).now == s.now
    ensures DbStepOk(cfg, s, step)
  {
    SameDbContinues(s.db, s.db, ClaimerOf(step), CreatedBy(step));
  }

  lemma FinishOwnRow(cfg: Config, s: System, w: WorkerId, exec: Execution, run: EngineRun)
    requires ExecutionOk(s.db, w, exec) && RowsOk(cfg, s.db, s.now)
    ensures Owns(s.db, exec.job, w) ==>
              var row := s.db.jobs[exec.job];
              && exec.user == row.user && exec.params == row.params
              && (OutcomeOf(cfg, exec, run).Generated? ==>
                   IsEngineOutput(cfg, row.params, OutcomeOf(cfg, exec, run).records))
  {
    if Owns(s.db, exec.job, w) {
      assert RowMatches(s.db.hist, exec.job, s.db.jobs[exec.job]);
    }
  }

  lemma FinishStep(cfg: Config, s: System, w: WorkerId, run: EngineRun, commit: Commit)
    requires Inv(cfg, s)
    ensures SoundChange(cfg, s, ApplyFinish(cfg, s, w, run, commit), None, {})
  {
    if WorkerAt(s, w).Busy? {
      var e := WorkerAt(s, w).exec;
      var outcome := OutcomeOf(cfg, e, run);
      FinishOwnRow(cfg, s, w, e, run);
      FinishKeeps(cfg, s.db, e.job, e.user, e.params.interactions, w, outcome, commit, s.now);
      FinishContinues(cfg, s.db, e.job, e.user, e.params.interactions, w, outcome, commit, s.now);
    } else {
      SameDbContinues(s.db, s.db, None, {});
    }
  }

  lemma BeatStep(cfg: Config, s: System, w: WorkerId)
    requires Inv(cfg, s)
    ensures SoundChange(cfg, s, ApplyBeat(s, w), None, {})
  {
    if WorkerAt(s, w).Busy? {
      BeatKeeps(cfg, s.db, WorkerAt(s, w).exec.job, w, s.now);
      BeatContinues(s.db, WorkerAt(s, w).exec.job, w, s.now);
    } else {
      SameDbContinues(s.db, s.db, None, {});
    }
  }

  lemma ClaimStep(cfg: Config, s: System, w: WorkerId)
    requires Inv(cfg, s)
    ensures SoundChange(cfg, s, ApplyClaim(cfg, s, w), Some(w), {})
  {
    ClaimShape(cfg, s, w);
    if WorkerAt(s, w).Idle? {
      ClaimKeeps(cfg, s.db, w, s.now);
      ClaimContinues(cfg, s.db, w, s.now);
    } else {
      SameDbContinues(s.db, s.db, Some(w), {});
    }
  }

  lemma ClaimBreaksStep(cfg: Config, s: System, w: WorkerId, inspected: nat)
    requires Inv(cfg, s)
    ensures SoundChange(cfg, s, ApplyClaimBreaks(cfg, s, w, inspected), None, {})
  {
    if WorkerAt(s, w).Idle? {
      BrokenClaimKeeps(cfg, s.db, w, s.now, inspected);
      BrokenClaimContinues(cfg, s.db, w, s.now, inspected);
    } else {
      SameDbContinues(s.db, s.db, None, {});
    }
  }

  lemma ReserveStep(cfg: Config, s: System, id: JobId, user: UserId, n: nat)
    requires Inv(cfg, s)
    ensures SoundChange(cfg, s, ApplyReserve(cfg, s, id, user, n), None, {})
  {
    if id !in s.db.hist.tickets && user in s.db.users {
      ReserveKeeps(cfg, s.db, id, user, n, s.now);
      ReserveContinues(cfg, s.db, id, user, n, s.now);
    } else {
      SameDbContinues(s.db, s.db, None, {});
    }
  }

  lemma CreateStep(cfg: Config, s: System, id: JobId, params: Params)
    requires Inv(cfg, s)
    ensures SoundChange(cfg, s, ApplyCreate(s, id, params), None, {id})
  {
    if id in s.db.hist.inFlight && params.interactions == s.db.hist.tickets[id].interactions {
      CreateKeeps(cfg, s.db, id, params, s.now);
      CreateContinues(s.db, id, params, s.now);
    } else {
      SameDbContinues(s.db, s.db, None, {id});
    }
  }

  lemma CreateFailsStep(cfg: Config, s: System, id: JobId)
    requires Inv(cfg, s)
    ensures SoundChange(cfg, s, ApplyCreateFails(cfg, s, id), None, {})
  {
    if id in s.db.hist.inFlight {
      CreateFailsKeeps(cfg, s.db, id, s.now);
      ReleaseContinues(cfg, s.db, id, s.db.hist.tickets[id], s.now);
    } else {
      SameDbContinues(s.db, s.db, None, {});
    }
  }

  lemma ReleaseContinues(cfg: Config, db: Db, id: JobId, t: Ticket, now: Time)
    ensures Continues(db, Release(cfg, db, id, t.user, t.interactions, now), None, {})
  {
  }

  lemma DeleteStep(cfg: Config, s: System, caller: UserId, id: JobId)
    requires Inv(cfg, s)
    ensures SoundChange(cfg, s, ApplyDelete(cfg, s, caller, id), None, {})
  {
    DeleteKeeps(cfg, s.db, caller, id, s.now);
    DeleteContinues(cfg, s.db, caller, id, s.now);
  }

  lemma BatchGoes(cfg: Config, s: System, c: nat)
    requires Inv(cfg, s) && c in s.cleaners && s.cleaners[c].selected.Some?
    ensures var db' := RemoveRows(s.db, Remaining(s, c));
            DbOk(cfg, db', s.now) && Continues(s.db, db', None, {})
  {
    RemainingAreTerminal(s, c);
    RemoveTerminalKeeps(cfg, s.db, Remaining(s, c), s.now);
    RemoveContinues(s.db, Remaining(s, c));
  }

  lemma CleanStep(cfg: Config, s: System, c: nat)
    requires Inv(cfg, s)
    ensures SoundChange(cfg, s, ApplyDeleteBatch(s, c), None, {})
  {
    if c in s.cleaners && s.cleaners[c].active && s.cleaners[c].selected.Some? {
      BatchGoes(cfg, s, c);
    } else {
      SameDbContinues(s.db, s.db, None, {});
    }
  }

  lemma TickStep(cfg: Config, s: System, to: Time)
    requires Inv(cfg, s) && MonotonePeriod(cfg)
    ensures DbStepOk(cfg, s, Tick(to))
  {
    if to >= s.now {
      ClockKeeps(cfg, s.db, s.now, to);
    }
    SameDbContinues(s.db, s.db, None, {});
  }

  lemma SetActiveStep(cfg: Config, s: System, user: UserId, active: bool)
    requires Inv(cfg, s)
    ensures DbStepOk(cfg, s, SetActive(user, active))
  {
    if user in s.db.users {
      SetActiveKeeps(cfg, s.db, user, active, s.now);
      SameDbContinues(s.db, Apply(cfg, s, SetActive(user, active)).db, None, {});
    } else {
      NoChange(cfg, s, SetActive(user, active));
    }
  }

  lemma QuietStep(cfg: Config, s: System, step: Step)
    requires Inv(cfg, s) && (step.Crash? || step.StartCleaner? || step.SelectBatch? || step.CleanerFails?)
    ensures DbStepOk(cfg, s, step)
  {
    KeepsTables(cfg, s, step);
    NoChange(cfg, s, step);
  }

  lemma KeepsTables(cfg: Config, s: System, step: Step)
    requires step.Crash? || step.StartCleaner? || step.SelectBatch? || step.CleanerFails?
    ensures Apply(cfg, s, step).db == s.db && Apply(cfg, s, step).now == s.now
  {
  }

  lemma UserOrClockStep(cfg: Config, s: System, step: Step)
    requires Inv(cfg, s) && MonotonePeriod(cfg) && (step.Tick? || step.SetActive?)
    ensures DbStepOk(cfg, s, step)
  {
    match step {
      case Tick(to) => TickStep(cfg, s, to);
      case SetActive(user, active) => SetActiveStep(cfg, s, user, active);
    }
  }

  lemma ClaimNextOk(cfg: Config, s: System, step: Step)
    requires Inv(cfg, s) && step.ClaimNext?
    ensures DbStepOk(cfg, s, step)
  {
    ClaimStep(cfg, s, step.worker);
    ClaimNextIs(cfg, s, step);
    Became(cfg, s, step, ApplyClaim(cfg, s, step.worker));
  }

  lemma ClaimBreaksOk(cfg: Config, s: System, step: Step)
    requires Inv(cfg, s) && step.ClaimBreaks?
    ensures DbStepOk(cfg, s, step)
  {
    ClaimBreaksStep(cfg, s, step.worker, step.inspected);
    ClaimBreaksIs(cfg, s, step);
    Became(cfg, s, step, ApplyClaimBreaks(cfg, s, step.worker, step.inspected));
  }

  lemma FinishJobOk(cfg: Config, s: System, step: Step)
    requires Inv(cfg, s) && step.FinishJob?
    ensures DbStepOk(cfg, s, step)
  {
    FinishStep(cfg, s, step.worker, step.run, step.commit);
    FinishJobIs(cfg, s, step);
    Became(cfg, s, step, ApplyFinish(cfg, s, step.worker, step.run, step.commit));
  }

  lemma BeatOk(cfg: Config, s: System, step: Step)
    requires Inv(cfg, s) && step.Beat?
    ensures DbStepOk(cfg, s, step)
  {
    BeatStep(cfg, s, step.worker);
    BeatIs(cfg, s, step);
    Became(cfg, s, step, ApplyBeat(s, step.worker));
  }

  lemma DeleteBatchOk(cfg: Config, s: System, step: Step)
    requires Inv(cfg, s) && step.DeleteBatch?
    ensures DbStepOk(cfg, s, step)
  {
    CleanStep(cfg, s, step.cleaner);
    DeleteBatchIs(cfg, s, step);
    Became(cfg, s, step, ApplyDeleteBatch(s, step.cleaner));
  }

  lemma ReserveQuotaOk(cfg: Config, s: System, step: Step)
    requires Inv(cfg, s) && step.ReserveQuota?
    ensures DbStepOk(cfg, s, step)
  {
    ReserveStep(cfg, s, step.id, step.user, step.interactions);
    ReserveQuotaIs(cfg, s, step);
    Became(cfg, s, step, ApplyReserve(cfg, s, step.id, step.user, step.interactions));
  }

  lemma CreateRowOk(cfg: Config, s: System, step: Step)
    requires Inv(cfg, s) && step.CreateRow?
    ensures DbStepOk(cfg, s, step)
  {
    CreateStep(cfg, s, step.id, step.params);
    CreateRowIs(cfg, s, step);
    Became(cfg, s, step, ApplyCreate(s, step.id, step.params));
  }

  lemma CreateFailsOk(cfg: Config, s: System, step: Step)
    requires Inv(cfg, s) && step.CreateFails?
    ensures DbStepOk(cfg, s, step)
  {
    CreateFailsStep(cfg, s, step.id);
    CreateFailsIs(cfg, s, step);
    Became(cfg, s, step, ApplyCreateFails(cfg, s, step.id));
  }

  lemma DeleteRowOk(cfg: Config, s: System, step: Step)
    requires Inv(cfg, s) && step.DeleteRow?
    ensures DbStepOk(cfg, s, step)
  {
    DeleteStep(cfg, s, step.caller, step.id);
    DeleteRowIs(cfg, s, step);
    Became(cfg, s, step, ApplyDelete(cfg, s, step.caller, step.id));
  }

  lemma WorkerStep(cfg: Config, s: System, step: Step)
    requires Inv(cfg, s)
    requires step.ClaimNext? || step.ClaimBreaks? || step.FinishJob? || step.Beat? || step.DeleteBatch?
    ensures DbStepOk(cfg, s, step)
  {
    if step.ClaimNext? {
      ClaimNextOk(cfg, s, step);
    } else if step.ClaimBreaks? {
      ClaimBreaksOk(cfg, s, step);
    } else if step.FinishJob? {
      FinishJobOk(cfg, s, step);
    } else if step.Beat? {
      BeatOk(cfg, s, step);
    } else {
      DeleteBatchOk(cfg, s, step);
    }
  }

  lemma ClientStep(cfg: Config, s: System, step: Step)
    requires Inv(cfg, s)
    requires step.ReserveQuota? || step.CreateRow? || step.CreateFails? || step.DeleteRow?
    ensures DbStepOk(cfg, s, step)
  {
    if step.ReserveQuota? {
      ReserveQuotaOk(cfg, s, step);
    } else if step.CreateRow? {
      CreateRowOk(cfg, s, step);
    } else if step.CreateFails? {
      CreateFailsOk(cfg, s, step);
    } else {
      DeleteRowOk(cfg, s, step);
    }
  }

  /** Every step keeps the tables sound and is a legal evolution of the rows. */
  lemma StepKeepsDb(cfg: Config, s: System, step: Step)
    requires Inv(cfg, s) && MonotonePeriod(cfg)
    ensures DbStepOk(cfg, s, step)
  {
    if step.Tick? || step.SetActive? {
      UserOrClockStep(cfg, s, step);
    } else if step.Crash? || step.StartCleaner? || step.SelectBatch? || step.CleanerFails? {
      QuietStep(cfg, s, step);
    } else if step.ClaimNext? || step.ClaimBreaks? || step.FinishJob? || step.Beat? || step.DeleteBatch? {
      WorkerStep(cfg, s, step);
    } else {
      ClientStep(cfg, s, step);
    }
  }

  lemma StepWorkers(cfg: Config, s: System, step: Step)
    requires !step.ClaimNext?
    ensures var s' := Apply(cfg, s, step);
            forall w: WorkerId :: w in s'.workers && s'.workers[w].Busy? ==>
                w in s.workers && s'.workers[w] == s.workers[w]
  {
  }

  lemma StepCleaners(cfg: Config, s: System, step: Step)
    requires !step.StartCleaner? && !step.SelectBatch? && !step.DeleteBatch? && !step.CleanerFails?
    ensures Apply(cfg, s, step).cleaners == s.cleaners && Apply(cfg, s, step).cleaned == s.cleaned
  {
  }

  lemma StepKeepsExecutions(cfg: Config, s: System, step: Step)
    requires Inv(cfg, s) && MonotonePeriod(cfg)
    ensures ExecutionsOk(Apply(cfg, s, step))
  {
    var s' := Apply(cfg, s, step);
    StepKeepsDb(cfg, s, step);
    if step.ClaimNext? {
      if WorkerAt(s, step.worker).Idle? {
        ClaimShape(cfg, s, step.worker);
        ClaimExecutions(cfg, s, step.worker);
      }
    } else {
      StepWorkers(cfg, s, step);
      ExecutionsSurvive(s, s', CreatedBy(step));
    }
  }

  lemma SelectKeepsCleaners(cfg: Config, s: System, step: Step)
    requires Inv(cfg, s) && step.SelectBatch?
    ensures CleanersOk(Apply(cfg, s, step))
  {
    SelectBatchIs(cfg, s, step);
    SelectCleaners(cfg, s, step.cleaner);
  }

  lemma DeleteKeepsCleaners(cfg: Config, s: System, step: Step)
    requires Inv(cfg, s) && step.DeleteBatch?
    ensures CleanersOk(Apply(cfg, s, step))
  {
    DeleteBatchIs(cfg, s, step);
    DeleteCleaners(s, step.cleaner);
  }

  lemma StartKeepsCleaners(cfg: Config, s: System, step: Step)
    requires Inv(cfg, s) && step.StartCleaner?
    ensures CleanersOk(Apply(cfg, s, step))
  {
    StartCleanerIs(cfg, s, step);
    StartOrFailCleaners(s, step.cleaner, step.cutoff, step.batchSize);
  }

  lemma FailKeepsCleaners(cfg: Config, s: System, step: Step)
    requires Inv(cfg, s) && step.CleanerFails?
    ensures CleanersOk(Apply(cfg, s, step))
  {
    CleanerFailsIs(cfg, s, step);
    StartOrFailCleaners(s, step.cleaner, 0, 0);
  }

  lemma StepKeepsCleaners(cfg: Config, s: System, step: Step)
    requires Inv(cfg, s) && MonotonePeriod(cfg)
    ensures CleanersOk(Apply(cfg, s, step))
  {
    if step.SelectBatch? {
      SelectKeepsCleaners(cfg, s, step);
    } else if step.DeleteBatch? {
      DeleteKeepsCleaners(cfg, s, step);
    } else if step.StartCleaner? {
      StartKeepsCleaners(cfg, s, step);
    } else if step.CleanerFails? {
      FailKeepsCleaners(cfg, s, step);
    } else {
      StepKeepsDb(cfg, s, step);
      StepCleaners(cfg, s, step);
      CleanersSurvive(s, Apply(cfg, s, step), ClaimerOf(step), CreatedBy(step));
    }
  }

  lemma StepKeepsInv(cfg: Config, s: System, step: Step)
    requires Inv(cfg, s) && MonotonePeriod(cfg)
    ensures Inv(cfg, Apply(cfg, s, step))
  {
    StepKeepsDb(cfg, s, step);
    StepKeepsExecutions(cfg, s, step);
    StepKeepsCleaners(cfg, s, step);
  }

  lemma InitialInv(cfg: Config, s: System)
    requires Initial(s)
    ensures Inv(cfg, s)
  {
    EmptyDbOk(cfg, s.db, s.now);
    assert DeletedCounts(s.cleaners) == map[];
  }

  /** The invariant holds throughout every run from a state that has it. */
  lemma {:induction false} RunKeepsInv(cfg: Config, s: System, steps: seq<Step>)
    requires Inv(cfg, s) && MonotonePeriod(cfg)
    ensures Inv(cfg, Run(cfg, s, steps))
    decreases |steps|
  {
    if steps != [] {
      RunKeepsInv(cfg, s, steps[..|steps| - 1]);
      StepKeepsInv(cfg, Run(cfg, s, steps[..|steps| - 1]), steps[|steps| - 1]);
    }
  }

  ghost predicate Reachable(cfg: Config, s: System) {
    exists start: System, steps: seq<Step> :: Initial(start) && Run(cfg, start, steps) == s
  }

  lemma ReachableInv(cfg: Config, s: System)
    requires Reachable(cfg, s) && MonotonePeriod(cfg)
    ensures Inv(cfg, s)
  {
    var start, steps :| Initial(start) && Run(cfg, start, steps) == s;
    InitialInv(cfg, start);
    RunKeepsInv(cfg, start, steps);
  }
}
