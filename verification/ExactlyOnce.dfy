/** When a job is executed once, and when more often, if every claim call is one
    step; `SplitOnce` is about calls in several transactions. */
module ExactlyOnce {
  import opened Domain
  import opened WorkerService
  import opened Invariants
  import opened Evolution
  import opened Protocol
  import opened Executions
  import opened SystemInvariant
  import opened WorkTheorems
  import ClaimTheorem

  /** A claim takes `id` while it is running under an expired lease. */
  predicate Recovers(cfg: Config, s: System, step: Step, id: JobId) {
    && Starts(cfg, s, step, id)
    && id in s.db.jobs && s.db.jobs[id].status.Running? && LeaseExpired(cfg, s.db.jobs[id], s.now)
  }

  predicate RecoveredIn(cfg: Config, s: System, steps: seq<Step>, id: JobId) {
    if steps == [] then false else
    var before := steps[..|steps| - 1];
    RecoveredIn(cfg, s, before, id) || Recovers(cfg, Run(cfg, s, before), steps[|steps| - 1], id)
  }

  /** A claim either starts a pending job for the first time or recovers it. */
  lemma StartIsFirstOrRecovery(cfg: Config, s: System, step: Step, id: JobId)
    requires Inv(cfg, s) && Starts(cfg, s, step, id)
    ensures if AttemptsOf(s.db, id) == 0 then !Recovers(cfg, s, step, id) else Recovers(cfg, s, step, id)
  {
    ClaimKeepsKeys(cfg, s.db, step.worker, s.now);
    ClaimTheorem.EachRowAfterClaim(cfg, s.db, step.worker, s.now, id);
    AttemptsAgreeWithStatus(cfg, s, id);
  }

  lemma StepKeepsOnce(cfg: Config, s: System, step: Step, id: JobId, starts: nat, recovered: bool)
    requires Inv(cfg, s) && MonotonePeriod(cfg)
    requires AttemptsOf(s.db, id) == starts && (starts <= 1 <==> !recovered)
    ensures starts + (if Starts(cfg, s, step, id) then 1 else 0) <= 1 <==> !(recovered || Recovers(cfg, s, step, id))
  {
    if Starts(cfg, s, step, id) {
      StartIsFirstOrRecovery(cfg, s, step, id);
    }
  }

  /** A job is executed at most once in a run exactly when no claim of the run
      took it while it was running under an expired lease. */
  lemma {:induction false} AtMostOnceIffNeverRecovered(cfg: Config, start: System, steps: seq<Step>, id: JobId)
    requires Initial(start) && MonotonePeriod(cfg)
    ensures StartsIn(cfg, start, steps, id) <= 1 <==> !RecoveredIn(cfg, start, steps, id)
    decreases |steps|
  {
    if steps != [] {
      var before := steps[..|steps| - 1];
      AtMostOnceIffNeverRecovered(cfg, start, before, id);
      AttemptsAreStarts(cfg, start, before, id);
      InitialInv(cfg, start);
      RunKeepsInv(cfg, start, before);
      StepKeepsOnce(cfg, Run(cfg, start, before), steps[|steps| - 1], id, StartsIn(cfg, start, before, id),
                    RecoveredIn(cfg, start, before, id));
    }
  }

  /** If the job is running, its claim or last heartbeat is within the lease. */
  predicate LeaseLive(cfg: Config, s: System, id: JobId) {
    id in s.db.jobs && s.db.jobs[id].status.Running? ==> !LeaseExpired(cfg, s.db.jobs[id], s.now)
  }

  /** The owner is always in time: its outcome or a heartbeat lands before the
      lease runs out, at every moment of the run. */
  predicate LeaseKept(cfg: Config, s: System, steps: seq<Step>, id: JobId) {
    LeaseLive(cfg, Run(cfg, s, steps), id) && (steps == [] || LeaseKept(cfg, s, steps[..|steps| - 1], id))
  }

  lemma {:induction false} KeptMeansNeverRecovered(cfg: Config, s: System, steps: seq<Step>, id: JobId)
    requires LeaseKept(cfg, s, steps, id)
    ensures !RecoveredIn(cfg, s, steps, id)
    decreases |steps|
  {
    if steps != [] {
      KeptMeansNeverRecovered(cfg, s, steps[..|steps| - 1], id);
      assert LeaseLive(cfg, Run(cfg, s, steps[..|steps| - 1]), id);
    }
  }

  /** With the lease always kept a job is executed at most once; and exactly
      once as soon as it has an owner, so every result stems from the one
      execution there was. */
  lemma KeptLeaseMeansExactlyOnce(cfg: Config, start: System, steps: seq<Step>, id: JobId)
    requires Initial(start) && MonotonePeriod(cfg) && LeaseKept(cfg, start, steps, id)
    ensures var s := Run(cfg, start, steps);
            && StartsIn(cfg, start, steps, id) <= 1
            && (Known(s.db, id) && LastRow(s.db, id).worker.Some? ==> StartsIn(cfg, start, steps, id) == 1)
            && (Known(s.db, id) && LastRow(s.db, id).status.Completed? ==> StartsIn(cfg, start, steps, id) == 1)
  {
    KeptMeansNeverRecovered(cfg, start, steps, id);
    AtMostOnceIffNeverRecovered(cfg, start, steps, id);
    AttemptsAreStarts(cfg, start, steps, id);
    InitialInv(cfg, start);
    RunKeepsInv(cfg, start, steps);
    if Known(Run(cfg, start, steps).db, id) {
      OwnedWasAttempted(cfg, Run(cfg, start, steps), id);
    }
  }

  lemma OwnedWasAttempted(cfg: Config, s: System, id: JobId)
    requires Inv(cfg, s) && Known(s.db, id)
    ensures LastRow(s.db, id).worker.Some? || LastRow(s.db, id).status.Completed? ==> AttemptsOf(s.db, id) >= 1
  {
    assert RowOk(cfg, LastRow(s.db, id), s.now);
  }
}
