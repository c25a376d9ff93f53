/** What the lease guarantees to the worker that took it, over whole runs. */
module LeaseTheorems {
  import opened Domain
  import opened WorkerService
  import opened Evolution
  import opened Protocol
  import opened Executions
  import opened SystemInvariant
  import opened QueueProgress
  import QuotaTheorems
  import ClaimTheorem

  /** `w` is at work on its attempt, and claimed the row or beat no earlier than `since`. */
  ghost predicate HoldsLease(s: System, w: WorkerId, e: Execution, since: Time) {
    && WorkerAt(s, w) == Busy(e) && Owner(s.db, w, e)
    && s.db.jobs[e.job].heartbeatAt.Some? && s.db.jobs[e.job].heartbeatAt.value >= since
  }

  /** The worker neither ends its execution nor dies. */
  predicate Undisturbed(step: Step, w: WorkerId) {
    !(step.FinishJob? && step.worker == w) && !(step.Crash? && step.worker == w)
  }

  lemma KeepsWorking(cfg: Config, s: System, step: Step, w: WorkerId)
    requires WorkerAt(s, w).Busy? && Undisturbed(step, w)
    ensures WorkerAt(Apply(cfg, s, step), w) == WorkerAt(s, w)
  {
    if step.ClaimNext? {
      ClaimShape(cfg, s, step.worker);
    }
  }

  lemma BeatRenews(cfg: Config, s: System, w: WorkerId, e: Execution, since: Time)
    requires HoldsLease(s, w, e, since) && since <= s.now
    ensures HoldsLease(Apply(cfg, s, Beat(w)), w, e, since)
  {
  }

  lemma ClaimSparesLease(cfg: Config, s: System, step: Step, w: WorkerId, e: Execution, since: Time)
    requires HoldsLease(s, w, e, since) && s.now <= since + cfg.leaseTimeout && (step.ClaimNext? || step.ClaimBreaks?)
    ensures RowStays(s, Apply(cfg, s, step), e.job)
  {
    CandidatesAreRows(cfg, s.db.jobs, s.now);
    assert !Eligible(cfg, s.db.jobs[e.job], s.now);
    ClaimSparesUnfetched(cfg, s, step, e.job);
  }

  lemma LeaseFrame(s: System, s': System, w: WorkerId, e: Execution, since: Time)
    requires HoldsLease(s, w, e, since) && WorkerAt(s', w) == WorkerAt(s, w) && RowStays(s, s', e.job)
    ensures HoldsLease(s', w, e, since)
  {
  }

  lemma OthersSpareLease(cfg: Config, s: System, step: Step, w: WorkerId, e: Execution, since: Time)
    requires Inv(cfg, s) && HoldsLease(s, w, e, since) && Undisturbed(step, w)
    requires !step.ClaimNext? && !step.ClaimBreaks? && !Quiet(step) && step != Beat(w)
    ensures RowStays(s, Apply(cfg, s, step), e.job)
  {
    if step.FinishJob? || step.Beat? {
      WorkersSpare(cfg, s, step, e.job);
    } else if step.DeleteBatch? {
      BatchSpares(cfg, s, step, e.job);
    } else if step.DeleteRow? {
      DeletionsSpare(cfg, s, step, e.job);
    } else {
      SubmissionsSpare(cfg, s, step, e.job);
    }
  }

  /** Before the lease runs out no step of anyone else takes the row away. */
  lemma StepKeepsLease(cfg: Config, s: System, step: Step, w: WorkerId, e: Execution, since: Time)
    requires Inv(cfg, s) && HoldsLease(s, w, e, since) && Undisturbed(step, w)
    requires since <= s.now <= since + cfg.leaseTimeout
    ensures HoldsLease(Apply(cfg, s, step), w, e, since)
  {
    if step == Beat(w) {
      BeatRenews(cfg, s, w, e, since);
    } else {
      KeepsWorking(cfg, s, step, w);
      if step.ClaimNext? || step.ClaimBreaks? {
        ClaimSparesLease(cfg, s, step, w, e, since);
      } else if Quiet(step) {
        QuietStepKeepsRows(cfg, s, step);
      } else {
        OthersSpareLease(cfg, s, step, w, e, since);
      }
      LeaseFrame(s, Apply(cfg, s, step), w, e, since);
    }
  }

  predicate AllUndisturbed(steps: seq<Step>, w: WorkerId) {
    steps == [] || (AllUndisturbed(steps[..|steps| - 1], w) && Undisturbed(steps[|steps| - 1], w))
  }

  lemma {:induction false} RunKeepsLease(cfg: Config, s: System, steps: seq<Step>, w: WorkerId, e: Execution,
                                         since: Time)
    requires Inv(cfg, s) && MonotonePeriod(cfg) && HoldsLease(s, w, e, since) && AllUndisturbed(steps, w)
    requires since <= s.now && Run(cfg, s, steps).now <= since + cfg.leaseTimeout
    ensures HoldsLease(Run(cfg, s, steps), w, e, since)
    decreases |steps|
  {
    if steps != [] {
      var before, last := steps[..|steps| - 1], steps[|steps| - 1];
      var mid := Run(cfg, s, before);
      QuotaTheorems.ClockOnlyAdvances(cfg, s, before);
      StepAdvances(cfg, mid, last);
      RunKeepsLease(cfg, s, before, w, e, since);
      RunKeepsInv(cfg, s, before);
      StepKeepsLease(cfg, mid, last, w, e, since);
    }
  }

  lemma StepAdvances(cfg: Config, s: System, step: Step)
    ensures s.now <= Apply(cfg, s, step).now
  {
    QuotaTheorems.ClockOnlyAdvances(cfg, s, [step]);
    RunOne(cfg, s, step);
  }

  lemma ClaimedRowIsOwned(cfg: Config, db: Db, w: WorkerId, now: Time, id: JobId)
    requires Claim(cfg, db, w, now).1 == Some(id)
    ensures id in db.jobs
    ensures var (j, db') := (db.jobs[id], Claim(cfg, db, w, now).0);
            && Owns(db', id, w) && db'.jobs[id].heartbeatAt == Some(now)
            && db'.jobs[id].user == j.user && db'.jobs[id].params == j.params && db'.jobs[id].attempts == j.attempts + 1
  {
    ClaimKeepsKeys(cfg, db, w, now);
    ClaimTheorem.EachRowAfterClaim(cfg, db, w, now, id);
  }

  lemma ClaimTakesLease(cfg: Config, s: System, w: WorkerId, id: JobId)
    requires WorkerAt(s, w).Idle? && Claim(cfg, s.db, w, s.now).1 == Some(id)
    ensures id in s.db.jobs
    ensures var row := s.db.jobs[id];
            HoldsLease(ApplyClaim(cfg, s, w), w, Execution(id, row.user, row.params, row.attempts + 1), s.now)
  {
    ClaimShape(cfg, s, w);
    ClaimedRowIsOwned(cfg, s.db, w, s.now, id);
  }

  lemma ClaimStepTakesLease(cfg: Config, s: System, w: WorkerId, id: JobId)
    requires WorkerAt(s, w).Idle? && Claim(cfg, s.db, w, s.now).1 == Some(id)
    ensures id in s.db.jobs
    ensures var row, taken := s.db.jobs[id], Apply(cfg, s, ClaimNext(w));
            taken.now == s.now && HoldsLease(taken, w, Execution(id, row.user, row.params, row.attempts + 1), s.now)
  {
    ClaimTakesLease(cfg, s, w, id);
    ClaimShape(cfg, s, w);
    assert Apply(cfg, s, ClaimNext(w)) == ApplyClaim(cfg, s, w);
  }

  /** The engine's output for `e` is committed. */
  ghost predicate Delivered(cfg: Config, before: System, after: System, e: Execution, entropy: int) {
    && e.job in after.db.jobs && after.db.usage == before.db.usage
    && after.db.jobs[e.job].status == Completed && after.db.jobs[e.job].attempts == e.attempt
    && after.db.jobs[e.job].data == Some(RunEngine(cfg, e.params, entropy))
  }

  lemma HolderDelivers(cfg: Config, s: System, w: WorkerId, e: Execution, since: Time, steps: seq<Step>, entropy: int,
                       ms: nat)
    requires Inv(cfg, s) && MonotonePeriod(cfg) && HoldsLease(s, w, e, since) && AllUndisturbed(steps, w)
    requires since <= s.now && Run(cfg, s, steps).now <= since + cfg.leaseTimeout
    ensures var late := Run(cfg, s, steps);
            Delivered(cfg, late, Apply(cfg, late, FinishJob(w, Produces(entropy, ms), Committed)), e, entropy)
  {
    RunKeepsLease(cfg, s, steps, w, e, since);
    OwnerDelivers(cfg, Run(cfg, s, steps), w, e, entropy, ms);
  }

  /** A worker that ends its execution before the lease it got with the claim
      has run out always delivers, whatever everybody else does meanwhile. */
  lemma PromptWorkerDelivers(cfg: Config, s: System, w: WorkerId, id: JobId, steps: seq<Step>, entropy: int, ms: nat)
    requires Reachable(cfg, s) && MonotonePeriod(cfg)
    requires WorkerAt(s, w).Idle? && Claim(cfg, s.db, w, s.now).1 == Some(id) && AllUndisturbed(steps, w)
    requires Run(cfg, Apply(cfg, s, ClaimNext(w)), steps).now <= s.now + cfg.leaseTimeout
    ensures id in s.db.jobs
    ensures var late := Run(cfg, Apply(cfg, s, ClaimNext(w)), steps);
            var row := s.db.jobs[id];
            Delivered(cfg, late, Apply(cfg, late, FinishJob(w, Produces(entropy, ms), Committed)),
                      Execution(id, row.user, row.params, row.attempts + 1), entropy)
  {
    ReachableInv(cfg, s);
    StepKeepsInv(cfg, s, ClaimNext(w));
    ClaimStepTakesLease(cfg, s, w, id);
    var row := s.db.jobs[id];
    HolderDelivers(cfg, Apply(cfg, s, ClaimNext(w)), w, Execution(id, row.user, row.params, row.attempts + 1), s.now,
        steps, entropy, ms);
  }

  lemma OwnerDelivers(cfg: Config, s: System, w: WorkerId, e: Execution, entropy: int, ms: nat)
    requires WorkerAt(s, w) == Busy(e) && Owner(s.db, w, e)
    ensures Delivered(cfg, s, Apply(cfg, s, FinishJob(w, Produces(entropy, ms), Committed)), e, entropy)
  {
  }
}
