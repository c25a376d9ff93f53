/** What still holds of claim calls in several transactions when no look acts on
    a row that changed since its fetch. */
module SplitResults {
  import opened Domain
  import opened Ledger
  import opened Invariants
  import opened Protocol
  import opened SystemInvariant
  import opened QuotaTheorems
  import opened FencingTheorems
  import opened SplitRuns
  import opened SplitOnce
  import opened SplitInvariant

  lemma SplitCountersAreConserved(cfg: Config, start: Split, steps: seq<SplitStep>, user: UserId)
    requires SplitInitial(start) && MonotonePeriod(cfg) && NeverStale(cfg, start, steps)
    ensures var db := SplitRun(cfg, start, steps).base.db;
            Conserved(db.hist.tickets, Counted(db), db.usage, user) <==> !HasLate(db, user)
  {
    var s := SplitRun(cfg, start, steps).base;
    RunWithoutStaleLookKeepsInv(cfg, start, steps);
    ConservedIffNothingLate(s.db.hist.tickets, Counted(s.db), s.db.hist.late, s.db.usage, cfg.period(s.now), user);
  }

  lemma SplitAttemptsAreExclusive(cfg: Config, start: Split, steps: seq<SplitStep>, v: WorkerId, w: WorkerId)
    requires SplitInitial(start) && MonotonePeriod(cfg) && NeverStale(cfg, start, steps) && v != w
    ensures var s := SplitRun(cfg, start, steps).base;
            WorkerAt(s, v).Busy? && WorkerAt(s, w).Busy? && WorkerAt(s, v).exec.job == WorkerAt(s, w).exec.job ==>
              WorkerAt(s, v).exec.attempt != WorkerAt(s, w).exec.attempt
  {
    RunWithoutStaleLookKeepsInv(cfg, start, steps);
  }

  // ---- Outcomes ----

  lemma PlainKeepsFinal(cfg: Config, s: Split, step: Step, id: JobId)
    requires SplitInv(cfg, s) && MonotonePeriod(cfg) && FinalIn(s.base.db, id)
    ensures StaysFinal(s.base.db, ApplyPlain(cfg, s, step).base.db, id)
  {
    PlainShape(cfg, s, step);
    if ApplyPlain(cfg, s, step) != s {
      StepKeepsDb(cfg, s.base, step);
      FinalStep(s.base.db, Apply(cfg, s.base, step).db, ClaimerOf(step), CreatedBy(step), id);
    }
  }

  lemma LookKeepsFinal(cfg: Config, s: Split, w: WorkerId, id: JobId)
    requires SplitInv(cfg, s) && FinalIn(s.base.db, id) && !Stale(cfg, s, Look(w))
    ensures StaysFinal(s.base.db, ApplyLook(cfg, s, w).base.db, id)
  {
    LookShape(cfg, s, w);
    if Looking(s, w) && MayLook(cfg, s, w) && !NextLook(cfg, s, w).1.PassedOver? {
      var (db', result) := NextLook(cfg, s, w);
      LookIsSound(cfg, s, w);
      FinalStep(s.base.db, db', if result.Taken? then Some(w) else None, {}, id);
    }
  }

  /** An outcome is never touched again as long as no look is stale. */
  lemma {:induction false} SplitTerminalRowsAreFinal(cfg: Config, start: Split, before: seq<SplitStep>,
                                                     after: seq<SplitStep>, id: JobId)
    requires SplitInitial(start) && MonotonePeriod(cfg) && NeverStale(cfg, start, before + after)
    requires FinalIn(SplitRun(cfg, start, before).base.db, id)
    ensures StaysFinal(SplitRun(cfg, start, before).base.db, SplitRun(cfg, start, before + after).base.db, id)
    decreases |after|
  {
    if after == [] {
      assert before + after == before;
    } else {
      var most, step := after[..|after| - 1], after[|after| - 1];
      assert (before + after)[..|before + after| - 1] == before + most;
      SplitTerminalRowsAreFinal(cfg, start, before, most, id);
      var s := SplitRun(cfg, start, before + most);
      RunWithoutStaleLookKeepsInv(cfg, start, before + most);
      SplitStepIs(cfg, s, step);
      if step.Plain? {
        PlainKeepsFinal(cfg, s, step.step, id);
      } else if step.Look? {
        assert step == Look(step.worker);
        LookKeepsFinal(cfg, s, step.worker, id);
      }
    }
  }

  // ---- Executions ----

  lemma OvertakingIsStale(cfg: Config, s: Split, step: SplitStep, id: JobId, starts: nat)
    requires OnceInv(cfg, s, id, starts) && Overtakes(cfg, s, step, id)
    ensures Stale(cfg, s, step)
  {
    assert CopyOk(s.base.db, Candidate(s, step.worker));
  }

  lemma {:induction false} NeverStaleNeverOvertaken(cfg: Config, start: Split, steps: seq<SplitStep>, id: JobId)
    requires SplitInitial(start) && NeverStale(cfg, start, steps)
    ensures !OvertakenIn(cfg, start, steps, id)
    decreases |steps|
  {
    if steps != [] {
      var before := steps[..|steps| - 1];
      NeverStaleNeverOvertaken(cfg, start, before, id);
      RunKeepsOnceInv(cfg, start, before, id);
      if Overtakes(cfg, SplitRun(cfg, start, before), steps[|steps| - 1], id) {
        OvertakingIsStale(cfg, SplitRun(cfg, start, before), steps[|steps| - 1], id,
                          SplitStartsIn(cfg, start, before, id));
      }
    }
  }

  /** Then a job is executed at most once exactly when it is never recovered. */
  lemma SplitAtMostOnceIffNeverRecovered(cfg: Config, start: Split, steps: seq<SplitStep>, id: JobId)
    requires SplitInitial(start) && NeverStale(cfg, start, steps)
    ensures SplitStartsIn(cfg, start, steps, id) <= 1 <==> !SplitRecoveredIn(cfg, start, steps, id)
  {
    NeverStaleNeverOvertaken(cfg, start, steps, id);
    AtMostOnceIffNeitherRecoveredNorOvertaken(cfg, start, steps, id);
  }
}
