/** Cleaners among everybody else. */
module RetentionTheorems {
  import opened Domain
  import opened FiniteSums
  import opened JobOrder
  import opened SimulationJobService
  import opened RetentionService
  import opened Protocol
  import opened Executions
  import opened SystemInvariant
  import opened FencingTheorems

  lemma RemovalOnlyRemoves(db: Db, gone: set<JobId>)
    ensures var db' := RemoveRows(db, gone);
            && db'.usage == db.usage && db'.events == db.events
            && (forall id :: id in db.jobs ==> (id in db'.jobs <==> id !in gone))
            && (forall id :: id in db'.jobs ==> id in db.jobs && db'.jobs[id] == db.jobs[id])
  {
  }

  lemma BatchShape(cfg: Config, s: System, c: nat)
    ensures var s' := Apply(cfg, s, DeleteBatch(c));
            && s'.workers == s.workers
            && s'.db == (if c !in s.cleaners || !s.cleaners[c].active || s.cleaners[c].selected.None? then s.db
                         else RemoveRows(s.db, Remaining(s, c)))
  {
  }

  /** Being expired is stable: no step changes an expired row, so a selection
      made earlier contains nothing that became live again. */
  lemma ExpiredStaysExpired(cfg: Config, s: System, steps: seq<Step>, id: JobId, cutoff: Time)
    requires Reachable(cfg, s) && MonotonePeriod(cfg)
    requires id in s.db.jobs && Expired(s.db.jobs[id], cutoff)
    ensures var s' := Run(cfg, s, steps);
            id in s'.db.jobs ==> s'.db.jobs[id] == s.db.jobs[id] && Expired(s'.db.jobs[id], cutoff)
  {
    TerminalRowsAreFinal(cfg, s, steps, id);
  }

  /** Deleting by id, without looking at the status again, removes only expired
      rows; counters, log and every other row stay as they are. */
  lemma CleanupIsSafe(cfg: Config, s: System, c: nat)
    requires Reachable(cfg, s) && MonotonePeriod(cfg)
    ensures var s' := Apply(cfg, s, DeleteBatch(c));
            && s'.db.usage == s.db.usage && s'.db.events == s.db.events && s'.workers == s.workers
            && (forall id :: id in s.db.jobs && id !in s'.db.jobs ==>
                  && c in s.cleaners && Expired(s.db.jobs[id], s.cleaners[c].cutoff)
                  && s.db.jobs[id].status in {Completed, Failed} && s.db.jobs[id].createdAt < s.cleaners[c].cutoff)
            && (forall id :: id in s'.db.jobs ==> id in s.db.jobs && s'.db.jobs[id] == s.db.jobs[id])
  {
    ReachableInv(cfg, s);
    BatchShape(cfg, s, c);
    if c in s.cleaners && s.cleaners[c].active && s.cleaners[c].selected.Some? {
      RemainingAreTerminal(s, c);
      RemovalOnlyRemoves(s.db, Remaining(s, c));
    }
  }

  lemma SelectNothing(cfg: Config, s: System, c: nat)
    requires c in s.cleaners && s.cleaners[c].active && s.cleaners[c].selected.None?
    requires ExpiredBatch(s.db.jobs, s.cleaners[c].cutoff, s.cleaners[c].batchSize) == []
    ensures Apply(cfg, Apply(cfg, s, SelectBatch(c)), DeleteBatch(c))
         == WithCleaner(s, c, s.cleaners[c].(active := false))
  {
    SelectBatchIs(cfg, s, SelectBatch(c));
    DeleteBatchIs(cfg, Apply(cfg, s, SelectBatch(c)), DeleteBatch(c));
  }

  lemma DeleteSelected(cfg: Config, s: System, c: nat, batch: seq<JobId>)
    requires c in s.cleaners && s.cleaners[c].active && s.cleaners[c].selected == Some(batch) && batch != []
    requires forall id :: id in batch ==> id in s.db.jobs
    ensures var s', n := Apply(cfg, s, DeleteBatch(c)), |Elements(batch)|;
            && s'.db == RemoveRows(s.db, Elements(batch)) && c in s'.cleaners && n > 0
            && s'.cleaners[c] == s.cleaners[c].(selected := None, deleted := s.cleaners[c].deleted + n,
                                                batches := s.cleaners[c].batches + 1)
  {
    DeleteBatchIs(cfg, s, DeleteBatch(c));
    assert batch[0] in Elements(batch);
    assert Remaining(s, c) == Elements(batch);
  }

  lemma SelectSome(cfg: Config, s: System, c: nat, batch: seq<JobId>)
    requires c in s.cleaners && s.cleaners[c].active && s.cleaners[c].selected.None?
    requires batch == ExpiredBatch(s.db.jobs, s.cleaners[c].cutoff, s.cleaners[c].batchSize) && batch != []
    requires forall id :: id in batch ==> id in s.db.jobs
    ensures var s', n := Apply(cfg, Apply(cfg, s, SelectBatch(c)), DeleteBatch(c)), |Elements(batch)|;
            && s'.db == RemoveRows(s.db, Elements(batch)) && c in s'.cleaners && n > 0
            && s'.cleaners[c] == s.cleaners[c].(deleted := s.cleaners[c].deleted + n,
                                                batches := s.cleaners[c].batches + 1)
  {
    SelectBatchIs(cfg, s, SelectBatch(c));
    DeleteSelected(cfg, WithCleaner(s, c, s.cleaners[c].(selected := Some(batch))), c, batch);
  }

  /** What `n` rows deleted by cleaner `c` make of the state. */
  ghost predicate BatchCounted(s: System, s': System, c: nat, n: nat)
    requires c in s.cleaners
  {
    && c in s'.cleaners && BatchGone(s.db.jobs, s'.db.jobs, s.cleaners[c].cutoff, s.cleaners[c].batchSize, n, n)
    && s'.cleaners[c].deleted == s.cleaners[c].deleted + n
    && s'.cleaners[c].batches == s.cleaners[c].batches + (if n > 0 then 1 else 0)
    && (s'.cleaners[c].active <==> n > 0)
    && s'.db.usage == s.db.usage && s'.db.events == s.db.events && s'.db.users == s.db.users
  }

  /** With nothing in between, selecting and deleting remove a batch and count
      it; the run ends when there is nothing left. */
  lemma SelectThenDelete(cfg: Config, s: System, c: nat)
    requires c in s.cleaners && s.cleaners[c].active && s.cleaners[c].selected.None?
    ensures exists n: nat :: BatchCounted(s, Apply(cfg, Apply(cfg, s, SelectBatch(c)), DeleteBatch(c)), c, n)
  {
    var batch := ExpiredBatch(s.db.jobs, s.cleaners[c].cutoff, s.cleaners[c].batchSize);
    BatchIsExpired(s.db.jobs, s.cleaners[c].cutoff, s.cleaners[c].batchSize);
    if batch == [] {
      SelectNothing(cfg, s, c);
    } else {
      SelectSome(cfg, s, c, batch);
    }
    CountBatch(s, Apply(cfg, Apply(cfg, s, SelectBatch(c)), DeleteBatch(c)), c);
  }

  lemma CountBatch(s: System, s': System, c: nat)
    requires c in s.cleaners && s.cleaners[c].active && c in s'.cleaners
    requires var batch := ExpiredBatch(s.db.jobs, s.cleaners[c].cutoff, s.cleaners[c].batchSize);
             if batch == [] then s'.db == s.db && s'.cleaners[c] == s.cleaners[c].(active := false)
             else
               && s'.db == RemoveRows(s.db, Elements(batch))
               && s'.cleaners[c] == s.cleaners[c].(deleted := s.cleaners[c].deleted + |Elements(batch)|,
                                                   batches := s.cleaners[c].batches + 1)
    ensures exists n: nat :: BatchCounted(s, s', c, n)
  {
    var batch := ExpiredBatch(s.db.jobs, s.cleaners[c].cutoff, s.cleaners[c].batchSize);
    BatchOnColumns(s.db.jobs, s.cleaners[c].cutoff, s.cleaners[c].batchSize);
    BatchIsOldest(s.db.jobs, s.cleaners[c].cutoff, s.cleaners[c].batchSize);
    if batch == [] {
      assert s.db.jobs - Elements(batch) == s.db.jobs;
    }
    assert BatchCounted(s, s', c, |batch|);
  }

  /** However cleaners overlap and fail, their counts add up to the number of
      rows they removed, each row once. */
  lemma CleanersCountEachRowOnce(cfg: Config, s: System)
    requires Reachable(cfg, s) && MonotonePeriod(cfg)
    ensures Sum(DeletedCounts(s.cleaners)) == |s.cleaned|
    ensures forall id :: id in s.cleaned ==> id in s.db.hist.archived && id !in s.db.jobs
  {
    ReachableInv(cfg, s);
  }

  /** Between two states the counts of cleaner `c` never fall, and once it has
      ended, failed or not, its report is final. */
  ghost predicate ReportKept(s: System, s': System, c: nat)
    requires c in s.cleaners
  {
    && c in s'.cleaners
    && s'.cleaners[c].deleted >= s.cleaners[c].deleted && s'.cleaners[c].batches >= s.cleaners[c].batches
    && (!s.cleaners[c].active ==> s'.cleaners[c] == s.cleaners[c])
  }

  lemma StepKeepsReport(cfg: Config, s: System, step: Step, c: nat)
    requires c in s.cleaners
    ensures ReportKept(s, Apply(cfg, s, step), c)
  {
    if !step.StartCleaner? && !step.SelectBatch? && !step.DeleteBatch? && !step.CleanerFails? {
      StepCleaners(cfg, s, step);
    }
  }

  lemma {:induction false} RunKeepsReport(cfg: Config, s: System, steps: seq<Step>, c: nat)
    requires c in s.cleaners
    ensures ReportKept(s, Run(cfg, s, steps), c)
    decreases |steps|
  {
    if steps != [] {
      RunKeepsReport(cfg, s, steps[..|steps| - 1], c);
      StepKeepsReport(cfg, Run(cfg, s, steps[..|steps| - 1]), steps[|steps| - 1], c);
    }
  }

  /** When a batch fails nothing of it is kept, and everything the run deleted
      in earlier batches stays counted from then on, whatever follows. */
  lemma FailedBatchKeepsCount(cfg: Config, s: System, c: nat, later: seq<Step>)
    requires c in s.cleaners && s.cleaners[c].active
    ensures var failed := Apply(cfg, s, CleanerFails(c));
            failed.db == s.db && failed.cleaned == s.cleaned
    ensures var report := Run(cfg, Apply(cfg, s, CleanerFails(c)), later).cleaners;
            c in report && !report[c].success && !report[c].active
            && report[c].deleted == s.cleaners[c].deleted && report[c].batches == s.cleaners[c].batches
  {
    RunKeepsReport(cfg, Apply(cfg, s, CleanerFails(c)), later, c);
  }
}
