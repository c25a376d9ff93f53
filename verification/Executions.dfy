/** Workers and cleaners against the table: who owns a row, and what a
    selection of expired rows may still contain. */
module Executions {
  import opened Domain
  import opened FiniteSums
  import opened SimulationJobService
  import opened WorkerService
  import opened RetentionService
  import opened Invariants
  import opened Evolution
  import opened Protocol

  /** The last content of a row, in the table or removed from it. */
  predicate Known(db: Db, id: JobId) { id in db.jobs || id in db.hist.archived }

  function LastRow(db: Db, id: JobId): Job
    requires Known(db, id)
  {
    if id in db.jobs then db.jobs[id] else db.hist.archived[id]
  }

  /** The execution's row was claimed by this worker last, and has no outcome. */
  predicate Owner(db: Db, w: WorkerId, e: Execution) {
    Owns(db, e.job, w) && db.jobs[e.job].attempts == e.attempt
  }

  /** A running execution holds the parameters that were submitted; its attempt
      is not ahead of the row; and the row names this worker as its owner
      exactly while no later attempt was started and no outcome was written. */
  ghost predicate ExecutionOk(db: Db, w: WorkerId, e: Execution) {
    && Known(db, e.job) && e.job in db.hist.submitted && db.hist.submitted[e.job] == e.params
    && LastRow(db, e.job).user == e.user
    && 1 <= e.attempt <= LastRow(db, e.job).attempts
    && (e.attempt < LastRow(db, e.job).attempts || LastRow(db, e.job).status.Terminal() || Owner(db, w, e))
    && (Owns(db, e.job, w) ==> db.jobs[e.job].attempts == e.attempt)
  }

  ghost predicate ExecutionsOk(s: System) {
    && (forall w: WorkerId :: w in s.workers && s.workers[w].Busy? ==> ExecutionOk(s.db, w, s.workers[w].exec))
    && (forall v: WorkerId, w: WorkerId ::
          v in s.workers && w in s.workers && v != w && s.workers[v].Busy? && s.workers[w].Busy?
          && s.workers[v].exec.job == s.workers[w].exec.job ==>
          s.workers[v].exec.attempt != s.workers[w].exec.attempt)
  }

  /** A step by anybody else leaves an execution sound. */
  lemma ExecutionSurvives(db: Db, db': Db, w: WorkerId, e: Execution, claimer: Option<WorkerId>, created: set<JobId>)
    requires IdsOk(db) && IdsOk(db')
    requires ExecutionOk(db, w, e) && Continues(db, db', claimer, created) && claimer != Some(w)
    ensures ExecutionOk(db', w, e)
  {
    var id := e.job;
    if id in db.jobs {
      assert SameIdentity(db.jobs[id], LastRow(db', id));
    } else {
      assert id in db'.hist.archived && db'.hist.archived[id] == db.hist.archived[id];
    }
  }

  /** Steps in which no worker takes a job. */
  lemma ExecutionsSurvive(s: System, s': System, created: set<JobId>)
    requires ExecutionsOk(s) && IdsOk(s.db) && IdsOk(s'.db) && Continues(s.db, s'.db, None, created)
    requires forall w: WorkerId :: w in s'.workers && s'.workers[w].Busy? ==>
        w in s.workers && s'.workers[w] == s.workers[w]
    ensures ExecutionsOk(s')
  {
    forall w: WorkerId | w in s'.workers && s'.workers[w].Busy? ensures ExecutionOk(s'.db, w, s'.workers[w].exec) {
      ExecutionSurvives(s.db, s'.db, w, s.workers[w].exec, None, created);
    }
  }

  /** The execution a claim starts is sound and has an attempt of its own. */
  lemma NewExecution(cfg: Config, s: System, w: WorkerId, id: JobId)
    requires ExecutionsOk(s) && IdsOk(s.db) && RowsOk(cfg, s.db, s.now)
    requires Claim(cfg, s.db, w, s.now).1 == Some(id)
    ensures var db' := Claim(cfg, s.db, w, s.now).0;
            && id in db'.jobs
            && ExecutionOk(db', w, Execution(id, db'.jobs[id].user, db'.jobs[id].params, db'.jobs[id].attempts))
            && forall v: WorkerId :: v in s.workers && s.workers[v].Busy? && s.workers[v].exec.job == id ==>
                 s.workers[v].exec.attempt < db'.jobs[id].attempts
  {
    ClaimKeepsKeys(cfg, s.db, w, s.now);
    ClaimOnRow(cfg, s.db, w, s.now, id);
    assert RowMatches(s.db.hist, id, s.db.jobs[id]);
    forall v: WorkerId | v in s.workers && s.workers[v].Busy? && s.workers[v].exec.job == id
      ensures s.workers[v].exec.attempt <= s.db.jobs[id].attempts
    {
      assert ExecutionOk(s.db, v, s.workers[v].exec);
    }
  }

  /** `ApplyClaim` in terms of the claim call. */
  lemma ClaimShape(cfg: Config, s: System, w: WorkerId)
    ensures var s' := ApplyClaim(cfg, s, w);
            var (db', claimed) := Claim(cfg, s.db, w, s.now);
            && s'.now == s.now && s'.cleaners == s.cleaners && s'.cleaned == s.cleaned
            && s'.db == (if WorkerAt(s, w).Busy? then s.db else db')
            && s'.workers == (if WorkerAt(s, w).Busy? || claimed.None? then s.workers
                              else if claimed.value !in db'.jobs then s.workers
                              else var row := db'.jobs[claimed.value];
                                   s.workers[w := Busy(Execution(claimed.value, row.user, row.params, row.attempts))])
  {
  }

  lemma OthersSurviveClaim(cfg: Config, s: System, w: WorkerId)
    requires ExecutionsOk(s) && IdsOk(s.db) && RowsOk(cfg, s.db, s.now) && IdsOk(Claim(cfg, s.db, w, s.now).0)
    ensures forall v: WorkerId :: v in s.workers && v != w && s.workers[v].Busy? ==>
              ExecutionOk(Claim(cfg, s.db, w, s.now).0, v, s.workers[v].exec)
  {
    ClaimContinues(cfg, s.db, w, s.now);
    forall v: WorkerId | v in s.workers && v != w && s.workers[v].Busy?
      ensures ExecutionOk(Claim(cfg, s.db, w, s.now).0, v, s.workers[v].exec)
    {
      ExecutionSurvives(s.db, Claim(cfg, s.db, w, s.now).0, v, s.workers[v].exec, Some(w), {});
    }
  }

  lemma ClaimExecutions(cfg: Config, s: System, w: WorkerId)
    requires ExecutionsOk(s) && IdsOk(s.db) && RowsOk(cfg, s.db, s.now)
    requires IdsOk(Claim(cfg, s.db, w, s.now).0) && WorkerAt(s, w).Idle?
    ensures ExecutionsOk(ApplyClaim(cfg, s, w))
  {
    var claimed := Claim(cfg, s.db, w, s.now).1;
    ClaimShape(cfg, s, w);
    OthersSurviveClaim(cfg, s, w);
    if claimed.Some? {
      NewExecution(cfg, s, w, claimed.value);
    }
  }

  // ---- Cleaners ----

  ghost function DeletedCounts(cleaners: map<nat, Cleaner>): map<nat, int> {
    map c | c in cleaners :: cleaners[c].deleted
  }

  /** Whatever a cleaner selected and is still in the table is still expired. */
  ghost predicate SelectionsOk(db: Db, cleaners: map<nat, Cleaner>) {
    forall c, id :: c in cleaners && cleaners[c].selected.Some? && id in cleaners[c].selected.value ==>
      id in db.hist.submitted && (id in db.jobs ==> Expired(db.jobs[id], cleaners[c].cutoff))
  }

  ghost predicate CleanersOk(s: System) {
    && SelectionsOk(s.db, s.cleaners)
    && s.cleaned <= s.db.hist.archived.Keys
    && Sum(DeletedCounts(s.cleaners)) == |s.cleaned|
  }

  lemma SelectionsSurvive(db: Db, db': Db, cleaners: map<nat, Cleaner>, claimer: Option<WorkerId>, created: set<JobId>)
    requires SelectionsOk(db, cleaners) && Continues(db, db', claimer, created)
    ensures SelectionsOk(db', cleaners)
  {
  }

  lemma CleanersSurvive(s: System, s': System, claimer: Option<WorkerId>, created: set<JobId>)
    requires CleanersOk(s) && Continues(s.db, s'.db, claimer, created)
    requires s'.cleaners == s.cleaners && s'.cleaned == s.cleaned
    ensures CleanersOk(s')
  {
    SelectionsSurvive(s.db, s'.db, s.cleaners, claimer, created);
  }

  lemma CountsAfter(cleaners: map<nat, Cleaner>, c: nat, state: Cleaner)
    ensures Sum(DeletedCounts(cleaners[c := state]))
         == Sum(DeletedCounts(cleaners)) + state.deleted - (if c in cleaners then cleaners[c].deleted else 0)
  {
    assert DeletedCounts(cleaners[c := state]) == DeletedCounts(cleaners)[c := state.deleted];
    SumPut(DeletedCounts(cleaners), c, state.deleted);
  }

  lemma BatchSelection(cfg: Config, db: Db, now: Time, cutoff: Time, batchSize: nat)
    requires RowsOk(cfg, db, now)
    ensures forall id :: id in ExpiredBatch(db.jobs, cutoff, batchSize) ==>
              id in db.hist.submitted && id in db.jobs && Expired(db.jobs[id], cutoff)
  {
    BatchIsExpired(db.jobs, cutoff, batchSize);
    forall id | id in db.jobs ensures id in db.hist.submitted {
      assert RowMatches(db.hist, id, db.jobs[id]);
    }
  }

  lemma SelectionReplaced(db: Db, cleaners: map<nat, Cleaner>, c: nat, state: Cleaner)
    requires SelectionsOk(db, cleaners)
    requires state.selected.Some? ==> forall id :: id in state.selected.value ==>
               id in db.hist.submitted && (id in db.jobs ==> Expired(db.jobs[id], state.cutoff))
    ensures SelectionsOk(db, cleaners[c := state])
  {
  }

  lemma SelectCleaners(cfg: Config, s: System, c: nat)
    requires CleanersOk(s) && RowsOk(cfg, s.db, s.now)
    ensures CleanersOk(ApplySelect(s, c))
  {
    if c in s.cleaners && s.cleaners[c].active && s.cleaners[c].selected.None? {
      var state := ApplySelect(s, c).cleaners[c];
      CountsAfter(s.cleaners, c, state);
      BatchSelection(cfg, s.db, s.now, s.cleaners[c].cutoff, s.cleaners[c].batchSize);
      SelectionReplaced(s.db, s.cleaners, c, state);
    }
  }

  lemma StartOrFailCleaners(s: System, c: nat, cutoff: Time, batchSize: nat)
    requires CleanersOk(s)
    ensures CleanersOk(ApplyStartCleaner(s, c, cutoff, batchSize)) && CleanersOk(ApplyCleanerFails(s, c))
  {
    var start, fail := ApplyStartCleaner(s, c, cutoff, batchSize), ApplyCleanerFails(s, c);
    if start != s {
      CountsAfter(s.cleaners, c, start.cleaners[c]);
    }
    if fail != s {
      CountsAfter(s.cleaners, c, fail.cleaners[c]);
    }
  }

  /** The rows a batch removes are terminal, though their status is not looked at again. */
  lemma RemainingAreTerminal(s: System, c: nat)
    requires CleanersOk(s) && c in s.cleaners && s.cleaners[c].selected.Some?
    ensures Remaining(s, c) <= s.db.jobs.Keys
    ensures forall id :: id in Remaining(s, c) ==> Expired(s.db.jobs[id], s.cleaners[c].cutoff)
  {
  }

  lemma DeleteSelections(s: System, c: nat)
    requires CleanersOk(s) && IdsOk(s.db) && c in s.cleaners && s.cleaners[c].selected.Some?
    ensures SelectionsOk(RemoveRows(s.db, Remaining(s, c)), s.cleaners)
  {
    RemainingAreTerminal(s, c);
    RemoveContinues(s.db, Remaining(s, c));
    SelectionsSurvive(s.db, RemoveRows(s.db, Remaining(s, c)), s.cleaners, None, {});
  }

  lemma DeleteCounts(s: System, c: nat)
    requires CleanersOk(s) && IdsOk(s.db) && c in s.cleaners && s.cleaners[c].selected.Some?
    ensures |s.cleaned + Remaining(s, c)| == |s.cleaned| + |Remaining(s, c)|
    ensures s.cleaned + Remaining(s, c) <= RemoveRows(s.db, Remaining(s, c)).hist.archived.Keys
  {
    assert s.cleaned !! Remaining(s, c);
  }

  lemma DeleteCleaners(s: System, c: nat)
    requires CleanersOk(s) && IdsOk(s.db)
    ensures CleanersOk(ApplyDeleteBatch(s, c))
  {
    var s' := ApplyDeleteBatch(s, c);
    if c in s.cleaners && s.cleaners[c].active && s.cleaners[c].selected.Some? {
      DeleteSelections(s, c);
      DeleteCounts(s, c);
      CountsAfter(s.cleaners, c, s'.cleaners[c]);
      assert s'.cleaners == s.cleaners[c := s'.cleaners[c]];
    }
  }
}
