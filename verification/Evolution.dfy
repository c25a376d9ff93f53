/** How a row may change in one step, whoever takes the step. */
module Evolution {
  import opened Domain
  import opened UsageService
  import opened SimulationJobService
  import opened WorkerService
  import opened SimulationsApi
  import opened Invariants
  import ClaimTheorem

  /** What was submitted is never rewritten. */
  predicate SameIdentity(j: Job, j': Job) {
    && j'.user == j.user && j'.params == j.params && j'.createdAt == j.createdAt
    && j'.maxAttempts == j.maxAttempts && j'.reproducible == j.reproducible
  }

  /** A heartbeat, a claim by `claimer`, or a terminal write; the status
      follows the lifecycle table. */
  predicate Moves(j: Job, j': Job, claimer: Option<WorkerId>) {
    || j' == j
    || (&& j.status.Running? && j'.status.Running?
        && j'.attempts == j.attempts && j'.worker == j.worker)
    || (&& claimer.Some? && j'.worker == claimer
        && (j.status.Running? || CanTransition(j.status, j'.status)) && !j.status.Terminal() && j'.status.Running?
        && j.attempts < j.maxAttempts && j'.attempts == j.attempts + 1)
    || (&& CanTransition(j.status, j'.status) && j'.status.Terminal()
        && j'.attempts == j.attempts && j'.worker == j.worker)
  }

  ghost predicate HistoryGrows(h: History, h': History) {
    && (forall id :: id in h.tickets ==> id in h'.tickets && h'.tickets[id] == h.tickets[id])
    && (forall id :: id in h.submitted ==> id in h'.submitted && h'.submitted[id] == h.submitted[id])
    && (forall id :: id in h.archived ==> id in h'.archived && h'.archived[id] == h.archived[id])
  }

  /** Every row moves as allowed or leaves for the archive as it was, never
      while running; `created` is the only row that may appear. */
  ghost predicate Continues(db: Db, db': Db, claimer: Option<WorkerId>, created: set<JobId>) {
    && HistoryGrows(db.hist, db'.hist)
    && (forall id :: id in db.jobs ==>
          if id in db'.jobs then SameIdentity(db.jobs[id], db'.jobs[id]) && Moves(db.jobs[id], db'.jobs[id], claimer)
          else id in db'.hist.archived && db'.hist.archived[id] == db.jobs[id] && !db.jobs[id].status.Running?)
    && (forall id :: id in db'.jobs && id !in db.jobs ==>
          id in created && id !in db.hist.submitted && db'.jobs[id].status.Pending? && db'.jobs[id].attempts == 0)
    && (forall id :: id in db'.hist.archived && id !in db.hist.archived ==> id in db.jobs && id !in db'.jobs)
  }

  lemma {:induction false} ScanKeepsHistory(cfg: Config, db: Db, cs: seq<JobId>, worker: WorkerId, now: Time)
    requires forall c :: c in cs ==> c in db.jobs
    ensures var h, h' := db.hist, ClaimScan(cfg, db, cs, worker, now).0.hist;
            h'.tickets == h.tickets && h'.submitted == h.submitted && h'.archived == h.archived
    decreases |cs|
  {
    if cs != [] {
      var (db', taken) := Inspect(cfg, db, cs[0], worker, now);
      if !taken {
        ScanKeepsHistory(cfg, db', cs[1..], worker, now);
      }
    }
  }

  lemma FailureMoves(j: Job, code: string, now: Time, claimer: Option<WorkerId>)
    requires !j.status.Terminal()
    ensures SameIdentity(j, FailedRow(j, code, now)) && Moves(j, FailedRow(j, code, now), claimer)
  {
  }

  lemma ClaimMoves(j: Job, worker: WorkerId, now: Time)
    requires !j.status.Terminal() && j.attempts < j.maxAttempts
    ensures SameIdentity(j, ClaimedRow(j, worker, now)) && Moves(j, ClaimedRow(j, worker, now), Some(worker))
  {
  }

  /** What a claim call makes of one row. */
  ghost predicate RowAfterClaim(j: Job, j': Job, isClaimed: bool, worker: WorkerId, now: Time) {
    if isClaimed then !j.status.Terminal() && j' == ClaimedRow(j, worker, now)
    else j' == j || (!j.status.Terminal() && j' == FailedRow(j, ClaimTheorem.DoomCode(j), now))
  }

  lemma ClaimOnRow(cfg: Config, db: Db, worker: WorkerId, now: Time, id: JobId)
    requires id in db.jobs
    ensures var (db', claimed) := Claim(cfg, db, worker, now);
            id in db'.jobs && RowAfterClaim(db.jobs[id], db'.jobs[id], Some(id) == claimed, worker, now)
  {
    var cs := Candidates(cfg, db.jobs, now);
    var k := ClaimTheorem.ClaimMeetsSpecification(cfg, db, worker, now);
    if id in ClaimTheorem.DoomedAmong(cfg, db.jobs, cs[..k], now) && k < |cs| {
      assert ClaimTheorem.Claimable(cfg, db, cs, k, now);
    }
  }

  lemma ClaimKeepsKeys(cfg: Config, db: Db, worker: WorkerId, now: Time)
    ensures var (db', claimed) := Claim(cfg, db, worker, now);
            && db'.jobs.Keys == db.jobs.Keys
            && (claimed.Some? ==> claimed.value in db.jobs)
            && db'.hist.tickets == db.hist.tickets && db'.hist.submitted == db.hist.submitted
            && db'.hist.archived == db.hist.archived
  {
    var k := ClaimTheorem.ClaimMeetsSpecification(cfg, db, worker, now);
    CandidatesAreRows(cfg, db.jobs, now);
    ScanKeepsHistory(cfg, db, Candidates(cfg, db.jobs, now), worker, now);
    var db' := Claim(cfg, db, worker, now).0;
    assert forall id :: id in db'.jobs <==> id in db.jobs;
  }

  /** Rows of a sound table are claimed only with attempts to spare. */
  lemma ClaimSparesAttempts(cfg: Config, db: Db, worker: WorkerId, now: Time)
    requires RowsOk(cfg, db, now)
    ensures var claimed := Claim(cfg, db, worker, now).1;
            claimed.Some? ==>
                claimed.value in db.jobs && db.jobs[claimed.value].attempts < db.jobs[claimed.value].maxAttempts
  {
    var cs := Candidates(cfg, db.jobs, now);
    var k := ClaimTheorem.ClaimMeetsSpecification(cfg, db, worker, now);
    if k < |cs| {
      assert ClaimTheorem.Claimable(cfg, db, cs, k, now);
      assert RowOk(cfg, db.jobs[cs[k]], now);
    }
  }

  lemma ClaimContinues(cfg: Config, db: Db, worker: WorkerId, now: Time)
    requires RowsOk(cfg, db, now)
    ensures Continues(db, Claim(cfg, db, worker, now).0, Some(worker), {})
  {
    var (db', claimed) := Claim(cfg, db, worker, now);
    ClaimKeepsKeys(cfg, db, worker, now);
    ClaimSparesAttempts(cfg, db, worker, now);
    forall id | id in db.jobs
      ensures SameIdentity(db.jobs[id], db'.jobs[id]) && Moves(db.jobs[id], db'.jobs[id], Some(worker))
    {
      ClaimOnRow(cfg, db, worker, now, id);
      var j := db.jobs[id];
      if Some(id) == claimed {
        ClaimMoves(j, worker, now);
      } else if db'.jobs[id] != j {
        FailureMoves(j, ClaimTheorem.DoomCode(j), now, Some(worker));
      }
    }
  }

  lemma BrokenClaimContinues(cfg: Config, db: Db, worker: WorkerId, now: Time, inspected: nat)
    ensures Continues(db, BrokenClaim(cfg, db, worker, now, inspected), None, {})
  {
    var db' := BrokenClaim(cfg, db, worker, now, inspected);
    var cs := Candidates(cfg, db.jobs, now);
    var k := ClaimTheorem.BrokenClaimMeetsSpecification(cfg, db, worker, now, inspected);
    ScanKeepsHistory(cfg, db, cs[..k], worker, now);
    forall id | id in db.jobs
      ensures id in db'.jobs && SameIdentity(db.jobs[id], db'.jobs[id]) && Moves(db.jobs[id], db'.jobs[id], None)
    {
      if id in ClaimTheorem.DoomedAmong(cfg, db.jobs, cs[..k], now) {
        FailureMoves(db.jobs[id], ClaimTheorem.DoomCode(db.jobs[id]), now, None);
      }
    }
  }

  lemma PutRowContinues(db: Db, db': Db, id: JobId, row: Job)
    requires id in db.jobs && db'.jobs == db.jobs[id := row]
    requires HistoryGrows(db.hist, db'.hist) && db'.hist.archived == db.hist.archived
    requires SameIdentity(db.jobs[id], row) && Moves(db.jobs[id], row, None)
    ensures Continues(db, db', None, {})
  {
  }

  lemma FinishContinues(cfg: Config, db: Db, id: JobId, user: UserId, interactions: nat, worker: WorkerId,
                        outcome: Outcome, commit: Commit, now: Time)
    ensures Continues(db, Finish(cfg, db, id, user, interactions, worker, outcome, commit, now).0, None, {})
  {
    var db' := Finish(cfg, db, id, user, interactions, worker, outcome, commit, now).0;
    if Owns(db, id, worker) {
      PutRowContinues(db, db', id, db'.jobs[id]);
    }
  }

  lemma BeatContinues(db: Db, id: JobId, worker: WorkerId, now: Time)
    ensures Continues(db, Heartbeat(db, id, worker, now).0, None, {})
  {
    if Owns(db, id, worker) {
      PutRowContinues(db, Heartbeat(db, id, worker, now).0, id, BeatRow(db.jobs[id], now));
    }
  }

  lemma RemoveContinues(db: Db, ids: set<JobId>)
    requires IdsOk(db) && forall id :: id in ids && id in db.jobs ==> !db.jobs[id].status.Running?
    ensures Continues(db, RemoveRows(db, ids), None, {})
  {
  }

  lemma DeleteContinues(cfg: Config, db: Db, caller: UserId, id: JobId, now: Time)
    requires IdsOk(db)
    ensures Continues(db, Delete(cfg, db, caller, id, now).0, None, {})
  {
    if id in db.jobs && db.jobs[id].user == caller && !db.jobs[id].status.Running? {
      RemoveContinues(db, {id});
    }
  }

  lemma CreateContinues(db: Db, id: JobId, params: Params, now: Time)
    requires IdsOk(db) && id in db.hist.inFlight
    ensures Continues(db, CreateJob(db, id, db.hist.tickets[id].user, params, now), None, {id})
  {
  }

  lemma ReserveContinues(cfg: Config, db: Db, id: JobId, user: UserId, n: nat, now: Time)
    requires id !in db.hist.tickets && user in db.users
    ensures Continues(db, Reserve(cfg, db, id, user, n, now).0, None, {})
  {
  }
}
