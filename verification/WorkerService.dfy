/** Claiming jobs, recovering stuck ones and committing outcomes
    (app/services/worker.py). */
module WorkerService {
  import opened Domain
  import opened Database
  import opened JobOrder
  import opened UsageService
  import opened SimulationJobService

  // ---- What the operations do to the tables ----

  predicate LeaseExpired(cfg: Config, job: Job, now: Time) {
    job.heartbeatAt.None? || job.heartbeatAt.value < now - cfg.leaseTimeout
  }

  predicate Eligible(cfg: Config, job: Job, now: Time) {
    job.status.Pending? || (job.status.Running? && LeaseExpired(cfg, job, now))
  }

  function EligibleIds(cfg: Config, jobs: map<JobId, Job>, now: Time): set<JobId> {
    set id | id in jobs && Eligible(cfg, jobs[id], now)
  }

  /** The candidate query: the oldest ten eligible rows. */
  function Candidates(cfg: Config, jobs: map<JobId, Job>, now: Time): seq<JobId> {
    var all := Sorted(jobs, EligibleIds(cfg, jobs, now));
    if |all| <= CLAIM_LIMIT then all else all[..CLAIM_LIMIT]
  }

  function RunningIds(jobs: map<JobId, Job>, user: UserId): set<JobId> {
    set id | id in jobs && jobs[id].status.Running? && jobs[id].user == user
  }

  predicate HasCapacity(users: map<UserId, User>, jobs: map<JobId, Job>, user: UserId, except: set<JobId>) {
    user in users && users[user].active && |RunningIds(jobs, user) - except| < ConcurrencyLimit(users[user])
  }

  predicate Exhausted(job: Job) {
    job.status.Running? && job.attempts >= job.maxAttempts
  }

  predicate Overdue(cfg: Config, job: Job, now: Time) {
    job.status.Pending? && job.createdAt < now - cfg.maxPending
  }

  function ClaimedRow(job: Job, worker: WorkerId, now: Time): Job {
    job.(attempts := job.attempts + 1, worker := Some(worker), claimedAt := Some(now), heartbeatAt := Some(now),
         updatedAt := now, status := Running,
         startedAt := if job.status.Pending? && job.startedAt.None? then Some(now) else job.startedAt)
  }

  const EXECUTION_TIMEOUT := "execution_timeout"
  const QUEUE_TIMEOUT := "queue_timeout"
  const PERSISTENCE_FAILED := "simulation_persistence_failed"

  /** Mark the row failed, refund it and log the failure. */
  function FailJob(cfg: Config, db: Db, id: JobId, code: string, now: Time): Db
    requires id in db.jobs
  {
    var job := db.jobs[id];
    Release(cfg, PutRow(db, id, FailedRow(job, code, now)), id, job.user, job.params.interactions, now)
  }

  /** One candidate: fail it, pass over it, or take it. */
  function Inspect(cfg: Config, db: Db, id: JobId, worker: WorkerId, now: Time): (r: (Db, bool))
    requires id in db.jobs
    ensures r.0.jobs.Keys == db.jobs.Keys
  {
    var job := db.jobs[id];
    if Exhausted(job) then
      (FailJob(cfg, db, id, EXECUTION_TIMEOUT, now), false)
    else if Overdue(cfg, job, now) then
      (FailJob(cfg, db, id, QUEUE_TIMEOUT, now), false)
    else if !job.status.Terminal()
        && HasCapacity(db.users, db.jobs, job.user, if job.status.Running? then {id} else {}) then
      (PutRow(db, id, ClaimedRow(job, worker, now)), true)
    else (db, false)
  }

  /** The loop over the candidates. */
  function ClaimScan(cfg: Config, db: Db, candidates: seq<JobId>, worker: WorkerId, now: Time): (Db, Option<JobId>)
    requires forall c :: c in candidates ==> c in db.jobs
    decreases |candidates|
  {
    if candidates == [] then (db, None) else
    var (db', taken) := Inspect(cfg, db, candidates[0], worker, now);
    if taken then (db', Some(candidates[0])) else ClaimScan(cfg, db', candidates[1..], worker, now)
  }

  function Claim(cfg: Config, db: Db, worker: WorkerId, now: Time): (Db, Option<JobId>) {
    CandidatesAreRows(cfg, db.jobs, now);
    ClaimScan(cfg, db, Candidates(cfg, db.jobs, now), worker, now)
  }

  /** The same loop ended by an exception: what it failed stays failed, a claim
      that was not committed is rolled back. */
  function BrokenScan(cfg: Config, db: Db, candidates: seq<JobId>, worker: WorkerId, now: Time): Db
    requires forall c :: c in candidates ==> c in db.jobs
    decreases |candidates|
  {
    if candidates == [] then db else
    var (db', taken) := Inspect(cfg, db, candidates[0], worker, now);
    if taken then db else BrokenScan(cfg, db', candidates[1..], worker, now)
  }

  /** A call that raises once `inspected` candidates are behind it. */
  function BrokenClaim(cfg: Config, db: Db, worker: WorkerId, now: Time, inspected: nat): Db {
    CandidatesAreRows(cfg, db.jobs, now);
    var cs := Candidates(cfg, db.jobs, now);
    BrokenScan(cfg, db, cs[..Min(inspected, |cs|)], worker, now)
  }

  /** What the engine returned to the worker. */
  datatype Outcome = Generated(records: Records, computeMs: nat) | EngineFailed(code: string)

  /** What became of the final commit: it went through, it was rolled back and
      the row marked failed instead, or that failed as well. */
  datatype Commit = Committed | MarkedFailed | Lost

  predicate Owns(db: Db, id: JobId, worker: WorkerId) {
    id in db.jobs && db.jobs[id].status.Running? && db.jobs[id].worker == Some(worker)
  }

  function CompleteJob(db: Db, id: JobId, user: UserId, interactions: nat, records: Records, computeMs: nat,
                       now: Time): Db
    requires id in db.jobs
  {
    PutRow(db, id, CompletedRow(db.jobs[id], records, computeMs, now)).(
      events := db.events + [Event(user, SimulationCompleted, now, interactions, Some(computeMs), true)])
  }

  /** The short transaction after execution; discards the result of a worker
      that no longer owns the row. */
  function Finish(cfg: Config, db: Db, id: JobId, user: UserId, interactions: nat, worker: WorkerId, outcome: Outcome,
                  commit: Commit, now: Time): (Db, bool)
  {
    if !Owns(db, id, worker) then (db, false) else
    match outcome
    case EngineFailed(code) =>
      (Release(cfg, PutRow(db, id, FailedRow(db.jobs[id], code, now)), id, user, interactions, now), false)
    case Generated(records, computeMs) =>
      match commit
      case Committed => (CompleteJob(db, id, user, interactions, records, computeMs, now), true)
      case MarkedFailed =>
        (Release(cfg, PutRow(db, id, FailedRow(db.jobs[id], PERSISTENCE_FAILED, now)), id, user, interactions, now),
            false)
      case Lost => (db, false)
  }

  function BeatRow(job: Job, now: Time): Job {
    job.(heartbeatAt := Some(now), updatedAt := now)
  }

  function Heartbeat(db: Db, id: JobId, worker: WorkerId, now: Time): (Db, bool) {
    if Owns(db, id, worker) then
      (PutRow(db, id, BeatRow(db.jobs[id], now)), true)
    else (db, false)
  }

  // ---- The candidate query ----

  /** Exactly the eligible rows are fetched, oldest first, except that beyond
      ten the later ones are left out. */
  lemma CandidatesAreRows(cfg: Config, jobs: map<JobId, Job>, now: Time)
    ensures var cs := Candidates(cfg, jobs, now);
            && StrictlyOrdered(jobs, cs)
            && (forall c :: c in cs ==> c in jobs && Eligible(cfg, jobs[c], now))
            && |cs| <= CLAIM_LIMIT
            && (|cs| < CLAIM_LIMIT ==> Elements(cs) == EligibleIds(cfg, jobs, now))
            && (forall c, e :: c in cs && e in EligibleIds(cfg, jobs, now) && e !in cs ==> Before(jobs, c, e))
  {
    var ids := EligibleIds(cfg, jobs, now);
    var all := Sorted(jobs, ids);
    SortedIsOrdered(jobs, ids);
    var cs := Candidates(cfg, jobs, now);
    forall c | c in cs ensures c in ids {
      assert c in Elements(all);
    }
    forall c, e | c in cs && e in ids && e !in cs ensures Before(jobs, c, e) {
      assert e in Elements(all);
      var i :| 0 <= i < |cs| && cs[i] == c;
      var j :| 0 <= j < |all| && all[j] == e;
      assert all[i] == c;
    }
  }

  // ---- The service ----

  /** The user's running rows but for `except`. */
  function RunningBut(jobs: map<JobId, Job>, user: UserId, except: Option<JobId>): set<JobId> {
    set id | id in jobs && jobs[id].status == Running && jobs[id].user == user && except != Some(id)
  }

  /** `user` is active and has fewer running rows, `except` aside, than the plan
      allows; no plan and a limit of zero mean one. Said on the columns. */
  ghost predicate HasRoom(users: map<UserId, User>, jobs: map<JobId, Job>, user: UserId, except: Option<JobId>) {
    && user in users && users[user].active
    && var running := |RunningBut(jobs, user, except)|;
       match users[user].plan
       case None => running < 1
       case Some(p) => running < if p.maxConcurrentSimulations == 0 then 1 else p.maxConcurrentSimulations
  }

  lemma RunningButIs(jobs: map<JobId, Job>, user: UserId, except: Option<JobId>)
    ensures RunningBut(jobs, user, except) == RunningIds(jobs, user) - (if except.Some? then {except.value} else {})
  {
  }

  lemma CapacityIsRoom(users: map<UserId, User>, jobs: map<JobId, Job>, user: UserId, except: Option<JobId>)
    ensures HasCapacity(users, jobs, user, if except.Some? then {except.value} else {})
        <==> HasRoom(users, jobs, user, except)
  {
    RunningButIs(jobs, user, except);
  }

  method GetUserConcurrencyCapacity(db: Database, user: UserId, current: Option<JobId>) returns (free: bool)
    ensures free == HasCapacity(db.users, db.jobs, user, if current.Some? then {current.value} else {})
    ensures free <==> HasRoom(db.users, db.jobs, user, current)
  {
    CapacityIsRoom(db.users, db.jobs, user, current);
    if user !in db.users || !db.users[user].active {
      return false;
    }
    var limit := 1;
    var plan := PlanOf(db.users[user]);
    if plan.maxConcurrentSimulations != 0 {
      limit := plan.maxConcurrentSimulations;
    }
    var counted := RunningIds(db.jobs, user);
    if current.Some? {
      counted := counted - {current.value};
    }
    return |counted| < limit;
  }

  method FailCandidate(cfg: Config, db: Database, id: JobId, code: string, now: Time)
    requires id in db.jobs
    modifies db
    ensures db.Snapshot() == FailJob(cfg, old(db.Snapshot()), id, code, now)
  {
    var job := db.jobs[id];
    db.jobs := db.jobs[id := FailedRow(job, code, now)];
    RefundAndRecordFailure(cfg, db, id, job.user, job.params.interactions, now);
  }

  /** Case A of the loop body: an abandoned running job. */
  method InspectStuck(cfg: Config, db: Database, id: JobId, worker: WorkerId, now: Time) returns (taken: bool)
    requires id in db.jobs && db.jobs[id].status.Running?
    modifies db
    ensures (db.Snapshot(), taken) == Inspect(cfg, old(db.Snapshot()), id, worker, now)
  {
    var job := db.jobs[id];
    if job.attempts >= job.maxAttempts {
      FailCandidate(cfg, db, id, EXECUTION_TIMEOUT, now);
      return false;
    }
    var free := GetUserConcurrencyCapacity(db, job.user, Some(id));
    if !free {
      return false;
    }
    job := job.(attempts := job.attempts + 1, worker := Some(worker), claimedAt := Some(now),
                heartbeatAt := Some(now), updatedAt := now);
    db.jobs := db.jobs[id := job];
    return true;
  }

  /** Case B of the loop body: a pending job. */
  method InspectPending(cfg: Config, db: Database, id: JobId, worker: WorkerId, now: Time) returns (taken: bool)
    requires id in db.jobs && db.jobs[id].status.Pending?
    modifies db
    ensures (db.Snapshot(), taken) == Inspect(cfg, old(db.Snapshot()), id, worker, now)
  {
    var job := db.jobs[id];
    if job.createdAt < now - cfg.maxPending {
      FailCandidate(cfg, db, id, QUEUE_TIMEOUT, now);
      return false;
    }
    var free := GetUserConcurrencyCapacity(db, job.user, None);
    if !free {
      return false;
    }
    job := job.(attempts := job.attempts + 1, status := Running, worker := Some(worker), claimedAt := Some(now),
                heartbeatAt := Some(now), updatedAt := now,
                startedAt := if job.startedAt.Some? then job.startedAt else Some(now));
    db.jobs := db.jobs[id := job];
    return true;
  }

  /** The body of the claim loop for one candidate. */
  method InspectCandidate(cfg: Config, db: Database, id: JobId, worker: WorkerId, now: Time) returns (taken: bool)
    requires id in db.jobs
    modifies db
    ensures (db.Snapshot(), taken) == Inspect(cfg, old(db.Snapshot()), id, worker, now)
  {
    if db.jobs[id].status.Running? {
      taken := InspectStuck(cfg, db, id, worker, now);
    } else if db.jobs[id].status.Pending? {
      taken := InspectPending(cfg, db, id, worker, now);
    } else {
      taken := false;
    }
  }

  /** `raisesAfter` is the number of candidates, if any, after which the
      database raises. */
  method ClaimNextJob(cfg: Config, db: Database, worker: WorkerId, now: Time, raisesAfter: Option<nat>)
    returns (claimed: Option<JobId>)
    modifies db
    ensures raisesAfter.None? ==> (db.Snapshot(), claimed) == Claim(cfg, old(db.Snapshot()), worker, now)
    ensures raisesAfter.Some? ==>
              claimed.None? && db.Snapshot() == BrokenClaim(cfg, old(db.Snapshot()), worker, now, raisesAfter.value)
  {
    var candidates := Candidates(cfg, db.jobs, now);
    CandidatesAreRows(cfg, db.jobs, now);
    if raisesAfter.Some? {
      RaisingScan(cfg, db, candidates[..Min(raisesAfter.value, |candidates|)], worker, now);
      return None;
    }
    var i := 0;
    while i < |candidates|
      invariant 0 <= i <= |candidates|
      invariant forall c :: c in candidates ==> c in db.jobs
      invariant ClaimScan(cfg, db.Snapshot(), candidates[i..], worker, now)
             == ClaimScan(cfg, old(db.Snapshot()), candidates, worker, now)
    {
      assert candidates[i..][0] == candidates[i] && candidates[i..][1..] == candidates[i + 1..];
      var taken := InspectCandidate(cfg, db, candidates[i], worker, now);
      if taken {
        return Some(candidates[i]);
      }
      i := i + 1;
    }
    return None;
  }

  lemma TakingOnlyPutsRow(cfg: Config, db: Db, id: JobId, worker: WorkerId, now: Time)
    requires id in db.jobs
    ensures var (db', taken) := Inspect(cfg, db, id, worker, now);
            taken ==> db'.(jobs := db.jobs) == db
  {
  }

  /** The loop up to the exception; the session drops what was not committed. */
  method RaisingScan(cfg: Config, db: Database, candidates: seq<JobId>, worker: WorkerId, now: Time)
    requires forall c :: c in candidates ==> c in db.jobs
    modifies db
    ensures db.Snapshot() == BrokenScan(cfg, old(db.Snapshot()), candidates, worker, now)
  {
    var i := 0;
    while i < |candidates|
      invariant 0 <= i <= |candidates|
      invariant forall c :: c in candidates ==> c in db.jobs
      invariant BrokenScan(cfg, db.Snapshot(), candidates[i..], worker, now)
             == BrokenScan(cfg, old(db.Snapshot()), candidates, worker, now)
    {
      assert candidates[i..][0] == candidates[i] && candidates[i..][1..] == candidates[i + 1..];
      var committed := db.jobs;
      ghost var before := db.Snapshot();
      TakingOnlyPutsRow(cfg, before, candidates[i], worker, now);
      var taken := InspectCandidate(cfg, db, candidates[i], worker, now);
      if taken {
        db.jobs := committed;
        assert db.Snapshot() == before;
        return;
      }
      i := i + 1;
    }
  }

  method UpdateJobHeartbeat(db: Database, id: JobId, worker: WorkerId, now: Time) returns (updated: bool)
    modifies db`jobs
    ensures (db.Snapshot(), updated) == Heartbeat(old(db.Snapshot()), id, worker, now)
    ensures updated <==>
              id in old(db.jobs) && old(db.jobs)[id].status == Running && old(db.jobs)[id].worker == Some(worker)
    ensures db.jobs == if updated
                       then old(db.jobs)[id := old(db.jobs)[id].(heartbeatAt := Some(now), updatedAt := now)]
                       else old(db.jobs)
  {
    if id in db.jobs && db.jobs[id].status == Running && db.jobs[id].worker == Some(worker) {
      db.jobs := db.jobs[id := db.jobs[id].(heartbeatAt := Some(now), updatedAt := now)];
      return true;
    }
    return false;
  }

  /** The outcome transaction on the columns: a worker whose name is not on the
      running row, or whose commits are both lost, changes nothing; a committed
      result completes the row and is logged; an engine error or a rolled-back
      commit fails it, with one refund and one failure event. */
  ghost predicate Concludes(cfg: Config, before: Db, after: Db, id: JobId, user: UserId, interactions: nat,
                            worker: WorkerId, outcome: Outcome, commit: Commit, now: Time, completed: bool)
  {
    var mine := id in before.jobs && before.jobs[id].status == Running && before.jobs[id].worker == Some(worker);
    && after.users == before.users
    && (completed <==> mine && outcome.Generated? && commit == Committed)
    && if !mine || (outcome.Generated? && commit == Commit.Lost) then
         after.jobs == before.jobs && after.usage == before.usage && after.events == before.events
       else if outcome.Generated? && commit == Committed then
         && after.jobs == before.jobs[id := before.jobs[id].(
              status := Completed, data := Some(outcome.records), computeMs := Some(outcome.computeMs),
              completedAt := Some(now), updatedAt := now)]
         && after.usage == before.usage
         && after.events == before.events
              + [Event(user, SimulationCompleted, now, interactions, Some(outcome.computeMs), true)]
       else
         && after.jobs == before.jobs[id := before.jobs[id].(
              status := Failed, completedAt := Some(now), updatedAt := now,
              errorCode := Some(if outcome.EngineFailed? then outcome.code else "simulation_persistence_failed"))]
         && GaveBack(cfg, before.usage, after.usage, user, interactions, now)
         && after.events == before.events + [Event(user, SimulationFailed, now, 0, Some(0), false)]
  }

  lemma FinishConcludes(cfg: Config, db: Db, id: JobId, user: UserId, interactions: nat, worker: WorkerId,
                        outcome: Outcome, commit: Commit, now: Time)
    ensures var (db', completed) := Finish(cfg, db, id, user, interactions, worker, outcome, commit, now);
            Concludes(cfg, db, db', id, user, interactions, worker, outcome, commit, now, completed)
  {
  }

  /** `outcome` is what the engine made of the job read at claim time. */
  method ProcessClaimedJob(cfg: Config, db: Database, id: JobId, user: UserId, interactions: nat, worker: WorkerId,
                           outcome: Outcome, commit: Commit, now: Time)
    returns (completed: bool)
    modifies db
    ensures (db.Snapshot(), completed)
        == Finish(cfg, old(db.Snapshot()), id, user, interactions, worker, outcome, commit, now)
    ensures Concludes(cfg, old(db.Snapshot()), db.Snapshot(), id, user, interactions, worker, outcome, commit, now,
                      completed)
  {
    FinishConcludes(cfg, db.Snapshot(), id, user, interactions, worker, outcome, commit, now);
    if id !in db.jobs || db.jobs[id].status != Running || db.jobs[id].worker != Some(worker) {
      return false;
    }
    var before := db.jobs;
    var row := db.jobs[id];
    if outcome.EngineFailed? {
      db.jobs := before[id := row.(status := Failed, errorCode := Some(outcome.code), completedAt := Some(now),
          updatedAt := now)];
      RefundAndRecordFailure(cfg, db, id, user, interactions, now);
      return false;
    }
    db.jobs := before[id := row.(status := Completed, data := Some(outcome.records),
        computeMs := Some(outcome.computeMs),
                                 completedAt := Some(now), updatedAt := now)];
    if commit.Committed? {
      RecordUsageResult(db, user, SimulationCompleted, interactions, Some(outcome.computeMs), true, now);
      return true;
    }
    db.jobs := before;  // rollback
    if commit.MarkedFailed? {
      db.jobs := before[id := row.(status := Failed, errorCode := Some(PERSISTENCE_FAILED), completedAt := Some(now),
          updatedAt := now)];
      RefundAndRecordFailure(cfg, db, id, user, interactions, now);
    }
    return false;
  }
}
