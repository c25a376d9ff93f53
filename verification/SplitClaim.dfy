/** A claim call as the transactions it consists of: the candidates are fetched
    and locked, then looked at one by one; the commit after a failed candidate
    gives up every lock, and the rows fetched before are not read again
    (app/services/worker.py, app/db/session.py). */
module SplitClaim {
  import opened Domain
  import opened JobOrder
  import opened UsageService
  import opened SimulationJobService
  import opened WorkerService
  import opened ClaimTheorem
  import opened Invariants
  import opened Evolution

  /** A candidate with its row as it was fetched. */
  datatype Seen = Seen(id: JobId, row: Job)

  predicate Unchanged(db: Db, seen: Seen) {
    seen.id in db.jobs && db.jobs[seen.id] == seen.row
  }

  // ---- Writing an object back ----

  /** Only a column whose value differs from the one fetched is written. */
  function Column<T(==)>(fetched: T, next: T, current: T): T {
    if next == fetched then current else next
  }

  function Written(fetched: Job, next: Job, current: Job): Job {
    Job(Column(fetched.user, next.user, current.user),
        Column(fetched.params, next.params, current.params),
        Column(fetched.status, next.status, current.status),
        Column(fetched.data, next.data, current.data),
        Column(fetched.computeMs, next.computeMs, current.computeMs),
        Column(fetched.reproducible, next.reproducible, current.reproducible),
        Column(fetched.errorCode, next.errorCode, current.errorCode),
        Column(fetched.createdAt, next.createdAt, current.createdAt),
        Column(fetched.startedAt, next.startedAt, current.startedAt),
        Column(fetched.completedAt, next.completedAt, current.completedAt),
        Column(fetched.updatedAt, next.updatedAt, current.updatedAt),
        Column(fetched.worker, next.worker, current.worker),
        Column(fetched.claimedAt, next.claimedAt, current.claimedAt),
        Column(fetched.heartbeatAt, next.heartbeatAt, current.heartbeatAt),
        Column(fetched.attempts, next.attempts, current.attempts),
        Column(fetched.maxAttempts, next.maxAttempts, current.maxAttempts))
  }

  // ---- One candidate ----

  datatype LookResult = Taken | GivenUp | PassedOver | Vanished

  /** The body of the loop for a candidate fetched at `at`, run at `now`. It
      decides and stamps by the time of the fetch; the capacity check reads the
      tables as they are; the update of a row that is gone raises. */
  function LookAt(cfg: Config, db: Db, seen: Seen, worker: WorkerId, at: Time, now: Time): (Db, LookResult) {
    var job := seen.row;
    if Doomed(cfg, job, at) then
      if seen.id !in db.jobs then (db, Vanished) else
      var row := Written(job, FailedRow(job, DoomCode(job), at), db.jobs[seen.id]);
      (Release(cfg, PutRow(db, seen.id, row), seen.id, job.user, job.params.interactions, now), GivenUp)
    else if !job.status.Terminal()
        && HasCapacity(db.users, db.jobs, job.user, if job.status.Running? then {seen.id} else {}) then
      if seen.id !in db.jobs then (db, Vanished) else
      (PutRow(db, seen.id, Written(job, ClaimedRow(job, worker, at), db.jobs[seen.id])), Taken)
    else (db, PassedOver)
  }

  /** The same with the row read again, and passed over unless it is still a candidate. */
  function LookAtCurrent(cfg: Config, db: Db, id: JobId, worker: WorkerId, at: Time, now: Time): (Db, LookResult) {
    if id in db.jobs && Eligible(cfg, db.jobs[id], at) then LookAt(cfg, db, Seen(id, db.jobs[id]), worker, at, now)
    else (db, PassedOver)
  }

  /** What others can have made of a fetched row: it is gone, untouched, on a
      later attempt, or no candidate any more. */
  predicate Evolved(cfg: Config, db: Db, seen: Seen, at: Time) {
    seen.id in db.jobs ==>
      var job := db.jobs[seen.id];
      && SameIdentity(seen.row, job) && seen.row.attempts <= job.attempts <= job.maxAttempts
      && (job == seen.row || seen.row.attempts < job.attempts || !Eligible(cfg, job, at))
  }

  lemma WrittenUnchanged(row: Job, next: Job)
    ensures Written(row, next, row) == next
  {
  }

  /** The tables after a row, as it is, was given up. */
  function GivenUpDb(cfg: Config, db: Db, id: JobId, job: Job, at: Time, now: Time): Db {
    Release(cfg, PutRow(db, id, FailedRow(job, DoomCode(job), at)), id, job.user, job.params.interactions, now)
  }

  /** At an unchanged row a look that acts writes the whole row. */
  lemma LookAtUnchanged(cfg: Config, db: Db, seen: Seen, worker: WorkerId, at: Time, now: Time)
    requires Unchanged(db, seen)
    ensures var (db', result) := LookAt(cfg, db, seen, worker, at, now);
            && !result.Vanished?
            && (result.GivenUp? ==> db' == GivenUpDb(cfg, db, seen.id, seen.row, at, now) && Doomed(cfg, seen.row, at))
            && (result.Taken? ==>
                  && db' == PutRow(db, seen.id, ClaimedRow(seen.row, worker, at))
                  && !seen.row.status.Terminal() && !Doomed(cfg, seen.row, at)
                  && HasCapacity(db.users, db.jobs, seen.row.user, if seen.row.status.Running? then {seen.id} else {}))
  {
    WrittenUnchanged(seen.row, FailedRow(seen.row, DoomCode(seen.row), at));
    WrittenUnchanged(seen.row, ClaimedRow(seen.row, worker, at));
  }

  /** What a look decides, by the row as it was fetched and the room there is now. */
  lemma LookDecides(cfg: Config, db: Db, seen: Seen, worker: WorkerId, at: Time, now: Time)
    ensures var j, result := seen.row, LookAt(cfg, db, seen, worker, at, now).1;
            if (j.status == Running && j.attempts >= j.maxAttempts)
               || (j.status == Pending && j.createdAt < at - cfg.maxPending)
            then result == if seen.id in db.jobs then GivenUp else Vanished
            else if j.status in {Pending, Running}
                    && HasRoom(db.users, db.jobs, j.user, if j.status == Running then Some(seen.id) else None)
            then result == if seen.id in db.jobs then Taken else Vanished
            else result == PassedOver
  {
    CapacityIsRoom(db.users, db.jobs, seen.row.user, if seen.row.status == Running then Some(seen.id) else None);
  }

  /** A failed row on the columns. */
  function GivenUpRow(j: Job, at: Time): Job {
    j.(status := Failed, completedAt := Some(at), updatedAt := at,
       errorCode := Some(if j.status == Running then "execution_timeout" else "queue_timeout"))
  }

  /** A taken row on the columns. */
  function TakenRow(j: Job, worker: WorkerId, at: Time): Job {
    j.(status := Running, attempts := j.attempts + 1, worker := Some(worker), claimedAt := Some(at),
       heartbeatAt := Some(at), updatedAt := at,
       startedAt := if j.status == Pending && j.startedAt == None then Some(at) else j.startedAt)
  }

  /** What a look writes: at an unchanged row the whole outcome, stamped with the
      time of the fetch; at a changed one the columns it sets, over the others. */
  lemma LookOnColumns(cfg: Config, db: Db, seen: Seen, worker: WorkerId, at: Time, now: Time)
    requires seen.id in db.jobs && !LookAt(cfg, db, seen, worker, at, now).1.PassedOver?
    ensures var j, c, (db', result) := seen.row, db.jobs[seen.id], LookAt(cfg, db, seen, worker, at, now);
            && seen.id in db'.jobs && db'.jobs == db.jobs[seen.id := db'.jobs[seen.id]]
            && var w := db'.jobs[seen.id];
            && w.data == c.data && w.user == c.user && w.params == c.params
            && (if result.GivenUp? then
                  && w.status == Failed && w.attempts == c.attempts && w.worker == c.worker
                  && (Unchanged(db, seen) ==> w == GivenUpRow(j, at))
                  && GaveBack(cfg, db.usage, db'.usage, j.user, j.params.interactions, now)
                  && db'.events == db.events + [Event(j.user, SimulationFailed, now, 0, Some(0), false)]
                else
                  && w.status == (if j.status == Pending then Running else c.status)
                  && w.attempts == j.attempts + 1 && w.errorCode == c.errorCode && w.completedAt == c.completedAt
                  && (Unchanged(db, seen) ==> w == TakenRow(j, worker, at))
                  && db'.usage == db.usage && db'.events == db.events)
  {
    WrittenUnchanged(seen.row, FailedRow(seen.row, DoomCode(seen.row), at));
    WrittenUnchanged(seen.row, ClaimedRow(seen.row, worker, at));
  }

  /** A look that acts does the same as one that reads the row again if and only
      if the row has not changed since the fetch. */
  lemma FetchedRowIsAsGoodAsCurrentIffUnchanged(cfg: Config, db: Db, seen: Seen, worker: WorkerId, at: Time, now: Time)
    requires RowOk(cfg, seen.row, at) && Eligible(cfg, seen.row, at) && Evolved(cfg, db, seen, at)
    requires seen.id in db.jobs ==> RowOk(cfg, db.jobs[seen.id], now)
    requires !LookAt(cfg, db, seen, worker, at, now).1.PassedOver?
    ensures LookAt(cfg, db, seen, worker, at, now) == LookAtCurrent(cfg, db, seen.id, worker, at, now)
            <==> Unchanged(db, seen)
  {
    if !Unchanged(db, seen) && seen.id in db.jobs && Eligible(cfg, db.jobs[seen.id], at) {
      ChangedRowShows(cfg, db, seen, worker, at, now);
    }
  }

  /** A row on a later attempt comes out with another error code or attempt count. */
  lemma ChangedRowShows(cfg: Config, db: Db, seen: Seen, worker: WorkerId, at: Time, now: Time)
    requires RowOk(cfg, seen.row, at) && Eligible(cfg, seen.row, at) && Evolved(cfg, db, seen, at)
    requires seen.id in db.jobs && RowOk(cfg, db.jobs[seen.id], now) && Eligible(cfg, db.jobs[seen.id], at)
    requires !LookAt(cfg, db, seen, worker, at, now).1.PassedOver? && !Unchanged(db, seen)
    ensures LookAt(cfg, db, seen, worker, at, now) != LookAtCurrent(cfg, db, seen.id, worker, at, now)
  {
    var job, row := seen.row, db.jobs[seen.id];
    var stale, current := LookAt(cfg, db, seen, worker, at, now), LookAtCurrent(cfg, db, seen.id, worker, at, now);
    WrittenUnchanged(row, FailedRow(row, DoomCode(row), at));
    WrittenUnchanged(row, ClaimedRow(row, worker, at));
    if stale.1 == current.1 {
      assert job.attempts < row.attempts && row.status.Running?;
      if stale.1.GivenUp? {
        assert job.status.Pending?;
        assert stale.0.jobs[seen.id].errorCode == Some(QUEUE_TIMEOUT);
        assert current.0.jobs[seen.id].errorCode == Some(EXECUTION_TIMEOUT);
        assert |QUEUE_TIMEOUT| != |EXECUTION_TIMEOUT|;
      } else {
        assert stale.0.jobs[seen.id].attempts == job.attempts + 1;
        assert current.0.jobs[seen.id].attempts == row.attempts + 1;
      }
    }
  }

  /** Two calls that hold a copy of the same overdue or exhausted row both fail
      it: one reservation is refunded twice and two failures are logged. */
  lemma StaleFailureRefundsAgain(cfg: Config, db: Db, seen: Seen, first: WorkerId, second: WorkerId,
                                 at: Time, at': Time, now: Time, now': Time)
    requires Unchanged(db, seen) && Doomed(cfg, seen.row, at) && Doomed(cfg, seen.row, at')
    ensures var user, n := seen.row.user, seen.row.params.interactions;
            var (once, result) := LookAt(cfg, db, seen, first, at, now);
            var (twice, result') := LookAt(cfg, once, seen, second, at', now');
            && result.GivenUp? && result'.GivenUp?
            && twice.usage == Refund(cfg, Refund(cfg, db.usage, user, n, now), user, n, now')
            && twice.events == db.events + [FailedEvent(user, now), FailedEvent(user, now')]
  {
  }

  // ---- A whole call ----

  /** The candidate query under SKIP LOCKED. */
  function FetchIds(cfg: Config, jobs: map<JobId, Job>, locked: set<JobId>, now: Time): seq<JobId> {
    var all := Sorted(jobs, EligibleIds(cfg, jobs, now) - locked);
    if |all| <= CLAIM_LIMIT then all else all[..CLAIM_LIMIT]
  }

  lemma FetchedAreRows(cfg: Config, jobs: map<JobId, Job>, locked: set<JobId>, now: Time)
    ensures forall id :: id in FetchIds(cfg, jobs, locked, now) ==>
              id in jobs && Eligible(cfg, jobs[id], now) && id !in locked
  {
    var ids := EligibleIds(cfg, jobs, now) - locked;
    SortedIsOrdered(jobs, ids);
    forall id | id in FetchIds(cfg, jobs, locked, now) ensures id in ids {
      assert id in Elements(Sorted(jobs, ids));
    }
  }

  function Copies(jobs: map<JobId, Job>, ids: seq<JobId>): (seen: seq<Seen>)
    requires forall id :: id in ids ==> id in jobs
    ensures |seen| == |ids|
    ensures forall i :: 0 <= i < |ids| ==> seen[i] == Seen(ids[i], jobs[ids[i]])
  {
    if ids == [] then [] else [Seen(ids[0], jobs[ids[0]])] + Copies(jobs, ids[1..])
  }

  function FetchRows(cfg: Config, jobs: map<JobId, Job>, locked: set<JobId>, now: Time): seq<Seen> {
    FetchedAreRows(cfg, jobs, locked, now);
    Copies(jobs, FetchIds(cfg, jobs, locked, now))
  }

  /** The loop without anything in between. */
  function Looks(cfg: Config, db: Db, seen: seq<Seen>, worker: WorkerId, now: Time): (Db, Option<JobId>)
    decreases |seen|
  {
    if seen == [] then (db, None) else
    var (db', result) := LookAt(cfg, db, seen[0], worker, now, now);
    match result
    case Taken => (db', Some(seen[0].id))
    case Vanished => (db', None)
    case _ => Looks(cfg, db', seen[1..], worker, now)
  }

  /** At an unchanged row a look is the inspection of the candidate. */
  lemma LookIsInspect(cfg: Config, db: Db, seen: Seen, worker: WorkerId, now: Time)
    requires Unchanged(db, seen)
    ensures var (db', result) := LookAt(cfg, db, seen, worker, now, now);
            Inspect(cfg, db, seen.id, worker, now) == (db', result.Taken?) && !result.Vanished?
    ensures forall id :: id in db.jobs && id != seen.id ==>
              var db' := LookAt(cfg, db, seen, worker, now, now).0;
              id in db'.jobs && db'.jobs[id] == db.jobs[id]
  {
    var row := seen.row;
    WrittenUnchanged(row, FailedRow(row, DoomCode(row), now));
    WrittenUnchanged(row, ClaimedRow(row, worker, now));
  }

  lemma {:induction false} LooksAreScan(cfg: Config, db: Db, ids: seq<JobId>, seen: seq<Seen>, worker: WorkerId,
                                        now: Time)
    requires (forall id :: id in ids ==> id in db.jobs) && seen == Copies(db.jobs, ids)
    requires forall i, j :: 0 <= i < j < |ids| ==> ids[i] != ids[j]
    ensures Looks(cfg, db, seen, worker, now) == ClaimScan(cfg, db, ids, worker, now)
    decreases |ids|
  {
    if ids != [] {
      LookIsInspect(cfg, db, seen[0], worker, now);
      var (db', taken) := Inspect(cfg, db, ids[0], worker, now);
      if !taken {
        forall id | id in ids[1..] ensures id in db'.jobs && db'.jobs[id] == db.jobs[id] {
          var i :| 0 <= i < |ids[1..]| && ids[1..][i] == id;
          assert ids[i + 1] == id;
        }
        forall i | 0 <= i < |ids[1..]| ensures seen[1..][i] == Copies(db'.jobs, ids[1..])[i] {
          assert ids[1..][i] in ids[1..];
        }
        LooksAreScan(cfg, db', ids[1..], seen[1..], worker, now);
      }
    }
  }

  /** With nothing in between, the fetch and the looks are the claim call. */
  lemma UndisturbedCallIsClaim(cfg: Config, db: Db, worker: WorkerId, now: Time)
    ensures Looks(cfg, db, FetchRows(cfg, db.jobs, {}, now), worker, now) == Claim(cfg, db, worker, now)
  {
    assert EligibleIds(cfg, db.jobs, now) - {} == EligibleIds(cfg, db.jobs, now);
    var ids := Candidates(cfg, db.jobs, now);
    assert FetchIds(cfg, db.jobs, {}, now) == ids;
    CandidatesAreRows(cfg, db.jobs, now);
    OrderedApart(db.jobs, ids);
    LooksAreScan(cfg, db, ids, FetchRows(cfg, db.jobs, {}, now), worker, now);
  }
}
