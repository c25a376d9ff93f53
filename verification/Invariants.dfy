/** What every operation keeps true of the tables. */
module Invariants {
  import opened Domain
  import opened FiniteSums
  import opened UsageService
  import opened SimulationJobService
  import opened WorkerService
  import opened SimulationsApi
  import opened Ledger
  import opened AuditLog
  import ClaimTheorem

  // ---- Rows ----

  ghost predicate IsEngineOutput(cfg: Config, params: Params, records: Records) {
    exists entropy: int :: RunEngine(cfg, params, entropy) == records
  }

  /** A row that was claimed at least once, up to now. */
  ghost predicate WasClaimed(job: Job, now: Time) {
    && job.worker.Some? && job.startedAt.Some? && job.claimedAt.Some? && job.heartbeatAt.Some?
    && job.createdAt <= job.startedAt.value <= job.claimedAt.value <= job.heartbeatAt.value <= now
    && 1 <= job.attempts <= job.maxAttempts
  }

  ghost predicate NeverClaimed(job: Job) {
    job.worker.None? && job.startedAt.None? && job.claimedAt.None? && job.heartbeatAt.None? && job.attempts == 0
  }

  ghost predicate EndedAt(job: Job, now: Time) {
    && job.completedAt.Some? && job.createdAt <= job.completedAt.value <= now
    && (job.claimedAt.Some? ==> job.claimedAt.value <= job.completedAt.value)
    && (job.heartbeatAt.Some? ==> job.heartbeatAt.value <= job.completedAt.value)
  }

  /** Result, error, owner and timestamps agree with the status. */
  ghost predicate RowOk(cfg: Config, job: Job, now: Time) {
    && job.createdAt <= now && job.maxAttempts == DEFAULT_MAX_ATTEMPTS
    && (job.data.Some? <==> job.computeMs.Some?)
    && (job.data.Some? <==> job.status.Completed?)
    && (job.errorCode.Some? <==> job.status.Failed?)
    && (job.reproducible <==> job.params.seed.Some?)
    && match job.status
       case Pending => NeverClaimed(job) && job.completedAt.None?
       case Running => WasClaimed(job, now) && job.completedAt.None?
       case Completed => WasClaimed(job, now) && EndedAt(job, now) && IsEngineOutput(cfg, job.params, job.data.value)
       case Failed => (NeverClaimed(job) || WasClaimed(job, now)) && EndedAt(job, now)
  }

  /** The row is the job that was submitted under this id. */
  ghost predicate RowMatches(h: History, id: JobId, job: Job) {
    && id in h.tickets && id in h.submitted
    && job.user == h.tickets[id].user && job.params == h.submitted[id]
    && job.params.interactions == h.tickets[id].interactions
  }

  ghost predicate RowsOk(cfg: Config, db: Db, now: Time) {
    && (forall id :: id in db.jobs ==> RowOk(cfg, db.jobs[id], now) && RowMatches(db.hist, id, db.jobs[id]))
    && (forall id :: id in db.hist.archived ==>
          && RowOk(cfg, db.hist.archived[id], now) && RowMatches(db.hist, id, db.hist.archived[id])
          && !db.hist.archived[id].status.Running?)
  }

  /** A reservation is in flight, a row, a removed row, or gone. */
  ghost predicate IdsOk(db: Db) {
    var h := db.hist;
    && h.inFlight <= h.tickets.Keys
    && h.inFlight !! db.jobs.Keys && h.inFlight !! h.archived.Keys && db.jobs.Keys !! h.archived.Keys
    && h.submitted.Keys == db.jobs.Keys + h.archived.Keys
    && (forall id :: id in h.tickets ==> h.tickets[id].user in db.users)
  }

  /** Reservations that stay charged: in flight, pending, running or completed,
      and completed ones whose row has been removed since. */
  ghost function Counted(db: Db): set<JobId> {
    db.hist.inFlight
    + (set id | id in db.jobs && !db.jobs[id].status.Failed?)
    + (set id | id in db.hist.archived && db.hist.archived[id].status.Completed?)
  }

  /** Reservations without an outcome yet. */
  ghost function Open(db: Db): set<JobId> {
    db.hist.inFlight + (set id | id in db.jobs && !db.jobs[id].status.Terminal())
  }

  /** No user has more running jobs than the plan allows. */
  ghost predicate Capped(db: Db) {
    forall u: UserId :: u in db.users ==> |RunningIds(db.jobs, u)| <= ConcurrencyLimit(db.users[u])
  }

  ghost predicate BooksOk(cfg: Config, db: Db, now: Time) {
    && LedgerOk(db.hist.tickets, Counted(db), db.hist.late, db.usage, cfg.period(now))
    && AuditOk(cfg, db.hist.tickets, Open(db), db.hist.late, db.events, db.usage)
    && WithinQuota(db.users, db.usage)
  }

  ghost predicate DbOk(cfg: Config, db: Db, now: Time) {
    IdsOk(db) && RowsOk(cfg, db, now) && BooksOk(cfg, db, now) && Capped(db)
  }

  // ---- The books, one kind of change at a time ----

  /** `db'` differs from `db` by a granted reservation. */
  ghost predicate Granted(cfg: Config, db: Db, db': Db, id: JobId, user: UserId, n: nat, now: Time) {
    var h, key := db.hist, (user, cfg.period(now));
    var row := UsageOf(db.usage, user, cfg.period(now));
    && db'.users == db.users && db'.jobs == db.jobs
    && db'.usage == db.usage[key := Usage(row.requests + 1, row.interactions + n)]
    && db'.events == db.events + [Event(user, SimulationRequest, now, n, None, true)]
    && db'.hist.tickets == h.tickets[id := Ticket(user, n, cfg.period(now))] && db'.hist.inFlight == h.inFlight + {id}
    && db'.hist.submitted == h.submitted && db'.hist.archived == h.archived && db'.hist.late == h.late
  }

  lemma GrantedSets(cfg: Config, db: Db, db': Db, id: JobId, user: UserId, n: nat, now: Time)
    requires Granted(cfg, db, db', id, user, n, now)
    ensures Counted(db') == Counted(db) + {id} && Open(db') == Open(db) + {id}
  {
  }

  lemma BooksGranted(cfg: Config, db: Db, db': Db, id: JobId, user: UserId, n: nat, now: Time)
    requires BooksOk(cfg, db, now) && id !in db.hist.tickets && Granted(cfg, db, db', id, user, n, now)
    ensures LedgerOk(db'.hist.tickets, Counted(db'), db'.hist.late, db'.usage, cfg.period(now))
    ensures AuditOk(cfg, db'.hist.tickets, Open(db'), db'.hist.late, db'.events, db'.usage)
  {
    GrantedSets(cfg, db, db', id, user, n, now);
    LedgerGranted(cfg, db, db', id, user, n, now, Counted(db));
    AuditGranted(cfg, db, db', id, user, n, now, Open(db));
  }

  lemma LedgerGranted(cfg: Config, db: Db, db': Db, id: JobId, user: UserId, n: nat, now: Time, counted: set<JobId>)
    requires LedgerOk(db.hist.tickets, counted, db.hist.late, db.usage, cfg.period(now)) && id !in db.hist.tickets
    requires Granted(cfg, db, db', id, user, n, now)
    ensures LedgerOk(db'.hist.tickets, counted + {id}, db'.hist.late, db'.usage, cfg.period(now))
  {
    LedgerReserves(db.hist.tickets, counted, db.hist.late, db.usage, cfg.period(now), id, user, n);
  }

  lemma AuditGranted(cfg: Config, db: Db, db': Db, id: JobId, user: UserId, n: nat, now: Time, open: set<JobId>)
    requires AuditOk(cfg, db.hist.tickets, open, db.hist.late, db.events, db.usage) && id !in db.hist.tickets
    requires Granted(cfg, db, db', id, user, n, now)
    ensures AuditOk(cfg, db'.hist.tickets, open + {id}, db'.hist.late, db'.events, db'.usage)
  {
    AuditReserves(cfg, db.hist.tickets, open, db.hist.late, db.events, db.usage, id, user, n,
                  Event(user, SimulationRequest, now, n, None, true));
  }

  /** `db'` differs from `db` by the release of one open, counted reservation. */
  lemma BooksRelease(cfg: Config, db: Db, db': Db, id: JobId, now: Time)
    requires BooksOk(cfg, db, now) && id in Open(db) && id in Counted(db)
    requires var t := db.hist.tickets[id];
             && db'.users == db.users && db'.hist.tickets == db.hist.tickets
             && db'.hist.late == NoteRelease(cfg, db.hist, id, now).late
             && db'.usage == Refund(cfg, db.usage, t.user, t.interactions, now)
             && db'.events == db.events + [FailedEvent(t.user, now)]
    requires Counted(db') == Counted(db) - {id} && Open(db') == Open(db) - {id}
    ensures BooksOk(cfg, db', now)
  {
    var h, t := db.hist, db.hist.tickets[id];
    if t.period == cfg.period(now) && NothingLanded(h.tickets, h.late, t.user, cfg.period(now)) {
      RefundIsCovered(h.tickets, Counted(db), h.late, db.usage, cfg.period(now), id);
    }
    LedgerReleases(cfg, h.tickets, Counted(db), h.late, db.usage, id, now);
    AuditReleases(cfg, h.tickets, Open(db), h.late, db.events, db.usage, id, now);
    RefundStaysWithinQuota(cfg, db.users, db.usage, t.user, t.interactions, now);
  }

  lemma BooksSame(cfg: Config, db: Db, db': Db, now: Time)
    requires BooksOk(cfg, db, now)
    requires db'.users == db.users && db'.usage == db.usage && db'.events == db.events
    requires db'.hist.tickets == db.hist.tickets && db'.hist.late == db.hist.late
    requires Counted(db') == Counted(db) && Open(db') == Open(db)
    ensures BooksOk(cfg, db', now)
  {
  }

  lemma CappedFrame(db: Db, db': Db)
    requires Capped(db) && db'.users == db.users
    requires forall u: UserId :: RunningIds(db'.jobs, u) <= RunningIds(db.jobs, u)
    ensures Capped(db')
  {
    forall u: UserId | u in db'.users ensures |RunningIds(db'.jobs, u)| <= ConcurrencyLimit(db'.users[u]) {
      SubsetSize(RunningIds(db'.jobs, u), RunningIds(db.jobs, u));
    }
  }

  /** `db'` is `db` with the row of `id` replaced, and perhaps with other books. */
  ghost predicate Replaced(db: Db, db': Db, id: JobId, row: Job) {
    && id in db.jobs && db'.jobs == db.jobs[id := row] && db'.users == db.users
    && db'.hist.tickets == db.hist.tickets && db'.hist.inFlight == db.hist.inFlight
    && db'.hist.submitted == db.hist.submitted && db'.hist.archived == db.hist.archived
    && row.user == db.jobs[id].user && row.params == db.jobs[id].params
  }

  lemma ReplacedRows(cfg: Config, db: Db, db': Db, id: JobId, row: Job, now: Time)
    requires IdsOk(db) && RowsOk(cfg, db, now) && Replaced(db, db', id, row) && RowOk(cfg, row, now)
    ensures IdsOk(db') && RowsOk(cfg, db', now)
  {
    assert db'.jobs.Keys == db.jobs.Keys;
    forall i | i in db'.jobs ensures RowOk(cfg, db'.jobs[i], now) && RowMatches(db'.hist, i, db'.jobs[i]) {
      assert RowOk(cfg, db.jobs[i], now) && RowMatches(db.hist, i, db.jobs[i]);
    }
  }

  lemma ReplacedSets(db: Db, db': Db, id: JobId, row: Job)
    requires IdsOk(db) && Replaced(db, db', id, row)
    ensures Counted(db') == if row.status.Failed? then Counted(db) - {id} else Counted(db) + {id}
    ensures Open(db') == if row.status.Terminal() then Open(db) - {id} else Open(db) + {id}
  {
  }

  lemma ReplacedRunning(db: Db, db': Db, id: JobId, row: Job)
    requires Replaced(db, db', id, row) && Capped(db)
    requires row.status.Running? ==> db.jobs[id].status.Running?
    ensures Capped(db')
  {
    CappedFrame(db, db');
  }

  lemma RunningAfterPut(jobs: map<JobId, Job>, id: JobId, row: Job, u: UserId)
    ensures RunningIds(jobs[id := row], u) ==
              if row.status.Running? && row.user == u then RunningIds(jobs, u) + {id} else RunningIds(jobs, u) - {id}
  {
  }

  // ---- New rows ----

  lemma FailedRowOk(cfg: Config, job: Job, code: string, now: Time)
    requires RowOk(cfg, job, now) && !job.status.Terminal()
    ensures RowOk(cfg, FailedRow(job, code, now), now)
  {
  }

  lemma ClaimedRowOk(cfg: Config, job: Job, worker: WorkerId, now: Time)
    requires RowOk(cfg, job, now) && !job.status.Terminal() && !Exhausted(job)
    ensures RowOk(cfg, ClaimedRow(job, worker, now), now)
  {
  }

  lemma CompletedRowOk(cfg: Config, job: Job, records: Records, computeMs: nat, now: Time)
    requires RowOk(cfg, job, now) && job.status.Running? && IsEngineOutput(cfg, job.params, records)
    ensures RowOk(cfg, CompletedRow(job, records, computeMs, now), now)
  {
  }

  lemma BeatRowOk(cfg: Config, job: Job, now: Time)
    requires RowOk(cfg, job, now) && job.status.Running?
    ensures RowOk(cfg, BeatRow(job, now), now)
  {
  }

  // ---- The operations ----

  lemma FreshId(cfg: Config, db: Db, id: JobId, now: Time)
    requires RowsOk(cfg, db, now) && id !in db.hist.tickets
    ensures id !in db.jobs && id !in db.hist.archived
  {
    assert forall x :: x in db.jobs ==> RowMatches(db.hist, x, db.jobs[x]);
    assert forall x :: x in db.hist.archived ==> RowMatches(db.hist, x, db.hist.archived[x]);
  }

  /** A larger history still matches the rows. */
  lemma RowsKeepMatching(cfg: Config, db: Db, db': Db, now: Time)
    requires RowsOk(cfg, db, now) && db'.jobs == db.jobs && db'.hist.archived == db.hist.archived
    requires db'.hist.submitted == db.hist.submitted
    requires forall id :: id in db.hist.tickets && (id in db.jobs || id in db.hist.archived) ==>
               id in db'.hist.tickets && db'.hist.tickets[id] == db.hist.tickets[id]
    ensures RowsOk(cfg, db', now)
  {
    forall id | id in db'.jobs ensures RowMatches(db'.hist, id, db'.jobs[id]) {
      assert RowMatches(db.hist, id, db.jobs[id]);
    }
    forall id | id in db'.hist.archived ensures RowMatches(db'.hist, id, db'.hist.archived[id]) {
      assert RowMatches(db.hist, id, db.hist.archived[id]);
    }
  }

  lemma GrantedIds(cfg: Config, db: Db, db': Db, id: JobId, user: UserId, n: nat, now: Time)
    requires IdsOk(db) && RowsOk(cfg, db, now)
    requires id !in db.hist.tickets && user in db.users && Granted(cfg, db, db', id, user, n, now)
    ensures IdsOk(db') && RowsOk(cfg, db', now)
  {
    FreshId(cfg, db, id, now);
    RowsKeepMatching(cfg, db, db', now);
  }

  lemma GrantedKeeps(cfg: Config, db: Db, db': Db, id: JobId, user: UserId, n: nat, now: Time)
    requires DbOk(cfg, db, now) && id !in db.hist.tickets && user in db.users && Granted(cfg, db, db', id, user, n, now)
    requires WithinQuota(db'.users, db'.usage)
    ensures DbOk(cfg, db', now)
  {
    GrantedIds(cfg, db, db', id, user, n, now);
    BooksGranted(cfg, db, db', id, user, n, now);
    CappedFrame(db, db');
  }

  /** A refusal leaves at most a new, empty usage row behind. */
  lemma RefusedKeeps(cfg: Config, db: Db, usage': UsageTable, now: Time)
    requires DbOk(cfg, db, now) && WithinQuota(db.users, usage')
    requires forall u: UserId, p: Period :: UsageOf(usage', u, p) == UsageOf(db.usage, u, p)
    ensures DbOk(cfg, db.(usage := usage'), now)
  {
    var h, db' := db.hist, db.(usage := usage');
    assert Counted(db') == Counted(db) && Open(db') == Open(db);
    LedgerOnlySeesCounters(h.tickets, Counted(db), h.late, db.usage, usage', cfg.period(now));
    AuditOnlySeesCounters(cfg, h.tickets, Open(db), h.late, db.events, db.usage, usage');
    CappedFrame(db, db');
    RowsKeepMatching(cfg, db, db', now);
  }

  /** What `Reserve` returns is one of the two. */
  lemma ReserveShape(cfg: Config, db: Db, id: JobId, user: UserId, n: nat, now: Time)
    requires user in db.users && WithinQuota(db.users, db.usage)
    ensures var (db', verdict) := Reserve(cfg, db, id, user, n, now);
            && WithinQuota(db.users, db'.usage)
            && (if verdict.Reserved? then Granted(cfg, db, db', id, user, n, now)
                else db' == db.(usage := db'.usage)
                     && forall u: UserId, p: Period :: UsageOf(db'.usage, u, p) == UsageOf(db.usage, u, p))
  {
    RefusalIsJustified(cfg, db, id, user, n, now);
  }

  lemma ReserveKeeps(cfg: Config, db: Db, id: JobId, user: UserId, n: nat, now: Time)
    requires DbOk(cfg, db, now) && id !in db.hist.tickets && user in db.users
    ensures DbOk(cfg, Reserve(cfg, db, id, user, n, now).0, now)
  {
    ReserveShape(cfg, db, id, user, n, now);
    var (db', verdict) := Reserve(cfg, db, id, user, n, now);
    if verdict.Reserved? {
      GrantedKeeps(cfg, db, db', id, user, n, now);
    } else {
      RefusedKeeps(cfg, db, db'.usage, now);
    }
  }

  lemma CreatedRows(cfg: Config, db: Db, id: JobId, params: Params, now: Time)
    requires IdsOk(db) && RowsOk(cfg, db, now)
    requires id in db.hist.inFlight && params.interactions == db.hist.tickets[id].interactions
    ensures RowsOk(cfg, CreateJob(db, id, db.hist.tickets[id].user, params, now), now)
  {
    var db' := CreateJob(db, id, db.hist.tickets[id].user, params, now);
    forall x | x in db'.jobs ensures RowOk(cfg, db'.jobs[x], now) && RowMatches(db'.hist, x, db'.jobs[x]) {
      if x != id {
        assert RowMatches(db.hist, x, db.jobs[x]);
      }
    }
    forall x | x in db'.hist.archived ensures RowMatches(db'.hist, x, db'.hist.archived[x]) {
      assert RowMatches(db.hist, x, db.hist.archived[x]) && x != id;
    }
  }

  lemma CreatedIds(db: Db, id: JobId, params: Params, now: Time)
    requires IdsOk(db) && id in db.hist.inFlight
    ensures IdsOk(CreateJob(db, id, db.hist.tickets[id].user, params, now))
  {
    var db' := CreateJob(db, id, db.hist.tickets[id].user, params, now);
    assert db'.jobs.Keys == db.jobs.Keys + {id};
    assert db'.hist.submitted.Keys == db.hist.submitted.Keys + {id};
  }

  lemma CreatedSets(db: Db, id: JobId, params: Params, now: Time)
    requires IdsOk(db) && id in db.hist.inFlight
    ensures var db' := CreateJob(db, id, db.hist.tickets[id].user, params, now);
            Counted(db') == Counted(db) && Open(db') == Open(db)
  {
    var db' := CreateJob(db, id, db.hist.tickets[id].user, params, now);
    assert forall x :: x in Counted(db') <==> x in Counted(db);
    assert forall x :: x in Open(db') <==> x in Open(db);
  }

  lemma CreatedBooks(cfg: Config, db: Db, id: JobId, params: Params, now: Time)
    requires IdsOk(db) && BooksOk(cfg, db, now) && Capped(db) && id in db.hist.inFlight
    ensures var db' := CreateJob(db, id, db.hist.tickets[id].user, params, now);
            BooksOk(cfg, db', now) && Capped(db')
  {
    var db' := CreateJob(db, id, db.hist.tickets[id].user, params, now);
    CreatedSets(db, id, params, now);
    BooksSame(cfg, db, db', now);
    CappedFrame(db, db');
  }

  lemma CreateKeeps(cfg: Config, db: Db, id: JobId, params: Params, now: Time)
    requires DbOk(cfg, db, now) && id in db.hist.inFlight && params.interactions == db.hist.tickets[id].interactions
    ensures DbOk(cfg, CreateJob(db, id, db.hist.tickets[id].user, params, now), now)
  {
    CreatedRows(cfg, db, id, params, now);
    CreatedIds(db, id, params, now);
    CreatedBooks(cfg, db, id, params, now);
  }

  lemma CreateFailsBooks(cfg: Config, db: Db, id: JobId, now: Time)
    requires IdsOk(db) && BooksOk(cfg, db, now) && id in db.hist.inFlight
    ensures var t := db.hist.tickets[id];
            BooksOk(cfg, Release(cfg, db, id, t.user, t.interactions, now), now)
  {
    var t := db.hist.tickets[id];
    var db' := Release(cfg, db, id, t.user, t.interactions, now);
    assert Counted(db') == Counted(db) - {id} && Open(db') == Open(db) - {id};
    BooksRelease(cfg, db, db', id, now);
  }

  lemma CreateFailsKeeps(cfg: Config, db: Db, id: JobId, now: Time)
    requires DbOk(cfg, db, now) && id in db.hist.inFlight
    ensures var t := db.hist.tickets[id];
            DbOk(cfg, Release(cfg, db, id, t.user, t.interactions, now), now)
  {
    var t := db.hist.tickets[id];
    var db' := Release(cfg, db, id, t.user, t.interactions, now);
    CreateFailsBooks(cfg, db, id, now);
    CappedFrame(db, db');
    RowsKeepMatching(cfg, db, db', now);
  }

  /** A row given up at `at` and released by `now`. */
  lemma FailKeeps(cfg: Config, db: Db, id: JobId, code: string, at: Time, now: Time)
    requires DbOk(cfg, db, now) && id in db.jobs && !db.jobs[id].status.Terminal()
    requires RowOk(cfg, db.jobs[id], at) && at <= now
    ensures var job := db.jobs[id];
            var failed := PutRow(db, id, FailedRow(job, code, at));
            DbOk(cfg, Release(cfg, failed, id, job.user, job.params.interactions, now), now)
  {
    var job, row := db.jobs[id], FailedRow(db.jobs[id], code, at);
    var db' := Release(cfg, PutRow(db, id, row), id, job.user, job.params.interactions, now);
    assert RowMatches(db.hist, id, job);
    FailedRowOk(cfg, job, code, at);
    RowAges(cfg, row, at, now);
    assert id in Counted(db) && id in Open(db);
    assert db'.hist.inFlight == db.hist.inFlight by { assert IdsOk(db); }
    assert Replaced(db, db', id, row);
    ReplacedRows(cfg, db, db', id, row, now);
    ReplacedSets(db, db', id, row);
    ReplacedRunning(db, db', id, row);
    BooksRelease(cfg, db, db', id, now);
  }

  lemma AssignCaps(db: Db, id: JobId, worker: WorkerId, at: Time)
    requires Capped(db) && id in db.jobs
    requires var job := db.jobs[id];
             HasCapacity(db.users, db.jobs, job.user, if job.status.Running? then {id} else {})
    ensures Capped(PutRow(db, id, ClaimedRow(db.jobs[id], worker, at)))
  {
    var job := db.jobs[id];
    var row := ClaimedRow(job, worker, at);
    var before := RunningIds(db.jobs, job.user);
    assert before - (if job.status.Running? then {id} else {}) == before - {id};
    forall u: UserId | u in db.users ensures |RunningIds(db.jobs[id := row], u)| <= ConcurrencyLimit(db.users[u]) {
      RunningAfterPut(db.jobs, id, row, u);
      if u == job.user {
        assert before + {id} == (before - {id}) + {id};
      } else {
        assert id !in RunningIds(db.jobs, u);
      }
    }
  }

  lemma AssignBooks(cfg: Config, db: Db, id: JobId, worker: WorkerId, at: Time, now: Time)
    requires IdsOk(db) && BooksOk(cfg, db, now) && id in db.jobs && !db.jobs[id].status.Terminal()
    ensures BooksOk(cfg, PutRow(db, id, ClaimedRow(db.jobs[id], worker, at)), now)
  {
    var row := ClaimedRow(db.jobs[id], worker, at);
    var db' := PutRow(db, id, row);
    ReplacedSets(db, db', id, row);
    assert id in Counted(db) && id in Open(db);
    assert Counted(db') == Counted(db) && Open(db') == Open(db);
    BooksSame(cfg, db, db', now);
  }

  /** A row taken and stamped with an earlier time. */
  lemma AssignKeeps(cfg: Config, db: Db, id: JobId, worker: WorkerId, at: Time, now: Time)
    requires DbOk(cfg, db, now) && id in db.jobs && RowOk(cfg, db.jobs[id], at) && at <= now
    requires var job := db.jobs[id];
             && !job.status.Terminal() && !Exhausted(job)
             && HasCapacity(db.users, db.jobs, job.user, if job.status.Running? then {id} else {})
    ensures DbOk(cfg, PutRow(db, id, ClaimedRow(db.jobs[id], worker, at)), now)
  {
    var row := ClaimedRow(db.jobs[id], worker, at);
    ClaimedRowOk(cfg, db.jobs[id], worker, at);
    RowAges(cfg, row, at, now);
    ReplacedRows(cfg, db, PutRow(db, id, row), id, row, now);
    AssignBooks(cfg, db, id, worker, at, now);
    AssignCaps(db, id, worker, at);
  }

  lemma CompleteBooks(cfg: Config, db: Db, id: JobId, records: Records, computeMs: nat, now: Time)
    requires IdsOk(db) && BooksOk(cfg, db, now) && id in db.jobs && db.jobs[id].status.Running?
    requires RowMatches(db.hist, id, db.jobs[id])
    ensures var job := db.jobs[id];
            BooksOk(cfg, CompleteJob(db, id, job.user, job.params.interactions, records, computeMs, now), now)
  {
    var job := db.jobs[id];
    var row := CompletedRow(job, records, computeMs, now);
    var db' := CompleteJob(db, id, job.user, job.params.interactions, records, computeMs, now);
    ReplacedSets(db, db', id, row);
    assert id in Counted(db) && id in Open(db);
    assert Counted(db') == Counted(db);
    AuditCompletes(cfg, db.hist.tickets, Open(db), db.hist.late, db.events, db.usage, id,
                   Event(job.user, SimulationCompleted, now, job.params.interactions, Some(computeMs), true));
  }

  lemma CompleteKeeps(cfg: Config, db: Db, id: JobId, records: Records, computeMs: nat, now: Time)
    requires DbOk(cfg, db, now) && id in db.jobs && db.jobs[id].status.Running?
    requires IsEngineOutput(cfg, db.jobs[id].params, records)
    ensures var job := db.jobs[id];
            DbOk(cfg, CompleteJob(db, id, job.user, job.params.interactions, records, computeMs, now), now)
  {
    var job := db.jobs[id];
    var db' := CompleteJob(db, id, job.user, job.params.interactions, records, computeMs, now);
    CompletedRowOk(cfg, job, records, computeMs, now);
    ReplacedRows(cfg, db, db', id, CompletedRow(job, records, computeMs, now), now);
    CompleteBooks(cfg, db, id, records, computeMs, now);
    ReplacedRunning(db, db', id, CompletedRow(job, records, computeMs, now));
  }

  lemma BeatBooks(cfg: Config, db: Db, id: JobId, now: Time)
    requires IdsOk(db) && BooksOk(cfg, db, now) && id in db.jobs && db.jobs[id].status.Running?
    ensures BooksOk(cfg, PutRow(db, id, BeatRow(db.jobs[id], now)), now)
  {
    var row := BeatRow(db.jobs[id], now);
    var db' := PutRow(db, id, row);
    ReplacedSets(db, db', id, row);
    assert id in Counted(db) && id in Open(db);
    BooksSame(cfg, db, db', now);
  }

  lemma BeatKeeps(cfg: Config, db: Db, id: JobId, worker: WorkerId, now: Time)
    requires DbOk(cfg, db, now)
    ensures DbOk(cfg, Heartbeat(db, id, worker, now).0, now)
  {
    if Owns(db, id, worker) {
      var row := BeatRow(db.jobs[id], now);
      BeatRowOk(cfg, db.jobs[id], now);
      ReplacedRows(cfg, db, PutRow(db, id, row), id, row, now);
      ReplacedRunning(db, PutRow(db, id, row), id, row);
      BeatBooks(cfg, db, id, now);
    }
  }

  /** Rows that are not running move to the archive. */
  lemma RemovedRows(cfg: Config, db: Db, ids: set<JobId>, now: Time)
    requires RowsOk(cfg, db, now)
    requires ids <= db.jobs.Keys && forall id :: id in ids ==> !db.jobs[id].status.Running?
    ensures RowsOk(cfg, RemoveRows(db, ids), now)
  {
    var db' := RemoveRows(db, ids);
    forall x | x in db'.hist.archived
      ensures RowOk(cfg, db'.hist.archived[x], now) && RowMatches(db'.hist, x, db'.hist.archived[x])
      ensures !db'.hist.archived[x].status.Running?
    {
      if x in ids {
        assert db'.hist.archived[x] == db.jobs[x];
        assert RowMatches(db.hist, x, db.jobs[x]);
      } else {
        assert RowMatches(db.hist, x, db.hist.archived[x]);
      }
    }
    forall x | x in db'.jobs ensures RowMatches(db'.hist, x, db'.jobs[x]) {
      assert RowMatches(db.hist, x, db.jobs[x]);
    }
  }

  lemma RemovedIds(db: Db, ids: set<JobId>)
    requires IdsOk(db) && ids <= db.jobs.Keys
    ensures IdsOk(RemoveRows(db, ids))
    ensures Capped(db) ==> Capped(RemoveRows(db, ids))
  {
    var db' := RemoveRows(db, ids);
    assert db'.hist.archived.Keys == db.hist.archived.Keys + ids;
    assert db'.jobs.Keys == db.jobs.Keys - ids;
    if Capped(db) {
      CappedFrame(db, db');
    }
  }

  lemma RemovedSets(db: Db, ids: set<JobId>)
    requires IdsOk(db) && ids <= db.jobs.Keys && forall id :: id in ids ==> db.jobs[id].status.Terminal()
    ensures Counted(RemoveRows(db, ids)) == Counted(db) && Open(RemoveRows(db, ids)) == Open(db)
  {
    var db' := RemoveRows(db, ids);
    assert forall x :: x in Counted(db') <==> x in Counted(db);
  }

  lemma RemoveTerminalKeeps(cfg: Config, db: Db, ids: set<JobId>, now: Time)
    requires DbOk(cfg, db, now) && ids <= db.jobs.Keys && forall id :: id in ids ==> db.jobs[id].status.Terminal()
    ensures DbOk(cfg, RemoveRows(db, ids), now)
  {
    RemovedRows(cfg, db, ids, now);
    RemovedIds(db, ids);
    RemovedSets(db, ids);
    BooksSame(cfg, db, RemoveRows(db, ids), now);
  }

  lemma PendingRowGone(db: Db, db': Db, id: JobId)
    requires IdsOk(db) && id in db.jobs && db.jobs[id].status.Pending? && db'.jobs == db.jobs - {id}
    requires db'.hist.inFlight == db.hist.inFlight - {id} && db'.hist.archived == db.hist.archived[id := db.jobs[id]]
    ensures Counted(db') == Counted(db) - {id} && Open(db') == Open(db) - {id}
  {
    assert forall x :: x in Counted(db') <==> x in Counted(db) - {id};
    assert forall x :: x in Open(db') <==> x in Open(db) - {id};
  }

  /** A deleted pending row leaves every account: first released, then removed. */
  lemma ReleasedRowSets(db: Db, mid: Db, id: JobId)
    requires IdsOk(db) && id in db.jobs && db.jobs[id].status.Pending?
    requires mid.jobs == db.jobs && mid.hist.inFlight == db.hist.inFlight - {id}
        && mid.hist.archived == db.hist.archived
    ensures Counted(RemoveRows(mid, {id})) == Counted(db) - {id} && Open(RemoveRows(mid, {id})) == Open(db) - {id}
  {
    var db' := RemoveRows(mid, {id});
    assert db'.hist.archived == db.hist.archived[id := db.jobs[id]];
    PendingRowGone(db, db', id);
  }

  lemma DeletePendingSets(cfg: Config, db: Db, caller: UserId, id: JobId, now: Time)
    requires IdsOk(db) && id in db.jobs && db.jobs[id].user == caller && db.jobs[id].status.Pending?
    ensures var db' := Delete(cfg, db, caller, id, now).0;
            Counted(db') == Counted(db) - {id} && Open(db') == Open(db) - {id}
  {
    ReleasedRowSets(db, Release(cfg, db, id, caller, db.jobs[id].params.interactions, now), id);
  }

  lemma DeletePendingBooks(cfg: Config, db: Db, caller: UserId, id: JobId, now: Time)
    requires IdsOk(db) && BooksOk(cfg, db, now)
    requires id in db.jobs && db.jobs[id].user == caller && db.jobs[id].status.Pending?
        && RowMatches(db.hist, id, db.jobs[id])
    ensures BooksOk(cfg, Delete(cfg, db, caller, id, now).0, now)
  {
    DeletePendingSets(cfg, db, caller, id, now);
    assert id in Counted(db) && id in Open(db);
    BooksRelease(cfg, db, Delete(cfg, db, caller, id, now).0, id, now);
  }

  lemma DeletePendingRows(cfg: Config, db: Db, caller: UserId, id: JobId, now: Time)
    requires IdsOk(db) && RowsOk(cfg, db, now) && Capped(db)
    requires id in db.jobs && db.jobs[id].user == caller && db.jobs[id].status.Pending?
    ensures var db' := Delete(cfg, db, caller, id, now).0;
            IdsOk(db') && RowsOk(cfg, db', now) && Capped(db')
  {
    var mid := Release(cfg, db, id, caller, db.jobs[id].params.interactions, now);
    RowsKeepMatching(cfg, db, mid, now);
    CappedFrame(db, mid);
    RemovedRows(cfg, mid, {id}, now);
    RemovedIds(mid, {id});
  }

  lemma DeleteKeeps(cfg: Config, db: Db, caller: UserId, id: JobId, now: Time)
    requires DbOk(cfg, db, now)
    ensures DbOk(cfg, Delete(cfg, db, caller, id, now).0, now)
  {
    if id in db.jobs && db.jobs[id].user == caller {
      if db.jobs[id].status.Pending? {
        assert RowMatches(db.hist, id, db.jobs[id]);
        DeletePendingRows(cfg, db, caller, id, now);
        DeletePendingBooks(cfg, db, caller, id, now);
      } else if db.jobs[id].status.Terminal() {
        RemoveTerminalKeeps(cfg, db, {id}, now);
      }
    }
  }

  lemma RowAges(cfg: Config, job: Job, now: Time, later: Time)
    requires RowOk(cfg, job, now) && now <= later
    ensures RowOk(cfg, job, later)
  {
  }

  lemma ClockKeeps(cfg: Config, db: Db, now: Time, later: Time)
    requires DbOk(cfg, db, now) && now <= later && MonotonePeriod(cfg)
    ensures DbOk(cfg, db, later)
  {
    assert cfg.period(now) <= cfg.period(later);
    forall id | id in db.jobs ensures RowOk(cfg, db.jobs[id], later) {
      RowAges(cfg, db.jobs[id], now, later);
    }
    forall id | id in db.hist.archived ensures RowOk(cfg, db.hist.archived[id], later) {
      RowAges(cfg, db.hist.archived[id], now, later);
    }
  }

  lemma SetActiveBooks(cfg: Config, db: Db, db': Db, user: UserId, active: bool, now: Time)
    requires BooksOk(cfg, db, now) && user in db.users
    requires db' == db.(users := db.users[user := db.users[user].(active := active)])
    ensures BooksOk(cfg, db', now)
  {
    assert Counted(db') == Counted(db) && Open(db') == Open(db);
    assert forall u: UserId :: u in db.users ==> u in db'.users && PlanOf(db'.users[u]) == PlanOf(db.users[u]);
  }

  lemma SetActiveKeeps(cfg: Config, db: Db, user: UserId, active: bool, now: Time)
    requires DbOk(cfg, db, now) && user in db.users
    ensures DbOk(cfg, db.(users := db.users[user := db.users[user].(active := active)]), now)
  {
    var db' := db.(users := db.users[user := db.users[user].(active := active)]);
    SetActiveBooks(cfg, db, db', user, active, now);
    RowsKeepMatching(cfg, db, db', now);
  }

  lemma FinishKeeps(cfg: Config, db: Db, id: JobId, user: UserId, interactions: nat, worker: WorkerId,
                    outcome: Outcome, commit: Commit, now: Time)
    requires DbOk(cfg, db, now)
    requires Owns(db, id, worker) ==> user == db.jobs[id].user && interactions == db.jobs[id].params.interactions
    requires Owns(db, id, worker) && outcome.Generated? ==> IsEngineOutput(cfg, db.jobs[id].params, outcome.records)
    ensures DbOk(cfg, Finish(cfg, db, id, user, interactions, worker, outcome, commit, now).0, now)
  {
    if Owns(db, id, worker) {
      match outcome
      case EngineFailed(code) => FailKeeps(cfg, db, id, code, now, now);
      case Generated(records, computeMs) =>
        if commit.Committed? {
          CompleteKeeps(cfg, db, id, records, computeMs, now);
        } else if commit.MarkedFailed? {
          FailKeeps(cfg, db, id, PERSISTENCE_FAILED, now, now);
        }
    }
  }

  lemma InspectKeeps(cfg: Config, db: Db, id: JobId, worker: WorkerId, now: Time)
    requires DbOk(cfg, db, now) && id in db.jobs
    ensures DbOk(cfg, Inspect(cfg, db, id, worker, now).0, now)
  {
    if Exhausted(db.jobs[id]) {
      FailKeeps(cfg, db, id, EXECUTION_TIMEOUT, now, now);
    } else if Overdue(cfg, db.jobs[id], now) {
      FailKeeps(cfg, db, id, QUEUE_TIMEOUT, now, now);
    } else if Inspect(cfg, db, id, worker, now).1 {
      AssignKeeps(cfg, db, id, worker, now, now);
    }
  }

  lemma {:induction false} ClaimScanKeeps(cfg: Config, db: Db, cs: seq<JobId>, worker: WorkerId, now: Time)
    requires DbOk(cfg, db, now) && forall c :: c in cs ==> c in db.jobs
    ensures DbOk(cfg, ClaimScan(cfg, db, cs, worker, now).0, now)
    decreases |cs|
  {
    if cs != [] {
      InspectKeeps(cfg, db, cs[0], worker, now);
      var (db', taken) := Inspect(cfg, db, cs[0], worker, now);
      if !taken {
        ClaimScanKeeps(cfg, db', cs[1..], worker, now);
      }
    }
  }

  lemma ClaimKeeps(cfg: Config, db: Db, worker: WorkerId, now: Time)
    requires DbOk(cfg, db, now)
    ensures DbOk(cfg, Claim(cfg, db, worker, now).0, now)
  {
    CandidatesAreRows(cfg, db.jobs, now);
    ClaimScanKeeps(cfg, db, Candidates(cfg, db.jobs, now), worker, now);
  }

  lemma BrokenClaimKeeps(cfg: Config, db: Db, worker: WorkerId, now: Time, inspected: nat)
    requires DbOk(cfg, db, now)
    ensures DbOk(cfg, BrokenClaim(cfg, db, worker, now, inspected), now)
  {
    CandidatesAreRows(cfg, db.jobs, now);
    var k := ClaimTheorem.BrokenClaimMeetsSpecification(cfg, db, worker, now, inspected);
    ClaimScanKeeps(cfg, db, Candidates(cfg, db.jobs, now)[..k], worker, now);
  }

  lemma EmptyDbOk(cfg: Config, db: Db, now: Time)
    requires db.jobs == map[] && db.usage == map[] && db.events == []
    requires db.hist == History(map[], {}, map[], map[], map[])
    ensures DbOk(cfg, db, now)
  {
    forall u: UserId, p: Period ensures UsageOf(db.usage, u, p)
        == Held(db.hist.tickets, Counted(db) + db.hist.late.Keys, u, p) {
      assert Charges(db.hist.tickets, Counted(db) + db.hist.late.Keys, u, p) == map[];
    }
    assert Open(db) == {};
    assert forall u: UserId :: OpenOf(db.hist.tickets, Open(db), u) == {};
    assert forall u: UserId :: RunningIds(db.jobs, u) == {};
  }
}
