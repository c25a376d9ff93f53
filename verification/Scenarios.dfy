/** Concrete runs: what the code does that one would not expect. */
module Scenarios {
  import opened Domain
  import opened Database
  import opened JobOrder
  import opened UsageService
  import opened SimulationJobService
  import opened WorkerService
  import opened Ledger
  import opened Invariants
  import opened Protocol
  import opened SystemInvariant
  import opened QuotaTheorems
  import opened RefundTheorems
  import opened WorkTheorems
  import opened ExactlyOnce
  import opened QueueProgress
  import ClaimTheorem
  import FiniteSums

  // ---- Building blocks ----

  /** `s'` is `s` after `user` submitted `id`. */
  ghost predicate Submitted(cfg: Config, s: System, s': System, id: JobId, user: UserId, params: Params) {
    var h, h', key := s.db.hist, s'.db.hist, (user, cfg.period(s.now));
    var row := UsageOf(s.db.usage, user, cfg.period(s.now));
    && s'.now == s.now && s'.workers == s.workers && s'.db.users == s.db.users
    && s'.db.jobs == s.db.jobs[id := NewRow(user, params, s.now)]
    && s'.db.usage == s.db.usage[key := Usage(row.requests + 1, row.interactions + params.interactions)]
    && h'.tickets == h.tickets[id := Ticket(user, params.interactions, cfg.period(s.now))]
    && h'.inFlight == h.inFlight && h'.late == h.late && h'.archived == h.archived
  }

  lemma Submitting(cfg: Config, s: System, id: JobId, user: UserId, params: Params)
    requires user in s.db.users && id !in s.db.hist.tickets && id !in s.db.hist.inFlight
    requires params.interactions <= PlanOf(s.db.users[user]).maxInteractionsPerRequest
    requires Overflow(PlanOf(s.db.users[user]), UsageOf(s.db.usage, user, cfg.period(s.now)), params.interactions).None?
    ensures var reserved := Apply(cfg, s, ReserveQuota(id, user, params.interactions));
            Submitted(cfg, s, Apply(cfg, reserved, CreateRow(id, params)), id, user, params)
  {
    var reserved := Apply(cfg, s, ReserveQuota(id, user, params.interactions));
    assert id in reserved.db.hist.inFlight && reserved.db.hist.tickets[id].interactions == params.interactions;
  }

  lemma TwoCandidates(cfg: Config, jobs: map<JobId, Job>, a: JobId, b: JobId, now: Time)
    requires EligibleIds(cfg, jobs, now) == {a, b} && a != b && a in jobs && b in jobs && Before(jobs, a, b)
    ensures Candidates(cfg, jobs, now) == [a, b]
  {
    SortedIsOrdered(jobs, {a, b});
    var s := Sorted(jobs, {a, b});
    assert s[0] in Elements(s) && s[1] in Elements(s);
    assert Before(jobs, s[0], s[1]);
  }

  lemma OneCandidate(cfg: Config, jobs: map<JobId, Job>, id: JobId, now: Time)
    requires EligibleIds(cfg, jobs, now) == {id}
    ensures Candidates(cfg, jobs, now) == [id]
  {
    SortedIsOrdered(jobs, {id});
    var s := Sorted(jobs, {id});
    assert s[0] in Elements(s);
  }

  /** The only eligible row is taken. */
  lemma TakingTheOnlyOne(cfg: Config, s: System, w: WorkerId, id: JobId)
    requires WorkerAt(s, w).Idle? && EligibleIds(cfg, s.db.jobs, s.now) == {id} && id in s.db.jobs
    requires !ClaimTheorem.Doomed(cfg, s.db.jobs[id], s.now)
    requires HasCapacity(s.db.users, s.db.jobs, s.db.jobs[id].user, if s.db.jobs[id].status.Running? then {id} else {})
    ensures var row := ClaimedRow(s.db.jobs[id], w, s.now);
            Apply(cfg, s, ClaimNext(w))
              == WithWorker(WithDb(s, PutRow(s.db, id, row)), w,
                  Busy(Execution(id, row.user, row.params, row.attempts)))
  {
    OneCandidate(cfg, s.db.jobs, id, s.now);
    assert id in EligibleIds(cfg, s.db.jobs, s.now);
    var row := ClaimedRow(s.db.jobs[id], w, s.now);
    assert Inspect(cfg, s.db, id, w, s.now) == (PutRow(s.db, id, row), true);
    assert Claim(cfg, s.db, w, s.now) == (PutRow(s.db, id, row), Some(id));
  }

  const STEADY := Config((t: Time) => 1, (p: Params, r: int) => [], 300, 3600)
  const JOB := Params("ecommerce", 10, None, None, None)

  // ---- One job, two executions ----

  const TWICE := [ReserveQuota(1, 0, 10), CreateRow(1, JOB), ClaimNext(1), Tick(301), ClaimNext(2)]

  lemma JobSubmitted()
    ensures var s := Run(STEADY, ONE_FREE_USER, TWICE[..2]);
            && s.now == 0 && s.db.users == ONE_FREE_USER.db.users && s.workers == map[]
            && s.db.jobs == map[1 := NewRow(0, JOB, 0)]
  {
    Submitting(STEADY, ONE_FREE_USER, 1, 0, JOB);
    assert TWICE[..1] == [TWICE[0]] && TWICE[..2] == TWICE[..1] + [TWICE[1]];
    RunOne(STEADY, ONE_FREE_USER, TWICE[0]);
    RunMore(STEADY, ONE_FREE_USER, TWICE[..1], TWICE[1]);
  }

  lemma JobClaimed()
    ensures var s := Run(STEADY, ONE_FREE_USER, TWICE[..3]);
            && s.now == 0 && s.db.users == ONE_FREE_USER.db.users
            && s.db.jobs == map[1 := ClaimedRow(NewRow(0, JOB, 0), 1, 0)]
            && s.workers == map[1 := Busy(Execution(1, 0, JOB, 1))]
  {
    JobSubmitted();
    assert TWICE[..3] == TWICE[..2] + [TWICE[2]];
    RunMore(STEADY, ONE_FREE_USER, TWICE[..2], TWICE[2]);
    var s := Run(STEADY, ONE_FREE_USER, TWICE[..2]);
    assert EligibleIds(STEADY, s.db.jobs, 0) == {1};
    assert RunningIds(s.db.jobs, 0) == {};
    TakingTheOnlyOne(STEADY, s, 1, 1);
  }

  /** While worker 1 is still at it, its lease runs out and worker 2 starts the
      same job: the queue does not execute every job exactly once. */
  lemma JobExecutedTwice()
    ensures Initial(ONE_FREE_USER) && MonotonePeriod(STEADY)
    ensures StartsIn(STEADY, ONE_FREE_USER, TWICE, 1) == 2 && RecoveredIn(STEADY, ONE_FREE_USER, TWICE, 1)
    ensures var s := Run(STEADY, ONE_FREE_USER, TWICE);
            && WorkerAt(s, 1) == Busy(Execution(1, 0, JOB, 1)) && WorkerAt(s, 2) == Busy(Execution(1, 0, JOB, 2))
  {
    var cfg, start := STEADY, ONE_FREE_USER;
    JobClaimed();
    assert TWICE[..4] == TWICE[..3] + [TWICE[3]] && TWICE == TWICE[..4] + [TWICE[4]];
    RunMore(cfg, start, TWICE[..3], TWICE[3]);
    RunMore(cfg, start, TWICE[..4], TWICE[4]);
    var s := Run(cfg, start, TWICE[..4]);
    assert s == Run(cfg, start, TWICE[..3]).(now := 301);
    assert EligibleIds(cfg, s.db.jobs, 301) == {1};
    assert RunningIds(s.db.jobs, 0) - {1} == {};
    TakingTheOnlyOne(cfg, s, 2, 1);
    AttemptsAreStarts(cfg, start, TWICE, 1);
    AtMostOnceIffNeverRecovered(cfg, start, TWICE, 1);
  }

  // ---- A claim call whose second refund is clamped ----

  const BACKLOG := [
    ReserveQuota(1, 0, 10), CreateRow(1, JOB), Tick(100), ReserveQuota(2, 0, 10), CreateRow(2, JOB), Tick(5000)]

  lemma FirstOfBacklog()
    ensures var s := Run(JANUARY_THEN_FEBRUARY, ONE_FREE_USER, BACKLOG[..3]);
            && s.now == 100 && s.db.users == ONE_FREE_USER.db.users && s.workers == map[]
            && s.db.jobs == map[1 := NewRow(0, JOB, 0)] && s.db.usage == map[(0, 1) := Usage(1, 10)]
            && s.db.hist.tickets == map[1 := Ticket(0, 10, 1)]
            && s.db.hist.inFlight == {} && s.db.hist.late == map[] && s.db.hist.archived == map[]
  {
    var cfg, start := JANUARY_THEN_FEBRUARY, ONE_FREE_USER;
    Submitting(cfg, start, 1, 0, JOB);
    assert BACKLOG[..1] == [BACKLOG[0]] && BACKLOG[..2] == BACKLOG[..1] + [BACKLOG[1]];
    assert BACKLOG[..3] == BACKLOG[..2] + [BACKLOG[2]];
    RunOne(cfg, start, BACKLOG[0]);
    RunMore(cfg, start, BACKLOG[..1], BACKLOG[1]);
    RunMore(cfg, start, BACKLOG[..2], BACKLOG[2]);
  }

  lemma WholeBacklog()
    ensures var s := Run(JANUARY_THEN_FEBRUARY, ONE_FREE_USER, BACKLOG);
            && s.now == 5000 && s.workers == map[]
            && s.db.jobs == map[1 := NewRow(0, JOB, 0), 2 := NewRow(0, JOB, 100)]
            && s.db.usage == map[(0, 1) := Usage(1, 10), (0, 2) := Usage(1, 10)]
            && s.db.hist.tickets == map[1 := Ticket(0, 10, 1), 2 := Ticket(0, 10, 2)]
            && s.db.hist.inFlight == {} && s.db.hist.late == map[]
  {
    var cfg, start := JANUARY_THEN_FEBRUARY, ONE_FREE_USER;
    FirstOfBacklog();
    Submitting(cfg, Run(cfg, start, BACKLOG[..3]), 2, 0, JOB);
    assert BACKLOG[..4] == BACKLOG[..3] + [BACKLOG[3]] && BACKLOG[..5] == BACKLOG[..4] + [BACKLOG[4]];
    assert BACKLOG == BACKLOG[..5] + [BACKLOG[5]];
    RunMore(cfg, start, BACKLOG[..3], BACKLOG[3]);
    RunMore(cfg, start, BACKLOG[..4], BACKLOG[4]);
    RunMore(cfg, start, BACKLOG[..5], BACKLOG[5]);
  }

  /** Both rows of the backlog are given up, in order. */
  lemma BacklogReleased(cfg: Config, db: Db, w: WorkerId, now: Time)
    requires db.jobs == map[1 := NewRow(0, JOB, 0), 2 := NewRow(0, JOB, 100)] && now == 5000 && cfg.maxPending == 3600
    ensures ClaimReleased(cfg, db, w, now) == [1, 2]
  {
    assert EligibleIds(cfg, db.jobs, now) == {1, 2};
    TwoCandidates(cfg, db.jobs, 1, 2, now);
    var db' := Inspect(cfg, db, 1, w, now).0;
    assert db'.jobs[2] == db.jobs[2];
    assert [1, 2][1..] == [2] && [2][1..] == [];
    assert ScanReleased(cfg, db', [2], w, now) == [2];
  }

  /** The first refund empties the row of the second. */
  lemma BacklogClamps(cfg: Config, tickets: Tickets, usage: UsageTable, now: Time)
    requires cfg.period(now) == 2 && usage == map[(0, 1) := Usage(1, 10), (0, 2) := Usage(1, 10)]
    requires tickets == map[1 := Ticket(0, 10, 1), 2 := Ticket(0, 10, 2)]
    ensures UsageOf(RefundAll(cfg, tickets, usage, [1], now), 0, 2) == Usage(0, 0)
    ensures !AllCovered(cfg, tickets, usage, [1, 2], now)
  {
    var once := Refund(cfg, usage, 0, 10, now);
    assert once[(0, 2)] == Usage(0, 0);
    assert [1, 2][1..] == [2] && [1][1..] == [];
    assert !AllCovered(cfg, tickets, once, [2], now);
    assert RefundAll(cfg, tickets, once, [], now) == once;
  }

  /** Overdue rows of two months, seen by one claim call: nothing of the user
      has been released late before the call, the second row is of this very
      month, and still its refund is clamped, because the first one was not. */
  lemma BacklogRefundIsClamped()
    ensures var cfg, s := JANUARY_THEN_FEBRUARY, Run(JANUARY_THEN_FEBRUARY, ONE_FREE_USER, BACKLOG);
            && Initial(ONE_FREE_USER) && MonotonePeriod(cfg)
            && !HasLate(s.db, 0) && 2 in Counted(s.db)
            && 2 in s.db.hist.tickets && s.db.hist.tickets[2].period == cfg.period(s.now)
            && Released(cfg, s, ClaimNext(1)) == [1, 2] && 1 in s.db.hist.tickets
            && CoversRefund(s.db.usage, 0, 10, cfg.period(s.now))
            && UsageOf(RefundAll(cfg, s.db.hist.tickets, s.db.usage, [1], s.now), 0, 2) == Usage(0, 0)
            && !StepCovered(cfg, s, ClaimNext(1))
  {
    var cfg, s := JANUARY_THEN_FEBRUARY, Run(JANUARY_THEN_FEBRUARY, ONE_FREE_USER, BACKLOG);
    WholeBacklog();
    BacklogReleased(cfg, s.db, 1, s.now);
    BacklogClamps(cfg, s.db.hist.tickets, s.db.usage, s.now);
  }

  // ---- A queue that is blocked for good ----

  /** User 0 may run ten jobs at a time, user 1 is on the free plan. */
  const CROWD := System(
    0, EmptyDb(map[0 := User(true, Some(Plan(100, 10000, 1000, 5, 10))), 1 := User(true, None)]), map[], map[], {})

  function FirstIds(k: nat): (ids: set<JobId>)
    ensures |ids| == k && forall i: JobId :: i in ids <==> i < k
  {
    if k == 0 then {} else FirstIds(k - 1) + {k - 1}
  }

  predicate AllIdle(s: System) {
    forall w :: w in s.workers ==> s.workers[w].Idle?
  }

  /** Rows of user 0 claimed at time 0 by as many workers. */
  function Abandoned(k: nat): map<JobId, Job> {
    map i | i in FirstIds(k) :: ClaimedRow(NewRow(0, JOB, 0), i, 0)
  }

  /** `k` rows of user 0 were submitted and claimed, and their workers died. */
  ghost predicate Filled(s: System, k: nat) {
    && s.now == 0 && s.db.users == CROWD.db.users && s.db.jobs == Abandoned(k)
    && UsageOf(s.db.usage, 0, 1) == Usage(k, 10 * k) && UsageOf(s.db.usage, 1, 1) == Usage(0, 0)
    && s.db.hist.tickets.Keys == FirstIds(k) && s.db.hist.inFlight == {}
    && AllIdle(s)
  }

  lemma ReachableStep(cfg: Config, s: System, step: Step)
    requires Reachable(cfg, s)
    ensures Reachable(cfg, Apply(cfg, s, step))
  {
    var start, steps :| Initial(start) && Run(cfg, start, steps) == s;
    RunMore(cfg, start, steps, step);
  }

  lemma ReachableSubmit(cfg: Config, s: System, id: JobId, user: UserId, params: Params)
    requires Reachable(cfg, s)
    ensures Reachable(cfg,
        Apply(cfg, Apply(cfg, s, ReserveQuota(id, user, params.interactions)), CreateRow(id, params)))
  {
    ReachableStep(cfg, s, ReserveQuota(id, user, params.interactions));
    ReachableStep(cfg, Apply(cfg, s, ReserveQuota(id, user, params.interactions)), CreateRow(id, params));
  }

  /** The rows of `Abandoned(k)` with a new one behind them. */
  ghost predicate OneMore(jobs: map<JobId, Job>, k: nat, user: UserId) {
    && jobs.Keys == FirstIds(k) + {k} && jobs[k] == NewRow(user, JOB, 0)
    && forall i :: i in FirstIds(k) ==> jobs[i] == ClaimedRow(NewRow(0, JOB, 0), i, 0)
  }

  lemma AddOneMore(jobs: map<JobId, Job>, k: nat, user: UserId)
    requires jobs == Abandoned(k)[k := NewRow(user, JOB, 0)]
    ensures OneMore(jobs, k, user)
  {
  }

  lemma OnlyTheNewRow(jobs: map<JobId, Job>, k: nat)
    requires OneMore(jobs, k, 0)
    ensures EligibleIds(STEADY, jobs, 0) == {k}
  {
    forall i | i in jobs ensures Eligible(STEADY, jobs[i], 0) <==> i == k {
      if i != k {
        assert jobs[i] == ClaimedRow(NewRow(0, JOB, 0), i, 0);
      }
    }
  }

  lemma RoomForOneMore(jobs: map<JobId, Job>, k: nat)
    requires k < 10 && OneMore(jobs, k, 0)
    ensures HasCapacity(CROWD.db.users, jobs, 0, {})
  {
    forall i | i in RunningIds(jobs, 0) ensures i in FirstIds(k) {
      assert i != k;
    }
    FiniteSums.SubsetSize(RunningIds(jobs, 0) - {}, FirstIds(k));
  }

  lemma NewRowTaken(s: System, k: nat)
    requires s.now == 0 && s.db.users == CROWD.db.users && k < 10 && OneMore(s.db.jobs, k, 0) && AllIdle(s)
    ensures var row := ClaimedRow(NewRow(0, JOB, 0), k, 0);
            Apply(STEADY, s, ClaimNext(k))
                == WithWorker(WithDb(s, PutRow(s.db, k, row)), k, Busy(Execution(k, 0, JOB, 1)))
  {
    OnlyTheNewRow(s.db.jobs, k);
    RoomForOneMore(s.db.jobs, k);
    TakingTheOnlyOne(STEADY, s, k, k);
  }

  lemma AbandonedGrows(jobs: map<JobId, Job>, k: nat)
    requires jobs == Abandoned(k)[k := NewRow(0, JOB, 0)]
    ensures jobs[k := ClaimedRow(NewRow(0, JOB, 0), k, 0)] == Abandoned(k + 1)
  {
    var row := ClaimedRow(NewRow(0, JOB, 0), k, 0);
    assert jobs[k := row] == Abandoned(k)[k := row];
    assert Abandoned(k)[k := row] == Abandoned(k + 1);
  }

  lemma NewRowAbandoned(s: System, k: nat)
    requires s.now == 0 && s.db.users == CROWD.db.users && k < 10 && OneMore(s.db.jobs, k, 0) && AllIdle(s)
    ensures var s' := ClaimAndCrash(s, k);
            s'.now == 0 && s'.db == PutRow(s.db, k, ClaimedRow(NewRow(0, JOB, 0), k, 0)) && AllIdle(s')
  {
    NewRowTaken(s, k);
  }

  lemma ClaimAndDie(s: System, k: nat)
    requires s.now == 0 && s.db.users == CROWD.db.users && k < 10
    requires s.db.jobs == Abandoned(k)[k := NewRow(0, JOB, 0)] && AllIdle(s)
    ensures var s' := ClaimAndCrash(s, k);
            s'.now == 0 && s'.db == s.db.(jobs := Abandoned(k + 1)) && AllIdle(s')
  {
    AddOneMore(s.db.jobs, k, 0);
    AbandonedGrows(s.db.jobs, k);
    NewRowAbandoned(s, k);
  }

  function SubmitTo(s: System, id: JobId, user: UserId): System {
    Apply(STEADY, Apply(STEADY, s, ReserveQuota(id, user, JOB.interactions)), CreateRow(id, JOB))
  }

  function ClaimAndCrash(s: System, w: WorkerId): System {
    Apply(STEADY, Apply(STEADY, s, ClaimNext(w)), Crash(w))
  }

  lemma FillOne(s: System, k: nat)
    requires Filled(s, k) && k < 10
    ensures Filled(ClaimAndCrash(SubmitTo(s, k, 0), k), k + 1)
  {
    Submitting(STEADY, s, k, 0, JOB);
    ClaimAndDie(SubmitTo(s, k, 0), k);
  }

  lemma {:induction false} FillQueue(k: nat)
    requires k <= 10
    ensures exists s: System :: Reachable(STEADY, s) && Filled(s, k)
    decreases k
  {
    if k == 0 {
      assert Run(STEADY, CROWD, []) == CROWD;
      assert Reachable(STEADY, CROWD) && Filled(CROWD, 0);
    } else {
      FillQueue(k - 1);
      var s: System :| Reachable(STEADY, s) && Filled(s, k - 1);
      ReachableSubmit(STEADY, s, k - 1, 0, JOB);
      ReachableStep(STEADY, SubmitTo(s, k - 1, 0), ClaimNext(k - 1));
      ReachableStep(STEADY, Apply(STEADY, SubmitTo(s, k - 1, 0), ClaimNext(k - 1)), Crash(k - 1));
      FillOne(s, k - 1);
    }
  }

  /** User 0 is deactivated and the leases run out. */
  function Deactivate(s: System): System {
    Apply(STEADY, Apply(STEADY, s, SetActive(0, false)), Tick(301))
  }

  /** Ten abandoned rows of a deactivated user, and one job of user 1. */
  ghost predicate Stalled(s: System) {
    && s.now == 301 && OneMore(s.db.jobs, 10, 1) && AllIdle(s)
    && s.db.users == CROWD.db.users[0 := CROWD.db.users[0].(active := false)]
  }

  lemma Deactivated(s: System)
    requires s.now == 0 && s.db.users == CROWD.db.users && OneMore(s.db.jobs, 10, 1) && AllIdle(s)
    ensures Stalled(Deactivate(s))
  {
  }

  lemma AbandonedRow(s: System, f: JobId)
    requires Stalled(s) && f in FirstIds(10)
    ensures f in s.db.jobs
    ensures var row := s.db.jobs[f];
            && row.user == 0 && row.status.Running? && row.heartbeatAt == Some(0) && row.createdAt == 0
            && row.attempts == 1 && row.maxAttempts == 3
  {
    assert s.db.jobs[f] == ClaimedRow(NewRow(0, JOB, 0), f, 0);
  }

  lemma AbandonedIsFrozen(s: System, f: JobId)
    requires Stalled(s) && f in FirstIds(10)
    ensures Frozen(STEADY, s, f)
  {
    AbandonedRow(s, f);
    assert !s.db.users[0].active;
  }

  lemma AbandonedIsAhead(s: System, f: JobId)
    requires Stalled(s) && f in FirstIds(10)
    ensures f in s.db.jobs && 10 in s.db.jobs && Before(s.db.jobs, f, 10)
  {
    AbandonedRow(s, f);
  }

  lemma StalledStarves(s: System)
    requires Stalled(s)
    ensures Starved(STEADY, s, FirstIds(10), 10)
  {
    forall f | f in FirstIds(10) ensures Frozen(STEADY, s, f) && Before(s.db.jobs, f, 10) {
      AbandonedIsFrozen(s, f);
      AbandonedIsAhead(s, f);
    }
  }

  lemma StalledIgnoresUser(s: System)
    requires Stalled(s)
    ensures HasCapacity(s.db.users, s.db.jobs, 1, {10})
  {
    forall i | i in s.db.jobs && i != 10 ensures s.db.jobs[i].user == 0 {
      AbandonedRow(s, i);
    }
    assert RunningIds(s.db.jobs, 1) - {10} == {};
  }

  /** Ten blocked rows in front: a claim call does nothing. */
  lemma NothingMoves(s: System, w: WorkerId)
    requires Stalled(s)
    ensures Claim(STEADY, s.db, w, s.now) == (s.db, None)
  {
    StalledStarves(s);
    StarvedIsNotFetched(STEADY, s, FirstIds(10), 10);
    CandidatesAreRows(STEADY, s.db.jobs, s.now);
    var cs := Candidates(STEADY, s.db.jobs, s.now);
    forall c | c in cs ensures c in s.db.jobs && Blocked(STEADY, s.db, c, s.now) {
      AbandonedIsFrozen(s, c);
      FrozenIsBlocked(STEADY, s, c);
    }
    BlockedScan(STEADY, s.db, cs, w, s.now);
  }

  /** A job of an active user with free capacity is starved, and no claim call
      of any worker does anything at all. */
  ghost predicate Jammed(cfg: Config, s: System, frozen: set<JobId>, id: JobId) {
    && Starved(cfg, s, frozen, id)
    && HasCapacity(s.db.users, s.db.jobs, s.db.jobs[id].user, {id})
    && forall w: WorkerId :: Claim(cfg, s.db, w, s.now) == (s.db, None)
  }

  lemma StalledIsJammed(s: System)
    requires Stalled(s)
    ensures Jammed(STEADY, s, FirstIds(10), 10)
  {
    StalledStarves(s);
    StalledIgnoresUser(s);
    forall w: WorkerId ensures Claim(STEADY, s.db, w, s.now) == (s.db, None) {
      NothingMoves(s, w);
    }
  }

  lemma FullQueueStalls(s: System)
    requires Filled(s, 10)
    ensures Stalled(Deactivate(SubmitTo(s, 10, 1)))
  {
    Submitting(STEADY, s, 10, 1, JOB);
    AddOneMore(SubmitTo(s, 10, 1).db.jobs, 10, 1);
    Deactivated(SubmitTo(s, 10, 1));
  }

  /** Such a state can be reached. */
  lemma QueueCanJam()
    ensures exists s: System :: Reachable(STEADY, s) && Jammed(STEADY, s, FirstIds(10), 10)
  {
    FillQueue(10);
    var s: System :| Reachable(STEADY, s) && Filled(s, 10);
    ReachableSubmit(STEADY, s, 10, 1, JOB);
    ReachableStep(STEADY, SubmitTo(s, 10, 1), SetActive(0, false));
    ReachableStep(STEADY, Apply(STEADY, SubmitTo(s, 10, 1), SetActive(0, false)), Tick(301));
    FullQueueStalls(s);
    StalledIsJammed(Deactivate(SubmitTo(s, 10, 1)));
    assert Reachable(STEADY, Deactivate(SubmitTo(s, 10, 1)));
  }
}
