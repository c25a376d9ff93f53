/** Mode B of the submit endpoint: reserve, create, run and answer in one
    request (app/api/v1/simulations.py, app/services/simulation_job.py). */
module SyncPath {
  import opened Domain
  import opened Database
  import opened UsageService
  import opened SimulationJobService
  import opened WorkerService
  import CL = ConcurrencyLimiter

  datatype SyncResult =
    | TooManyConcurrent(limit: nat)
    | Refused(verdict: Reservation)
    | NotPersisted
    | EngineRaised(code: string)
    | SessionLost
    | Succeeded

  /** The times at which the stages of one request happen. */
  datatype Times = Times(reserve: Time, create: Time, start: Time, finish: Time)

  /** A reservation was charged and then not used. */
  predicate GaveUp(r: SyncResult) { r.NotPersisted? || r.EngineRaised? }

  /** A reservation was charged and stays charged. */
  predicate Charges(r: SyncResult) { r.Succeeded? || r.SessionLost? }

  // ---- Net effect on the books ----

  /** Charging and giving back in one month leaves every counter as it was. */
  lemma ChargeThenRefund(cfg: Config, db: Db, id: JobId, user: UserId, n: nat, reserved: Time, released: Time)
    requires user in db.users && cfg.period(reserved) == cfg.period(released)
    requires Reserve(cfg, db, id, user, n, reserved).1.Reserved?
    requires var row := UsageOf(db.usage, user, cfg.period(reserved)); row.requests >= 0 && row.interactions >= 0
    ensures var usage := Refund(cfg, Reserve(cfg, db, id, user, n, reserved).0.usage, user, n, released);
            forall u: UserId, p: Period :: UsageOf(usage, u, p) == UsageOf(db.usage, u, p)
  {
    RefusalIsJustified(cfg, db, id, user, n, reserved);
  }

  /** Across a month boundary the charge stays where it was made. */
  lemma ChargeSurvivesLateRefund(cfg: Config, db: Db, id: JobId, user: UserId, n: nat, reserved: Time, released: Time)
    requires user in db.users && cfg.period(reserved) != cfg.period(released)
    requires Reserve(cfg, db, id, user, n, reserved).1.Reserved?
    ensures var usage := Refund(cfg, Reserve(cfg, db, id, user, n, reserved).0.usage, user, n, released);
            var row := UsageOf(db.usage, user, cfg.period(reserved));
            UsageOf(usage, user, cfg.period(reserved)) == Usage(row.requests + 1, row.interactions + n)
  {
    RefusalIsJustified(cfg, db, id, user, n, reserved);
  }

  // ---- The execution service ----

  datatype ExecutionResult = Done | Raised(code: string) | QuotaRefused(verdict: Reservation) | Lost

  const QUOTA_EXCEEDED := "quota_exceeded"

  /** The tables once the quota of the job is charged, by this call or before it. */
  function Charged(cfg: Config, db: Db, id: JobId, user: UserId, n: nat, reserveQuota: bool, now: Time): Db
    requires user in db.users
  {
    if !reserveQuota then db else
    var db' := Reserve(cfg, db, id, user, n, now).0;
    db'.(hist := db'.hist.(inFlight := db'.hist.inFlight - {id}))
  }

  ghost predicate ChargedByPlan(cfg: Config, before: Db, after: Db, user: UserId, n: nat, now: Time)
    requires user in before.users
  {
    exists answer: Reservation :: answer.Reserved? && AnsweredByPlan(cfg, before, after, answer, user, n, now)
  }

  lemma ChargedGoesByPlan(cfg: Config, db: Db, id: JobId, user: UserId, n: nat, now: Time)
    requires user in db.users && Reserve(cfg, db, id, user, n, now).1.Reserved?
    ensures ChargedByPlan(cfg, db, Charged(cfg, db, id, user, n, true, now), user, n, now)
  {
    ReservationGoesByPlan(cfg, db, id, user, n, now);
    assert AnsweredByPlan(cfg, db, Charged(cfg, db, id, user, n, true, now), Reserve(cfg, db, id, user, n, now).1,
                          user, n, now);
  }

  /** Runs a pending job. With `reserveQuota` the call charges the quota itself,
      and a refusal fails the job without a charge or an event. With
      `saveBreaks` the commit of the completed row fails and the session is lost:
      the row stays running and the charge stays made. */
  method ExecuteSimulationJob(cfg: Config, db: Database, id: JobId, user: UserId, reserveQuota: bool,
                              outcome: Outcome, saveBreaks: bool, start: Time, reserved: Time, finish: Time)
    returns (r: ExecutionResult)
    requires id in db.jobs && db.jobs[id].status.Pending? && user in db.users
    modifies db
    ensures var verdict := Reserve(cfg, old(db.Snapshot()), id, user, old(db.jobs[id]).params.interactions, reserved).1;
            && (r.QuotaRefused? <==> reserveQuota && !verdict.Reserved?)
            && (r.QuotaRefused? ==> r.verdict == verdict)
    ensures r.Done? <==> !r.QuotaRefused? && outcome.Generated? && !saveBreaks
    ensures r.Lost? <==> !r.QuotaRefused? && outcome.Generated? && saveBreaks
    ensures r.Raised? ==> outcome == EngineFailed(r.code)
    ensures r.QuotaRefused? ==>
              && db.jobs == old(db.jobs)[id := old(db.jobs[id]).(
                   status := Failed, errorCode := Some("quota_exceeded"), startedAt := Some(start),
                   completedAt := Some(reserved), updatedAt := reserved)]
              && SameCounters(old(db.usage), db.usage) && db.events == old(db.events) && db.hist == old(db.hist)
    ensures !r.QuotaRefused? ==>
              var n := old(db.jobs[id]).params.interactions;
              var charged := Charged(cfg, old(db.Snapshot()), id, user, n, reserveQuota, reserved);
              var running := old(db.jobs[id]).(status := Running, startedAt := Some(start), updatedAt := start);
              && Ended(cfg, charged.(jobs := old(db.jobs)[id := running]), db.Snapshot(), id, user, n, outcome, r,
                       finish)
              && (reserveQuota ==> ChargedByPlan(cfg, old(db.Snapshot()), charged, user, n, reserved))
    ensures db.users == old(db.users)
  {
    var refusal := StartAndCharge(cfg, db, id, user, reserveQuota, start, reserved);
    if refusal.Some? {
      return QuotaRefused(refusal.value);
    }
    r := RunCharged(cfg, db, id, user, outcome, saveBreaks, finish);
  }

  /** Up to the engine: the row is running and its quota charged, or it has failed. */
  method StartAndCharge(cfg: Config, db: Database, id: JobId, user: UserId, reserveQuota: bool, start: Time,
                        reserved: Time)
    returns (refusal: Option<Reservation>)
    requires id in db.jobs && db.jobs[id].status.Pending? && user in db.users
    modifies db
    ensures var verdict := Reserve(cfg, old(db.Snapshot()), id, user, old(db.jobs[id]).params.interactions, reserved).1;
            refusal == if reserveQuota && !verdict.Reserved? then Some(verdict) else None
    ensures refusal.Some? ==>
              && db.jobs == old(db.jobs)[id := old(db.jobs[id]).(
                   status := Failed, errorCode := Some("quota_exceeded"), startedAt := Some(start),
                   completedAt := Some(reserved), updatedAt := reserved)]
              && SameCounters(old(db.usage), db.usage) && db.events == old(db.events) && db.hist == old(db.hist)
    ensures refusal.None? ==>
              var n := old(db.jobs[id]).params.interactions;
              var charged := Charged(cfg, old(db.Snapshot()), id, user, n, reserveQuota, reserved);
              var running := old(db.jobs[id]).(status := Running, startedAt := Some(start), updatedAt := start);
              && db.Snapshot() == charged.(jobs := old(db.jobs)[id := running])
              && (reserveQuota ==> ChargedByPlan(cfg, old(db.Snapshot()), charged, user, n, reserved))
    ensures db.users == old(db.users)
  {
    var before := db.jobs;
    ghost var tables := db.Snapshot();
    var _ := TransitionJobStatus(db, id, ToRunning, start);
    assert db.jobs[id] == StartedRow(before[id], start);
    if reserveQuota {
      var verdict := ChargeRunning(cfg, db, id, user, reserved);
      if !verdict.Reserved? {
        return Some(verdict);
      }
      ChargedGoesByPlan(cfg, tables, id, user, before[id].params.interactions, reserved);
    }
    return None;
  }

  /** Charges the quota of a running job, or fails the job. */
  method ChargeRunning(cfg: Config, db: Database, id: JobId, user: UserId, now: Time) returns (verdict: Reservation)
    requires id in db.jobs && db.jobs[id].status.Running? && user in db.users
    modifies db
    ensures var n := old(db.jobs[id]).params.interactions;
            && verdict == Reserve(cfg, old(db.Snapshot()), id, user, n, now).1
            && (verdict.Reserved? ==> db.Snapshot() == Charged(cfg, old(db.Snapshot()), id, user, n, true, now))
    ensures !verdict.Reserved? ==>
              && db.jobs == old(db.jobs)[id := FailedRow(old(db.jobs[id]), QUOTA_EXCEEDED, now)]
              && SameCounters(old(db.usage), db.usage) && db.events == old(db.events) && db.hist == old(db.hist)
              && db.users == old(db.users)
  {
    var interactions := db.jobs[id].params.interactions;
    RefusalIsJustified(cfg, db.Snapshot(), id, user, interactions, now);
    verdict := ReserveUsage(cfg, db, id, user, interactions, now);
    if verdict.Reserved? {
      db.hist := db.hist.(inFlight := db.hist.inFlight - {id});
    } else {
      var _ := TransitionJobStatus(db, id, ToFailed(Some(QUOTA_EXCEEDED)), now);
    }
  }

  /** What the execution leaves behind, from a running row whose quota is charged. */
  ghost predicate Ended(cfg: Config, before: Db, after: Db, id: JobId, user: UserId, n: nat, outcome: Outcome,
                        r: ExecutionResult, finish: Time)
    requires id in before.jobs
    requires r.Done? ==> outcome.Generated?
    requires r.Raised? ==> outcome.EngineFailed?
  {
    && (r.Done? ==>
          && after.jobs == before.jobs[id := before.jobs[id].(
               status := Completed, data := Some(outcome.records), computeMs := Some(outcome.computeMs),
               completedAt := Some(finish), updatedAt := finish)]
          && after.usage == before.usage && after.hist == before.hist
          && after.events == before.events
               + [Event(user, SimulationCompleted, finish, n, Some(outcome.computeMs), true)])
    && (r.Raised? ==>
          && after.jobs == before.jobs[id := before.jobs[id].(
               status := Failed, errorCode := Some(outcome.code), completedAt := Some(finish), updatedAt := finish)]
          && after.usage == Refund(cfg, before.usage, user, n, finish)
          && GaveBack(cfg, before.usage, after.usage, user, n, finish)
          && after.hist == NoteRelease(cfg, before.hist, id, finish)
          && after.events == before.events + [Event(user, SimulationFailed, finish, 0, Some(0), false)])
    && (r.Lost? ==>
          && after.jobs == before.jobs && after.usage == before.usage && after.hist == before.hist
          && after.events == before.events)
  }

  /** From the engine on: the row is running and its quota charged. */
  method RunCharged(cfg: Config, db: Database, id: JobId, user: UserId, outcome: Outcome, saveBreaks: bool,
                    finish: Time)
    returns (r: ExecutionResult)
    requires id in db.jobs && db.jobs[id].status.Running?
    modifies db
    ensures db.users == old(db.users) && !r.QuotaRefused?
    ensures r.Done? <==> outcome.Generated? && !saveBreaks
    ensures r.Lost? <==> outcome.Generated? && saveBreaks
    ensures r.Raised? ==> outcome == EngineFailed(r.code)
    ensures Ended(cfg, old(db.Snapshot()), db.Snapshot(), id, user, old(db.jobs[id]).params.interactions, outcome, r,
                  finish)
  {
    var interactions := db.jobs[id].params.interactions;
    if outcome.EngineFailed? {
      RefundAndRecordFailure(cfg, db, id, user, interactions, finish);
      var _ := TransitionJobStatus(db, id, ToFailed(Some(outcome.code)), finish);
      return Raised(outcome.code);
    }
    if saveBreaks {
      return ExecutionResult.Lost;
    }
    var _ := TransitionJobStatus(db, id, ToCompleted(Some(outcome.records), Some(outcome.computeMs)), finish);
    RecordUsageResult(db, user, SimulationCompleted, interactions, Some(outcome.computeMs), true, finish);
    return Done;
  }

  /** Why synchronous runs are kept apart from the queue: a row started here
      has no heartbeat, so the candidate query always takes it for abandoned. */
  lemma SyncRunLooksAbandoned(cfg: Config, user: UserId, params: Params, created: Time, started: Time, now: Time)
    ensures var row := StartedRow(NewRow(user, params, created), started);
            row.status.Running? && !Exhausted(row) && Eligible(cfg, row, now)
  {
  }

  // ---- The endpoint ----

  /** The synchronous path charges if it completes and gives back what it
      charged on every other exit within the month, unless the session is lost:
      then the charge stays without a result. On every exit the limiter is as it
      was, and a created job is terminal unless the session is lost. */
  method RunSimulationSync(cfg: Config, db: Database, limiter: CL.ConcurrencyLimiter, id: JobId, user: UserId,
                           params: Params, create: Write, outcome: Outcome, saveBreaks: bool, at: Times)
    returns (r: SyncResult)
    requires user in db.users && id !in db.jobs && limiter.Valid()
    requires NonNegative(db.usage, user)
    modifies db, limiter
    ensures limiter.Valid() && limiter.activeCounts == old(limiter.activeCounts)
    ensures db.users == old(db.users)
    // which exit is taken
    ensures r.TooManyConcurrent? <==>
              && params.interactions <= PlanOf(db.users[user]).maxInteractionsPerRequest
              && CL.CountOf(old(limiter.activeCounts), user) >= ConcurrencyLimit(db.users[user])
    ensures var verdict := Reserve(cfg, old(db.Snapshot()), id, user, params.interactions, at.reserve).1;
            && (r.Refused? <==> !r.TooManyConcurrent? && !verdict.Reserved?)
            && (r.Refused? ==> r.verdict == verdict)
    ensures !r.TooManyConcurrent? && !r.Refused? ==> ExitTaken(create, outcome, saveBreaks, r)
    // charged exactly on success and when the session is lost
    ensures Charges(r) ==>
              var row := UsageOf(old(db.usage), user, cfg.period(at.reserve));
              && UsageOf(db.usage, user, cfg.period(at.reserve))
                   == Usage(row.requests + 1, row.interactions + params.interactions)
              && forall u: UserId, p: Period :: (u, p) != (user, cfg.period(at.reserve)) ==>
                   UsageOf(db.usage, u, p) == UsageOf(old(db.usage), u, p)
    ensures r.TooManyConcurrent? || r.Refused? ==> SameCounters(old(db.usage), db.usage)
    ensures GaveUp(r) ==>
              (SameCounters(old(db.usage), db.usage) <==> cfg.period(ReleaseTime(r, at)) == cfg.period(at.reserve))
    // rows: at most this one is added
    ensures r.TooManyConcurrent? || r.Refused? ==> db.jobs == old(db.jobs)
    ensures !r.TooManyConcurrent? && !r.Refused? ==>
              db.jobs == JobsAfter(old(db.jobs), id, user, params, create, outcome, at, r)
    // one request event per reservation, and one outcome event unless the session is lost
    ensures r.TooManyConcurrent? || r.Refused? ==> db.events == old(db.events)
    ensures !r.TooManyConcurrent? && !r.Refused? ==>
              db.events == old(db.events)
                + [Event(user, SimulationRequest, at.reserve, params.interactions, None, true)]
                + OutcomeEvents(user, params.interactions, outcome, at, r)
    // the same on the columns: the slots of the plan first, then the tables
    ensures r.TooManyConcurrent? <==>
              NoSlot(old(db.users)[user], params.interactions, old(limiter.activeCounts), user, r)
    ensures r.TooManyConcurrent? ==> db.Snapshot() == old(db.Snapshot())
    ensures !r.TooManyConcurrent? ==>
              SyncDone(cfg, old(db.Snapshot()), db.Snapshot(), id, user, params, create, outcome, saveBreaks, at, r)
  {
    SlotsAreLimit(db.users[user]);
    var plan := PlanOf(db.users[user]);
    if params.interactions > plan.maxInteractionsPerRequest {
      TooLargeIsDone(cfg, db.Snapshot(), id, user, params, create, outcome, saveBreaks, at);
      return Refused(InteractionLimitExceeded(plan.maxInteractionsPerRequest, params.interactions));
    }
    r := RunInSlot(cfg, db, limiter, id, user, params, create, outcome, saveBreaks, at);
  }

  /** From acquiring the slot to giving it back. */
  method RunInSlot(cfg: Config, db: Database, limiter: CL.ConcurrencyLimiter, id: JobId, user: UserId, params: Params,
                   create: Write, outcome: Outcome, saveBreaks: bool, at: Times)
    returns (r: SyncResult)
    requires user in db.users && id !in db.jobs && limiter.Valid() && NonNegative(db.usage, user)
    modifies db, limiter
    ensures limiter.Valid() && limiter.activeCounts == old(limiter.activeCounts) && db.users == old(db.users)
    ensures var limit := ConcurrencyLimit(old(db.users)[user]);
            && (r.TooManyConcurrent? <==> CL.CountOf(old(limiter.activeCounts), user) >= limit)
            && (r.TooManyConcurrent? ==> r.limit == limit && db.Snapshot() == old(db.Snapshot()))
    ensures !r.TooManyConcurrent? ==>
              BodyDone(cfg, old(db.Snapshot()), db.Snapshot(), id, user, params, create, outcome, saveBreaks, at, r)
  {
    var limit := ConcurrencyLimit(db.users[user]);
    var acquired := limiter.Acquire(user, limit);
    if !acquired {
      return TooManyConcurrent(limit);
    }
    r := SyncBody(cfg, db, id, user, params, create, outcome, saveBreaks, at);
    var _ := limiter.Release(user);
    CL.CountsDetermineTable(limiter.activeCounts, old(limiter.activeCounts), user);
  }

  /** The slots of the user's plan; no plan and a limit of zero mean one. */
  function SlotsOfPlan(user: User): nat {
    match user.plan
    case None => 1
    case Some(p) => if p.maxConcurrentSimulations == 0 then 1 else p.maxConcurrentSimulations
  }

  /** The request is not too large, but all slots are taken. */
  predicate NoSlot(u: User, n: nat, counts: map<UserId, nat>, user: UserId, r: SyncResult) {
    && n <= (match u.plan case None => 1000 case Some(p) => p.maxInteractionsPerRequest)
    && (if user in counts then counts[user] else 0) >= SlotsOfPlan(u)
    && r == TooManyConcurrent(SlotsOfPlan(u))
  }

  lemma SlotsAreLimit(u: User)
    ensures SlotsOfPlan(u) == ConcurrencyLimit(u)
    ensures PlanOf(u).maxInteractionsPerRequest
         == match u.plan case None => 1000 case Some(p) => p.maxInteractionsPerRequest
  {
  }

  /** A request that is too large is refused before anything is touched. */
  lemma TooLargeIsDone(cfg: Config, db: Db, id: JobId, user: UserId, params: Params, create: Write, outcome: Outcome,
                       saveBreaks: bool, at: Times)
    requires user in db.users && params.interactions > PlanOf(db.users[user]).maxInteractionsPerRequest
    ensures var most := PlanOf(db.users[user]).maxInteractionsPerRequest;
            SyncDone(cfg, db, db, id, user, params, create, outcome, saveBreaks, at,
                     Refused(InteractionLimitExceeded(most, params.interactions)))
  {
    ReservationGoesByPlan(cfg, db, id, user, params.interactions, at.reserve);
    var (mid, answer) := Reserve(cfg, db, id, user, params.interactions, at.reserve);
    assert AnsweredByPlan(cfg, db, mid, answer, user, params.interactions, at.reserve);
  }

  ghost predicate NonNegative(usage: UsageTable, user: UserId) {
    forall p: Period :: UsageOf(usage, user, p).requests >= 0 && UsageOf(usage, user, p).interactions >= 0
  }

  /** The exit of a request that got a slot and a reservation. */
  predicate ExitTaken(create: Write, outcome: Outcome, saveBreaks: bool, r: SyncResult) {
    && (r.NotPersisted? <==> create.Raises?)
    && (r.SessionLost? <==> create.Breaks? || (create.Works? && outcome.Generated? && saveBreaks))
    && (r.Succeeded? <==> create.Works? && outcome.Generated? && !saveBreaks)
    && (r.EngineRaised? <==> create.Works? && outcome.EngineFailed?)
    && (r.EngineRaised? ==> r.code == outcome.code)
  }

  /** The job table at the end of such a request. */
  function JobsAfter(jobs: map<JobId, Job>, id: JobId, user: UserId, params: Params, create: Write, outcome: Outcome,
                     at: Times, r: SyncResult): map<JobId, Job>
    requires r.Succeeded? ==> outcome.Generated?
  {
    if !create.Works? then jobs else
    var running := StartedRow(NewRow(user, params, at.create), at.start);
    match r
    case Succeeded => jobs[id := CompletedRow(running, outcome.records, outcome.computeMs, at.finish)]
    case EngineRaised(code) => jobs[id := FailedRow(running, code, at.finish)]
    case _ => jobs[id := running]
  }

  function OutcomeEvents(user: UserId, n: nat, outcome: Outcome, at: Times, r: SyncResult): seq<Event>
    requires r.Succeeded? ==> outcome.Generated?
  {
    if r.Succeeded? then [Event(user, SimulationCompleted, at.finish, n, Some(outcome.computeMs), true)]
    else if GaveUp(r) then [FailedEvent(user, ReleaseTime(r, at))]
    else []
  }

  function ReleaseTime(r: SyncResult, at: Times): Time {
    if r.NotPersisted? then at.create else at.finish
  }

  /** The new row on the columns, once started. */
  function Started(user: UserId, params: Params, at: Times): Job {
    Job(user, params, Running, None, None, params.seed != None, None, at.create, Some(at.start), None, at.start, None,
        None, None, 0, 3)
  }

  /** What a request that got a slot, or was refused before, leaves in the tables,
      said on the columns: one charge by the user's plan and its request event,
      and then what its exit calls for. */
  ghost predicate SyncDone(cfg: Config, before: Db, after: Db, id: JobId, user: UserId, params: Params, create: Write,
                           outcome: Outcome, saveBreaks: bool, at: Times, r: SyncResult)
    requires user in before.users
  {
    exists mid: Db, answer: Reservation ::
      && AnsweredByPlan(cfg, before, mid, answer, user, params.interactions, at.reserve)
      && after.users == before.users
      && (if r.Refused? then
            && r.verdict == answer && !answer.Reserved? && after.jobs == before.jobs
            && after.usage == mid.usage && after.events == before.events
          else
            && answer.Reserved?
            && SyncExit(cfg, before, mid.usage, after, id, user, params, create, outcome, saveBreaks, at, r))
  }

  ghost predicate SyncExit(cfg: Config, before: Db, charged: UsageTable, after: Db, id: JobId, user: UserId,
                           params: Params, create: Write, outcome: Outcome, saveBreaks: bool, at: Times, r: SyncResult)
  {
    var n := params.interactions;
    var requested := before.events + [Event(user, SimulationRequest, at.reserve, n, None, true)];
    match r
    case NotPersisted =>
      && create == Write.Raises && after.jobs == before.jobs && GaveBack(cfg, charged, after.usage, user, n, at.create)
      && after.events == requested + [Event(user, SimulationFailed, at.create, 0, Some(0), false)]
    case EngineRaised(code) =>
      && create == Works && outcome == EngineFailed(code) && GaveBack(cfg, charged, after.usage, user, n, at.finish)
      && after.jobs == before.jobs[id := Started(user, params, at).(
           status := Failed, errorCode := Some(code), completedAt := Some(at.finish), updatedAt := at.finish)]
      && after.events == requested + [Event(user, SimulationFailed, at.finish, 0, Some(0), false)]
    case SessionLost =>
      && after.usage == charged && after.events == requested
      && (|| (create == Breaks && after.jobs == before.jobs)
          || (&& create == Works && outcome.Generated? && saveBreaks
              && after.jobs == before.jobs[id := Started(user, params, at)]))
    case Succeeded =>
      && create == Works && outcome.Generated? && !saveBreaks && after.usage == charged
      && after.jobs == before.jobs[id := Started(user, params, at).(
           status := Completed, data := Some(outcome.records), computeMs := Some(outcome.computeMs),
           completedAt := Some(at.finish), updatedAt := at.finish)]
      && after.events
           == requested + [Event(user, SimulationCompleted, at.finish, n, Some(outcome.computeMs), true)]
    case _ => false
  }

  /** Every exit of a charged request. */
  lemma ExitOnColumns(cfg: Config, before: Db, charged: UsageTable, after: Db, id: JobId, user: UserId, params: Params,
                      create: Write, outcome: Outcome, saveBreaks: bool, at: Times, r: SyncResult)
    requires !r.TooManyConcurrent? && !r.Refused? && ExitTaken(create, outcome, saveBreaks, r)
    requires after.jobs == JobsAfter(before.jobs, id, user, params, create, outcome, at, r)
    requires after.usage == if GaveUp(r) then Refund(cfg, charged, user, params.interactions, ReleaseTime(r, at))
                            else charged
    requires after.events == before.events
               + [Event(user, SimulationRequest, at.reserve, params.interactions, None, true)]
               + OutcomeEvents(user, params.interactions, outcome, at, r)
    ensures SyncExit(cfg, before, charged, after, id, user, params, create, outcome, saveBreaks, at, r)
  {
  }

  /** All there is to say of a request that got a slot. */
  ghost predicate BodyDone(cfg: Config, before: Db, after: Db, id: JobId, user: UserId, params: Params, create: Write,
                           outcome: Outcome, saveBreaks: bool, at: Times, r: SyncResult)
    requires user in before.users
  {
    var verdict := Reserve(cfg, before, id, user, params.interactions, at.reserve).1;
    && !r.TooManyConcurrent?
    && (r.Refused? <==> !verdict.Reserved?) && (r.Refused? ==> r.verdict == verdict)
    && (!r.Refused? ==> ExitTaken(create, outcome, saveBreaks, r))
    && BooksAfter(cfg, before.usage, after.usage, user, params.interactions, r, at)
    && (r.Refused? ==> after.jobs == before.jobs && after.events == before.events)
    && (!r.Refused? ==>
          && after.jobs == JobsAfter(before.jobs, id, user, params, create, outcome, at, r)
          && after.events == before.events
               + [Event(user, SimulationRequest, at.reserve, params.interactions, None, true)]
               + OutcomeEvents(user, params.interactions, outcome, at, r))
    && SyncDone(cfg, before, after, id, user, params, create, outcome, saveBreaks, at, r)
  }

  /** What runs between acquiring and releasing the slot. */
  method SyncBody(cfg: Config, db: Database, id: JobId, user: UserId, params: Params, create: Write,
                  outcome: Outcome, saveBreaks: bool, at: Times)
    returns (r: SyncResult)
    requires user in db.users && id !in db.jobs && NonNegative(db.usage, user)
    modifies db
    ensures db.users == old(db.users) && !r.TooManyConcurrent?
    ensures BodyDone(cfg, old(db.Snapshot()), db.Snapshot(), id, user, params, create, outcome, saveBreaks, at, r)
  {
    ReservationGoesByPlan(cfg, db.Snapshot(), id, user, params.interactions, at.reserve);
    ghost var before := db.Snapshot();
    RefusalIsJustified(cfg, before, id, user, params.interactions, at.reserve);
    var verdict := ReserveUsage(cfg, db, id, user, params.interactions, at.reserve);
    if !verdict.Reserved? {
      return Refused(verdict);
    }
    ghost var mid := db.Snapshot();
    r := SyncReserved(cfg, db, id, user, params, create, outcome, saveBreaks, at);
    ExitOnColumns(cfg, before, mid.usage, db.Snapshot(), id, user, params, create, outcome, saveBreaks, at, r);
    assert AnsweredByPlan(cfg, before, mid, verdict, user, params.interactions, at.reserve);
    if GaveUp(r) {
      NetEffect(cfg, before, id, user, params.interactions, at.reserve, ReleaseTime(r, at));
    }
  }

  /** From the charged reservation on. */
  method SyncReserved(cfg: Config, db: Database, id: JobId, user: UserId, params: Params, create: Write,
                      outcome: Outcome, saveBreaks: bool, at: Times)
    returns (r: SyncResult)
    requires user in db.users && id !in db.jobs
    modifies db
    ensures db.users == old(db.users) && !r.TooManyConcurrent? && !r.Refused?
    ensures ExitTaken(create, outcome, saveBreaks, r)
    ensures db.jobs == JobsAfter(old(db.jobs), id, user, params, create, outcome, at, r)
    ensures db.usage == if GaveUp(r) then Refund(cfg, old(db.usage), user, params.interactions, ReleaseTime(r, at))
                        else old(db.usage)
    ensures db.events == old(db.events) + OutcomeEvents(user, params.interactions, outcome, at, r)
  {
    var created := CreateSimulationJob(db, id, user, params, create.Works?, at.create);
    if create.Breaks? {
      return SessionLost;
    }
    if !created {
      RefundAndRecordFailure(cfg, db, id, user, params.interactions, at.create);
      return NotPersisted;
    }
    var e := ExecuteSimulationJob(cfg, db, id, user, false, outcome, saveBreaks, at.start, at.start, at.finish);
    if e.Raised? {
      return EngineRaised(outcome.code);
    }
    return if e.Lost? then SessionLost else Succeeded;
  }

  /** The counters after each kind of exit. */
  ghost predicate BooksAfter(cfg: Config, usage: UsageTable, usage': UsageTable, user: UserId, n: nat, r: SyncResult,
                             at: Times)
  {
    var period := cfg.period(at.reserve);
    var row := UsageOf(usage, user, period);
    && (Charges(r) ==>
          && UsageOf(usage', user, period) == Usage(row.requests + 1, row.interactions + n)
          && forall u: UserId, p: Period :: (u, p) != (user, period) ==> UsageOf(usage', u, p) == UsageOf(usage, u, p))
    && (GaveUp(r) ==> (SameCounters(usage, usage') <==> cfg.period(ReleaseTime(r, at)) == period))
    && (!Charges(r) && !GaveUp(r) ==> SameCounters(usage, usage'))
  }

  ghost predicate SameCounters(usage: UsageTable, usage': UsageTable) {
    forall u: UserId, p: Period :: UsageOf(usage', u, p) == UsageOf(usage, u, p)
  }

  lemma NetEffect(cfg: Config, db: Db, id: JobId, user: UserId, n: nat, reserved: Time, released: Time)
    requires user in db.users && Reserve(cfg, db, id, user, n, reserved).1.Reserved?
    requires var row := UsageOf(db.usage, user, cfg.period(reserved)); row.requests >= 0 && row.interactions >= 0
    ensures var usage := Refund(cfg, Reserve(cfg, db, id, user, n, reserved).0.usage, user, n, released);
            SameCounters(db.usage, usage) <==> cfg.period(released) == cfg.period(reserved)
  {
    if cfg.period(released) == cfg.period(reserved) {
      ChargeThenRefund(cfg, db, id, user, n, reserved, released);
    } else {
      ChargeSurvivesLateRefund(cfg, db, id, user, n, reserved, released);
    }
  }
}
