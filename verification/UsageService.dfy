/** Quota reservation, refund and the audit log (app/services/usage.py). */
module UsageService {
  import opened Domain
  import opened Database

  datatype Resource = Requests | Interactions

  datatype Reservation =
    | Reserved(row: Usage)
    | InteractionLimitExceeded(maxAllowed: nat, requested: nat)
    | QuotaExceeded(resource: Resource, current: int, limit: nat)

  datatype Summary = Summary(used: Usage, remaining: Usage)

  // ---- What the operations do to the tables ----

  function WithRow(usage: UsageTable, user: UserId, period: Period): UsageTable {
    usage[(user, period) := UsageOf(usage, user, period)]
  }

  function Overflow(plan: Plan, row: Usage, interactions: nat): Option<Reservation> {
    if row.requests + 1 > plan.monthlyRequests then
      Some(QuotaExceeded(Requests, row.requests, plan.monthlyRequests))
    else if row.interactions + interactions > plan.monthlyInteractions then
      Some(QuotaExceeded(Interactions, row.interactions, plan.monthlyInteractions))
    else None
  }

  /** Charge one request and `interactions` to the current month, or say why not. */
  function Reserve(cfg: Config, db: Db, id: JobId, user: UserId, interactions: nat, now: Time): (Db, Reservation)
    requires user in db.users
  {
    var plan := PlanOf(db.users[user]);
    if interactions > plan.maxInteractionsPerRequest then
      (db, InteractionLimitExceeded(plan.maxInteractionsPerRequest, interactions))
    else
      var period := cfg.period(now);
      var row := UsageOf(db.usage, user, period);
      match Overflow(plan, row, interactions)
      case Some(refusal) => (db.(usage := WithRow(db.usage, user, period)), refusal)
      case None =>
        var row' := Usage(row.requests + 1, row.interactions + interactions);
        (db.(usage := db.usage[(user, period) := row'],
             events := db.events + [Event(user, SimulationRequest, now, interactions, None, true)],
             hist := db.hist.(tickets := db.hist.tickets[id := Ticket(user, interactions, period)],
                              inFlight := db.hist.inFlight + {id})),
         Reserved(row'))
  }

  function ClampedMinus(count: int, delta: nat): int {
    if count >= delta then count - delta else 0
  }

  /** Give one request and `interactions` back to the current month's row, if there is one. */
  function Refund(cfg: Config, usage: UsageTable, user: UserId, interactions: nat, now: Time)
    : UsageTable
  {
    var key := (user, cfg.period(now));
    if key in usage then
      usage[key := Usage(ClampedMinus(usage[key].requests, 1), ClampedMinus(usage[key].interactions, interactions))]
    else usage
  }

  function FailedEvent(user: UserId, now: Time): Event {
    Event(user, SimulationFailed, now, 0, Some(0), false)
  }

  /** The record of late releases once `id` is released in `period`. */
  function LateAfter(tickets: Tickets, late: LateReleases, id: JobId, period: Period): LateReleases {
    if id in tickets && tickets[id].period != period then late[id := period] else late
  }

  /** The reservation of `id` ends without a result. */
  function NoteRelease(cfg: Config, hist: History, id: JobId, now: Time): History {
    hist.(inFlight := hist.inFlight - {id},
          late := LateAfter(hist.tickets, hist.late, id, cfg.period(now)))
  }

  /** The pair of calls every failing path makes: refund, then log the failure. */
  function Release(cfg: Config, db: Db, id: JobId, user: UserId, interactions: nat, now: Time): Db {
    db.(usage := Refund(cfg, db.usage, user, interactions, now),
        events := db.events + [FailedEvent(user, now)],
        hist := NoteRelease(cfg, db.hist, id, now))
  }

  // ---- The same on the columns ----

  /** The answer to a reservation under these three limits and its effect on the
      tables. Nothing in this section uses a definition from above but the
      operation it is about. */
  ghost predicate AnsweredUnder(perRequest: nat, requests: nat, interactions: nat, cfg: Config, before: Db, after: Db,
                                answer: Reservation, user: UserId, n: nat, now: Time)
  {
    var key := (user, cfg.period(now));
    var row := if key in before.usage then before.usage[key] else Usage(0, 0);
    var granted := n <= perRequest && row.requests + 1 <= requests && row.interactions + n <= interactions;
    && after.users == before.users && after.jobs == before.jobs
    && answer ==
         (if n > perRequest then InteractionLimitExceeded(perRequest, n)
          else if row.requests + 1 > requests then QuotaExceeded(Requests, row.requests, requests)
          else if row.interactions + n > interactions then QuotaExceeded(Interactions, row.interactions, interactions)
          else Reserved(Usage(row.requests + 1, row.interactions + n)))
    && (granted <==> answer.Reserved?)
    && (granted ==>
          && after.usage == before.usage[key := Usage(row.requests + 1, row.interactions + n)]
          && after.events == before.events + [Event(user, SimulationRequest, now, n, None, true)])
    && (!granted ==>
          && after.events == before.events
          && after.usage == if n > perRequest then before.usage else before.usage[key := row])
  }

  /** By the user's own plan; without a plan 1000 interactions a request, and 100
      requests and 10000 interactions a month. */
  ghost predicate AnsweredByPlan(cfg: Config, before: Db, after: Db, answer: Reservation, user: UserId, n: nat,
                                 now: Time)
    requires user in before.users
  {
    match before.users[user].plan
    case Some(p) =>
      AnsweredUnder(p.maxInteractionsPerRequest, p.monthlyRequests, p.monthlyInteractions, cfg, before, after, answer,
                    user, n, now)
    case None => AnsweredUnder(1000, 100, 10000, cfg, before, after, answer, user, n, now)
  }

  /** The counters after giving back one request and `n` interactions: only this
      month's row, if there is one, and never below zero. */
  ghost predicate GaveBack(cfg: Config, usage: UsageTable, usage': UsageTable, user: UserId, n: nat, now: Time) {
    var key := (user, cfg.period(now));
    if key !in usage then usage' == usage
    else
      var row := usage[key];
      usage' == usage[key := Usage(if row.requests < 1 then 0 else row.requests - 1,
                                   if row.interactions < n then 0 else row.interactions - n)]
  }

  lemma ReservationGoesByPlan(cfg: Config, db: Db, id: JobId, user: UserId, n: nat, now: Time)
    requires user in db.users
    ensures var (db', answer) := Reserve(cfg, db, id, user, n, now);
            AnsweredByPlan(cfg, db, db', answer, user, n, now)
  {
  }

  /** A release is the refund and one failure event. */
  lemma ReleaseGivesBack(cfg: Config, db: Db, id: JobId, user: UserId, n: nat, now: Time)
    ensures var db' := Release(cfg, db, id, user, n, now);
            && GaveBack(cfg, db.usage, db'.usage, user, n, now)
            && db'.events == db.events + [Event(user, SimulationFailed, now, 0, Some(0), false)]
            && db'.users == db.users && db'.jobs == db.jobs
  {
  }

  // ---- The service ----

  method GetOrCreateMonthlyUsage(db: Database, user: UserId, period: Period) returns (row: Usage)
    modifies db`usage
    ensures db.usage == WithRow(old(db.usage), user, period)
    ensures row == UsageOf(old(db.usage), user, period) == db.usage[(user, period)]
    ensures var key := (user, period);
            && row == (if key in old(db.usage) then old(db.usage)[key] else Usage(0, 0))
            && db.usage == old(db.usage)[key := row]
  {
    if (user, period) in db.usage {
      return db.usage[(user, period)];
    }
    row := Usage(0, 0);
    db.usage := db.usage[(user, period) := row];
  }

  method ReserveUsage(cfg: Config, db: Database, ghost id: JobId, user: UserId, interactions: nat, now: Time)
    returns (r: Reservation)
    requires user in db.users
    modifies db
    ensures (db.Snapshot(), r) == Reserve(cfg, old(db.Snapshot()), id, user, interactions, now)
    ensures AnsweredByPlan(cfg, old(db.Snapshot()), db.Snapshot(), r, user, interactions, now)
  {
    ReservationGoesByPlan(cfg, db.Snapshot(), id, user, interactions, now);
    var plan := PlanOf(db.users[user]);
    if interactions > plan.maxInteractionsPerRequest {
      return InteractionLimitExceeded(plan.maxInteractionsPerRequest, interactions);
    }
    var period := cfg.period(now);
    var row := GetOrCreateMonthlyUsage(db, user, period);
    if !(row.requests + 1 <= plan.monthlyRequests && row.interactions + interactions <= plan.monthlyInteractions) {
      if row.requests + 1 > plan.monthlyRequests {
        return QuotaExceeded(Requests, row.requests, plan.monthlyRequests);
      } else {
        return QuotaExceeded(Interactions, row.interactions, plan.monthlyInteractions);
      }
    }
    row := Usage(row.requests + 1, row.interactions + interactions);
    db.usage := db.usage[(user, period) := row];
    db.events := db.events + [Event(user, SimulationRequest, now, interactions, None, true)];
    db.hist := db.hist.(tickets := db.hist.tickets[id := Ticket(user, interactions, period)],
                        inFlight := db.hist.inFlight + {id});
    assert db.usage == old(db.usage)[(user, period) := row];
    return Reserved(row);
  }

  method RefundUsage(cfg: Config, db: Database, user: UserId, interactions: nat, now: Time)
    modifies db`usage
    ensures db.usage == Refund(cfg, old(db.usage), user, interactions, now)
    ensures GaveBack(cfg, old(db.usage), db.usage, user, interactions, now)
  {
    var key := (user, cfg.period(now));
    if key in db.usage {
      var row := db.usage[key];
      var requests := if row.requests >= 1 then row.requests - 1 else 0;
      var left := if row.interactions >= interactions then row.interactions - interactions else 0;
      db.usage := db.usage[key := Usage(requests, left)];
    }
  }

  method RecordUsageResult(db: Database, user: UserId, kind: EventKind, interactions: nat, computeMs: Option<nat>,
                           success: bool, now: Time)
    modifies db`events
    ensures db.events == old(db.events) + [Event(user, kind, now, interactions, computeMs, success)]
  {
    db.events := db.events + [Event(user, kind, now, interactions, computeMs, success)];
  }

  /** `refund_usage` followed by the `simulation_failed` record. */
  method RefundAndRecordFailure(cfg: Config, db: Database, ghost id: JobId, user: UserId, interactions: nat, now: Time)
    modifies db
    ensures db.Snapshot() == Release(cfg, old(db.Snapshot()), id, user, interactions, now)
    ensures GaveBack(cfg, old(db.usage), db.usage, user, interactions, now)
    ensures db.events == old(db.events) + [Event(user, SimulationFailed, now, 0, Some(0), false)]
    ensures db.users == old(db.users) && db.jobs == old(db.jobs)
  {
    RefundUsage(cfg, db, user, interactions, now);
    RecordUsageResult(db, user, SimulationFailed, 0, Some(0), false, now);
    db.hist := NoteRelease(cfg, db.hist, id, now);
  }

  /** What is used is this month's row, created empty if missing; what remains is
      the rest of the quota, and nothing once the quota is exceeded. */
  ghost predicate Summarizes(cfg: Config, s: Summary, usage: UsageTable, usage': UsageTable, user: UserId, now: Time,
                             requests: nat, interactions: nat)
  {
    var key := (user, cfg.period(now));
    && s.used == (if key in usage then usage[key] else Usage(0, 0)) && usage' == usage[key := s.used]
    && s.remaining.requests >= 0 && s.remaining.interactions >= 0
    && (s.used.requests <= requests ==> s.used.requests + s.remaining.requests == requests)
    && (s.used.requests > requests ==> s.remaining.requests == 0)
    && (s.used.interactions <= interactions ==> s.used.interactions + s.remaining.interactions == interactions)
    && (s.used.interactions > interactions ==> s.remaining.interactions == 0)
  }

  method GetUserUsageSummary(cfg: Config, db: Database, user: UserId, now: Time) returns (s: Summary)
    requires user in db.users
    modifies db`usage
    ensures db.usage == WithRow(old(db.usage), user, cfg.period(now))
    ensures s.used == UsageOf(old(db.usage), user, cfg.period(now))
    ensures match db.users[user].plan
            case Some(p) =>
              Summarizes(cfg, s, old(db.usage), db.usage, user, now, p.monthlyRequests, p.monthlyInteractions)
            case None => Summarizes(cfg, s, old(db.usage), db.usage, user, now, 100, 10000)
  {
    var plan := PlanOf(db.users[user]);
    var row := GetOrCreateMonthlyUsage(db, user, cfg.period(now));
    var requests := plan.monthlyRequests - row.requests;
    var interactions := plan.monthlyInteractions - row.interactions;
    s := Summary(row, Usage(if requests > 0 then requests else 0, if interactions > 0 then interactions else 0));
  }

  // ---- The quota is fully usable ----

  datatype Request = Request(id: JobId, at: Time)

  /** Reservations of one user one after the other, and how many were granted. */
  function ReserveAll(cfg: Config, db: Db, requests: seq<Request>, user: UserId, interactions: nat): (r: (Db, nat))
    requires user in db.users
    ensures r.0.users == db.users
  {
    if requests == [] then (db, 0) else
    var last := requests[|requests| - 1];
    var (db', granted) := ReserveAll(cfg, db, requests[..|requests| - 1], user, interactions);
    var (db'', verdict) := Reserve(cfg, db', last.id, user, interactions, last.at);
    (db'', if verdict.Reserved? then granted + 1 else granted)
  }

  lemma FitsExactly(k: nat, n: nat, total: nat)
    requires n >= 1
    ensures k * n + n <= total <==> k < total / n
  {
    var q := total / n;
    assert q * n <= total < q * n + n;
    if k < q {
      assert (k + 1) * n <= q * n;
    } else {
      assert q * n <= k * n;
    }
  }

  /** From an unused month, equal reservations at any times of that month are
      granted until a quota is used up to the last whole reservation, and not
      one more. */
  lemma {:induction false} QuotaIsNeverWasted(cfg: Config, db: Db, requests: seq<Request>, user: UserId, n: nat,
                                              month: Period)
    requires user in db.users && UsageOf(db.usage, user, month) == Usage(0, 0)
    requires 1 <= n <= PlanOf(db.users[user]).maxInteractionsPerRequest
    requires forall i :: 0 <= i < |requests| ==> cfg.period(requests[i].at) == month
    ensures var plan := PlanOf(db.users[user]);
            var (db', granted) := ReserveAll(cfg, db, requests, user, n);
            && granted == Min(|requests|, Min(plan.monthlyRequests, plan.monthlyInteractions / n))
            && UsageOf(db'.usage, user, month) == Usage(granted, granted * n)
    decreases |requests|
  {
    if requests != [] {
      var before := requests[..|requests| - 1];
      assert cfg.period(requests[|requests| - 1].at) == month;
      QuotaIsNeverWasted(cfg, db, before, user, n, month);
      var (_, granted) := ReserveAll(cfg, db, before, user, n);
      FitsExactly(granted, n, PlanOf(db.users[user]).monthlyInteractions);
      assert (granted + 1) * n == granted * n + n;
    }
  }

  /** A refusal names a limit the request would really exceed, reports the
      current figures, and charges nothing. */
  lemma RefusalIsJustified(cfg: Config, db: Db, id: JobId, user: UserId, n: nat, now: Time)
    requires user in db.users
    ensures var plan := PlanOf(db.users[user]);
            var row := UsageOf(db.usage, user, cfg.period(now));
            var (db', verdict) := Reserve(cfg, db, id, user, n, now);
            && (verdict.Reserved? <==> (&& n <= plan.maxInteractionsPerRequest
                                       && row.requests < plan.monthlyRequests
                                       && row.interactions + n <= plan.monthlyInteractions))
            && (verdict.InteractionLimitExceeded? ==>
                 verdict.requested == n > verdict.maxAllowed == plan.maxInteractionsPerRequest)
            && (verdict.QuotaExceeded? && verdict.resource == Requests ==>
                  verdict.current == row.requests >= verdict.limit == plan.monthlyRequests)
            && (verdict.QuotaExceeded? && verdict.resource == Interactions ==>
                  && row.requests < plan.monthlyRequests
                  && verdict.current == row.interactions
                       && verdict.current + n > verdict.limit == plan.monthlyInteractions)
            && (!verdict.Reserved? ==>
                  && db'.events == db.events && db'.hist == db.hist && db'.jobs == db.jobs
                  && forall u: UserId, p: Period :: UsageOf(db'.usage, u, p) == UsageOf(db.usage, u, p))
            && (verdict.Reserved? ==>
                  && UsageOf(db'.usage, user, cfg.period(now)) == Usage(row.requests + 1, row.interactions + n)
                  && forall u: UserId, p: Period :: (u, p) != (user, cfg.period(now)) ==>
                       UsageOf(db'.usage, u, p) == UsageOf(db.usage, u, p))
  {
    var (db', verdict) := Reserve(cfg, db, id, user, n, now);
    if verdict.Reserved? {
      assert Overflow(PlanOf(db.users[user]), UsageOf(db.usage, user, cfg.period(now)), n).None?;
    }
  }
}
