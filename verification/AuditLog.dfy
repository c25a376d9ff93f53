/** The append-only event log, read as an account of every reservation. */
module AuditLog {
  import opened Domain
  import opened UsageService
  import opened Ledger

  function CountOf(events: seq<Event>, user: UserId, kind: EventKind): nat {
    if events == [] then 0 else
    var e := events[|events| - 1];
    CountOf(events[..|events| - 1], user, kind) + (if e.user == user && e.kind == kind then 1 else 0)
  }

  /** Events of one kind logged within one month. */
  function CountIn(cfg: Config, events: seq<Event>, user: UserId, kind: EventKind, period: Period): nat {
    if events == [] then 0 else
    var e := events[|events| - 1];
    CountIn(cfg, events[..|events| - 1], user, kind, period)
      + (if e.user == user && e.kind == kind && cfg.period(e.at) == period then 1 else 0)
  }

  /** The request counter of a month rebuilt from the log alone. */
  function Replay(cfg: Config, events: seq<Event>, user: UserId, period: Period): int {
    if events == [] then 0 else
    var e := events[|events| - 1];
    var before := Replay(cfg, events[..|events| - 1], user, period);
    if e.user != user || cfg.period(e.at) != period then before else
    match e.kind
    case SimulationRequest => before + 1
    case SimulationFailed => ClampedMinus(before, 1)
    case SimulationCompleted => before
  }

  ghost function OpenOf(tickets: Tickets, open: set<JobId>, user: UserId): set<JobId> {
    set id | id in open && id in tickets && tickets[id].user == user
  }

  /** Every request event has had exactly one outcome event or is still open. */
  ghost predicate OneOutcomeEach(tickets: Tickets, open: set<JobId>, events: seq<Event>) {
    forall u: UserId ::
      CountOf(events, u, SimulationRequest)
        == CountOf(events, u, SimulationCompleted) + CountOf(events, u, SimulationFailed) + |OpenOf(tickets, open, u)|
  }

  ghost predicate Replays(cfg: Config, events: seq<Event>, usage: UsageTable) {
    forall u: UserId, p: Period :: UsageOf(usage, u, p).requests == Replay(cfg, events, u, p)
  }

  /** Unless a reservation of an earlier month was released into `p`, the request
      counter is the month's requests minus its failures. */
  ghost predicate RequestsMinusFailures(cfg: Config, tickets: Tickets, late: LateReleases, events: seq<Event>,
                                        usage: UsageTable)
  {
    forall u: UserId, p: Period :: NothingLanded(tickets, late, u, p) ==>
      UsageOf(usage, u, p).requests
        == CountIn(cfg, events, u, SimulationRequest, p) - CountIn(cfg, events, u, SimulationFailed, p)
  }

  ghost predicate AuditOk(cfg: Config, tickets: Tickets, open: set<JobId>, late: LateReleases, events: seq<Event>,
                          usage: UsageTable)
  {
    && open <= tickets.Keys && late.Keys <= tickets.Keys
    && OneOutcomeEach(tickets, open, events)
    && Replays(cfg, events, usage)
    && RequestsMinusFailures(cfg, tickets, late, events, usage)
  }

  lemma LogGrows(cfg: Config, events: seq<Event>, e: Event)
    ensures var log := events + [e];
            && (forall u: UserId, k: EventKind ::
                  CountOf(log, u, k) == CountOf(events, u, k) + (if e.user == u && e.kind == k then 1 else 0))
            && (forall u: UserId, k: EventKind, p: Period ::
                  CountIn(cfg, log, u, k, p)
                    == CountIn(cfg, events, u, k, p)
                        + (if e.user == u && e.kind == k && cfg.period(e.at) == p then 1 else 0))
            && (forall u: UserId, p: Period ::
                  Replay(cfg, log, u, p) ==
                    if e.user != u || cfg.period(e.at) != p || e.kind.SimulationCompleted?
                        then Replay(cfg, events, u, p)
                    else if e.kind.SimulationRequest? then Replay(cfg, events, u, p) + 1
                    else ClampedMinus(Replay(cfg, events, u, p), 1))
  {
    var log := events + [e];
    assert log[..|log| - 1] == events && log[|log| - 1] == e;
  }

  lemma OpenGrows(tickets: Tickets, open: set<JobId>, id: JobId, t: Ticket)
    requires id !in tickets && open <= tickets.Keys
    ensures forall u: UserId ::
        |OpenOf(tickets[id := t], open + {id}, u)| == |OpenOf(tickets, open, u)| + (if u == t.user then 1 else 0)
  {
    forall u: UserId
      ensures |OpenOf(tickets[id := t], open + {id}, u)| == |OpenOf(tickets, open, u)| + (if u == t.user then 1 else 0)
    {
      assert OpenOf(tickets[id := t], open + {id}, u) == OpenOf(tickets, open, u) + (if u == t.user then {id} else {});
    }
  }

  lemma OpenShrinks(tickets: Tickets, open: set<JobId>, id: JobId)
    requires id in open && id in tickets
    ensures forall u: UserId ::
        |OpenOf(tickets, open - {id}, u)| == |OpenOf(tickets, open, u)| - (if u == tickets[id].user then 1 else 0)
  {
    forall u: UserId
      ensures |OpenOf(tickets, open - {id}, u)| == |OpenOf(tickets, open, u)| - (if u == tickets[id].user then 1 else 0)
    {
      if u == tickets[id].user {
        assert OpenOf(tickets, open, u) == OpenOf(tickets, open - {id}, u) + {id};
      } else {
        assert OpenOf(tickets, open - {id}, u) == OpenOf(tickets, open, u);
      }
    }
  }

  lemma AuditReserves(cfg: Config, tickets: Tickets, open: set<JobId>, late: LateReleases, events: seq<Event>,
                      usage: UsageTable, id: JobId, user: UserId, n: nat, e: Event)
    requires AuditOk(cfg, tickets, open, late, events, usage) && id !in tickets
    requires e.user == user && e.kind.SimulationRequest?
    ensures var period := cfg.period(e.at);
            var row := UsageOf(usage, user, period);
            AuditOk(cfg, tickets[id := Ticket(user, n, period)], open + {id}, late, events + [e],
                    usage[(user, period) := Usage(row.requests + 1, row.interactions + n)])
  {
    var period := cfg.period(e.at);
    var t := Ticket(user, n, period);
    LogGrows(cfg, events, e);
    OpenGrows(tickets, open, id, t);
    forall u: UserId, p: Period | NothingLanded(tickets[id := t], late, u, p)
      ensures NothingLanded(tickets, late, u, p)
    {
      LandedFrame(tickets, late, id, t, u, p);
    }
  }

  lemma AuditReleases(cfg: Config, tickets: Tickets, open: set<JobId>, late: LateReleases, events: seq<Event>,
                      usage: UsageTable, id: JobId, now: Time)
    requires AuditOk(cfg, tickets, open, late, events, usage) && id in open && id !in late
    requires tickets[id].period <= cfg.period(now)
    requires (&& tickets[id].period == cfg.period(now)
              && NothingLanded(tickets, late, tickets[id].user, cfg.period(now))) ==>
               CoversRefund(usage, tickets[id].user, tickets[id].interactions, cfg.period(now))
    ensures var t := tickets[id];
            AuditOk(cfg, tickets, open - {id}, LateAfter(tickets, late, id, cfg.period(now)),
                    events + [FailedEvent(t.user, now)], Refund(cfg, usage, t.user, t.interactions, now))
  {
    var t, period := tickets[id], cfg.period(now);
    LogGrows(cfg, events, FailedEvent(t.user, now));
    OpenShrinks(tickets, open, id);
    var late' := LateAfter(tickets, late, id, period);
    forall u: UserId, p: Period | NothingLanded(tickets, late', u, p)
      ensures NothingLanded(tickets, late, u, p)
      ensures (u, p) == (t.user, period) ==> t.period == period
    {
      LandedGrows(tickets, late, id, period, u, p);
      if t.period != period {
        assert id in late' && late'[id] == period;
      }
    }
  }

  lemma AuditCompletes(cfg: Config, tickets: Tickets, open: set<JobId>, late: LateReleases, events: seq<Event>,
                       usage: UsageTable, id: JobId, e: Event)
    requires AuditOk(cfg, tickets, open, late, events, usage) && id in open
    requires e.user == tickets[id].user && e.kind.SimulationCompleted?
    ensures AuditOk(cfg, tickets, open - {id}, late, events + [e], usage)
  {
    LogGrows(cfg, events, e);
    OpenShrinks(tickets, open, id);
  }

  lemma AuditOnlySeesCounters(cfg: Config, tickets: Tickets, open: set<JobId>, late: LateReleases, events: seq<Event>,
                              usage: UsageTable, usage': UsageTable)
    requires AuditOk(cfg, tickets, open, late, events, usage)
    requires forall u: UserId, p: Period :: UsageOf(usage', u, p) == UsageOf(usage, u, p)
    ensures AuditOk(cfg, tickets, open, late, events, usage')
  {
  }
}
