/** The quota ledger: which reservations a user's monthly counters stand for. */
module Ledger {
  import opened Domain
  import opened FiniteSums
  import opened UsageService

  /** The interactions of those reservations among `ids` that `user` was charged in `period`. */
  ghost function Charges(tickets: Tickets, ids: set<JobId>, user: UserId, period: Period): map<nat, int> {
    map id | id in ids && id in tickets && tickets[id].user == user && tickets[id].period == period ::
        tickets[id].interactions
  }

  /** One request each, and their interactions added up. */
  ghost function Weigh(charges: map<nat, int>): Usage {
    Usage(|charges|, Sum(charges))
  }

  ghost function Held(tickets: Tickets, ids: set<JobId>, user: UserId, period: Period): Usage {
    Weigh(Charges(tickets, ids, user, period))
  }

  /** No reservation of the user from another month was released into `period`. */
  ghost predicate NothingLanded(tickets: Tickets, late: LateReleases, user: UserId, period: Period) {
    forall id :: id in late && id in tickets && tickets[id].user == user ==> late[id] != period
  }

  /** The counters of a user and month are exactly the reservations `ids` charged there. */
  ghost predicate Exact(tickets: Tickets, ids: set<JobId>, usage: UsageTable, user: UserId, period: Period) {
    UsageOf(usage, user, period) == Held(tickets, ids, user, period)
  }

  /** Unless a reservation of an earlier month was released into `period`, the
      counters of `period` are exactly the reservations still charged to it plus
      those of it that were released in a later month. */
  ghost predicate Balanced(tickets: Tickets, counted: set<JobId>, late: LateReleases, usage: UsageTable) {
    forall u: UserId, p: Period ::
      NothingLanded(tickets, late, u, p) ==> Exact(tickets, counted + late.Keys, usage, u, p)
  }

  ghost predicate LedgerOk(tickets: Tickets, counted: set<JobId>, late: LateReleases, usage: UsageTable,
                           period: Period)
  {
    && counted <= tickets.Keys && late.Keys <= tickets.Keys && counted !! late.Keys
    && (forall id :: id in tickets ==> tickets[id].period <= period)
    && (forall id :: id in late ==> tickets[id].period < late[id] <= period)
    && Balanced(tickets, counted, late, usage)
  }

  ghost predicate WithinQuota(users: map<UserId, User>, usage: UsageTable) {
    forall u: UserId, p: Period :: (u, p) in usage ==>
      && u in users
      && 0 <= usage[(u, p)].requests <= PlanOf(users[u]).monthlyRequests
      && 0 <= usage[(u, p)].interactions <= PlanOf(users[u]).monthlyInteractions
  }

  ghost predicate Conserved(tickets: Tickets, counted: set<JobId>, usage: UsageTable, user: UserId) {
    forall p: Period :: Exact(tickets, counted, usage, user, p)
  }

  // ---- Reserving ----

  lemma ChargesGrow(tickets: Tickets, ids: set<JobId>, id: JobId, t: Ticket, u: UserId, p: Period)
    requires id !in tickets && ids <= tickets.Keys
    ensures var before := Charges(tickets, ids, u, p);
            Charges(tickets[id := t], ids + {id}, u, p)
              == (if (u, p) == (t.user, t.period) then before[id := t.interactions] else before) && id !in before
  {
  }

  lemma HeldGrows(tickets: Tickets, ids: set<JobId>, id: JobId, t: Ticket, u: UserId, p: Period)
    requires id !in tickets && ids <= tickets.Keys
    ensures var before, after := Held(tickets, ids, u, p), Held(tickets[id := t], ids + {id}, u, p);
            after == if (u, p) == (t.user, t.period)
                     then Usage(before.requests + 1, before.interactions + t.interactions) else before
  {
    ChargesGrow(tickets, ids, id, t, u, p);
    WeighOneMore(Charges(tickets, ids, u, p), id, t.interactions);
  }

  lemma WeighOneMore(charges: map<nat, int>, id: nat, n: int)
    requires id !in charges
    ensures Weigh(charges[id := n]) == Usage(Weigh(charges).requests + 1, Weigh(charges).interactions + n)
  {
    SumPut(charges, id, n);
  }

  lemma LandedFrame(tickets: Tickets, late: LateReleases, id: JobId, t: Ticket, u: UserId, p: Period)
    requires id !in tickets && late.Keys <= tickets.Keys
    ensures NothingLanded(tickets[id := t], late, u, p) <==> NothingLanded(tickets, late, u, p)
  {
    assert forall x :: x in late ==> x in tickets && x != id;
  }

  /** The table after a charge. */
  function Charge(usage: UsageTable, t: Ticket): UsageTable {
    var row := UsageOf(usage, t.user, t.period);
    usage[(t.user, t.period) := Usage(row.requests + 1, row.interactions + t.interactions)]
  }

  lemma ChargeAt(usage: UsageTable, t: Ticket, u: UserId, p: Period)
    ensures var row := UsageOf(usage, u, p);
            UsageOf(Charge(usage, t), u, p)
              == if (u, p) == (t.user, t.period) then Usage(row.requests + 1, row.interactions + t.interactions)
                 else row
  {
  }

  /** The counters of one user and month after a reservation. */
  lemma ReserveOne(tickets: Tickets, ids: set<JobId>, usage: UsageTable, id: JobId, t: Ticket, u: UserId, p: Period)
    requires id !in tickets && ids <= tickets.Keys && Exact(tickets, ids, usage, u, p)
    ensures Exact(tickets[id := t], ids + {id}, Charge(usage, t), u, p)
  {
    HeldGrows(tickets, ids, id, t, u, p);
    ChargeAt(usage, t, u, p);
  }

  lemma LedgerReserves(tickets: Tickets, counted: set<JobId>, late: LateReleases, usage: UsageTable, period: Period,
                       id: JobId, user: UserId, n: nat)
    requires LedgerOk(tickets, counted, late, usage, period) && id !in tickets
    ensures LedgerOk(tickets[id := Ticket(user, n, period)], counted + {id}, late,
                     Charge(usage, Ticket(user, n, period)), period)
  {
    BalancedReserves(tickets, counted, late, usage, id, Ticket(user, n, period));
  }

  lemma BalancedReserves(tickets: Tickets, counted: set<JobId>, late: LateReleases, usage: UsageTable, id: JobId,
                         t: Ticket)
    requires Balanced(tickets, counted, late, usage) && id !in tickets
    requires counted <= tickets.Keys && late.Keys <= tickets.Keys
    ensures Balanced(tickets[id := t], counted + {id}, late, Charge(usage, t))
  {
    var all, tickets', usage' := counted + late.Keys, tickets[id := t], Charge(usage, t);
    assert counted + {id} + late.Keys == all + {id};
    forall u: UserId, p: Period | NothingLanded(tickets', late, u, p)
      ensures Exact(tickets', all + {id}, usage', u, p)
    {
      LandedFrame(tickets, late, id, t, u, p);
      ReserveOne(tickets, all, usage, id, t, u, p);
    }
  }

  // ---- Releasing ----

  lemma HeldShrinks(tickets: Tickets, ids: set<JobId>, id: JobId, u: UserId, p: Period)
    requires id in tickets && id in ids
    ensures var before, after := Held(tickets, ids, u, p), Held(tickets, ids - {id}, u, p);
            && before.requests >= 0
            && (if (u, p) == (tickets[id].user, tickets[id].period)
                then before.requests >= 1 && before.interactions >= tickets[id].interactions
                     && after == Usage(before.requests - 1, before.interactions - tickets[id].interactions)
                else after == before)
  {
    var cs, cs' := Charges(tickets, ids, u, p), Charges(tickets, ids - {id}, u, p);
    if (u, p) == (tickets[id].user, tickets[id].period) {
      assert cs' == cs - {id};
      SumTake(cs, id);
      assert |cs| == |cs'| + 1 by { assert cs.Keys == cs'.Keys + {id}; }
      SumNonNegative(cs');
    } else {
      assert cs' == cs;
    }
  }

  /** The clamps of a refund do nothing: the counters hold at least what is given back. */
  ghost predicate CoversRefund(usage: UsageTable, user: UserId, n: nat, period: Period) {
    && (user, period) in usage
    && usage[(user, period)].requests >= 1 && usage[(user, period)].interactions >= n
  }

  lemma RefundIsCovered(tickets: Tickets, counted: set<JobId>, late: LateReleases, usage: UsageTable, period: Period,
                        id: JobId)
    requires LedgerOk(tickets, counted, late, usage, period) && id in counted
    requires tickets[id].period == period && NothingLanded(tickets, late, tickets[id].user, period)
    ensures CoversRefund(usage, tickets[id].user, tickets[id].interactions, period)
  {
    HeldShrinks(tickets, counted + late.Keys, id, tickets[id].user, period);
    assert Exact(tickets, counted + late.Keys, usage, tickets[id].user, period);
  }

  lemma RefundAt(cfg: Config, usage: UsageTable, user: UserId, n: nat, now: Time, u: UserId, p: Period)
    ensures (u, p) != (user, cfg.period(now)) ==>
              UsageOf(Refund(cfg, usage, user, n, now), u, p) == UsageOf(usage, u, p)
    ensures (u, p) == (user, cfg.period(now)) && CoversRefund(usage, u, n, p) ==>
              var row := UsageOf(usage, u, p);
              UsageOf(Refund(cfg, usage, user, n, now), u, p) == Usage(row.requests - 1, row.interactions - n)
  {
  }

  /** The counters of one user and month after a release in the month of the charge. */
  lemma ReleaseOne(cfg: Config, tickets: Tickets, ids: set<JobId>, usage: UsageTable, id: JobId, now: Time, u: UserId,
                   p: Period)
    requires id in tickets && id in ids && tickets[id].period == cfg.period(now) && Exact(tickets, ids, usage, u, p)
    requires (u, p) == (tickets[id].user, tickets[id].period) ==> CoversRefund(usage, u, tickets[id].interactions, p)
    ensures Exact(tickets, ids - {id}, Refund(cfg, usage, tickets[id].user, tickets[id].interactions, now), u, p)
  {
    HeldShrinks(tickets, ids, id, u, p);
    RefundAt(cfg, usage, tickets[id].user, tickets[id].interactions, now, u, p);
  }

  /** In another month no row changes but the one it lands in. */
  lemma LateReleaseOne(cfg: Config, tickets: Tickets, ids: set<JobId>, usage: UsageTable, id: JobId,
                       late: LateReleases, now: Time, u: UserId, p: Period)
    requires id in tickets && Exact(tickets, ids, usage, u, p)
    requires NothingLanded(tickets, late[id := cfg.period(now)], u, p)
    ensures Exact(tickets, ids, Refund(cfg, usage, tickets[id].user, tickets[id].interactions, now), u, p)
  {
    assert id in late[id := cfg.period(now)];
    RefundAt(cfg, usage, tickets[id].user, tickets[id].interactions, now, u, p);
  }

  /** What had not landed after a release had not landed before it. */
  lemma LandedGrows(tickets: Tickets, late: LateReleases, id: JobId, period: Period, u: UserId, p: Period)
    requires id in tickets && id !in late && NothingLanded(tickets, LateAfter(tickets, late, id, period), u, p)
    ensures NothingLanded(tickets, late, u, p)
  {
    var late' := LateAfter(tickets, late, id, period);
    forall x | x in late ensures x in late' && late'[x] == late[x] {
    }
  }

  lemma LedgerReleases(cfg: Config, tickets: Tickets, counted: set<JobId>, late: LateReleases, usage: UsageTable,
                       id: JobId, now: Time)
    requires LedgerOk(tickets, counted, late, usage, cfg.period(now)) && id in counted
    ensures var t := tickets[id];
            LedgerOk(tickets, counted - {id}, LateAfter(tickets, late, id, cfg.period(now)),
                     Refund(cfg, usage, t.user, t.interactions, now), cfg.period(now))
  {
    var t, period := tickets[id], cfg.period(now);
    var late', all := LateAfter(tickets, late, id, period), counted + late.Keys;
    var rest := counted - {id} + late'.Keys;
    assert rest == if t.period == period then all - {id} else all;
    forall u: UserId, p: Period | NothingLanded(tickets, late', u, p)
      ensures Exact(tickets, rest, Refund(cfg, usage, t.user, t.interactions, now), u, p)
    {
      LandedGrows(tickets, late, id, period, u, p);
      if t.period != period {
        LateReleaseOne(cfg, tickets, all, usage, id, late, now, u, p);
      } else {
        if (u, p) == (t.user, period) {
          RefundIsCovered(tickets, counted, late, usage, period, id);
        }
        ReleaseOne(cfg, tickets, all, usage, id, now, u, p);
      }
    }
  }

  // ---- Other changes ----

  lemma LedgerOnlySeesCounters(tickets: Tickets, counted: set<JobId>, late: LateReleases, usage: UsageTable,
                               usage': UsageTable, period: Period)
    requires LedgerOk(tickets, counted, late, usage, period)
    requires forall u: UserId, p: Period :: UsageOf(usage', u, p) == UsageOf(usage, u, p)
    ensures LedgerOk(tickets, counted, late, usage', period)
  {
  }

  lemma RefundStaysWithinQuota(cfg: Config, users: map<UserId, User>, usage: UsageTable, user: UserId, n: nat,
                               now: Time)
    requires WithinQuota(users, usage)
    ensures WithinQuota(users, Refund(cfg, usage, user, n, now))
  {
  }

  // ---- When the books balance ----

  lemma {:induction false} EarliestLate(tickets: Tickets, ids: set<JobId>) returns (id: JobId)
    requires ids != {} && ids <= tickets.Keys
    ensures id in ids && forall x :: x in ids ==> tickets[id].period <= tickets[x].period
    decreases |ids|
  {
    var first :| first in ids;
    var rest := ids - {first};
    assert ids == rest + {first};
    id := first;
    if rest != {} {
      var other := EarliestLate(tickets, rest);
      if tickets[other].period < tickets[first].period {
        id := other;
      }
    }
  }

  lemma NothingLateIsExact(tickets: Tickets, counted: set<JobId>, late: LateReleases, usage: UsageTable, user: UserId,
                           p: Period)
    requires Balanced(tickets, counted, late, usage) && late.Keys <= tickets.Keys
    requires forall id :: id in late ==> tickets[id].user != user
    ensures Exact(tickets, counted, usage, user, p)
  {
    assert NothingLanded(tickets, late, user, p);
    assert Charges(tickets, counted + late.Keys, user, p) == Charges(tickets, counted, user, p);
  }

  /** In the month of the user's oldest late reservation nothing landed, and it still counts that one. */
  lemma OldestLateIsStillCharged(tickets: Tickets, counted: set<JobId>, late: LateReleases, usage: UsageTable,
                                 period: Period, id: JobId)
    requires LedgerOk(tickets, counted, late, usage, period) && id in late
    requires forall x :: x in late && tickets[x].user == tickets[id].user ==> tickets[id].period <= tickets[x].period
    ensures !Exact(tickets, counted, usage, tickets[id].user, tickets[id].period)
  {
    var user, p := tickets[id].user, tickets[id].period;
    assert NothingLanded(tickets, late, user, p);
    assert Exact(tickets, counted + late.Keys, usage, user, p);
    HeldMore(tickets, counted, counted + late.Keys, id);
  }

  lemma HeldMore(tickets: Tickets, ids: set<JobId>, more: set<JobId>, id: JobId)
    requires ids <= more && id in more && id !in ids && id in tickets
    ensures Held(tickets, ids, tickets[id].user, tickets[id].period).requests
          < Held(tickets, more, tickets[id].user, tickets[id].period).requests
  {
    var user, p := tickets[id].user, tickets[id].period;
    var some, all := Charges(tickets, ids, user, p), Charges(tickets, more, user, p);
    assert some.Keys + {id} <= all.Keys && id !in some.Keys;
    SubsetSize(some.Keys + {id}, all.Keys);
  }

  /** A user's counters equal the reservations they should stand for exactly
      when none of the user's reservations was released in a later month. */
  lemma ConservedIffNothingLate(tickets: Tickets, counted: set<JobId>, late: LateReleases, usage: UsageTable,
                                period: Period, user: UserId)
    requires LedgerOk(tickets, counted, late, usage, period)
    ensures Conserved(tickets, counted, usage, user) <==> forall id :: id in late ==> tickets[id].user != user
  {
    if forall id :: id in late ==> tickets[id].user != user {
      forall p: Period ensures Exact(tickets, counted, usage, user, p) {
        NothingLateIsExact(tickets, counted, late, usage, user, p);
      }
    } else {
      var mine := set id | id in late && tickets[id].user == user;
      var some :| some in late && tickets[some].user == user;
      assert some in mine;
      var id := EarliestLate(tickets, mine);
      assert forall x :: x in late && tickets[x].user == user ==> x in mine;
      OldestLateIsStillCharged(tickets, counted, late, usage, period, id);
    }
  }
}
