/** Every refund that is actually made, and when its clamps matter. */
module RefundTheorems {
  import opened Domain
  import opened UsageService
  import opened WorkerService
  import opened Ledger
  import opened Invariants
  import opened SimulationsApi
  import opened Executions
  import opened Protocol
  import opened SystemInvariant
  import opened QuotaTheorems
  import ClaimTheorem

  // ---- Which refunds a step makes ----

  /** The reservations given back by inspecting `cs`, in order. */
  function ScanReleased(cfg: Config, db: Db, cs: seq<JobId>, worker: WorkerId, now: Time): seq<JobId>
    requires forall c :: c in cs ==> c in db.jobs
    decreases |cs|
  {
    if cs == [] then [] else
    var (db', taken) := Inspect(cfg, db, cs[0], worker, now);
    if taken then [] else
    (if ClaimTheorem.Doomed(cfg, db.jobs[cs[0]], now) then [cs[0]] else [])
        + ScanReleased(cfg, db', cs[1..], worker, now)
  }

  /** The reservations a step gives back, in order. */
  function Released(cfg: Config, s: System, step: Step): seq<JobId> {
    match step
    case CreateFails(id) => if id in s.db.hist.inFlight && id in s.db.hist.tickets then [id] else []
    case DeleteRow(caller, id) => DeleteReleased(s.db, caller, id)
    case FinishJob(w, run, commit) =>
      if WorkerAt(s, w).Busy? && Owns(s.db, WorkerAt(s, w).exec.job, w) && (run.Raises? || commit.MarkedFailed?)
      then [WorkerAt(s, w).exec.job] else []
    case ClaimNext(w) => if WorkerAt(s, w).Busy? then [] else ClaimReleased(cfg, s.db, w, s.now)
    case ClaimBreaks(w, inspected) => if WorkerAt(s, w).Busy? then []
        else BrokenReleased(cfg, s.db, w, s.now, inspected)
    case _ => []
  }

  function DeleteReleased(db: Db, caller: UserId, id: JobId): seq<JobId> {
    if id in db.jobs && db.jobs[id].user == caller && db.jobs[id].status.Pending? then [id] else []
  }

  function ClaimReleased(cfg: Config, db: Db, worker: WorkerId, now: Time): seq<JobId> {
    CandidatesAreRows(cfg, db.jobs, now);
    ScanReleased(cfg, db, Candidates(cfg, db.jobs, now), worker, now)
  }

  function BrokenReleased(cfg: Config, db: Db, worker: WorkerId, now: Time, inspected: nat): seq<JobId> {
    CandidatesAreRows(cfg, db.jobs, now);
    var cs := Candidates(cfg, db.jobs, now);
    ScanReleased(cfg, db, cs[..Min(inspected, |cs|)], worker, now)
  }

  function RefundAll(cfg: Config, tickets: Tickets, usage: UsageTable, ids: seq<JobId>, now: Time)
    : UsageTable
    requires forall id :: id in ids ==> id in tickets
  {
    if ids == [] then usage else
    RefundAll(cfg, tickets, Refund(cfg, usage, tickets[ids[0]].user, tickets[ids[0]].interactions, now), ids[1..], now)
  }

  /** Each refund in turn is covered by the row it is taken from, unless it is
      for an earlier month itself, or some reservation of its user from an
      earlier month was released into this month before it, in this very call
      included. */
  ghost predicate CoveredUnlessLate(cfg: Config, tickets: Tickets, late: LateReleases, usage: UsageTable,
                                    ids: seq<JobId>, now: Time)
    decreases |ids|
  {
    ids == [] || (
      && ids[0] in tickets
      && var t, month := tickets[ids[0]], cfg.period(now);
         && (t.period == month && NothingLanded(tickets, late, t.user, month) ==>
               CoversRefund(usage, t.user, t.interactions, month))
         && CoveredUnlessLate(cfg, tickets, LateAfter(tickets, late, ids[0], month),
                              Refund(cfg, usage, t.user, t.interactions, now), ids[1..], now))
  }

  /** Each refund in turn is covered: no clamp has an effect. */
  ghost predicate AllCovered(cfg: Config, tickets: Tickets, usage: UsageTable, ids: seq<JobId>, now: Time)
    decreases |ids|
  {
    ids == [] || (
      && ids[0] in tickets
      && var t := tickets[ids[0]];
         && CoversRefund(usage, t.user, t.interactions, cfg.period(now))
         && AllCovered(cfg, tickets, Refund(cfg, usage, t.user, t.interactions, now), ids[1..], now))
  }

  ghost predicate StepCovered(cfg: Config, s: System, step: Step) {
    AllCovered(cfg, s.db.hist.tickets, s.db.usage, Released(cfg, s, step), s.now)
  }

  /** `after` is `usage` with the reservations `ids` given back, covered unless late. */
  ghost predicate Explained(cfg: Config, h: History, usage: UsageTable, ids: seq<JobId>, after: UsageTable, now: Time)
  {
    && (forall id :: id in ids ==> id in h.tickets)
    && after == RefundAll(cfg, h.tickets, usage, ids, now)
    && CoveredUnlessLate(cfg, h.tickets, h.late, usage, ids, now)
  }

  ghost predicate HeadCovered(cfg: Config, h: History, usage: UsageTable, t: Ticket, now: Time) {
    t.period == cfg.period(now) && NothingLanded(h.tickets, h.late, t.user, cfg.period(now)) ==>
      CoversRefund(usage, t.user, t.interactions, cfg.period(now))
  }

  lemma ExplainedCons(cfg: Config, h: History, usage: UsageTable, id: JobId, rest: seq<JobId>, h': History,
                      after: UsageTable, now: Time)
    requires id in h.tickets && HeadCovered(cfg, h, usage, h.tickets[id], now)
    requires h'.tickets == h.tickets && h'.late == LateAfter(h.tickets, h.late, id, cfg.period(now))
    requires Explained(cfg, h', Refund(cfg, usage, h.tickets[id].user, h.tickets[id].interactions, now), rest, after,
        now)
    ensures Explained(cfg, h, usage, [id] + rest, after, now)
  {
    var ids := [id] + rest;
    assert ids[0] == id && ids[1..] == rest;
  }

  lemma ExplainedNone(cfg: Config, h: History, usage: UsageTable, now: Time)
    ensures Explained(cfg, h, usage, [], usage, now)
  {
  }

  lemma ExplainedOne(cfg: Config, h: History, usage: UsageTable, id: JobId, after: UsageTable, now: Time)
    requires id in h.tickets && HeadCovered(cfg, h, usage, h.tickets[id], now)
    requires after == Refund(cfg, usage, h.tickets[id].user, h.tickets[id].interactions, now)
    ensures Explained(cfg, h, usage, [id], after, now)
  {
    var h' := NoteRelease(cfg, h, id, now);
    ExplainedNone(cfg, h', after, now);
    ExplainedCons(cfg, h, usage, id, [], h', after, now);
    assert [id] + [] == [id];
  }

  /** The refund of one open job. */
  lemma OneRefund(cfg: Config, db: Db, id: JobId, now: Time)
    requires DbOk(cfg, db, now)
    requires id in db.hist.inFlight || (id in db.jobs && !db.jobs[id].status.Terminal())
    ensures id in db.hist.tickets
    ensures var t := db.hist.tickets[id];
            && (id in db.jobs ==> t.user == db.jobs[id].user && t.interactions == db.jobs[id].params.interactions)
            && HeadCovered(cfg, db.hist, db.usage, t, now)
  {
    assert id in Counted(db);
    if id in db.jobs {
      assert RowMatches(db.hist, id, db.jobs[id]);
    }
    var t := db.hist.tickets[id];
    if t.period == cfg.period(now) && NothingLanded(db.hist.tickets, db.hist.late, t.user, cfg.period(now)) {
      RefundIsCovered(db.hist.tickets, Counted(db), db.hist.late, db.usage, cfg.period(now), id);
    }
  }

  /** Failing one candidate, before the rest of the scan. */
  lemma FailRefunds(cfg: Config, db: Db, id: JobId, code: string, rest: seq<JobId>, after: UsageTable, now: Time)
    requires DbOk(cfg, db, now) && id in db.jobs && !db.jobs[id].status.Terminal()
    requires var db' := FailJob(cfg, db, id, code, now); Explained(cfg, db'.hist, db'.usage, rest, after, now)
    ensures Explained(cfg, db.hist, db.usage, [id] + rest, after, now)
  {
    OneRefund(cfg, db, id, now);
    ExplainedCons(cfg, db.hist, db.usage, id, rest, FailJob(cfg, db, id, code, now).hist, after, now);
  }

  lemma TakingKeepsUsage(cfg: Config, db: Db, id: JobId, worker: WorkerId, now: Time)
    requires id in db.jobs && !ClaimTheorem.Doomed(cfg, db.jobs[id], now)
    ensures var (db', taken) := Inspect(cfg, db, id, worker, now);
            db'.usage == db.usage && db'.hist == db.hist && (!taken ==> db' == db)
  {
  }

  /** The refunds of a scan, complete or broken, are explained. */
  ghost predicate ScanExplained(cfg: Config, db: Db, cs: seq<JobId>, worker: WorkerId, now: Time)
    requires forall c :: c in cs ==> c in db.jobs
  {
    && Explained(cfg, db.hist, db.usage, ScanReleased(cfg, db, cs, worker, now),
         ClaimScan(cfg, db, cs, worker, now).0.usage, now)
    && BrokenScan(cfg, db, cs, worker, now).usage == ClaimScan(cfg, db, cs, worker, now).0.usage
  }

  lemma DoomedFirst(cfg: Config, db: Db, cs: seq<JobId>, worker: WorkerId, now: Time)
    requires DbOk(cfg, db, now) && cs != [] && (forall c :: c in cs ==> c in db.jobs)
    requires ClaimTheorem.Doomed(cfg, db.jobs[cs[0]], now)
    requires var db' := FailJob(cfg, db, cs[0], ClaimTheorem.DoomCode(db.jobs[cs[0]]), now);
             (forall c :: c in cs[1..] ==> c in db'.jobs) && ScanExplained(cfg, db', cs[1..], worker, now)
    ensures ScanExplained(cfg, db, cs, worker, now)
  {
    var id, code := cs[0], ClaimTheorem.DoomCode(db.jobs[cs[0]]);
    var db' := FailJob(cfg, db, id, code, now);
    assert Inspect(cfg, db, id, worker, now) == (db', false);
    FailRefunds(cfg, db, id, code, ScanReleased(cfg, db', cs[1..], worker, now),
        ClaimScan(cfg, db', cs[1..], worker, now).0.usage, now);
  }

  lemma TakenFirst(cfg: Config, db: Db, cs: seq<JobId>, worker: WorkerId, now: Time)
    requires cs != [] && (forall c :: c in cs ==> c in db.jobs)
    requires !ClaimTheorem.Doomed(cfg, db.jobs[cs[0]], now) && Inspect(cfg, db, cs[0], worker, now).1
    ensures ScanExplained(cfg, db, cs, worker, now)
  {
    TakingKeepsUsage(cfg, db, cs[0], worker, now);
    ExplainedNone(cfg, db.hist, db.usage, now);
  }

  lemma PassedFirst(cfg: Config, db: Db, cs: seq<JobId>, worker: WorkerId, now: Time)
    requires cs != [] && (forall c :: c in cs ==> c in db.jobs) && ScanExplained(cfg, db, cs[1..], worker, now)
    requires !ClaimTheorem.Doomed(cfg, db.jobs[cs[0]], now) && !Inspect(cfg, db, cs[0], worker, now).1
    ensures ScanExplained(cfg, db, cs, worker, now)
  {
    TakingKeepsUsage(cfg, db, cs[0], worker, now);
    assert [] + ScanReleased(cfg, db, cs[1..], worker, now) == ScanReleased(cfg, db, cs[1..], worker, now);
  }

  lemma {:induction false} ScanRefunds(cfg: Config, db: Db, cs: seq<JobId>, worker: WorkerId, now: Time)
    requires DbOk(cfg, db, now) && forall c :: c in cs ==> c in db.jobs
    ensures ScanExplained(cfg, db, cs, worker, now)
    decreases |cs|
  {
    if cs == [] {
      ExplainedNone(cfg, db.hist, db.usage, now);
    } else if ClaimTheorem.Doomed(cfg, db.jobs[cs[0]], now) {
      var code := ClaimTheorem.DoomCode(db.jobs[cs[0]]);
      FailKeeps(cfg, db, cs[0], code, now, now);
      ScanRefunds(cfg, FailJob(cfg, db, cs[0], code, now), cs[1..], worker, now);
      DoomedFirst(cfg, db, cs, worker, now);
    } else if Inspect(cfg, db, cs[0], worker, now).1 {
      TakenFirst(cfg, db, cs, worker, now);
    } else {
      ScanRefunds(cfg, db, cs[1..], worker, now);
      PassedFirst(cfg, db, cs, worker, now);
    }
  }

  /** The counters after a step; a reservation is not looked at here. */
  function UsageAfter(cfg: Config, s: System, step: Step): UsageTable {
    if step.ReserveQuota? then s.db.usage else Apply(cfg, s, step).db.usage
  }

  /** What is true of the refunds of any step, `Released` being all of them. */
  ghost predicate RefundsExplained(cfg: Config, s: System, step: Step) {
    Explained(cfg, s.db.hist, s.db.usage, Released(cfg, s, step), UsageAfter(cfg, s, step), s.now)
  }

  lemma DeleteShape(cfg: Config, s: System, caller: UserId, id: JobId)
    ensures Released(cfg, s, DeleteRow(caller, id)) == DeleteReleased(s.db, caller, id)
    ensures UsageAfter(cfg, s, DeleteRow(caller, id)) == Delete(cfg, s.db, caller, id, s.now).0.usage
  {
  }

  lemma BrokenClaimShape(cfg: Config, s: System, w: WorkerId, inspected: nat)
    requires WorkerAt(s, w).Idle?
    ensures Released(cfg, s, ClaimBreaks(w, inspected)) == BrokenReleased(cfg, s.db, w, s.now, inspected)
    ensures UsageAfter(cfg, s, ClaimBreaks(w, inspected)) == BrokenClaim(cfg, s.db, w, s.now, inspected).usage
  {
  }

  lemma BrokenClaimRefunds(cfg: Config, db: Db, worker: WorkerId, now: Time, inspected: nat)
    requires DbOk(cfg, db, now)
    ensures Explained(cfg, db.hist, db.usage, BrokenReleased(cfg, db, worker, now, inspected),
                      BrokenClaim(cfg, db, worker, now, inspected).usage, now)
  {
    CandidatesAreRows(cfg, db.jobs, now);
    var cs := Candidates(cfg, db.jobs, now);
    ScanRefunds(cfg, db, cs[..Min(inspected, |cs|)], worker, now);
  }

  lemma ClaimRefunds(cfg: Config, db: Db, worker: WorkerId, now: Time)
    requires DbOk(cfg, db, now)
    ensures Explained(cfg, db.hist, db.usage, ClaimReleased(cfg, db, worker, now),
        Claim(cfg, db, worker, now).0.usage, now)
  {
    CandidatesAreRows(cfg, db.jobs, now);
    ScanRefunds(cfg, db, Candidates(cfg, db.jobs, now), worker, now);
  }

  lemma ExplainedBy(cfg: Config, s: System, step: Step, ids: seq<JobId>, after: UsageTable)
    requires Explained(cfg, s.db.hist, s.db.usage, ids, after, s.now)
    requires Released(cfg, s, step) == ids && UsageAfter(cfg, s, step) == after
    ensures RefundsExplained(cfg, s, step)
  {
  }

  lemma BusyRefundsNothing(cfg: Config, s: System, step: Step)
    requires (step.ClaimNext? || step.ClaimBreaks?) && WorkerAt(s, step.worker).Busy?
    ensures RefundsExplained(cfg, s, step)
  {
    ExplainedNone(cfg, s.db.hist, s.db.usage, s.now);
  }

  lemma ClaimStepRefunds(cfg: Config, s: System, w: WorkerId)
    requires Inv(cfg, s) && WorkerAt(s, w).Idle?
    ensures RefundsExplained(cfg, s, ClaimNext(w))
  {
    ClaimShape(cfg, s, w);
    ClaimRefunds(cfg, s.db, w, s.now);
  }

  lemma BrokenClaimStepRefunds(cfg: Config, s: System, w: WorkerId, inspected: nat)
    requires Inv(cfg, s) && WorkerAt(s, w).Idle?
    ensures RefundsExplained(cfg, s, ClaimBreaks(w, inspected))
  {
    BrokenClaimRefunds(cfg, s.db, w, s.now, inspected);
    BrokenClaimShape(cfg, s, w, inspected);
    ExplainedBy(cfg, s, ClaimBreaks(w, inspected), BrokenReleased(cfg, s.db, w, s.now, inspected),
                BrokenClaim(cfg, s.db, w, s.now, inspected).usage);
  }

  lemma SingleRefund(cfg: Config, db: Db, id: JobId, after: UsageTable, now: Time)
    requires DbOk(cfg, db, now)
    requires id in db.hist.inFlight || (id in db.jobs && !db.jobs[id].status.Terminal())
    requires id in db.hist.tickets ==>
               after == Refund(cfg, db.usage, db.hist.tickets[id].user, db.hist.tickets[id].interactions, now)
    ensures Explained(cfg, db.hist, db.usage, [id], after, now)
  {
    OneRefund(cfg, db, id, now);
    ExplainedOne(cfg, db.hist, db.usage, id, after, now);
  }

  lemma CreateFailsRefunds(cfg: Config, s: System, id: JobId)
    requires Inv(cfg, s)
    ensures RefundsExplained(cfg, s, CreateFails(id))
  {
    var after := ApplyCreateFails(cfg, s, id).db.usage;
    if id in s.db.hist.inFlight && id in s.db.hist.tickets {
      SingleRefund(cfg, s.db, id, after, s.now);
    } else {
      ExplainedNone(cfg, s.db.hist, s.db.usage, s.now);
    }
  }

  lemma DeleteRefunds(cfg: Config, db: Db, caller: UserId, id: JobId, now: Time)
    requires DbOk(cfg, db, now)
    ensures Explained(cfg, db.hist, db.usage, DeleteReleased(db, caller, id),
        Delete(cfg, db, caller, id, now).0.usage, now)
  {
    if DeleteReleased(db, caller, id) != [] {
      OneRefund(cfg, db, id, now);
      SingleRefund(cfg, db, id, Delete(cfg, db, caller, id, now).0.usage, now);
    } else {
      ExplainedNone(cfg, db.hist, db.usage, now);
    }
  }

  lemma DeleteStepRefunds(cfg: Config, s: System, caller: UserId, id: JobId)
    requires Inv(cfg, s)
    ensures RefundsExplained(cfg, s, DeleteRow(caller, id))
  {
    DeleteRefunds(cfg, s.db, caller, id, s.now);
    DeleteShape(cfg, s, caller, id);
  }

  lemma FinishUsage(cfg: Config, db: Db, id: JobId, user: UserId, n: nat, w: WorkerId, outcome: Outcome,
                    commit: Commit, now: Time)
    ensures Finish(cfg, db, id, user, n, w, outcome, commit, now).0.usage
         == if Owns(db, id, w) && (outcome.EngineFailed? || commit.MarkedFailed?)
             then Refund(cfg, db.usage, user, n, now) else db.usage
  {
  }

  lemma FinishStepRefunds(cfg: Config, s: System, w: WorkerId, run: EngineRun, commit: Commit)
    requires Inv(cfg, s)
    ensures RefundsExplained(cfg, s, FinishJob(w, run, commit))
  {
    var after := ApplyFinish(cfg, s, w, run, commit).db.usage;
    if WorkerAt(s, w).Busy? {
      var e := WorkerAt(s, w).exec;
      FinishUsage(cfg, s.db, e.job, e.user, e.params.interactions, w, OutcomeOf(cfg, e, run), commit, s.now);
      if Released(cfg, s, FinishJob(w, run, commit)) != [] {
        FinishOwnRow(cfg, s, w, e, run);
        OneRefund(cfg, s.db, e.job, s.now);
        SingleRefund(cfg, s.db, e.job, after, s.now);
      } else {
        ExplainedNone(cfg, s.db.hist, s.db.usage, s.now);
      }
    } else {
      ExplainedNone(cfg, s.db.hist, s.db.usage, s.now);
    }
  }

  lemma NoRefunds(cfg: Config, s: System, step: Step)
    requires !step.ClaimNext? && !step.ClaimBreaks? && !step.CreateFails? && !step.DeleteRow? && !step.FinishJob?
    ensures RefundsExplained(cfg, s, step)
  {
    assert step.ReserveQuota? || Apply(cfg, s, step).db.usage == s.db.usage;
    ExplainedNone(cfg, s.db.hist, s.db.usage, s.now);
  }

  lemma StepRefunds(cfg: Config, s: System, step: Step)
    requires Inv(cfg, s)
    ensures RefundsExplained(cfg, s, step)
  {
    if (step.ClaimNext? || step.ClaimBreaks?) && WorkerAt(s, step.worker).Busy? {
      BusyRefundsNothing(cfg, s, step);
    } else if step.ClaimNext? {
      ClaimStepRefunds(cfg, s, step.worker);
    } else if step.ClaimBreaks? {
      BrokenClaimStepRefunds(cfg, s, step.worker, step.inspected);
    } else if step.CreateFails? {
      CreateFailsRefunds(cfg, s, step.id);
    } else if step.DeleteRow? {
      DeleteStepRefunds(cfg, s, step.caller, step.id);
    } else if step.FinishJob? {
      FinishStepRefunds(cfg, s, step.worker, step.run, step.commit);
    } else {
      NoRefunds(cfg, s, step);
    }
  }

  /** The clamps of `refund_usage` have no effect on any refund any step makes,
      the later ones of one claim call included, unless a reservation of an
      earlier month is released by it or was before it; and a step changes the
      counters by these refunds and nothing else, except for reserving. */
  lemma RefundsNeverClamp(cfg: Config, s: System, step: Step)
    requires Reachable(cfg, s) && MonotonePeriod(cfg)
    ensures RefundsExplained(cfg, s, step)
  {
    ReachableInv(cfg, s);
    StepRefunds(cfg, s, step);
  }

  // ---- Clamps and months ----

  /** Every refund of every step of the run is covered. */
  ghost predicate RunCovered(cfg: Config, start: System, steps: seq<Step>) {
    steps == [] || (
      && RunCovered(cfg, start, steps[..|steps| - 1])
      && StepCovered(cfg, Run(cfg, start, steps[..|steps| - 1]), steps[|steps| - 1]))
  }

  /** The row after a refund without clamps, negative if need be. */
  function ExactRefund(usage: UsageTable, user: UserId, n: nat, period: Period)
    : UsageTable
  {
    var row := UsageOf(usage, user, period);
    usage[(user, period) := Usage(row.requests - 1, row.interactions - n)]
  }

  function ExactRefundAll(cfg: Config, tickets: Tickets, usage: UsageTable, ids: seq<JobId>, now: Time)
    : UsageTable
    requires forall id :: id in ids ==> id in tickets
    decreases |ids|
  {
    if ids == [] then usage else
    var t := tickets[ids[0]];
    ExactRefundAll(cfg, tickets, ExactRefund(usage, t.user, t.interactions, cfg.period(now)), ids[1..], now)
  }

  /** Covered refunds are the same with and without clamps. */
  lemma {:induction false} CoveredIsExact(cfg: Config, tickets: Tickets, usage: UsageTable, ids: seq<JobId>,
                                          now: Time)
    requires AllCovered(cfg, tickets, usage, ids, now) && forall id :: id in ids ==> id in tickets
    ensures RefundAll(cfg, tickets, usage, ids, now) == ExactRefundAll(cfg, tickets, usage, ids, now)
    decreases |ids|
  {
    if ids != [] {
      var t := tickets[ids[0]];
      assert Refund(cfg, usage, t.user, t.interactions, now)
          == ExactRefund(usage, t.user, t.interactions, cfg.period(now));
      CoveredIsExact(cfg, tickets, Refund(cfg, usage, t.user, t.interactions, now), ids[1..], now);
    }
  }

  lemma {:induction false} NothingLateMeansCovered(cfg: Config, tickets: Tickets, usage: UsageTable,
                                                   ids: seq<JobId>, now: Time)
    requires CoveredUnlessLate(cfg, tickets, map[], usage, ids, now)
    requires forall id :: id in tickets ==> tickets[id].period == cfg.period(now)
    ensures AllCovered(cfg, tickets, usage, ids, now)
    decreases |ids|
  {
    if ids != [] {
      var t := tickets[ids[0]];
      assert LateAfter(tickets, map[], ids[0], cfg.period(now)) == map[];
      NothingLateMeansCovered(cfg, tickets, Refund(cfg, usage, t.user, t.interactions, now), ids[1..], now);
    }
  }

  lemma StepCoveredInOneMonth(cfg: Config, s: System, step: Step)
    requires Inv(cfg, s) && OneMonth(s.db, cfg.period(s.now))
    ensures StepCovered(cfg, s, step)
  {
    StepRefunds(cfg, s, step);
    NothingLateMeansCovered(cfg, s.db.hist.tickets, s.db.usage, Released(cfg, s, step), s.now);
  }

  /** In a run within one month no clamp ever has an effect. */
  lemma {:induction false} OneMonthRunIsCovered(cfg: Config, start: System, steps: seq<Step>)
    requires Initial(start) && MonotonePeriod(cfg)
    requires cfg.period(Run(cfg, start, steps).now) == cfg.period(start.now)
    ensures RunCovered(cfg, start, steps)
    decreases |steps|
  {
    if steps != [] {
      var before := steps[..|steps| - 1];
      StillThisMonth(cfg, start, steps);
      OneMonthRunIsCovered(cfg, start, before);
      RunWithinMonth(cfg, start, before);
      InitialInv(cfg, start);
      RunKeepsInv(cfg, start, before);
      StepCoveredInOneMonth(cfg, Run(cfg, start, before), steps[|steps| - 1]);
    }
  }

  lemma StillThisMonth(cfg: Config, start: System, steps: seq<Step>)
    requires MonotonePeriod(cfg) && steps != [] && cfg.period(Run(cfg, start, steps).now) == cfg.period(start.now)
    ensures cfg.period(Run(cfg, start, steps[..|steps| - 1]).now) == cfg.period(start.now)
  {
    var mid := Run(cfg, start, steps[..|steps| - 1]);
    ClockOnlyAdvances(cfg, start, steps[..|steps| - 1]);
    ClockOnlyAdvances(cfg, mid, [steps[|steps| - 1]]);
    RunOne(cfg, mid, steps[|steps| - 1]);
    assert cfg.period(start.now) <= cfg.period(mid.now) <= cfg.period(Run(cfg, start, steps).now);
  }

  /** One request of `user` fits the plan. */
  predicate CanReserve(s: System, user: UserId) {
    user in s.db.users && Overflow(PlanOf(s.db.users[user]), Usage(0, 0), 1).None?
    && PlanOf(s.db.users[user]).maxInteractionsPerRequest >= 1
  }

  /** A reservation given up in the next month, whose row does not exist. */
  lemma NextMonthUncovered(cfg: Config, start: System, user: UserId, t: Time)
    requires Initial(start) && CanReserve(start, user) && t >= start.now && cfg.period(t) != cfg.period(start.now)
    ensures !RunCovered(cfg, start, [ReserveQuota(7, user, 1), Tick(t), CreateFails(7)])
  {
    var reserve, tick, fail := ReserveQuota(7, user, 1), Tick(t), CreateFails(7);
    RunOne(cfg, start, reserve);
    RunMore(cfg, start, [reserve], tick);
    var s := Run(cfg, start, [reserve, tick]);
    assert [reserve] + [tick] == [reserve, tick];
    assert s.db.hist.tickets[7] == Ticket(user, 1, cfg.period(start.now)) && s.db.hist.inFlight == {7} && s.now == t;
    assert (user, cfg.period(t)) !in s.db.usage;
    assert Released(cfg, s, fail) == [7];
    assert !StepCovered(cfg, s, fail);
    assert [reserve, tick, fail][..2] == [reserve, tick];
  }

  /** The clamps are never needed, whatever is run from `start`, exactly when
      the month of `start` never ends. */
  lemma ClampsAreIdleIffMonthNeverEnds(cfg: Config, start: System, user: UserId)
    requires Initial(start) && MonotonePeriod(cfg) && CanReserve(start, user)
    ensures (forall steps: seq<Step> :: RunCovered(cfg, start, steps))
       <==> (forall t: Time :: t >= start.now ==> cfg.period(t) == cfg.period(start.now))
  {
    if t: Time :| t >= start.now && cfg.period(t) != cfg.period(start.now) {
      NextMonthUncovered(cfg, start, user, t);
    } else {
      forall steps: seq<Step> ensures RunCovered(cfg, start, steps) {
        ClockOnlyAdvances(cfg, start, steps);
        OneMonthRunIsCovered(cfg, start, steps);
      }
    }
  }
}
