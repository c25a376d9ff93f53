/** What the quota counters and the audit log amount to, in every reachable state. */
module QuotaTheorems {
  import opened Domain
  import opened UsageService
  import opened WorkerService
  import opened Ledger
  import opened AuditLog
  import opened Invariants
  import opened Protocol
  import opened Executions
  import opened SystemInvariant
  import ClaimTheorem

  /** Whose reservations were ever released in a later month. */
  predicate HasLate(db: Db, user: UserId) {
    exists id :: id in db.hist.late && id in db.hist.tickets && db.hist.tickets[id].user == user
  }

  /** Conservation: a user's counters of every month equal the sum over the
      user's reservations of that month that are in flight, pending, running,
      completed, or completed and since removed; exactly when no reservation of
      the user was ever released in a later month than it was charged. */
  lemma CountersAreConserved(cfg: Config, s: System, user: UserId)
    requires Reachable(cfg, s) && MonotonePeriod(cfg)
    ensures Conserved(s.db.hist.tickets, Counted(s.db), s.db.usage, user) <==> !HasLate(s.db, user)
  {
    ReachableInv(cfg, s);
    ConservedIffNothingLate(s.db.hist.tickets, Counted(s.db), s.db.hist.late, s.db.usage, cfg.period(s.now), user);
  }

  /** Month by month: unless a reservation of an earlier month was released into
      it, the counters of a month equal its reservations that are still charged
      and those of it that were released later. Only a month that lost or gained
      by a late release is off. */
  lemma MonthIsExactUnlessLanded(cfg: Config, s: System, user: UserId, month: Period)
    requires Reachable(cfg, s) && MonotonePeriod(cfg)
    requires NothingLanded(s.db.hist.tickets, s.db.hist.late, user, month)
    ensures UsageOf(s.db.usage, user, month)
         == Held(s.db.hist.tickets, Counted(s.db) + s.db.hist.late.Keys, user, month)
  {
    ReachableInv(cfg, s);
  }

  /** Whatever is interleaved, and whatever month a refund lands in, every
      counter stays between zero and the plan's limit. */
  lemma CountersStayWithinPlan(cfg: Config, s: System, user: UserId, period: Period)
    requires Reachable(cfg, s) && MonotonePeriod(cfg) && user in s.db.users
    ensures var row, plan := UsageOf(s.db.usage, user, period), PlanOf(s.db.users[user]);
            0 <= row.requests <= plan.monthlyRequests && 0 <= row.interactions <= plan.monthlyInteractions
    ensures (user, period) in s.db.usage ==>
              var row := s.db.usage[(user, period)];
              match s.db.users[user].plan
              case Some(p) => 0 <= row.requests <= p.monthlyRequests && 0 <= row.interactions <= p.monthlyInteractions
              case None => 0 <= row.requests <= 100 && 0 <= row.interactions <= 10000
  {
    ReachableInv(cfg, s);
  }

  /** One outcome per reservation, and the log alone rebuilds every request
      counter; in a month into which nothing was released late the counter is
      plainly requests minus failures. */
  lemma LogAccountsForEverything(cfg: Config, s: System, user: UserId, period: Period)
    requires Reachable(cfg, s) && MonotonePeriod(cfg)
    ensures CountOf(s.db.events, user, SimulationRequest)
         == CountOf(s.db.events, user, SimulationCompleted) + CountOf(s.db.events, user, SimulationFailed)
            + |OpenOf(s.db.hist.tickets, Open(s.db), user)|
    ensures UsageOf(s.db.usage, user, period).requests == Replay(cfg, s.db.events, user, period)
    ensures NothingLanded(s.db.hist.tickets, s.db.hist.late, user, period) ==>
              UsageOf(s.db.usage, user, period).requests
                == CountIn(cfg, s.db.events, user, SimulationRequest, period)
                   - CountIn(cfg, s.db.events, user, SimulationFailed, period)
  {
    ReachableInv(cfg, s);
  }

  // ---- Within one month nothing is late ----

  ghost predicate OneMonth(db: Db, month: Period) {
    db.hist.late == map[] && forall id :: id in db.hist.tickets ==> db.hist.tickets[id].period == month
  }

  lemma InspectWithinMonth(cfg: Config, db: Db, id: JobId, worker: WorkerId, now: Time)
    requires OneMonth(db, cfg.period(now)) && id in db.jobs
    ensures OneMonth(Inspect(cfg, db, id, worker, now).0, cfg.period(now))
  {
  }

  lemma {:induction false} ScanWithinMonth(cfg: Config, db: Db, cs: seq<JobId>, worker: WorkerId, now: Time)
    requires OneMonth(db, cfg.period(now)) && forall c :: c in cs ==> c in db.jobs
    ensures OneMonth(ClaimScan(cfg, db, cs, worker, now).0, cfg.period(now))
    decreases |cs|
  {
    if cs != [] {
      InspectWithinMonth(cfg, db, cs[0], worker, now);
      var (db', taken) := Inspect(cfg, db, cs[0], worker, now);
      if !taken {
        ScanWithinMonth(cfg, db', cs[1..], worker, now);
      }
    }
  }

  lemma ReleaseWithinMonth(cfg: Config, db: Db, id: JobId, user: UserId, n: nat, now: Time)
    requires OneMonth(db, cfg.period(now))
    ensures OneMonth(Release(cfg, db, id, user, n, now), cfg.period(now))
  {
  }

  lemma ClaimWithinMonth(cfg: Config, db: Db, worker: WorkerId, now: Time, inspected: nat)
    requires OneMonth(db, cfg.period(now))
    ensures OneMonth(Claim(cfg, db, worker, now).0, cfg.period(now))
    ensures OneMonth(BrokenClaim(cfg, db, worker, now, inspected), cfg.period(now))
  {
    CandidatesAreRows(cfg, db.jobs, now);
    var cs := Candidates(cfg, db.jobs, now);
    ScanWithinMonth(cfg, db, cs, worker, now);
    var k := ClaimTheorem.BrokenClaimMeetsSpecification(cfg, db, worker, now, inspected);
    ScanWithinMonth(cfg, db, cs[..k], worker, now);
  }

  lemma ClaimStepWithinMonth(cfg: Config, s: System, step: Step)
    requires OneMonth(s.db, cfg.period(s.now)) && (step.ClaimNext? || step.ClaimBreaks?)
    ensures OneMonth(Apply(cfg, s, step).db, cfg.period(s.now))
  {
    ClaimWithinMonth(cfg, s.db, step.worker, s.now, if step.ClaimBreaks? then step.inspected else 0);
    if step.ClaimNext? {
      ClaimShape(cfg, s, step.worker);
    }
  }

  lemma DeleteWithinMonth(cfg: Config, s: System, step: Step)
    requires OneMonth(s.db, cfg.period(s.now)) && step.DeleteRow?
    ensures OneMonth(Apply(cfg, s, step).db, cfg.period(s.now))
  {
    DeleteRowIs(cfg, s, step);
    if step.id in s.db.jobs {
      ReleaseWithinMonth(cfg, s.db, step.id, step.caller, s.db.jobs[step.id].params.interactions, s.now);
    }
  }

  lemma SubmitWithinMonth(cfg: Config, s: System, step: Step)
    requires OneMonth(s.db, cfg.period(s.now)) && (step.ReserveQuota? || step.CreateRow? || step.CreateFails?)
    ensures OneMonth(Apply(cfg, s, step).db, cfg.period(s.now))
  {
  }

  lemma StepWithinMonth(cfg: Config, s: System, step: Step)
    requires OneMonth(s.db, cfg.period(s.now))
    ensures OneMonth(Apply(cfg, s, step).db, cfg.period(s.now))
  {
    if step.ClaimNext? || step.ClaimBreaks? {
      ClaimStepWithinMonth(cfg, s, step);
    } else if step.DeleteRow? {
      DeleteWithinMonth(cfg, s, step);
    } else if step.ReserveQuota? || step.CreateRow? || step.CreateFails? {
      SubmitWithinMonth(cfg, s, step);
    } else if step.FinishJob? {
      FinishWithinMonth(cfg, s, step);
    } else {
      OtherStepsWithinMonth(cfg, s, step);
    }
  }

  lemma OutcomeWithinMonth(cfg: Config, db: Db, id: JobId, user: UserId, n: nat, w: WorkerId, outcome: Outcome,
                           commit: Commit, now: Time)
    requires OneMonth(db, cfg.period(now))
    ensures OneMonth(Finish(cfg, db, id, user, n, w, outcome, commit, now).0, cfg.period(now))
  {
  }

  lemma FinishWithinMonth(cfg: Config, s: System, step: Step)
    requires OneMonth(s.db, cfg.period(s.now)) && step.FinishJob?
    ensures OneMonth(Apply(cfg, s, step).db, cfg.period(s.now))
  {
    FinishJobIs(cfg, s, step);
    if WorkerAt(s, step.worker).Busy? {
      var e := WorkerAt(s, step.worker).exec;
      OutcomeWithinMonth(cfg, s.db, e.job, e.user, e.params.interactions, step.worker, OutcomeOf(cfg, e, step.run),
          step.commit, s.now);
    }
  }

  lemma OtherStepsWithinMonth(cfg: Config, s: System, step: Step)
    requires OneMonth(s.db, cfg.period(s.now)) && !step.ClaimNext? && !step.ClaimBreaks? && !step.DeleteRow?
    requires !step.ReserveQuota? && !step.CreateRow? && !step.CreateFails? && !step.FinishJob?
    ensures OneMonth(Apply(cfg, s, step).db, cfg.period(s.now))
  {
  }

  lemma {:induction false} ClockOnlyAdvances(cfg: Config, s: System, steps: seq<Step>)
    ensures s.now <= Run(cfg, s, steps).now
    decreases |steps|
  {
    if steps != [] {
      ClockOnlyAdvances(cfg, s, steps[..|steps| - 1]);
    }
  }

  lemma {:induction false} RunWithinMonth(cfg: Config, start: System, steps: seq<Step>)
    requires Initial(start) && MonotonePeriod(cfg)
    requires cfg.period(Run(cfg, start, steps).now) == cfg.period(start.now)
    ensures OneMonth(Run(cfg, start, steps).db, cfg.period(start.now))
    decreases |steps|
  {
    if steps != [] {
      var before := steps[..|steps| - 1];
      var mid := Run(cfg, start, before);
      ClockOnlyAdvances(cfg, start, before);
      assert mid.now <= Run(cfg, start, steps).now;
      assert cfg.period(start.now) <= cfg.period(mid.now) <= cfg.period(Run(cfg, start, steps).now);
      RunWithinMonth(cfg, start, before);
      StepWithinMonth(cfg, mid, steps[|steps| - 1]);
    }
  }

  /** Every run within one month conserves every user's counters. */
  lemma ConservedWithinOneMonth(cfg: Config, start: System, steps: seq<Step>, user: UserId)
    requires Initial(start) && MonotonePeriod(cfg)
    requires cfg.period(Run(cfg, start, steps).now) == cfg.period(start.now)
    ensures var db := Run(cfg, start, steps).db;
            Conserved(db.hist.tickets, Counted(db), db.usage, user)
  {
    RunWithinMonth(cfg, start, steps);
    CountersAreConserved(cfg, Run(cfg, start, steps), user);
  }

  const JANUARY_THEN_FEBRUARY := Config((t: Time) => if t < 100 then 1 else 2, (p: Params, r: int) => [], 300, 3600)

  const ONE_FREE_USER := System(
    0, Db(map[0 := User(true, None)], map[], map[], [], History(map[], {}, map[], map[], map[])), map[], map[], {})

  lemma BoundaryRun()
    ensures var cfg, start := JANUARY_THEN_FEBRUARY, ONE_FREE_USER;
            var reserved := Apply(cfg, start, ReserveQuota(7, 0, 10));
            && reserved.now == 0
            && reserved.db.usage == map[(0, 1) := Usage(1, 10)]
            && reserved.db.hist.tickets == map[7 := Ticket(0, 10, 1)] && reserved.db.hist.inFlight == {7}
            && reserved.db.jobs == map[] && reserved.db.hist.archived == map[]
  {
    assert Overflow(FREE_PLAN, Usage(0, 0), 10).None?;
  }

  lemma BoundaryRelease(s: System)
    requires s.now == 100 && s.db.usage == map[(0, 1) := Usage(1, 10)]
    requires s.db.hist.tickets == map[7 := Ticket(0, 10, 1)] && s.db.hist.inFlight == {7}
    requires s.db.jobs == map[] && s.db.hist.archived == map[]
    ensures var s' := Apply(JANUARY_THEN_FEBRUARY, s, CreateFails(7));
            s'.db.usage == s.db.usage && s'.db.hist.tickets == s.db.hist.tickets && Counted(s'.db) == {}
  {
    CreateFailsIs(JANUARY_THEN_FEBRUARY, s, CreateFails(7));
  }

  lemma RunOfThree(cfg: Config, s: System, a: Step, b: Step, c: Step)
    ensures Run(cfg, s, [a, b, c]) == Apply(cfg, Apply(cfg, Apply(cfg, s, a), b), c)
  {
    assert [a] + [b] == [a, b] && [a, b] + [c] == [a, b, c];
    RunOne(cfg, s, a);
    RunMore(cfg, s, [a], b);
    RunMore(cfg, s, [a, b], c);
  }

  /** A run across a month boundary that does not conserve: a reservation is
      charged in January and given up in February, and January still counts it. */
  lemma MonthBoundaryBreaksConservation()
    ensures var cfg, start := JANUARY_THEN_FEBRUARY, ONE_FREE_USER;
            var db := Run(cfg, start, [ReserveQuota(7, 0, 10), Tick(100), CreateFails(7)]).db;
            && Initial(start) && MonotonePeriod(cfg)
            && Counted(db) == {} && UsageOf(db.usage, 0, 1) == Usage(1, 10)
            && !Conserved(db.hist.tickets, Counted(db), db.usage, 0)
  {
    var cfg, start := JANUARY_THEN_FEBRUARY, ONE_FREE_USER;
    RunOfThree(cfg, start, ReserveQuota(7, 0, 10), Tick(100), CreateFails(7));
    BoundaryRun();
    BoundaryRelease(Apply(cfg, start, ReserveQuota(7, 0, 10)).(now := 100));
    var db := Run(cfg, start, [ReserveQuota(7, 0, 10), Tick(100), CreateFails(7)]).db;
    assert !Exact(db.hist.tickets, {}, db.usage, 0, 1) by {
      assert Charges(db.hist.tickets, {}, 0, 1) == map[];
    }
  }
}
