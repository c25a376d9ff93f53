/** The polling worker (app/worker.py). */
module SimulationWorker {
  import opened Domain
  import opened Database
  import opened WorkerService
  import opened Protocol
  import opened Executions

  class SimulationWorker {
    const workerId: WorkerId
    var stopRequested: bool

    constructor (workerId: WorkerId)
      ensures this.workerId == workerId && !stopRequested
    {
      this.workerId := workerId;
      stopRequested := false;
    }

    method RequestStop()
      modifies this
      ensures stopRequested
    {
      stopRequested := true;
    }

    /** One round is a stretch of the protocol: a claim, then, some time later,
        the end of the execution. `claimRaises` says after how many candidates,
        if at all, the claim raises; what it failed until then stays committed.
        An exception later leaves the claimed row running, as a crash does. */
    method RunOnce(cfg: Config, db: Database, claimRaises: Option<nat>, processRaises: bool, run: EngineRun,
                   commit: Commit, claimed: Time, finished: Time)
      returns (didWork: bool)
      requires claimed <= finished
      modifies db
      ensures stopRequested ==> !didWork && db.Snapshot() == old(db.Snapshot())
      ensures !stopRequested && claimRaises.Some? ==>
                && !didWork
                && db.Snapshot()
                     == Apply(cfg, Alone(claimed, old(db.Snapshot())), ClaimBreaks(workerId, claimRaises.value)).db
      ensures !stopRequested && claimRaises.None? ==>
                var start := Alone(claimed, old(db.Snapshot()));
                var working := Apply(cfg, start, ClaimNext(workerId));
                && (processRaises ==> !didWork && db.Snapshot() == Apply(cfg, working, Crash(workerId)).db)
                && (!processRaises ==>
                      && (didWork <==> WorkerAt(working, workerId).Busy?)
                      && db.Snapshot()
                           == Apply(cfg, Apply(cfg, working, Tick(finished)), FinishJob(workerId, run, commit)).db)
    {
      if stopRequested {
        return false;
      }
      ghost var start := Alone(claimed, db.Snapshot());
      AloneClaims(cfg, db.Snapshot(), workerId, claimed);
      ghost var working := Apply(cfg, start, ClaimNext(workerId));
      AloneEnds(cfg, working, workerId, run, commit, finished);
      var job := ClaimNextJob(cfg, db, workerId, claimed, claimRaises);
      if job.None? {
        return false;
      }
      var row := db.jobs[job.value];
      if processRaises {
        return false;
      }
      var exec := Execution(job.value, row.user, row.params, row.attempts);
      var _ := ProcessClaimedJob(cfg, db, job.value, row.user, row.params.interactions, workerId,
                                 OutcomeOf(cfg, exec, run), commit, finished);
      return true;
    }
  }

  /** The protocol with nobody at work yet. */
  function Alone(now: Time, db: Db): System {
    System(now, db, map[], map[], {})
  }

  /** A claim by the only worker there is. */
  lemma AloneClaims(cfg: Config, db: Db, w: WorkerId, now: Time)
    ensures var (db', claimed) := Claim(cfg, db, w, now);
            var working := Apply(cfg, Alone(now, db), ClaimNext(w));
            && (claimed.Some? ==> claimed.value in db'.jobs)
            && working.db == db' && working.now == now
            && WorkerAt(working, w) ==
                 if claimed.None? then Idle
                 else var row := db'.jobs[claimed.value];
                      Busy(Execution(claimed.value, row.user, row.params, row.attempts))
  {
    var s := Alone(now, db);
    ClaimedIsRow(cfg, db, w, now);
    ClaimNextIs(cfg, s, ClaimNext(w));
    ClaimShape(cfg, s, w);
    assert WorkerAt(s, w).Idle? && s.db == db;
    assert Claim(cfg, db, w, now).1.None? ==> ApplyClaim(cfg, s, w).workers == map[];
  }

  /** The two ends of a round. */
  lemma AloneEnds(cfg: Config, s: System, w: WorkerId, run: EngineRun, commit: Commit, finished: Time)
    requires s.now <= finished
    ensures Apply(cfg, s, Crash(w)).db == s.db
    ensures var done := Apply(cfg, Apply(cfg, s, Tick(finished)), FinishJob(w, run, commit));
            done.db == if WorkerAt(s, w).Idle? then s.db
                       else FinishExecution(cfg, s.(now := finished), w, WorkerAt(s, w).exec, run, commit).0
  {
    var late := s.(now := finished);
    assert Apply(cfg, s, Tick(finished)) == late;
    FinishJobIs(cfg, late, FinishJob(w, run, commit));
  }

  lemma ClaimedIsRow(cfg: Config, db: Db, worker: WorkerId, now: Time)
    ensures var (db', claimed) := Claim(cfg, db, worker, now);
            claimed.Some? ==> claimed.value in db'.jobs
  {
    CandidatesAreRows(cfg, db.jobs, now);
    ScanReturnsRow(cfg, db, Candidates(cfg, db.jobs, now), worker, now);
  }

  lemma {:induction false} ScanReturnsRow(cfg: Config, db: Db, cs: seq<JobId>, worker: WorkerId, now: Time)
    requires forall c :: c in cs ==> c in db.jobs
    ensures var (db', claimed) := ClaimScan(cfg, db, cs, worker, now);
            claimed.Some? ==> claimed.value in db'.jobs
    decreases |cs|
  {
    if cs != [] {
      var (db', taken) := Inspect(cfg, db, cs[0], worker, now);
      if !taken {
        ScanReturnsRow(cfg, db', cs[1..], worker, now);
      }
    }
  }
}
