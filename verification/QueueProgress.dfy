/** When a claim call gets anywhere, and how the queue can be blocked. */
module QueueProgress {
  import opened Domain
  import opened JobOrder
  import opened WorkerService
  import opened Invariants
  import opened Protocol
  import opened Executions
  import opened SystemInvariant
  import ClaimTheorem
  import FiniteSums

  // ---- One call ----

  /** Inspecting the row achieves nothing: it is neither given up nor may it be taken. */
  predicate Blocked(cfg: Config, db: Db, id: JobId, now: Time)
    requires id in db.jobs
  {
    && !ClaimTheorem.Doomed(cfg, db.jobs[id], now)
    && !HasCapacity(db.users, db.jobs, db.jobs[id].user, {id})
  }

  /** The eligible rows ahead of `id` in the queue. */
  function Ahead(cfg: Config, jobs: map<JobId, Job>, id: JobId, now: Time): set<JobId>
    requires id in jobs
  {
    set e | e in jobs && Eligible(cfg, jobs[e], now) && Before(jobs, e, id)
  }

  lemma BeforeMeansEarlier(jobs: map<JobId, Job>, s: seq<JobId>, j: nat, i: nat)
    requires StrictlyOrdered(jobs, s) && i < |s| && j < |s| && s[i] in jobs && s[j] in jobs
    ensures Before(jobs, s[j], s[i]) <==> j < i
  {
    if i < j {
      assert Before(jobs, s[i], s[j]);
    } else if j < i {
      assert Before(jobs, s[j], s[i]);
    }
  }

  /** The rows before position `i` of an order are the first `i` elements. */
  lemma PositionInOrder(jobs: map<JobId, Job>, s: seq<JobId>, i: nat)
    requires StrictlyOrdered(jobs, s) && i < |s| && s[i] in jobs
    ensures (set e | e in Elements(s) && e in jobs && Before(jobs, e, s[i])) == Elements(s[..i])
    ensures |Elements(s[..i])| == i
  {
    forall e | e in Elements(s) && e in jobs && Before(jobs, e, s[i]) ensures e in Elements(s[..i]) {
      var j :| 0 <= j < |s| && s[j] == e;
      BeforeMeansEarlier(jobs, s, j, i);
      assert s[..i][j] == e;
    }
    forall e | e in Elements(s[..i]) ensures e in Elements(s) && e in jobs && Before(jobs, e, s[i]) {
      var j :| 0 <= j < i && s[..i][j] == e;
      assert s[j] == e && Before(jobs, s[j], s[i]);
    }
    PrefixIsOrdered(jobs, s, s[..i]);
    OrderedDistinct(jobs, s[..i]);
  }

  /** A row is fetched exactly when it is eligible and fewer than ten eligible
      rows are ahead of it. */
  lemma FetchedIffNearTheFront(cfg: Config, jobs: map<JobId, Job>, id: JobId, now: Time)
    requires id in jobs
    ensures id in Candidates(cfg, jobs, now)
        <==> Eligible(cfg, jobs[id], now) && |Ahead(cfg, jobs, id, now)| < CLAIM_LIMIT
  {
    var ids := EligibleIds(cfg, jobs, now);
    var all := Sorted(jobs, ids);
    SortedIsOrdered(jobs, ids);
    if Eligible(cfg, jobs[id], now) {
      assert id in Elements(all);
      var i :| 0 <= i < |all| && all[i] == id;
      PositionInOrder(jobs, all, i);
      assert Ahead(cfg, jobs, id, now) == (set e | e in Elements(all) && e in jobs && Before(jobs, e, id));
      InPrefix(jobs, all, i, CLAIM_LIMIT);
    } else {
      CandidatesAreRows(cfg, jobs, now);
    }
  }

  lemma InPrefix(jobs: map<JobId, Job>, s: seq<JobId>, i: nat, n: nat)
    requires StrictlyOrdered(jobs, s) && i < |s|
    ensures s[i] in (if |s| <= n then s else s[..n]) <==> i < n || |s| <= n
  {
    OrderedApart(jobs, s);
    if n < |s| {
      if i < n {
        assert s[..n][i] == s[i];
      } else {
        assert forall j :: 0 <= j < n ==> s[..n][j] == s[j];
      }
    }
  }

  /** Blocked candidates are all passed over. */
  lemma {:induction false} BlockedScan(cfg: Config, db: Db, cs: seq<JobId>, worker: WorkerId, now: Time)
    requires forall c :: c in cs ==> c in db.jobs && Blocked(cfg, db, c, now)
    ensures ClaimScan(cfg, db, cs, worker, now) == (db, None)
    decreases |cs|
  {
    if cs != [] {
      PassBlocked(cfg, db, cs[0], worker, now);
      BlockedScan(cfg, db, cs[1..], worker, now);
    }
  }

  lemma PassBlocked(cfg: Config, db: Db, id: JobId, worker: WorkerId, now: Time)
    requires id in db.jobs && Blocked(cfg, db, id, now)
    ensures Inspect(cfg, db, id, worker, now) == (db, false)
  {
    var job := db.jobs[id];
    if job.status.Pending? {
      assert RunningIds(db.jobs, job.user) - {id} == RunningIds(db.jobs, job.user) - {};
    }
  }

  /** A claim call does something if and only if some eligible row that is not
      blocked has fewer than ten eligible rows ahead of it. */
  lemma ProgressIffUnblockedNearTheFront(cfg: Config, db: Db, worker: WorkerId, now: Time)
    ensures Claim(cfg, db, worker, now) != (db, None) <==>
              exists id :: id in db.jobs && Eligible(cfg, db.jobs[id], now) && !Blocked(cfg, db, id, now)
                           && |Ahead(cfg, db.jobs, id, now)| < CLAIM_LIMIT
  {
    var cs := Candidates(cfg, db.jobs, now);
    CandidatesAreRows(cfg, db.jobs, now);
    forall id | id in db.jobs
      ensures id in cs <==> Eligible(cfg, db.jobs[id], now) && |Ahead(cfg, db.jobs, id, now)| < CLAIM_LIMIT
    {
      FetchedIffNearTheFront(cfg, db.jobs, id, now);
    }
    if Claim(cfg, db, worker, now) == (db, None) {
      ClaimTheorem.IdleClaimMeansNothingClaimable(cfg, db, worker, now);
      forall id | id in cs ensures Blocked(cfg, db, id, now) {
        var i :| 0 <= i < |cs| && cs[i] == id;
        assert cs[i] in db.jobs;
      }
    } else if forall c :: c in cs ==> Blocked(cfg, db, c, now) {
      BlockedScan(cfg, db, cs, worker, now);
    }
  }

  /** With fewer than ten eligible rows an idle call means that no row of the
      whole table could be taken or given up. */
  lemma IdleClaimOnShortQueue(cfg: Config, db: Db, worker: WorkerId, now: Time)
    requires |EligibleIds(cfg, db.jobs, now)| < CLAIM_LIMIT
    ensures Claim(cfg, db, worker, now) == (db, None) <==>
              forall id :: id in EligibleIds(cfg, db.jobs, now) ==> Blocked(cfg, db, id, now)
  {
    ProgressIffUnblockedNearTheFront(cfg, db, worker, now);
    forall id | id in EligibleIds(cfg, db.jobs, now) ensures |Ahead(cfg, db.jobs, id, now)| < CLAIM_LIMIT {
      FiniteSums.SubsetSize(Ahead(cfg, db.jobs, id, now), EligibleIds(cfg, db.jobs, now));
    }
  }

  // ---- A queue blocked for good ----

  /** An abandoned row with attempts left whose owner has been deactivated. */
  ghost predicate Frozen(cfg: Config, s: System, id: JobId) {
    && id in s.db.jobs
    && var job := s.db.jobs[id];
       && job.status.Running? && LeaseExpired(cfg, job, s.now) && job.attempts < job.maxAttempts
       && (job.user in s.db.users ==> !s.db.users[job.user].active)
       && forall w: WorkerId :: WorkerAt(s, w).Busy? && WorkerAt(s, w).exec.job == id ==> job.worker != Some(w)
  }

  lemma FrozenIsBlocked(cfg: Config, s: System, id: JobId)
    requires Frozen(cfg, s, id)
    ensures Eligible(cfg, s.db.jobs[id], s.now) && Blocked(cfg, s.db, id, s.now)
  {
  }

  predicate Reactivates(step: Step, user: UserId) {
    step.SetActive? && step.user == user && step.active
  }

  /** A row that is not fetched is not touched by a claim call, complete or not. */
  lemma UnfetchedIsUntouched(cfg: Config, db: Db, worker: WorkerId, now: Time, id: JobId, inspected: nat)
    requires id in db.jobs && id !in Candidates(cfg, db.jobs, now)
    ensures var (db', claimed) := Claim(cfg, db, worker, now);
            claimed != Some(id) && id in db'.jobs && db'.jobs[id] == db.jobs[id]
    ensures var db' := BrokenClaim(cfg, db, worker, now, inspected); id in db'.jobs && db'.jobs[id] == db.jobs[id]
  {
    var cs := Candidates(cfg, db.jobs, now);
    var k := ClaimTheorem.ClaimMeetsSpecification(cfg, db, worker, now);
    assert id !in ClaimTheorem.DoomedAmong(cfg, db.jobs, cs[..k], now);
    var b := ClaimTheorem.BrokenClaimMeetsSpecification(cfg, db, worker, now, inspected);
    assert id !in ClaimTheorem.DoomedAmong(cfg, db.jobs, cs[..b], now);
  }

  /** Nor is a frozen one. */
  lemma FrozenIsUntouched(cfg: Config, s: System, worker: WorkerId, id: JobId, inspected: nat)
    requires Frozen(cfg, s, id)
    ensures var (db', claimed) := Claim(cfg, s.db, worker, s.now);
            claimed != Some(id) && id in db'.jobs && db'.jobs[id] == s.db.jobs[id]
    ensures var db' := BrokenClaim(cfg, s.db, worker, s.now, inspected); id in db'.jobs && db'.jobs[id] == s.db.jobs[id]
  {
    var cs := Candidates(cfg, s.db.jobs, s.now);
    var k := ClaimTheorem.ClaimMeetsSpecification(cfg, s.db, worker, s.now);
    if k < |cs| {
      assert ClaimTheorem.Claimable(cfg, s.db, cs, k, s.now);
    }
    assert id !in ClaimTheorem.DoomedAmong(cfg, s.db.jobs, cs[..k], s.now);
    var b := ClaimTheorem.BrokenClaimMeetsSpecification(cfg, s.db, worker, s.now, inspected);
    assert id !in ClaimTheorem.DoomedAmong(cfg, s.db.jobs, cs[..b], s.now);
  }

  ghost predicate StaysFrozen(cfg: Config, s: System, s': System, id: JobId)
    requires id in s.db.jobs
  {
    Frozen(cfg, s', id) && s'.db.jobs[id] == s.db.jobs[id]
  }

  /** The step leaves the row, the users and the clock alone, and nobody starts to work on it. */
  ghost predicate Spares(s: System, s': System, id: JobId)
    requires id in s.db.jobs
  {
    && s'.now == s.now && s'.db.users == s.db.users
    && id in s'.db.jobs && s'.db.jobs[id] == s.db.jobs[id]
    && forall w: WorkerId :: WorkerAt(s', w).Busy? && WorkerAt(s', w).exec.job == id ==>
         WorkerAt(s', w) == WorkerAt(s, w)
  }

  lemma ClaimKeepsUsers(cfg: Config, db: Db, worker: WorkerId, now: Time, inspected: nat)
    ensures Claim(cfg, db, worker, now).0.users == db.users
        && BrokenClaim(cfg, db, worker, now, inspected).users == db.users
  {
    var k := ClaimTheorem.ClaimMeetsSpecification(cfg, db, worker, now);
    var b := ClaimTheorem.BrokenClaimMeetsSpecification(cfg, db, worker, now, inspected);
  }

  lemma ClaimSparesFrozen(cfg: Config, s: System, step: Step, id: JobId)
    requires Frozen(cfg, s, id) && step.ClaimNext?
    ensures Spares(s, Apply(cfg, s, step), id)
  {
    FrozenIsUntouched(cfg, s, step.worker, id, 0);
    ClaimKeepsUsers(cfg, s.db, step.worker, s.now, 0);
    ClaimShape(cfg, s, step.worker);
  }

  lemma BrokenClaimSparesFrozen(cfg: Config, s: System, step: Step, id: JobId)
    requires Frozen(cfg, s, id) && step.ClaimBreaks?
    ensures Spares(s, Apply(cfg, s, step), id)
  {
    FrozenIsUntouched(cfg, s, step.worker, id, step.inspected);
    ClaimKeepsUsers(cfg, s.db, step.worker, s.now, step.inspected);
  }

  /** No worker that is still at it owns the row. */
  ghost predicate NobodyOwns(s: System, id: JobId) {
    forall w: WorkerId :: WorkerAt(s, w).Busy? && WorkerAt(s, w).exec.job == id ==> !Owns(s.db, id, w)
  }

  lemma WorkersSpare(cfg: Config, s: System, step: Step, id: JobId)
    requires id in s.db.jobs && (step.FinishJob? || step.Beat?)
    requires WorkerAt(s, step.worker).Busy? && WorkerAt(s, step.worker).exec.job == id ==> !Owns(s.db, id, step.worker)
    ensures Spares(s, Apply(cfg, s, step), id)
  {
  }

  lemma BatchSpares(cfg: Config, s: System, step: Step, id: JobId)
    requires CleanersOk(s) && id in s.db.jobs && !s.db.jobs[id].status.Terminal() && step.DeleteBatch?
    ensures Spares(s, Apply(cfg, s, step), id)
  {
    if step.cleaner in s.cleaners && s.cleaners[step.cleaner].selected.Some? {
      RemainingAreTerminal(s, step.cleaner);
    }
  }

  lemma SubmissionsSpare(cfg: Config, s: System, step: Step, id: JobId)
    requires IdsOk(s.db) && id in s.db.jobs && (step.ReserveQuota? || step.CreateRow? || step.CreateFails?)
    ensures Spares(s, Apply(cfg, s, step), id)
  {
  }

  lemma DeletionsSpare(cfg: Config, s: System, step: Step, id: JobId)
    requires id in s.db.jobs && step.DeleteRow? && (step.id == id ==> s.db.jobs[id].status.Running?)
    ensures Spares(s, Apply(cfg, s, step), id)
  {
  }

  /** Steps that are neither claims nor moves of the clock, a user, a crash or a
      cleaner leave alone a row that is open, not deleted and not theirs. */
  lemma OthersSpare(cfg: Config, s: System, step: Step, id: JobId)
    requires Inv(cfg, s) && id in s.db.jobs && !s.db.jobs[id].status.Terminal() && NobodyOwns(s, id)
    requires !step.ClaimNext? && !step.ClaimBreaks? && !Quiet(step)
    requires step.DeleteRow? && step.id == id ==> s.db.jobs[id].status.Running?
    ensures Spares(s, Apply(cfg, s, step), id)
  {
    if step.FinishJob? || step.Beat? {
      WorkersSpare(cfg, s, step, id);
    } else if step.DeleteBatch? {
      BatchSpares(cfg, s, step, id);
    } else if step.DeleteRow? {
      DeletionsSpare(cfg, s, step, id);
    } else {
      SubmissionsSpare(cfg, s, step, id);
    }
  }

  predicate Quiet(step: Step) {
    step.Tick? || step.SetActive? || step.Crash? || step.StartCleaner? || step.SelectBatch? || step.CleanerFails?
  }

  lemma SparedStaysFrozen(cfg: Config, s: System, s': System, id: JobId)
    requires Frozen(cfg, s, id) && Spares(s, s', id)
    ensures StaysFrozen(cfg, s, s', id)
  {
  }

  lemma StepKeepsFrozen(cfg: Config, s: System, step: Step, id: JobId)
    requires Inv(cfg, s) && Frozen(cfg, s, id) && !Reactivates(step, s.db.jobs[id].user)
    ensures StaysFrozen(cfg, s, Apply(cfg, s, step), id)
  {
    if Quiet(step) {
      QuietStepKeepsFrozen(cfg, s, step, id);
    } else {
      if step.ClaimNext? {
        ClaimSparesFrozen(cfg, s, step, id);
      } else if step.ClaimBreaks? {
        BrokenClaimSparesFrozen(cfg, s, step, id);
      } else {
        OthersSpare(cfg, s, step, id);
      }
      SparedStaysFrozen(cfg, s, Apply(cfg, s, step), id);
    }
  }

  lemma QuietStepKeepsFrozen(cfg: Config, s: System, step: Step, id: JobId)
    requires Frozen(cfg, s, id) && Quiet(step) && !Reactivates(step, s.db.jobs[id].user)
    ensures StaysFrozen(cfg, s, Apply(cfg, s, step), id)
  {
  }

  /** `id` waits behind at least ten frozen rows. */
  ghost predicate Starved(cfg: Config, s: System, frozen: set<JobId>, id: JobId) {
    && |frozen| >= CLAIM_LIMIT
    && id in s.db.jobs && s.db.jobs[id].status.Pending?
    && forall f :: f in frozen ==> Frozen(cfg, s, f) && Before(s.db.jobs, f, id)
  }

  lemma StarvedIsNotFetched(cfg: Config, s: System, frozen: set<JobId>, id: JobId)
    requires Starved(cfg, s, frozen, id)
    ensures id !in Candidates(cfg, s.db.jobs, s.now)
  {
    FetchedIffNearTheFront(cfg, s.db.jobs, id, s.now);
    FiniteSums.SubsetSize(frozen, Ahead(cfg, s.db.jobs, id, s.now));
  }

  ghost predicate RowStays(s: System, s': System, id: JobId)
    requires id in s.db.jobs
  {
    id in s'.db.jobs && s'.db.jobs[id] == s.db.jobs[id]
  }

  lemma QuietStepKeepsRows(cfg: Config, s: System, step: Step)
    requires Quiet(step)
    ensures Apply(cfg, s, step).db.jobs == s.db.jobs
  {
  }

  lemma ClaimSparesUnfetched(cfg: Config, s: System, step: Step, id: JobId)
    requires id in s.db.jobs && id !in Candidates(cfg, s.db.jobs, s.now) && (step.ClaimNext? || step.ClaimBreaks?)
    ensures RowStays(s, Apply(cfg, s, step), id)
  {
    UnfetchedIsUntouched(cfg, s.db, step.worker, s.now, id, if step.ClaimBreaks? then step.inspected else 0);
    if step.ClaimNext? {
      ClaimShape(cfg, s, step.worker);
    }
  }

  lemma StarvedRowStays(cfg: Config, s: System, step: Step, frozen: set<JobId>, id: JobId)
    requires Inv(cfg, s) && Starved(cfg, s, frozen, id) && !(step.DeleteRow? && step.id == id)
    ensures RowStays(s, Apply(cfg, s, step), id)
  {
    if step.ClaimNext? || step.ClaimBreaks? {
      StarvedIsNotFetched(cfg, s, frozen, id);
      ClaimSparesUnfetched(cfg, s, step, id);
    } else if Quiet(step) {
      QuietStepKeepsRows(cfg, s, step);
    } else {
      OthersSpare(cfg, s, step, id);
    }
  }

  /** Still starved, by the same rows. */
  ghost predicate StaysStarved(cfg: Config, s: System, s': System, frozen: set<JobId>, id: JobId)
    requires Starved(cfg, s, frozen, id)
  {
    && Starved(cfg, s', frozen, id) && s'.db.jobs[id] == s.db.jobs[id]
    && forall f :: f in frozen ==> s'.db.jobs[f] == s.db.jobs[f]
  }

  lemma StepKeepsStarved(cfg: Config, s: System, step: Step, frozen: set<JobId>, id: JobId)
    requires Inv(cfg, s) && Starved(cfg, s, frozen, id) && !(step.DeleteRow? && step.id == id)
    requires forall f :: f in frozen ==> !Reactivates(step, s.db.jobs[f].user)
    ensures StaysStarved(cfg, s, Apply(cfg, s, step), frozen, id)
  {
    StarvedRowStays(cfg, s, step, frozen, id);
    forall f | f in frozen
      ensures StaysFrozen(cfg, s, Apply(cfg, s, step), f)
    {
      StepKeepsFrozen(cfg, s, step, f);
    }
    StarvedFrame(cfg, s, Apply(cfg, s, step), frozen, id);
  }

  lemma StarvedFrame(cfg: Config, s: System, s': System, frozen: set<JobId>, id: JobId)
    requires Starved(cfg, s, frozen, id) && RowStays(s, s', id)
    requires forall f :: f in frozen ==> StaysFrozen(cfg, s, s', f)
    ensures StaysStarved(cfg, s, s', frozen, id)
  {
  }

  lemma StarvedOn(cfg: Config, s: System, mid: System, step: Step, frozen: set<JobId>, id: JobId)
    requires Starved(cfg, s, frozen, id) && StaysStarved(cfg, s, mid, frozen, id) && Inv(cfg, mid)
    requires !(step.DeleteRow? && step.id == id)
    requires forall f :: f in frozen && f in s.db.jobs ==> !Reactivates(step, s.db.jobs[f].user)
    ensures StaysStarved(cfg, s, Apply(cfg, mid, step), frozen, id)
  {
    StepKeepsStarved(cfg, mid, step, frozen, id);
  }

  /** Neither deletes `id` nor reactivates the owner of a row of `frozen`. */
  predicate LeavesBlocked(jobs: map<JobId, Job>, steps: seq<Step>, frozen: set<JobId>, id: JobId) {
    forall i :: 0 <= i < |steps| ==>
      && !(steps[i].DeleteRow? && steps[i].id == id)
      && forall f :: f in frozen && f in jobs ==> !Reactivates(steps[i], jobs[f].user)
  }

  /** A job behind ten abandoned rows of deactivated users is never claimed and
      never times out, whatever is run, until one of those users is activated
      again or the job is deleted. */
  lemma {:induction false} StarvedForGood(cfg: Config, s: System, steps: seq<Step>, frozen: set<JobId>, id: JobId)
    requires Reachable(cfg, s) && MonotonePeriod(cfg)
    requires Starved(cfg, s, frozen, id) && LeavesBlocked(s.db.jobs, steps, frozen, id)
    ensures StaysStarved(cfg, s, Run(cfg, s, steps), frozen, id)
    decreases |steps|
  {
    if steps != [] {
      var before, last := steps[..|steps| - 1], steps[|steps| - 1];
      LeavesBlockedBefore(s.db.jobs, steps, frozen, id);
      StarvedForGood(cfg, s, before, frozen, id);
      ReachableInv(cfg, s);
      RunKeepsInv(cfg, s, before);
      StarvedOn(cfg, s, Run(cfg, s, before), last, frozen, id);
    }
  }

  lemma LeavesBlockedBefore(jobs: map<JobId, Job>, steps: seq<Step>, frozen: set<JobId>, id: JobId)
    requires LeavesBlocked(jobs, steps, frozen, id) && steps != []
    ensures LeavesBlocked(jobs, steps[..|steps| - 1], frozen, id)
    ensures forall f :: f in frozen && f in jobs ==> !Reactivates(steps[|steps| - 1], jobs[f].user)
  {
  }
}
