/** What one call of the claim loop does, said without the loop: which
    candidate wins, which rows fail on the way, and that nothing else moves. */
module ClaimTheorem {
  import opened Domain
  import opened JobOrder
  import opened UsageService
  import opened SimulationJobService
  import opened WorkerService

  /** Out of attempts, or queued for too long. */
  predicate Doomed(cfg: Config, job: Job, now: Time) {
    Exhausted(job) || Overdue(cfg, job, now)
  }

  function DoomCode(job: Job): string {
    if job.status.Running? then EXECUTION_TIMEOUT else QUEUE_TIMEOUT
  }

  function DoomedAmong(cfg: Config, jobs: map<JobId, Job>, s: seq<JobId>, now: Time): set<JobId> {
    set c | c in s && c in jobs && Doomed(cfg, jobs[c], now)
  }

  /** Candidate `i` may be taken: it is not doomed, its owner is active, and
      the owner's other running jobs, without those failed by this call before
      it was inspected, leave room. */
  ghost predicate Claimable(cfg: Config, db: Db, cs: seq<JobId>, i: nat, now: Time)
    requires i < |cs| && cs[i] in db.jobs
  {
    var job := db.jobs[cs[i]];
    && !Doomed(cfg, job, now)
    && job.user in db.users && db.users[job.user].active
    && |RunningIds(db.jobs, job.user) - DoomedAmong(cfg, db.jobs, cs[..i], now) - {cs[i]}|
         < ConcurrencyLimit(db.users[job.user])
  }

  /** `k` is the first claimable candidate, or past the end if there is none. */
  ghost predicate IsWinner(cfg: Config, db: Db, cs: seq<JobId>, k: nat, now: Time)
    requires forall c :: c in cs ==> c in db.jobs
  {
    && k <= |cs|
    && (forall i :: 0 <= i < k ==> !Claimable(cfg, db, cs, i, now))
    && (k < |cs| ==> Claimable(cfg, db, cs, k, now))
  }

  function FailDoomed(cfg: Config, jobs: map<JobId, Job>, s: seq<JobId>, now: Time): map<JobId, Job> {
    map id | id in jobs ::
      if id in DoomedAmong(cfg, jobs, s, now) then FailedRow(jobs[id], DoomCode(jobs[id]), now) else jobs[id]
  }

  /** The audit records of the doomed rows of `s`, in order. */
  function FailureLog(cfg: Config, jobs: map<JobId, Job>, s: seq<JobId>, now: Time): seq<Event>
    requires forall c :: c in s ==> c in jobs
  {
    if s == [] then [] else
    var last := s[|s| - 1];
    FailureLog(cfg, jobs, s[..|s| - 1], now)
        + (if Doomed(cfg, jobs[last], now) then [FailedEvent(jobs[last].user, now)] else [])
  }

  /** Each doomed row of `s` refunded once. */
  function RefundDoomed(cfg: Config, usage: UsageTable, jobs: map<JobId, Job>, s: seq<JobId>, now: Time)
    : UsageTable
    requires forall c :: c in s ==> c in jobs
  {
    if s == [] then usage else
    var last := s[|s| - 1];
    var usage' := RefundDoomed(cfg, usage, jobs, s[..|s| - 1], now);
    if Doomed(cfg, jobs[last], now) then Refund(cfg, usage', jobs[last].user, jobs[last].params.interactions, now)
        else usage'
  }

  /** `mid` is `db` after the rows of `s` were inspected and none was taken. */
  ghost predicate Passed(cfg: Config, db: Db, mid: Db, s: seq<JobId>, now: Time)
    requires forall c :: c in s ==> c in db.jobs
  {
    && mid.users == db.users
    && mid.jobs == FailDoomed(cfg, db.jobs, s, now)
    && mid.events == db.events + FailureLog(cfg, db.jobs, s, now)
    && mid.usage == RefundDoomed(cfg, db.usage, db.jobs, s, now)
  }

  ghost predicate Scannable(cfg: Config, db: Db, cs: seq<JobId>) {
    && (forall c :: c in cs ==> c in db.jobs && !db.jobs[c].status.Terminal())
    && (forall i, j :: 0 <= i < j < |cs| ==> cs[i] != cs[j])
  }

  lemma DoomedGrows(cfg: Config, jobs: map<JobId, Job>, cs: seq<JobId>, i: nat, now: Time)
    requires i < |cs| && cs[i] in jobs
    ensures DoomedAmong(cfg, jobs, cs[..i + 1], now)
         == DoomedAmong(cfg, jobs, cs[..i], now) + (if Doomed(cfg, jobs[cs[i]], now) then {cs[i]} else {})
  {
    assert cs[..i + 1] == cs[..i] + [cs[i]];
  }

  /** After the first rows were passed, the running rows are those not failed among them. */
  lemma RunningAfterPass(cfg: Config, db: Db, mid: Db, s: seq<JobId>, user: UserId, now: Time)
    requires (forall c :: c in s ==> c in db.jobs) && Passed(cfg, db, mid, s, now)
    ensures RunningIds(mid.jobs, user) == RunningIds(db.jobs, user) - DoomedAmong(cfg, db.jobs, s, now)
  {
  }

  lemma NotYetInspected(cfg: Config, db: Db, mid: Db, cs: seq<JobId>, i: nat, now: Time)
    requires Scannable(cfg, db, cs) && i < |cs| && Passed(cfg, db, mid, cs[..i], now)
    ensures cs[i] !in DoomedAmong(cfg, db.jobs, cs[..i], now)
    ensures cs[i] in mid.jobs && mid.jobs[cs[i]] == db.jobs[cs[i]]
  {
    assert forall j :: 0 <= j < i ==> cs[..i][j] == cs[j] != cs[i];
  }

  /** The capacity check at inspection time is the one `Claimable` speaks of. */
  lemma CapacityAtInspection(cfg: Config, db: Db, mid: Db, cs: seq<JobId>, i: nat, now: Time)
    requires Scannable(cfg, db, cs) && i < |cs| && Passed(cfg, db, mid, cs[..i], now)
    ensures cs[i] in mid.jobs && mid.jobs[cs[i]] == db.jobs[cs[i]]
    ensures var job := db.jobs[cs[i]];
            !Doomed(cfg, job, now) ==>
              (HasCapacity(mid.users, mid.jobs, job.user, if job.status.Running? then {cs[i]} else {})
               <==> Claimable(cfg, db, cs, i, now))
  {
    var id := cs[i];
    var job := db.jobs[id];
    NotYetInspected(cfg, db, mid, cs, i, now);
    RunningAfterPass(cfg, db, mid, cs[..i], job.user, now);
    if !job.status.Running? {
      assert id !in RunningIds(db.jobs, job.user);
      assert RunningIds(mid.jobs, job.user) - {} == RunningIds(mid.jobs, job.user) - {id};
    }
  }

  lemma FailedGrow(cfg: Config, jobs: map<JobId, Job>, cs: seq<JobId>, i: nat, now: Time)
    requires i < |cs| && cs[i] in jobs && forall j :: 0 <= j < i ==> cs[j] != cs[i]
    ensures var id := cs[i];
            FailDoomed(cfg, jobs, cs[..i + 1], now) ==
              if Doomed(cfg, jobs[id], now)
              then FailDoomed(cfg, jobs, cs[..i], now)[id := FailedRow(jobs[id], DoomCode(jobs[id]), now)]
              else FailDoomed(cfg, jobs, cs[..i], now)
  {
    DoomedGrows(cfg, jobs, cs, i, now);
  }

  lemma LogGrows(cfg: Config, db: Db, cs: seq<JobId>, i: nat, now: Time)
    requires i < |cs| && forall c :: c in cs ==> c in db.jobs
    ensures var job := db.jobs[cs[i]];
            var log := FailureLog(cfg, db.jobs, cs[..i], now);
            var usage := RefundDoomed(cfg, db.usage, db.jobs, cs[..i], now);
            && FailureLog(cfg, db.jobs, cs[..i + 1], now)
                 == log + (if Doomed(cfg, job, now) then [FailedEvent(job.user, now)] else [])
            && RefundDoomed(cfg, db.usage, db.jobs, cs[..i + 1], now) ==
                 if Doomed(cfg, job, now) then Refund(cfg, usage, job.user, job.params.interactions, now) else usage
  {
    var s := cs[..i + 1];
    assert s[..|s| - 1] == cs[..i] && s[|s| - 1] == cs[i];
  }

  /** Inspecting one more candidate without taking it. */
  lemma PassOne(cfg: Config, db: Db, mid: Db, cs: seq<JobId>, i: nat, worker: WorkerId, now: Time) returns (mid': Db)
    requires Scannable(cfg, db, cs) && i < |cs| && Passed(cfg, db, mid, cs[..i], now)
    requires !Claimable(cfg, db, cs, i, now)
    ensures cs[i] in mid.jobs && Inspect(cfg, mid, cs[i], worker, now) == (mid', false)
    ensures Passed(cfg, db, mid', cs[..i + 1], now)
  {
    CapacityAtInspection(cfg, db, mid, cs, i, now);
    FailedGrow(cfg, db.jobs, cs, i, now);
    LogGrows(cfg, db, cs, i, now);
    var job := db.jobs[cs[i]];
    mid' := Inspect(cfg, mid, cs[i], worker, now).0;
    if Doomed(cfg, job, now) {
      assert mid' == FailJob(cfg, mid, cs[i], DoomCode(job), now);
      assert mid'.jobs == mid.jobs[cs[i] := FailedRow(job, DoomCode(job), now)];
      assert mid'.events == mid.events + [FailedEvent(job.user, now)];
    } else {
      assert mid' == mid;
    }
  }

  ghost predicate ClaimResult(cfg: Config, db: Db, r: (Db, Option<JobId>), cs: seq<JobId>, k: nat, worker: WorkerId,
                              now: Time)
    requires Scannable(cfg, db, cs) && k <= |cs|
  {
    var failed := FailDoomed(cfg, db.jobs, cs[..k], now);
    && r.1 == (if k < |cs| then Some(cs[k]) else None)
    && r.0.users == db.users
    && r.0.jobs == (if k < |cs| then failed[cs[k] := ClaimedRow(db.jobs[cs[k]], worker, now)] else failed)
    && r.0.events == db.events + FailureLog(cfg, db.jobs, cs[..k], now)
    && r.0.usage == RefundDoomed(cfg, db.usage, db.jobs, cs[..k], now)
  }

  /** What the rest of a scan comes to, from candidate `i` on: `k` wins. */
  ghost predicate ScanResult(cfg: Config, db: Db, mid: Db, cs: seq<JobId>, i: nat, k: nat, worker: WorkerId, now: Time)
    requires Scannable(cfg, db, cs) && i <= |cs|
  {
    && (forall c :: c in cs[i..] ==> c in mid.jobs)
    && IsWinner(cfg, db, cs, k, now)
    && ClaimResult(cfg, db, ClaimScan(cfg, mid, cs[i..], worker, now), cs, k, worker, now)
  }

  lemma EndHere(cfg: Config, db: Db, mid: Db, cs: seq<JobId>, worker: WorkerId, now: Time)
    requires Scannable(cfg, db, cs) && Passed(cfg, db, mid, cs[..|cs|], now)
    requires forall j :: 0 <= j < |cs| ==> !Claimable(cfg, db, cs, j, now)
    ensures ScanResult(cfg, db, mid, cs, |cs|, |cs|, worker, now)
  {
    assert cs[|cs|..] == [];
  }

  lemma InspectTakes(cfg: Config, db: Db, mid: Db, cs: seq<JobId>, i: nat, worker: WorkerId, now: Time)
    requires Scannable(cfg, db, cs) && i < |cs| && Passed(cfg, db, mid, cs[..i], now) && Claimable(cfg, db, cs, i, now)
    ensures cs[i] in mid.jobs
    ensures Inspect(cfg, mid, cs[i], worker, now) == (PutRow(mid, cs[i], ClaimedRow(db.jobs[cs[i]], worker, now)), true)
  {
    CapacityAtInspection(cfg, db, mid, cs, i, now);
  }

  /** The scan ends at candidate `i` by taking it. */
  lemma TakeHere(cfg: Config, db: Db, mid: Db, cs: seq<JobId>, i: nat, worker: WorkerId, now: Time)
    requires Scannable(cfg, db, cs) && i < |cs| && Passed(cfg, db, mid, cs[..i], now) && Claimable(cfg, db, cs, i, now)
    requires forall j :: 0 <= j < i ==> !Claimable(cfg, db, cs, j, now)
    ensures ScanResult(cfg, db, mid, cs, i, i, worker, now)
  {
    InspectTakes(cfg, db, mid, cs, i, worker, now);
    assert cs[i..][0] == cs[i];
  }

  lemma GoOn(cfg: Config, db: Db, mid: Db, mid': Db, cs: seq<JobId>, i: nat, k: nat, worker: WorkerId, now: Time)
    requires Scannable(cfg, db, cs) && i < |cs| && cs[i] in mid.jobs
        && Inspect(cfg, mid, cs[i], worker, now) == (mid', false)
    requires ScanResult(cfg, db, mid', cs, i + 1, k, worker, now)
    ensures ScanResult(cfg, db, mid, cs, i, k, worker, now)
  {
    var rest := cs[i..];
    assert rest[0] == cs[i] && rest[1..] == cs[i + 1..];
    forall c | c in rest ensures c in mid.jobs {
      assert c == cs[i] || c in cs[i + 1..];
      assert mid'.jobs.Keys == mid.jobs.Keys;
    }
    assert ClaimScan(cfg, mid, rest, worker, now) == ClaimScan(cfg, mid', cs[i + 1..], worker, now);
  }

  lemma {:induction false} ScanFrom(cfg: Config, db: Db, mid: Db, cs: seq<JobId>, i: nat, worker: WorkerId, now: Time)
    returns (k: nat)
    requires Scannable(cfg, db, cs) && i <= |cs| && Passed(cfg, db, mid, cs[..i], now)
    requires forall j :: 0 <= j < i ==> !Claimable(cfg, db, cs, j, now)
    ensures ScanResult(cfg, db, mid, cs, i, k, worker, now)
    decreases |cs| - i, 1
  {
    if i == |cs| {
      EndHere(cfg, db, mid, cs, worker, now);
      k := i;
    } else if Claimable(cfg, db, cs, i, now) {
      TakeHere(cfg, db, mid, cs, i, worker, now);
      k := i;
    } else {
      k := ScanPast(cfg, db, mid, cs, i, worker, now);
    }
  }

  lemma {:induction false} ScanPast(cfg: Config, db: Db, mid: Db, cs: seq<JobId>, i: nat, worker: WorkerId, now: Time)
    returns (k: nat)
    requires Scannable(cfg, db, cs) && i < |cs| && Passed(cfg, db, mid, cs[..i], now)
    requires forall j :: 0 <= j <= i ==> !Claimable(cfg, db, cs, j, now)
    ensures ScanResult(cfg, db, mid, cs, i, k, worker, now)
    decreases |cs| - i, 0
  {
    var mid' := PassOne(cfg, db, mid, cs, i, worker, now);
    k := ScanFrom(cfg, db, mid', cs, i + 1, worker, now);
    GoOn(cfg, db, mid, mid', cs, i, k, worker, now);
  }

  lemma CandidatesScannable(cfg: Config, db: Db, now: Time)
    ensures Scannable(cfg, db, Candidates(cfg, db.jobs, now))
  {
    CandidatesAreRows(cfg, db.jobs, now);
    OrderedApart(db.jobs, Candidates(cfg, db.jobs, now));
  }

  /** The claim loop meets its specification: it takes the first claimable
      candidate of the oldest ten eligible rows; the doomed rows before it are
      failed, refunded and logged once each, in order; every other row stays. */
  lemma ClaimMeetsSpecification(cfg: Config, db: Db, worker: WorkerId, now: Time) returns (k: nat)
    ensures var cs := Candidates(cfg, db.jobs, now);
            && Scannable(cfg, db, cs)
            && IsWinner(cfg, db, cs, k, now)
            && ClaimResult(cfg, db, Claim(cfg, db, worker, now), cs, k, worker, now)
  {
    var cs := Candidates(cfg, db.jobs, now);
    CandidatesScannable(cfg, db, now);
    assert cs[..0] == [] && cs[0..] == cs;
    PassedNothing(cfg, db, now);
    k := ScanFrom(cfg, db, db, cs, 0, worker, now);
  }

  /** A call ended by an exception is a complete scan of the candidates it got
      past; it got past them all or to one that it would have taken. */
  lemma {:induction false} BrokenIsScan(cfg: Config, db: Db, cs: seq<JobId>, worker: WorkerId, now: Time)
    returns (k: nat)
    requires forall c :: c in cs ==> c in db.jobs
    ensures k <= |cs|
    ensures ClaimScan(cfg, db, cs[..k], worker, now) == (BrokenScan(cfg, db, cs, worker, now), None)
    ensures k < |cs| ==> var mid := BrokenScan(cfg, db, cs, worker, now);
                         cs[k] in mid.jobs && Inspect(cfg, mid, cs[k], worker, now).1
    decreases |cs|
  {
    k := 0;
    if cs != [] {
      var (db', taken) := Inspect(cfg, db, cs[0], worker, now);
      if !taken {
        var rest := BrokenIsScan(cfg, db', cs[1..], worker, now);
        k := rest + 1;
        assert cs[..k][0] == cs[0] && cs[..k][1..] == cs[1..][..rest];
      }
    }
  }

  /** A scan that takes nothing has passed every candidate, none of which was claimable. */
  lemma WholeScan(cfg: Config, db: Db, s: seq<JobId>, worker: WorkerId, now: Time)
    requires Scannable(cfg, db, s) && ClaimScan(cfg, db, s, worker, now).1.None?
    ensures Passed(cfg, db, ClaimScan(cfg, db, s, worker, now).0, s, now)
    ensures forall i :: 0 <= i < |s| ==> !Claimable(cfg, db, s, i, now)
  {
    assert s[..0] == [] && s[0..] == s && s[..|s|] == s;
    PassedNothing(cfg, db, now);
    var k := ScanFrom(cfg, db, db, s, 0, worker, now);
  }

  lemma PassedNothing(cfg: Config, db: Db, now: Time)
    ensures Passed(cfg, db, db, [], now)
  {
    assert FailDoomed(cfg, db.jobs, [], now) == db.jobs;
  }

  lemma ClaimableInPrefix(cfg: Config, db: Db, cs: seq<JobId>, k: nat, i: nat, now: Time)
    requires Scannable(cfg, db, cs) && i < k <= |cs|
    ensures Claimable(cfg, db, cs[..k], i, now) <==> Claimable(cfg, db, cs, i, now)
  {
    assert cs[..k][..i] == cs[..i];
  }

  /** Such a call has failed, refunded and logged the doomed ones among the
      first `k` candidates, and done nothing else; it stops at the exception or
      at the candidate it would have taken. */
  lemma BrokenClaimMeetsSpecification(cfg: Config, db: Db, worker: WorkerId, now: Time, inspected: nat) returns (k: nat)
    ensures var cs := Candidates(cfg, db.jobs, now);
            && Scannable(cfg, db, cs) && k <= |cs| && k <= inspected
            && (forall i :: 0 <= i < k ==> !Claimable(cfg, db, cs, i, now))
            && (k < |cs| && k < inspected ==> Claimable(cfg, db, cs, k, now))
            && Passed(cfg, db, BrokenClaim(cfg, db, worker, now, inspected), cs[..k], now)
            && BrokenClaim(cfg, db, worker, now, inspected) == ClaimScan(cfg, db, cs[..k], worker, now).0
  {
    var cs := Candidates(cfg, db.jobs, now);
    CandidatesScannable(cfg, db, now);
    var tried := cs[..Min(inspected, |cs|)];
    k := BrokenIsScan(cfg, db, tried, worker, now);
    var s := tried[..k];
    assert s == cs[..k];
    WholeScan(cfg, db, s, worker, now);
    forall i | 0 <= i < k ensures !Claimable(cfg, db, cs, i, now) {
      ClaimableInPrefix(cfg, db, cs, k, i, now);
    }
    if k < |tried| && !Claimable(cfg, db, cs, k, now) {
      var mid := PassOne(cfg, db, BrokenClaim(cfg, db, worker, now, inspected), cs, k, worker, now);
    }
  }

  /** A call that claims nothing and writes nothing had nothing to claim or to fail. */
  lemma IdleClaimMeansNothingClaimable(cfg: Config, db: Db, worker: WorkerId, now: Time)
    requires Claim(cfg, db, worker, now) == (db, None)
    ensures var cs := Candidates(cfg, db.jobs, now);
            forall i :: 0 <= i < |cs| ==>
              && cs[i] in db.jobs && !Doomed(cfg, db.jobs[cs[i]], now)
              && var job := db.jobs[cs[i]];
                 !HasCapacity(db.users, db.jobs, job.user, {cs[i]})
  {
    var cs := Candidates(cfg, db.jobs, now);
    var k := ClaimMeetsSpecification(cfg, db, worker, now);
    assert cs[..|cs|] == cs;
    forall i | 0 <= i < |cs|
      ensures cs[i] in db.jobs && !Doomed(cfg, db.jobs[cs[i]], now)
      ensures !HasCapacity(db.users, db.jobs, db.jobs[cs[i]].user, {cs[i]})
    {
      assert !Claimable(cfg, db, cs, i, now);
      assert forall j :: 0 <= j < |cs| && Doomed(cfg, db.jobs[cs[j]], now) ==>
               FailDoomed(cfg, db.jobs, cs, now)[cs[j]].status.Failed?;
      assert DoomedAmong(cfg, db.jobs, cs[..i], now) == {};
      assert RunningIds(db.jobs, db.jobs[cs[i]].user) - {} - {cs[i]}
          == RunningIds(db.jobs, db.jobs[cs[i]].user) - {cs[i]};
    }
  }

  /** What a claimed row looks like. */
  ghost predicate TakenBy(j: Job, j': Job, worker: WorkerId, now: Time) {
    && j'.status == Running && j'.worker == Some(worker) && j'.attempts == j.attempts + 1
    && j'.claimedAt == Some(now) && j'.heartbeatAt == Some(now) && j'.updatedAt == now
    && (j.startedAt.Some? ==> j'.startedAt == j.startedAt)
    && (j.startedAt.None? && j.status.Pending? ==> j'.startedAt == Some(now))
    && j'.user == j.user && j'.params == j.params && j'.createdAt == j.createdAt
    && j'.data == j.data && j'.errorCode == j.errorCode && j'.completedAt == j.completedAt
  }

  /** What a row failed by a claim call looks like: abandoned with no attempts
      left, or queued for longer than allowed. */
  ghost predicate GivenUp(cfg: Config, j: Job, j': Job, now: Time) {
    && j'.status == Failed && j'.completedAt == Some(now) && j'.attempts == j.attempts && j'.worker == j.worker
    && j'.user == j.user && j'.params == j.params && j'.createdAt == j.createdAt && j'.data == j.data
    && (if j.status.Running?
        then j.attempts >= j.maxAttempts && LeaseExpired(cfg, j, now) && j'.errorCode == Some("execution_timeout")
        else j.status.Pending? && j.createdAt < now - cfg.maxPending && j'.errorCode == Some("queue_timeout"))
  }

  lemma ClaimedRowIsTaken(j: Job, worker: WorkerId, now: Time)
    ensures TakenBy(j, ClaimedRow(j, worker, now), worker, now)
  {
  }

  lemma DoomedRowIsGivenUp(cfg: Config, j: Job, now: Time)
    requires Doomed(cfg, j, now) && Eligible(cfg, j, now)
    ensures GivenUp(cfg, j, FailedRow(j, DoomCode(j), now), now)
  {
  }

  /** What a call that took candidate `k`, or none, made of one row. */
  lemma RowAfterResult(cfg: Config, db: Db, r: (Db, Option<JobId>), cs: seq<JobId>, k: nat, worker: WorkerId,
                       now: Time, id: JobId)
    requires Scannable(cfg, db, cs) && k <= |cs| && ClaimResult(cfg, db, r, cs, k, worker, now)
    requires IsWinner(cfg, db, cs, k, now) && id in db.jobs
    ensures id in r.0.jobs
    ensures Some(id) == r.1 ==> id in cs && r.0.jobs[id] == ClaimedRow(db.jobs[id], worker, now)
    ensures Some(id) != r.1 ==>
              || r.0.jobs[id] == db.jobs[id]
              || (id in cs && Doomed(cfg, db.jobs[id], now)
                   && r.0.jobs[id] == FailedRow(db.jobs[id], DoomCode(db.jobs[id]), now))
  {
  }

  /** Row by row: the returned job is taken, some others are given up for a
      reason that holds, and every row that was not eligible is left alone; in
      particular no live lease is ever broken. */
  lemma EachRowAfterClaim(cfg: Config, db: Db, worker: WorkerId, now: Time, id: JobId)
    requires id in db.jobs
    ensures var (db', claimed) := Claim(cfg, db, worker, now);
            var j := db.jobs[id];
            && id in db'.jobs
            && var j' := db'.jobs[id];
               && (Some(id) == claimed ==> Eligible(cfg, j, now) && TakenBy(j, j', worker, now))
               && (Some(id) != claimed ==> j' == j || GivenUp(cfg, j, j', now))
               && (!Eligible(cfg, j, now) ==> j' == j && Some(id) != claimed)
  {
    var k := ClaimMeetsSpecification(cfg, db, worker, now);
    CandidatesAreRows(cfg, db.jobs, now);
    RowAfterResult(cfg, db, Claim(cfg, db, worker, now), Candidates(cfg, db.jobs, now), k, worker, now, id);
    ClaimedRowIsTaken(db.jobs[id], worker, now);
    if Doomed(cfg, db.jobs[id], now) && Eligible(cfg, db.jobs[id], now) {
      DoomedRowIsGivenUp(cfg, db.jobs[id], now);
    }
  }
}
