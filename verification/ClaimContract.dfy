/** What one claim call does to every row and to the books, said on the columns
    of the rows alone: nothing here uses a definition of the service but the
    call itself. */
module ClaimContract {
  import opened Domain
  import opened FiniteSums
  import opened JobOrder
  import opened UsageService
  import opened SimulationJobService
  import opened WorkerService
  import ClaimTheorem
  import Evolution
  import QueueProgress

  // ---- Rows ----

  /** Running, and not heard of within the lease. */
  predicate Abandoned(cfg: Config, job: Job, now: Time) {
    job.status == Running && (job.heartbeatAt == None || job.heartbeatAt.value < now - cfg.leaseTimeout)
  }

  /** The waiting or abandoned rows created before `id`, or at the same time with a smaller id. */
  function InFront(cfg: Config, jobs: map<JobId, Job>, id: JobId, now: Time): set<JobId>
    requires id in jobs
  {
    set e | e in jobs && (jobs[e].status == Pending || Abandoned(cfg, jobs[e], now))
         && (jobs[e].createdAt < jobs[id].createdAt || (jobs[e].createdAt == jobs[id].createdAt && e < id))
  }

  /** Among the ten rows the call looks at, and not behind the one it takes. */
  predicate Reached(cfg: Config, jobs: map<JobId, Job>, id: JobId, claimed: Option<JobId>, now: Time)
    requires id in jobs
  {
    && (jobs[id].status == Pending || Abandoned(cfg, jobs[id], now))
    && |InFront(cfg, jobs, id, now)| < 10
    && (claimed.Some? ==> claimed.value !in InFront(cfg, jobs, id, now))
  }

  /** Abandoned for the last time. */
  predicate UsedUp(cfg: Config, job: Job, now: Time) {
    Abandoned(cfg, job, now) && job.attempts >= job.maxAttempts
  }

  /** The other running jobs of the owner, without those this call has given up by then. */
  function OthersRunning(cfg: Config, jobs: map<JobId, Job>, id: JobId, now: Time): set<JobId>
    requires id in jobs
  {
    set e | e in jobs && e != id && jobs[e].status == Running && jobs[e].user == jobs[id].user
         && !(e in InFront(cfg, jobs, id, now) && UsedUp(cfg, jobs[e], now))
  }

  /** The owner is active and has a slot left; no plan, and a limit of zero, mean one slot. */
  predicate SlotFree(cfg: Config, db: Db, id: JobId, now: Time)
    requires id in db.jobs
  {
    var user := db.jobs[id].user;
    && user in db.users && db.users[user].active
    && var others := |OthersRunning(cfg, db.jobs, id, now)|;
       match db.users[user].plan
       case None => others < 1
       case Some(p) => others < if p.maxConcurrentSimulations == 0 then 1 else p.maxConcurrentSimulations
  }

  /** The row of `id` after the call. */
  ghost predicate RowAfter(cfg: Config, db: Db, worker: WorkerId, now: Time, id: JobId, j': Job, claimed: Option<JobId>)
    requires id in db.jobs
  {
    var j := db.jobs[id];
    if !Reached(cfg, db.jobs, id, claimed, now) then j' == j && claimed != Some(id)
    else if UsedUp(cfg, j, now) then
      && claimed != Some(id)
      && j' == j.(status := Failed, errorCode := Some("execution_timeout"), completedAt := Some(now), updatedAt := now)
    else if j.status == Pending && j.createdAt < now - cfg.maxPending then
      && claimed != Some(id)
      && j' == j.(status := Failed, errorCode := Some("queue_timeout"), completedAt := Some(now), updatedAt := now)
    else if SlotFree(cfg, db, id, now) then
      && claimed == Some(id)
      && j' == j.(status := Running, attempts := j.attempts + 1, worker := Some(worker), claimedAt := Some(now),
                  heartbeatAt := Some(now), updatedAt := now,
                  startedAt := if j.status == Pending && j.startedAt == None then Some(now) else j.startedAt)
    else j' == j && claimed != Some(id)
  }

  /** Oldest first, by creation time and then by id. */
  ghost predicate OldestFirst(jobs: map<JobId, Job>, s: seq<JobId>)
    requires forall id :: id in s ==> id in jobs
  {
    forall i, j :: 0 <= i < j < |s| ==>
      || jobs[s[i]].createdAt < jobs[s[j]].createdAt
      || (jobs[s[i]].createdAt == jobs[s[j]].createdAt && s[i] < s[j])
  }

  lemma SameRows(cfg: Config, jobs: map<JobId, Job>, id: JobId, now: Time)
    requires id in jobs
    ensures Eligible(cfg, jobs[id], now) <==> jobs[id].status == Pending || Abandoned(cfg, jobs[id], now)
    ensures InFront(cfg, jobs, id, now) == QueueProgress.Ahead(cfg, jobs, id, now)
  {
  }

  /** The query fetches exactly the waiting and abandoned rows with fewer than ten
      such rows in front of them, the oldest first. */
  lemma QueryOnColumns(cfg: Config, jobs: map<JobId, Job>, now: Time)
    ensures var cs := Candidates(cfg, jobs, now);
            && (forall id :: id in cs <==>
                  && id in jobs && (jobs[id].status == Pending || Abandoned(cfg, jobs[id], now))
                  && |InFront(cfg, jobs, id, now)| < 10)
            && OldestFirst(jobs, cs) && |cs| <= 10
  {
    var cs := Candidates(cfg, jobs, now);
    CandidatesAreRows(cfg, jobs, now);
    forall id | id in jobs
      ensures id in cs <==> (jobs[id].status == Pending || Abandoned(cfg, jobs[id], now))
                            && |InFront(cfg, jobs, id, now)| < 10
    {
      QueueProgress.FetchedIffNearTheFront(cfg, jobs, id, now);
      SameRows(cfg, jobs, id, now);
    }
    OrderIsOldestFirst(jobs, cs);
  }

  lemma OrderIsOldestFirst(jobs: map<JobId, Job>, s: seq<JobId>)
    requires StrictlyOrdered(jobs, s)
    ensures (forall id :: id in s ==> id in jobs) && OldestFirst(jobs, s)
  {
    forall i, j | 0 <= i < j < |s| ensures Before(jobs, s[i], s[j]) {
    }
  }

  /** A candidate is preceded among the candidates by exactly the rows in front of it. */
  lemma FrontOfCandidate(cfg: Config, jobs: map<JobId, Job>, i: nat, now: Time)
    requires i < |Candidates(cfg, jobs, now)|
    ensures var cs := Candidates(cfg, jobs, now);
            && cs[i] in jobs && InFront(cfg, jobs, cs[i], now) == Elements(cs[..i])
            && |InFront(cfg, jobs, cs[i], now)| == i
  {
    var cs := Candidates(cfg, jobs, now);
    CandidatesAreRows(cfg, jobs, now);
    assert cs[i] in cs;
    QueueProgress.PositionInOrder(jobs, cs, i);
    SameRows(cfg, jobs, cs[i], now);
    forall e | e in InFront(cfg, jobs, cs[i], now) ensures e in Elements(cs) {
      FetchedIfInFront(cfg, jobs, i, e, now);
    }
  }

  lemma FetchedIfInFront(cfg: Config, jobs: map<JobId, Job>, i: nat, e: JobId, now: Time)
    requires i < |Candidates(cfg, jobs, now)| && Candidates(cfg, jobs, now)[i] in jobs
    requires e in InFront(cfg, jobs, Candidates(cfg, jobs, now)[i], now)
    ensures e in Candidates(cfg, jobs, now)
  {
    var cs := Candidates(cfg, jobs, now);
    CandidatesAreRows(cfg, jobs, now);
    assert cs[i] in cs && e in EligibleIds(cfg, jobs, now);
    assert e !in cs ==> Before(jobs, cs[i], e);
  }

  /** The service's test for taking a candidate is the one on the columns. */
  lemma ClaimableMeansSlotFree(cfg: Config, db: Db, i: nat, now: Time)
    requires i < |Candidates(cfg, db.jobs, now)| && Candidates(cfg, db.jobs, now)[i] in db.jobs
    ensures var cs := Candidates(cfg, db.jobs, now);
            ClaimTheorem.Claimable(cfg, db, cs, i, now)
            <==> !ClaimTheorem.Doomed(cfg, db.jobs[cs[i]], now) && SlotFree(cfg, db, cs[i], now)
  {
    var cs := Candidates(cfg, db.jobs, now);
    var id, user := cs[i], db.jobs[cs[i]].user;
    FrontOfCandidate(cfg, db.jobs, i, now);
    CandidatesAreRows(cfg, db.jobs, now);
    var counted := RunningIds(db.jobs, user) - ClaimTheorem.DoomedAmong(cfg, db.jobs, cs[..i], now) - {id};
    forall e ensures e in counted <==> e in OthersRunning(cfg, db.jobs, id, now) {
      if e in db.jobs && e in Elements(cs[..i]) {
        assert e in cs[..i] && e in cs;
      }
    }
    assert counted == OthersRunning(cfg, db.jobs, id, now);
  }

  /** A call that takes candidate `k`, or none, reaches the candidates up to it. */
  lemma ReachedUpToWinner(cfg: Config, jobs: map<JobId, Job>, k: nat, i: nat, now: Time)
    requires k <= |Candidates(cfg, jobs, now)| && i < |Candidates(cfg, jobs, now)|
    requires Candidates(cfg, jobs, now)[i] in jobs
    ensures var cs := Candidates(cfg, jobs, now);
            Reached(cfg, jobs, cs[i], if k < |cs| then Some(cs[k]) else None, now) <==> i <= k
  {
    var cs := Candidates(cfg, jobs, now);
    FrontOfCandidate(cfg, jobs, i, now);
    CandidatesAreRows(cfg, jobs, now);
    OrderedApart(jobs, cs);
    SameRows(cfg, jobs, cs[i], now);
    assert cs[i] in cs;
    if k < i {
      assert cs[..i][k] == cs[k];
    }
  }

  lemma CandidateRow(cfg: Config, db: Db, worker: WorkerId, now: Time, r: (Db, Option<JobId>), k: nat, i: nat)
    requires var cs := Candidates(cfg, db.jobs, now);
             && ClaimTheorem.Scannable(cfg, db, cs) && i < |cs| && k <= |cs|
             && ClaimTheorem.ClaimResult(cfg, db, r, cs, k, worker, now)
    ensures var id := Candidates(cfg, db.jobs, now)[i];
            && id in db.jobs && id in r.0.jobs && (r.1 == Some(id) <==> i == k)
            && r.0.jobs[id] ==
                 if i == k then ClaimedRow(db.jobs[id], worker, now)
                 else if i < k && ClaimTheorem.Doomed(cfg, db.jobs[id], now) then
                   FailedRow(db.jobs[id], ClaimTheorem.DoomCode(db.jobs[id]), now)
                 else db.jobs[id]
  {
    var cs := Candidates(cfg, db.jobs, now);
    if i < k {
      assert cs[..k][i] == cs[i];
    } else {
      assert forall m :: 0 <= m < k ==> cs[..k][m] == cs[m] != cs[i];
      assert cs[i] !in cs[..k];
    }
  }

  /** The rows the service writes, column by column. */
  lemma RowsWritten(cfg: Config, j: Job, worker: WorkerId, now: Time)
    requires Eligible(cfg, j, now)
    ensures ClaimTheorem.Doomed(cfg, j, now)
        <==> UsedUp(cfg, j, now) || (j.status == Pending && j.createdAt < now - cfg.maxPending)
    ensures ClaimTheorem.Doomed(cfg, j, now) ==>
              FailedRow(j, ClaimTheorem.DoomCode(j), now)
                == j.(status := Failed, completedAt := Some(now), updatedAt := now,
                      errorCode := Some(if j.status == Pending then "queue_timeout" else "execution_timeout"))
    ensures ClaimedRow(j, worker, now)
         == j.(status := Running, attempts := j.attempts + 1, worker := Some(worker), claimedAt := Some(now),
               heartbeatAt := Some(now), updatedAt := now,
               startedAt := if j.status == Pending && j.startedAt == None then Some(now) else j.startedAt)
  {
  }

  /** Where candidate `i` ends up. */
  lemma CandidateAfter(cfg: Config, db: Db, worker: WorkerId, now: Time, r: (Db, Option<JobId>), k: nat, i: nat)
    requires var cs := Candidates(cfg, db.jobs, now);
             && ClaimTheorem.Scannable(cfg, db, cs) && i < |cs| && k <= |cs|
             && ClaimTheorem.IsWinner(cfg, db, cs, k, now)
             && ClaimTheorem.ClaimResult(cfg, db, r, cs, k, worker, now)
    ensures var id := Candidates(cfg, db.jobs, now)[i];
            id in r.0.jobs && RowAfter(cfg, db, worker, now, id, r.0.jobs[id], r.1)
  {
    var id := Candidates(cfg, db.jobs, now)[i];
    assert id in Candidates(cfg, db.jobs, now);
    CandidatesAreRows(cfg, db.jobs, now);
    CandidateRow(cfg, db, worker, now, r, k, i);
    RowsWritten(cfg, db.jobs[id], worker, now);
    ReachedUpToWinner(cfg, db.jobs, k, i, now);
    ClaimableMeansSlotFree(cfg, db, i, now);
  }

  lemma NonCandidateAfter(cfg: Config, db: Db, worker: WorkerId, now: Time, r: (Db, Option<JobId>), k: nat, id: JobId)
    requires var cs := Candidates(cfg, db.jobs, now);
             && ClaimTheorem.Scannable(cfg, db, cs) && k <= |cs| && id in db.jobs && id !in cs
             && ClaimTheorem.ClaimResult(cfg, db, r, cs, k, worker, now)
    ensures id in r.0.jobs && RowAfter(cfg, db, worker, now, id, r.0.jobs[id], r.1)
  {
    QueueProgress.FetchedIffNearTheFront(cfg, db.jobs, id, now);
    SameRows(cfg, db.jobs, id, now);
  }

  /** Every row after a claim call: which are given up and with what code, which
      one is taken, and that all others stay as they were. */
  lemma ClaimRowByRow(cfg: Config, db: Db, worker: WorkerId, now: Time, id: JobId)
    requires id in db.jobs
    ensures var (db', claimed) := Claim(cfg, db, worker, now);
            && db'.jobs.Keys == db.jobs.Keys && db'.users == db.users
            && (claimed.Some? ==> claimed.value in db.jobs)
            && RowAfter(cfg, db, worker, now, id, db'.jobs[id], claimed)
  {
    var (db', claimed) := Claim(cfg, db, worker, now);
    var cs := Candidates(cfg, db.jobs, now);
    var k := ClaimTheorem.ClaimMeetsSpecification(cfg, db, worker, now);
    Evolution.ClaimKeepsKeys(cfg, db, worker, now);
    if id in cs {
      var i :| 0 <= i < |cs| && cs[i] == id;
      CandidateAfter(cfg, db, worker, now, (db', claimed), k, i);
    } else {
      NonCandidateAfter(cfg, db, worker, now, (db', claimed), k, id);
    }
  }

  // ---- Books ----

  /** Those of `failed` that belong to `user`. */
  function Own(jobs: map<JobId, Job>, failed: seq<JobId>, user: UserId): set<JobId> {
    set id | id in failed && id in jobs && jobs[id].user == user
  }

  function InteractionsBy(jobs: map<JobId, Job>, ids: set<JobId>): map<JobId, int>
    requires ids <= jobs.Keys
  {
    map id | id in ids :: jobs[id].params.interactions
  }

  ghost function InteractionsOf(jobs: map<JobId, Job>, ids: set<JobId>): int
    requires ids <= jobs.Keys
  {
    Sum(InteractionsBy(jobs, ids))
  }

  function NotBelowZero(n: int): int { if n >= 0 then n else 0 }

  /** A row of counters less `requests` and `interactions`, if anything was given back at all. */
  function Less(row: Usage, requests: nat, interactions: int): Usage {
    if requests == 0 then row
    else Usage(NotBelowZero(row.requests - requests), NotBelowZero(row.interactions - interactions))
  }

  /** The user's counters after a refund for each of the user's rows in `failed`:
      only those of the current month change, and none falls below zero. */
  ghost predicate RefundedRow(jobs: map<JobId, Job>, failed: seq<JobId>, usage: UsageTable, usage': UsageTable,
                              user: UserId, period: Period, month: Period)
    requires (user, period) in usage && (user, period) in usage'
  {
    var own, row := Own(jobs, failed, user), usage[(user, period)];
    usage'[(user, period)] == if period == month then Less(row, |own|, InteractionsOf(jobs, own)) else row
  }

  ghost predicate Refunded(jobs: map<JobId, Job>, failed: seq<JobId>, usage: UsageTable, usage': UsageTable,
                           month: Period)
  {
    && usage'.Keys == usage.Keys
    && forall user: UserId, period: Period :: (user, period) in usage ==>
         RefundedRow(jobs, failed, usage, usage', user, period, month)
  }

  /** One failure event per row of `failed`, in this order, and nothing else. */
  ghost predicate Logged(jobs: map<JobId, Job>, failed: seq<JobId>, events: seq<Event>, events': seq<Event>, now: Time)
    requires forall id :: id in failed ==> id in jobs
  {
    && |events'| == |events| + |failed| && events <= events'
    && forall i :: 0 <= i < |failed| ==>
         events'[|events| + i] == Event(jobs[failed[i]].user, SimulationFailed, now, 0, Some(0), false)
  }

  /** The doomed rows of `s`, in order. */
  function Failing(cfg: Config, jobs: map<JobId, Job>, s: seq<JobId>, now: Time): seq<JobId>
    requires forall c :: c in s ==> c in jobs
  {
    if s == [] then [] else
    var last := s[|s| - 1];
    Failing(cfg, jobs, s[..|s| - 1], now) + if ClaimTheorem.Doomed(cfg, jobs[last], now) then [last] else []
  }

  lemma {:induction false} FailingIsOrdered(cfg: Config, jobs: map<JobId, Job>, s: seq<JobId>, now: Time)
    requires StrictlyOrdered(jobs, s) && forall c :: c in s ==> c in jobs
    ensures var failed := Failing(cfg, jobs, s, now);
            && (forall id :: id in failed <==> id in s && ClaimTheorem.Doomed(cfg, jobs[id], now))
            && OldestFirst(jobs, failed)
    decreases |s|
  {
    if s != [] {
      var init, last := s[..|s| - 1], s[|s| - 1];
      PrefixIsOrdered(jobs, s, init);
      FailingIsOrdered(cfg, jobs, init, now);
      assert s == init + [last];
      forall id | id in Failing(cfg, jobs, init, now) ensures Before(jobs, id, last) {
        var i :| 0 <= i < |init| && init[i] == id;
        assert s[i] == id;
      }
    }
  }

  lemma {:induction false} FailingLogged(cfg: Config, jobs: map<JobId, Job>, s: seq<JobId>, events: seq<Event>,
                                         now: Time)
    requires forall c :: c in s ==> c in jobs
    ensures var failed := Failing(cfg, jobs, s, now);
            && (forall id :: id in failed ==> id in s)
            && Logged(jobs, failed, events, events + ClaimTheorem.FailureLog(cfg, jobs, s, now), now)
    decreases |s|
  {
    if s != [] {
      FailingLogged(cfg, jobs, s[..|s| - 1], events, now);
    }
  }

  lemma OneMoreOwn(jobs: map<JobId, Job>, failed: seq<JobId>, id: JobId, user: UserId)
    requires id in jobs && id !in failed
    ensures var own, own' := Own(jobs, failed, user), Own(jobs, failed + [id], user);
            if jobs[id].user == user
            then own' == own + {id} && |own'| == |own| + 1
                 && InteractionsOf(jobs, own') == InteractionsOf(jobs, own) + jobs[id].params.interactions
            else own' == own
  {
    var own, own' := Own(jobs, failed, user), Own(jobs, failed + [id], user);
    if jobs[id].user == user {
      assert own' == own + {id};
      assert InteractionsBy(jobs, own') == InteractionsBy(jobs, own)[id := jobs[id].params.interactions];
      SumPut(InteractionsBy(jobs, own), id, jobs[id].params.interactions);
    } else {
      assert own' == own;
    }
  }

  lemma InteractionsNonNegative(jobs: map<JobId, Job>, ids: set<JobId>)
    requires ids <= jobs.Keys
    ensures InteractionsOf(jobs, ids) >= 0 && (ids == {} ==> InteractionsOf(jobs, ids) == 0)
  {
    SumNonNegative(InteractionsBy(jobs, ids));
  }

  lemma LessOneMore(row: Usage, requests: nat, interactions: int, n: nat)
    requires interactions >= 0 && (requests == 0 ==> interactions == 0)
    ensures var once := Less(row, requests, interactions);
            Usage(ClampedMinus(once.requests, 1), ClampedMinus(once.interactions, n))
              == Less(row, requests + 1, interactions + n)
  {
  }

  /** One refund more. */
  lemma RefundedOneMore(cfg: Config, jobs: map<JobId, Job>, failed: seq<JobId>, id: JobId, usage: UsageTable,
                        usage': UsageTable, now: Time)
    requires id in jobs && id !in failed && Refunded(jobs, failed, usage, usage', cfg.period(now))
    ensures Refunded(jobs, failed + [id], usage,
                     Refund(cfg, usage', jobs[id].user, jobs[id].params.interactions, now), cfg.period(now))
  {
    var usage'' := Refund(cfg, usage', jobs[id].user, jobs[id].params.interactions, now);
    assert usage''.Keys == usage'.Keys;
    forall user: UserId, period: Period | (user, period) in usage
      ensures RefundedRow(jobs, failed + [id], usage, usage'', user, period, cfg.period(now))
    {
      assert RefundedRow(jobs, failed, usage, usage', user, period, cfg.period(now));
      OneMoreOwn(jobs, failed, id, user);
      InteractionsNonNegative(jobs, Own(jobs, failed, user));
      LessOneMore(usage[(user, period)], |Own(jobs, failed, user)|, InteractionsOf(jobs, Own(jobs, failed, user)),
                  jobs[id].params.interactions);
    }
  }

  lemma NothingRefunded(jobs: map<JobId, Job>, usage: UsageTable, month: Period)
    ensures Refunded(jobs, [], usage, usage, month)
  {
    forall user: UserId, period: Period | (user, period) in usage
      ensures RefundedRow(jobs, [], usage, usage, user, period, month)
    {
      assert Own(jobs, [], user) == {};
    }
  }

  lemma {:induction false} FailingRefunded(cfg: Config, jobs: map<JobId, Job>, s: seq<JobId>, usage: UsageTable,
                                           now: Time)
    requires StrictlyOrdered(jobs, s) && forall c :: c in s ==> c in jobs
    ensures Refunded(jobs, Failing(cfg, jobs, s, now), usage, ClaimTheorem.RefundDoomed(cfg, usage, jobs, s, now),
                     cfg.period(now))
    decreases |s|
  {
    if s == [] {
      NothingRefunded(jobs, usage, cfg.period(now));
    } else {
      var init, last := s[..|s| - 1], s[|s| - 1];
      PrefixIsOrdered(jobs, s, init);
      FailingRefunded(cfg, jobs, init, usage, now);
      NotFailedBefore(cfg, jobs, s, now);
      if ClaimTheorem.Doomed(cfg, jobs[last], now) {
        RefundedOneMore(cfg, jobs, Failing(cfg, jobs, init, now), last, usage,
                        ClaimTheorem.RefundDoomed(cfg, usage, jobs, init, now), now);
      } else {
        assert Failing(cfg, jobs, init, now) + [] == Failing(cfg, jobs, init, now);
      }
    }
  }

  lemma NotFailedBefore(cfg: Config, jobs: map<JobId, Job>, s: seq<JobId>, now: Time)
    requires s != [] && StrictlyOrdered(jobs, s) && forall c :: c in s ==> c in jobs
    ensures s[|s| - 1] !in Failing(cfg, jobs, s[..|s| - 1], now)
  {
    var init := s[..|s| - 1];
    PrefixIsOrdered(jobs, s, init);
    OrderedApart(jobs, s);
    FailingIsOrdered(cfg, jobs, init, now);
    assert forall i :: 0 <= i < |init| ==> init[i] == s[i] != s[|s| - 1];
  }

  /** The rows that turned failed. */
  ghost predicate NewlyFailed(db: Db, db': Db, failed: seq<JobId>)
    requires db'.jobs.Keys == db.jobs.Keys
  {
    forall id :: id in failed <==> id in db.jobs && db.jobs[id].status != Failed && db'.jobs[id].status == Failed
  }

  lemma FailingTurnedFailed(cfg: Config, db: Db, r: (Db, Option<JobId>), k: nat, worker: WorkerId, now: Time, id: JobId)
    requires var cs := Candidates(cfg, db.jobs, now);
             && ClaimTheorem.Scannable(cfg, db, cs) && k <= |cs|
             && ClaimTheorem.ClaimResult(cfg, db, r, cs, k, worker, now)
    requires id in db.jobs && r.0.jobs.Keys == db.jobs.Keys
    ensures db.jobs[id].status != Failed && r.0.jobs[id].status == Failed
        <==> id in Candidates(cfg, db.jobs, now)[..k] && ClaimTheorem.Doomed(cfg, db.jobs[id], now)
  {
    var cs := Candidates(cfg, db.jobs, now);
    if k < |cs| {
      assert forall i :: 0 <= i < k ==> cs[..k][i] == cs[i] != cs[k];
    }
    assert id in cs[..k] ==> id in cs;
  }

  /** The books after a claim call: each row that turned failed is refunded to its
      owner and logged exactly once, oldest first, and nothing else is booked. */
  lemma ClaimBooks(cfg: Config, db: Db, worker: WorkerId, now: Time) returns (failed: seq<JobId>)
    ensures var db' := Claim(cfg, db, worker, now).0;
            && db'.jobs.Keys == db.jobs.Keys && NewlyFailed(db, db', failed)
            && OldestFirst(db.jobs, failed)
            && Logged(db.jobs, failed, db.events, db'.events, now)
            && Refunded(db.jobs, failed, db.usage, db'.usage, cfg.period(now))
  {
    var r, cs := Claim(cfg, db, worker, now), Candidates(cfg, db.jobs, now);
    var k := ClaimTheorem.ClaimMeetsSpecification(cfg, db, worker, now);
    Evolution.ClaimKeepsKeys(cfg, db, worker, now);
    CandidatesAreRows(cfg, db.jobs, now);
    PrefixIsOrdered(db.jobs, cs, cs[..k]);
    failed := Failing(cfg, db.jobs, cs[..k], now);
    FailingIsOrdered(cfg, db.jobs, cs[..k], now);
    FailingLogged(cfg, db.jobs, cs[..k], db.events, now);
    FailingRefunded(cfg, db.jobs, cs[..k], db.usage, now);
    forall id | id in db.jobs
      ensures id in failed <==> db.jobs[id].status != Failed && r.0.jobs[id].status == Failed
    {
      FailingTurnedFailed(cfg, db, r, k, worker, now, id);
    }
  }

  // ---- A call that raises ----

  /** The complete call gives up the doomed candidates up to its winner. */
  lemma WinnerIsUnique(cfg: Config, db: Db, k: nat, b: nat, inspected: nat, now: Time)
    requires var cs := Candidates(cfg, db.jobs, now);
             && ClaimTheorem.Scannable(cfg, db, cs) && ClaimTheorem.IsWinner(cfg, db, cs, k, now)
             && b <= |cs| && b <= inspected
             && (forall i :: 0 <= i < b ==> !ClaimTheorem.Claimable(cfg, db, cs, i, now))
             && (b < |cs| && b < inspected ==> ClaimTheorem.Claimable(cfg, db, cs, b, now))
    ensures b == if k <= inspected then k else inspected
  {
  }

  lemma GivenUpInWhole(cfg: Config, db: Db, worker: WorkerId, now: Time, r: (Db, Option<JobId>), k: nat, id: JobId)
    requires var cs := Candidates(cfg, db.jobs, now);
             && ClaimTheorem.Scannable(cfg, db, cs) && k <= |cs|
             && ClaimTheorem.ClaimResult(cfg, db, r, cs, k, worker, now)
    requires id in ClaimTheorem.DoomedAmong(cfg, db.jobs, Candidates(cfg, db.jobs, now)[..k], now)
    ensures id in db.jobs && id in r.0.jobs
    ensures r.0.jobs[id] == FailedRow(db.jobs[id], ClaimTheorem.DoomCode(db.jobs[id]), now)
    ensures db.jobs[id].status != Failed
  {
    var cs := Candidates(cfg, db.jobs, now);
    var i :| 0 <= i < k && cs[..k][i] == id;
    assert cs[i] == id;
    CandidateRow(cfg, db, worker, now, r, k, i);
  }

  lemma BrokenRow(cfg: Config, db: Db, worker: WorkerId, now: Time, r: (Db, Option<JobId>), db': Db, k: nat, b: nat,
                  inspected: nat, id: JobId)
    requires var cs := Candidates(cfg, db.jobs, now);
             && ClaimTheorem.Scannable(cfg, db, cs) && k <= |cs| && b == (if k <= inspected then k else inspected)
             && ClaimTheorem.ClaimResult(cfg, db, r, cs, k, worker, now)
             && ClaimTheorem.Passed(cfg, db, db', cs[..b], now)
    requires id in db.jobs && r.0.jobs.Keys == db.jobs.Keys
    ensures id in db'.jobs
    ensures var givenUp := db.jobs[id].status != Failed && r.0.jobs[id].status == Failed;
            && db'.jobs[id] == (if givenUp && |InFront(cfg, db.jobs, id, now)| < inspected then r.0.jobs[id]
                                else db.jobs[id])
            && (id in Candidates(cfg, db.jobs, now)[..b] && ClaimTheorem.Doomed(cfg, db.jobs[id], now)
                <==> givenUp && |InFront(cfg, db.jobs, id, now)| < inspected)
  {
    var cs := Candidates(cfg, db.jobs, now);
    FailingTurnedFailed(cfg, db, r, k, worker, now, id);
    if id in cs[..k] && ClaimTheorem.Doomed(cfg, db.jobs[id], now) {
      GivenUpInWhole(cfg, db, worker, now, r, k, id);
      var i :| 0 <= i < k && cs[..k][i] == id;
      assert cs[i] == id;
      FrontOfCandidate(cfg, db.jobs, i, now);
      InStart(cs, b, i);
    } else {
      assert cs[..b] <= cs[..k];
      assert id in cs[..b] ==> id in cs[..k];
    }
  }

  lemma InStart(cs: seq<JobId>, b: nat, i: nat)
    requires b <= |cs| && i < |cs| && forall i, j :: 0 <= i < j < |cs| ==> cs[i] != cs[j]
    ensures cs[i] in cs[..b] <==> i < b
  {
    if i < b {
      assert cs[..b][i] == cs[i];
    } else {
      assert forall j :: 0 <= j < b ==> cs[..b][j] == cs[j] != cs[i];
    }
  }

  lemma BrokenPasses(cfg: Config, db: Db, worker: WorkerId, now: Time, inspected: nat) returns (k: nat, b: nat)
    ensures var cs, r := Candidates(cfg, db.jobs, now), Claim(cfg, db, worker, now);
            && ClaimTheorem.Scannable(cfg, db, cs) && k <= |cs| && b == (if k <= inspected then k else inspected)
            && ClaimTheorem.ClaimResult(cfg, db, r, cs, k, worker, now)
            && ClaimTheorem.Passed(cfg, db, BrokenClaim(cfg, db, worker, now, inspected), cs[..b], now)
            && r.0.jobs.Keys == db.jobs.Keys
  {
    k := ClaimTheorem.ClaimMeetsSpecification(cfg, db, worker, now);
    b := ClaimTheorem.BrokenClaimMeetsSpecification(cfg, db, worker, now, inspected);
    WinnerIsUnique(cfg, db, k, b, inspected, now);
    Evolution.ClaimKeepsKeys(cfg, db, worker, now);
  }

  /** A call that raises once `inspected` candidates are behind it gives up those
      rows the complete call would give up that have fewer than `inspected` in
      front of them, and takes none. */
  lemma BrokenClaimRowByRow(cfg: Config, db: Db, worker: WorkerId, now: Time, inspected: nat, id: JobId)
    requires id in db.jobs
    ensures var whole, db' := Claim(cfg, db, worker, now).0, BrokenClaim(cfg, db, worker, now, inspected);
            && id in db'.jobs && id in whole.jobs && db'.users == db.users
            && var givenUp := db.jobs[id].status != Failed && whole.jobs[id].status == Failed;
               db'.jobs[id] == if givenUp && |InFront(cfg, db.jobs, id, now)| < inspected then whole.jobs[id]
                               else db.jobs[id]
  {
    var k, b := BrokenPasses(cfg, db, worker, now, inspected);
    BrokenRow(cfg, db, worker, now, Claim(cfg, db, worker, now), BrokenClaim(cfg, db, worker, now, inspected), k, b,
              inspected, id);
  }

  lemma PassedKeepsKeys(cfg: Config, db: Db, db': Db, s: seq<JobId>, now: Time)
    requires (forall c :: c in s ==> c in db.jobs) && ClaimTheorem.Passed(cfg, db, db', s, now)
    requires forall c :: c in s ==> db.jobs[c].status != Failed
    ensures db'.jobs.Keys == db.jobs.Keys
    ensures forall id :: id in db.jobs ==>
              (db.jobs[id].status != Failed && db'.jobs[id].status == Failed
               <==> id in s && ClaimTheorem.Doomed(cfg, db.jobs[id], now))
  {
    assert forall x :: x in db'.jobs <==> x in db.jobs;
  }

  /** It refunds and logs what it gave up, once each, and books nothing else. */
  lemma BrokenClaimBooks(cfg: Config, db: Db, worker: WorkerId, now: Time, inspected: nat)
    returns (failed: seq<JobId>)
    ensures var db' := BrokenClaim(cfg, db, worker, now, inspected);
            && db'.jobs.Keys == db.jobs.Keys && NewlyFailed(db, db', failed) && OldestFirst(db.jobs, failed)
            && Logged(db.jobs, failed, db.events, db'.events, now)
            && Refunded(db.jobs, failed, db.usage, db'.usage, cfg.period(now))
  {
    var s := Candidates(cfg, db.jobs, now);
    var _, b := BrokenPasses(cfg, db, worker, now, inspected);
    CandidatesAreRows(cfg, db.jobs, now);
    PrefixIsOrdered(db.jobs, s, s[..b]);
    assert forall c :: c in s[..b] ==> c in s;
    failed := Failing(cfg, db.jobs, s[..b], now);
    FailingIsOrdered(cfg, db.jobs, s[..b], now);
    FailingLogged(cfg, db.jobs, s[..b], db.events, now);
    FailingRefunded(cfg, db.jobs, s[..b], db.usage, now);
    PassedKeepsKeys(cfg, db, BrokenClaim(cfg, db, worker, now, inspected), s[..b], now);
  }
}
