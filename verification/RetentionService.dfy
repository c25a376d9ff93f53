/** Removing expired rows in batches (app/services/retention.py). */
module RetentionService {
  import opened Domain
  import opened Database
  import opened JobOrder
  import opened SimulationJobService

  const MICROSECONDS_PER_DAY: int := 86400 * 1000000

  datatype CleanupResult =
    | ValueError
    | Cleanup(eligible: nat, deleted: nat, batches: nat, cutoff: Time, dryRun: bool, success: bool)

  predicate Expired(job: Job, cutoff: Time) {
    job.status.Terminal() && job.createdAt < cutoff
  }

  function ExpiredIds(jobs: map<JobId, Job>, cutoff: Time): set<JobId> {
    set id | id in jobs && Expired(jobs[id], cutoff)
  }

  /** The cleaner's query: the oldest expired rows, at most a batch of them. */
  function ExpiredBatch(jobs: map<JobId, Job>, cutoff: Time, batchSize: nat): seq<JobId> {
    var all := Sorted(jobs, ExpiredIds(jobs, cutoff));
    if |all| <= batchSize then all else all[..batchSize]
  }

  function Cutoff(retentionDays: int, override: Option<Time>, now: Time): Time {
    if override.Some? then override.value else now - retentionDays * MICROSECONDS_PER_DAY
  }

  /** The first `n` rows of the order of deletion. */
  function OldestExpired(jobs: map<JobId, Job>, cutoff: Time, n: nat): set<JobId> {
    var all := Sorted(jobs, ExpiredIds(jobs, cutoff));
    Elements(if n <= |all| then all[..n] else all)
  }

  /** How many batches it takes. */
  function Ceiling(n: nat, batchSize: nat): nat
    requires batchSize >= 1
  {
    (n + batchSize - 1) / batchSize
  }

  lemma BatchIsExpired(jobs: map<JobId, Job>, cutoff: Time, batchSize: nat)
    ensures var batch := ExpiredBatch(jobs, cutoff, batchSize);
            && StrictlyOrdered(jobs, batch) && |batch| <= batchSize
            && (forall id :: id in batch ==> id in ExpiredIds(jobs, cutoff))
            && (forall id, other :: id in batch && other in ExpiredIds(jobs, cutoff) && other !in batch ==>
                 Before(jobs, id, other))
            && (|batch| < batchSize ==> Elements(batch) == ExpiredIds(jobs, cutoff))
  {
    var ids := ExpiredIds(jobs, cutoff);
    var all := Sorted(jobs, ids);
    SortedIsOrdered(jobs, ids);
    var batch := ExpiredBatch(jobs, cutoff, batchSize);
    forall id | id in batch ensures id in ids {
      assert id in Elements(all);
    }
    forall id, other | id in batch && other in ids && other !in batch ensures Before(jobs, id, other) {
      assert other in Elements(all);
      var i :| 0 <= i < |batch| && batch[i] == id;
      var j :| 0 <= j < |all| && all[j] == other;
      assert all[i] == id;
    }
  }

  /** With the oldest `n` expired rows gone, the rest stays in order. */
  lemma RestInOrder(jobs: map<JobId, Job>, cutoff: Time, n: nat)
    requires n <= |Sorted(jobs, ExpiredIds(jobs, cutoff))|
    ensures var jobs' := jobs - OldestExpired(jobs, cutoff, n);
            Sorted(jobs', ExpiredIds(jobs', cutoff)) == Sorted(jobs, ExpiredIds(jobs, cutoff))[n..]
  {
    var ids := ExpiredIds(jobs, cutoff);
    var gone := OldestExpired(jobs, cutoff, n);
    SortedSuffix(jobs, ids, n);
    assert ExpiredIds(jobs - gone, cutoff) == ids - gone;
    SortedFrame(jobs, jobs - gone, ids - gone);
  }

  lemma StretchOfOrder(jobs: map<JobId, Job>, ids: set<JobId>, n: nat, next: nat)
    requires ids <= jobs.Keys && n <= next <= |Sorted(jobs, ids)|
    ensures var stretch := Sorted(jobs, ids)[n..next];
            |Elements(stretch)| == next - n && Elements(stretch) <= ids
  {
    SortedIsOrdered(jobs, ids);
    var all := Sorted(jobs, ids);
    OrderedDistinct(jobs, all[n..next]);
    SplitElements(all, n, next);
    assert all[..|all|] == all;
    SplitElements(all, next, |all|);
  }

  /** Once the oldest `n` expired rows are gone, the next batch is the next
      stretch of the same order. */
  lemma NextBatch(jobs: map<JobId, Job>, cutoff: Time, n: nat, batchSize: nat)
    requires n <= |ExpiredIds(jobs, cutoff)|
    ensures |Sorted(jobs, ExpiredIds(jobs, cutoff))| == |ExpiredIds(jobs, cutoff)|
    ensures var all := Sorted(jobs, ExpiredIds(jobs, cutoff));
            var jobs' := jobs - OldestExpired(jobs, cutoff, n);
            var next := Min(n + batchSize, |all|);
            && ExpiredBatch(jobs', cutoff, batchSize) == all[n..next]
            && |Elements(all[n..next])| == next - n
            && jobs' - Elements(all[n..next]) == jobs - OldestExpired(jobs, cutoff, next)
  {
    var ids := ExpiredIds(jobs, cutoff);
    var all := Sorted(jobs, ids);
    SortedIsOrdered(jobs, ids);
    RestInOrder(jobs, cutoff, n);
    var next := Min(n + batchSize, |all|);
    StretchOfOrder(jobs, ids, n, next);
    if |all[n..]| <= batchSize {
      assert all[n..next] == all[n..];
    } else {
      assert all[n..next] == all[n..][..batchSize];
    }
    SplitElements(all, n, next);
    MinusTwice(jobs, Elements(all[..n]), Elements(all[n..next]));
  }

  lemma MinusTwice(jobs: map<JobId, Job>, a: set<JobId>, b: set<JobId>)
    ensures jobs - a - b == jobs - (a + b)
  {
  }

  lemma SplitElements(s: seq<JobId>, n: nat, next: nat)
    requires n <= next <= |s|
    ensures Elements(s[..next]) == Elements(s[..n]) + Elements(s[n..next])
  {
    forall x | x in Elements(s[..next]) ensures x in Elements(s[..n]) + Elements(s[n..next]) {
      var i :| 0 <= i < next && s[..next][i] == x;
      if i < n {
        assert s[..n][i] == x;
      } else {
        assert s[n..next][i - n] == x;
      }
    }
    forall x | x in Elements(s[n..next]) ensures x in Elements(s[..next]) {
      var i :| 0 <= i < next - n && s[n..next][i] == x;
      assert s[..next][n + i] == x;
    }
    forall x | x in Elements(s[..n]) ensures x in Elements(s[..next]) {
      var i :| 0 <= i < n && s[..n][i] == x;
      assert s[..next][i] == x;
    }
  }

  // ---- The same on the columns ----

  /** Completed or failed, and created more than the given days ago or before the
      time given instead. */
  predicate Old(job: Job, retentionDays: int, override: Option<Time>, now: Time) {
    && job.status in {Completed, Failed}
    && match override
       case None => job.createdAt + retentionDays * 86400000000 < now
       case Some(t) => job.createdAt < t
  }

  function OldIds(jobs: map<JobId, Job>, retentionDays: int, override: Option<Time>, now: Time): set<JobId> {
    set id | id in jobs && Old(jobs[id], retentionDays, override, now)
  }

  /** By creation time and then by id, `gone` are the first of `aged`. */
  ghost predicate OldestOf(jobs: map<JobId, Job>, gone: set<JobId>, aged: set<JobId>)
    requires gone <= jobs.Keys && aged <= jobs.Keys
  {
    gone <= aged && forall g, k :: g in gone && k in aged && k !in gone ==>
      jobs[g].createdAt < jobs[k].createdAt || (jobs[g].createdAt == jobs[k].createdAt && g < k)
  }

  /** `left` is `jobs` without the oldest of `aged`. */
  ghost predicate OldestGone(jobs: map<JobId, Job>, left: map<JobId, Job>, aged: set<JobId>)
    requires aged <= jobs.Keys
  {
    var gone := jobs.Keys - left.Keys;
    left == jobs - gone && OldestOf(jobs, gone, aged)
  }

  lemma WithoutOldest(jobs: map<JobId, Job>, gone: set<JobId>, aged: set<JobId>)
    requires gone <= jobs.Keys && aged <= jobs.Keys && OldestOf(jobs, gone, aged)
    ensures OldestGone(jobs, jobs - gone, aged)
  {
    assert jobs.Keys - (jobs - gone).Keys == gone;
  }

  lemma OldIsExpired(jobs: map<JobId, Job>, retentionDays: int, override: Option<Time>, now: Time)
    ensures OldIds(jobs, retentionDays, override, now) == ExpiredIds(jobs, Cutoff(retentionDays, override, now))
  {
  }

  lemma FirstOfOrder(jobs: map<JobId, Job>, all: seq<JobId>, first: seq<JobId>, gone: JobId, kept: JobId)
    requires StrictlyOrdered(jobs, all) && first <= all
    requires gone in Elements(first) && kept in Elements(all) && kept !in Elements(first)
    ensures gone in jobs && kept in jobs && Before(jobs, gone, kept)
  {
    var i :| 0 <= i < |first| && first[i] == gone;
    var j :| 0 <= j < |all| && all[j] == kept;
    assert forall m :: 0 <= m < |first| ==> first[m] == all[m] && first[m] in Elements(first);
  }

  lemma OldestExpiredSize(jobs: map<JobId, Job>, cutoff: Time, n: nat)
    ensures n <= |ExpiredIds(jobs, cutoff)| ==> |OldestExpired(jobs, cutoff, n)| == n
    ensures OldestExpired(jobs, cutoff, n) <= ExpiredIds(jobs, cutoff)
  {
    var all := Sorted(jobs, ExpiredIds(jobs, cutoff));
    SortedIsOrdered(jobs, ExpiredIds(jobs, cutoff));
    var first := if n <= |all| then all[..n] else all;
    PrefixIsOrdered(jobs, all, first);
    OrderedDistinct(jobs, first);
    forall gone | gone in Elements(first) ensures gone in Elements(all) {
      var i :| 0 <= i < |first| && first[i] == gone;
      assert all[i] == gone;
    }
  }

  lemma OldestExpiredGone(jobs: map<JobId, Job>, cutoff: Time, n: nat)
    ensures OldestGone(jobs, jobs - OldestExpired(jobs, cutoff, n), ExpiredIds(jobs, cutoff))
    ensures n <= |ExpiredIds(jobs, cutoff)| ==> |OldestExpired(jobs, cutoff, n)| == n
    ensures OldestExpired(jobs, cutoff, n) <= ExpiredIds(jobs, cutoff)
  {
    var ids, first := ExpiredIds(jobs, cutoff), OldestExpired(jobs, cutoff, n);
    OldestExpiredSize(jobs, cutoff, n);
    SortedIsOrdered(jobs, ids);
    forall g, k | g in first && k in ids && k !in first ensures Before(jobs, g, k) {
      var all := Sorted(jobs, ids);
      FirstOfOrder(jobs, all, if n <= |all| then all[..n] else all, g, k);
    }
    WithoutOldest(jobs, first, ids);
  }

  function AgedIds(jobs: map<JobId, Job>, cutoff: Time): set<JobId> {
    set id | id in jobs && jobs[id].status in {Completed, Failed} && jobs[id].createdAt < cutoff
  }

  lemma AgedIsExpired(jobs: map<JobId, Job>, cutoff: Time)
    ensures AgedIds(jobs, cutoff) == ExpiredIds(jobs, cutoff)
  {
  }

  /** At most a batch of the completed and failed rows created before the cutoff
      is gone, the oldest of them, and if it is not full none is left. */
  ghost predicate BatchGone(jobs: map<JobId, Job>, left: map<JobId, Job>, cutoff: Time, batchSize: nat, deleted: nat,
                            found: nat)
  {
    var aged := AgedIds(jobs, cutoff);
    && OldestGone(jobs, left, aged) && |left| + deleted == |jobs|
    && deleted == found == (if |aged| <= batchSize then |aged| else batchSize)
  }

  lemma BatchIsOldest(jobs: map<JobId, Job>, cutoff: Time, batchSize: nat)
    ensures var batch, aged := ExpiredBatch(jobs, cutoff, batchSize), |ExpiredIds(jobs, cutoff)|;
            && Elements(batch) == OldestExpired(jobs, cutoff, batchSize)
            && |Elements(batch)| == |batch| == if aged <= batchSize then aged else batchSize
  {
    var all := Sorted(jobs, ExpiredIds(jobs, cutoff));
    SortedIsOrdered(jobs, ExpiredIds(jobs, cutoff));
    PrefixIsOrdered(jobs, all, ExpiredBatch(jobs, cutoff, batchSize));
    OrderedDistinct(jobs, ExpiredBatch(jobs, cutoff, batchSize));
    assert all[..|all|] == all;
  }

  /** What the selection of a batch comes to, once deleted. */
  lemma BatchOnColumns(jobs: map<JobId, Job>, cutoff: Time, batchSize: nat)
    ensures var batch := ExpiredBatch(jobs, cutoff, batchSize);
            BatchGone(jobs, jobs - Elements(batch), cutoff, batchSize, |Elements(batch)|, |batch|)
  {
    AgedIsExpired(jobs, cutoff);
    BatchIsOldest(jobs, cutoff, batchSize);
    OldestExpiredGone(jobs, cutoff, batchSize);
    LeftOver(jobs, OldestExpired(jobs, cutoff, batchSize));
  }

  lemma LeftOver(jobs: map<JobId, Job>, gone: set<JobId>)
    requires gone <= jobs.Keys
    ensures |jobs - gone| + |gone| == |jobs|
  {
    assert (jobs - gone).Keys == jobs.Keys - gone;
  }

  // ---- The service ----

  method CountEligibleSimulations(db: Database, cutoff: Time) returns (count: nat)
    ensures count == |ExpiredIds(db.jobs, cutoff)|
    ensures count == |AgedIds(db.jobs, cutoff)|
  {
    count := |set id | id in db.jobs && db.jobs[id].status in {Completed, Failed} && db.jobs[id].createdAt < cutoff|;
    AgedIsExpired(db.jobs, cutoff);
    assert (set id | id in db.jobs && db.jobs[id].status in {Completed, Failed} && db.jobs[id].createdAt < cutoff)
        == AgedIds(db.jobs, cutoff);
  }

  /** How many rows `DELETE ... WHERE id IN ids` removes. */
  function RowCount(jobs: map<JobId, Job>, ids: set<JobId>): (n: nat)
    ensures ids <= jobs.Keys ==> n == |ids|
  {
    var present := set id | id in ids && id in jobs;
    assert ids <= jobs.Keys ==> present == ids;
    |present|
  }

  /** Selects ids, then deletes by id. `raises` stands for a database error
      before the commit. */
  method PerformBatchDelete(db: Database, cutoff: Time, batchSize: nat, raises: bool)
    returns (ok: bool, deleted: nat, found: nat)
    modifies db
    ensures ok == !raises
    ensures raises ==> db.Snapshot() == old(db.Snapshot())
    ensures ok ==>
              var batch := ExpiredBatch(old(db.jobs), cutoff, batchSize);
              && db.Snapshot() == RemoveRows(old(db.Snapshot()), Elements(batch))
              && found == |batch| && deleted == |Elements(batch)|
  {
    if raises {
      return false, 0, 0;
    }
    var candidates := ExpiredBatch(db.jobs, cutoff, batchSize);
    if candidates == [] {
      assert RemoveRows(db.Snapshot(), {}).jobs == db.jobs && RemoveRows(db.Snapshot(), {}).hist == db.hist;
      return true, 0, 0;
    }
    ghost var before := db.Snapshot();
    BatchIsExpired(db.jobs, cutoff, batchSize);
    var doomed := Elements(candidates);
    assert forall id :: id in doomed ==> id in candidates;
    deleted := RowCount(db.jobs, doomed);
    db.jobs := db.jobs - doomed;
    db.hist := RemoveRows(before, doomed).hist;
    return true, deleted, |candidates|;
  }

  /** So many batches make `deleted` of `n` rows, all full but perhaps the one that reached the end. */
  predicate FullButLast(deleted: nat, batches: nat, batchSize: int, n: nat) {
    && deleted <= n && (batches - 1) * batchSize < deleted <= batches * batchSize
    && (deleted < n ==> deleted == batches * batchSize)
  }

  /** What a run has deleted and reports, in full batches but for the last one. */
  ghost predicate Cleaned(jobs: map<JobId, Job>, left: map<JobId, Job>, retentionDays: int, batchSize: int,
                          override: Option<Time>, countRaises: bool, now: Time, r: CleanupResult)
    requires r.Cleanup?
  {
    var aged := OldIds(jobs, retentionDays, override, now);
    && r.cutoff == (match override case None => now - retentionDays * 86400000000 case Some(t) => t)
    && r.eligible == (if countRaises then 0 else |aged|)
    && OldestGone(jobs, left, aged) && |left| + r.deleted == |jobs|
    && (r.dryRun || countRaises ==> left == jobs && r.deleted == 0 && r.batches == 0)
    && (!r.dryRun && !countRaises ==> FullButLast(r.deleted, r.batches, batchSize, |aged|))
    && (!r.dryRun && !countRaises && r.success ==>
          r.deleted == |aged| && forall id :: id in left ==> !Old(left[id], retentionDays, override, now))
  }

  lemma BatchesHold(k: nat, batchSize: nat, n: nat)
    requires batchSize >= 1 && k <= Ceiling(n, batchSize)
    ensures FullButLast(Progress(k, batchSize, n), k, batchSize, n)
    ensures k == Ceiling(n, batchSize) ==> Progress(k, batchSize, n) == n
  {
    ProgressStep(k, batchSize, n);
    assert (k - 1) * batchSize == k * batchSize - batchSize;
    if k >= 1 {
      ProgressStep(k - 1, batchSize, n);
      assert Progress(k - 1, batchSize, n) < n;
    }
  }

  lemma CleanedBatches(jobs: map<JobId, Job>, left: map<JobId, Job>, retentionDays: int, batchSize: nat,
                       override: Option<Time>, now: Time, r: CleanupResult)
    requires batchSize >= 1 && r.Cleanup? && !r.dryRun && r.cutoff == Cutoff(retentionDays, override, now)
    requires r.eligible == |ExpiredIds(jobs, r.cutoff)| && r.batches <= Ceiling(r.eligible, batchSize)
    requires r.success ==> r.batches == Ceiling(r.eligible, batchSize)
    requires r.deleted == Progress(r.batches, batchSize, r.eligible)
    requires left == jobs - OldestExpired(jobs, r.cutoff, r.deleted)
    ensures Cleaned(jobs, left, retentionDays, batchSize, override, false, now, r)
  {
    BatchesHold(r.batches, batchSize, r.eligible);
    CleanedRows(jobs, left, retentionDays, override, now, r.cutoff, r.deleted);
  }

  lemma CleanedRows(jobs: map<JobId, Job>, left: map<JobId, Job>, retentionDays: int, override: Option<Time>, now: Time,
                    cutoff: Time, deleted: nat)
    requires cutoff == Cutoff(retentionDays, override, now) && deleted <= |ExpiredIds(jobs, cutoff)|
    requires left == jobs - OldestExpired(jobs, cutoff, deleted)
    ensures var aged := OldIds(jobs, retentionDays, override, now);
            && aged == ExpiredIds(jobs, cutoff) && aged <= jobs.Keys
            && OldestGone(jobs, left, aged) && |left| + deleted == |jobs|
            && (deleted == |aged| ==> forall id :: id in left ==> !Old(left[id], retentionDays, override, now))
  {
    OldIsExpired(jobs, retentionDays, override, now);
    OldestExpiredGone(jobs, cutoff, deleted);
    LeftOver(jobs, OldestExpired(jobs, cutoff, deleted));
    if deleted == |ExpiredIds(jobs, cutoff)| {
      EverythingDeleted(jobs, cutoff);
      NoneLeft(jobs, left, retentionDays, override, now);
    }
  }

  lemma NoneLeft(jobs: map<JobId, Job>, left: map<JobId, Job>, retentionDays: int, override: Option<Time>, now: Time)
    requires left == jobs - OldIds(jobs, retentionDays, override, now)
    ensures forall id :: id in left ==> !Old(left[id], retentionDays, override, now)
  {
  }

  lemma NothingCleaned(jobs: map<JobId, Job>, retentionDays: int, batchSize: nat, override: Option<Time>,
                       countRaises: bool, now: Time, r: CleanupResult)
    requires r.Cleanup? && r.cutoff == Cutoff(retentionDays, override, now)
    requires (r.dryRun || countRaises) && r.deleted == 0 && r.batches == 0
    requires r.eligible == if countRaises then 0 else |ExpiredIds(jobs, r.cutoff)|
    ensures Cleaned(jobs, jobs, retentionDays, batchSize, override, countRaises, now, r)
  {
    OldIsExpired(jobs, retentionDays, override, now);
  }

  /** One cleaner by itself. `countRaises` stands for a database error in the
      initial count, `failingBatch` is the first batch, if any, at which the
      database raises. */
  method CleanupExpiredSimulations(db: Database, retentionDays: int, batchSize: int, dryRun: bool,
                                   override: Option<Time>, countRaises: bool, failingBatch: Option<nat>, now: Time)
    returns (r: CleanupResult)
    modifies db
    ensures r.ValueError? <==> retentionDays < 1 || batchSize < 1 || batchSize > 1000
    ensures r.ValueError? || dryRun || countRaises ==> db.Snapshot() == old(db.Snapshot())
    ensures db.usage == old(db.usage) && db.events == old(db.events) && db.users == old(db.users)
    ensures r.Cleanup? ==> r.cutoff == Cutoff(retentionDays, override, now) && r.dryRun == dryRun
    ensures r.Cleanup? && countRaises ==> !r.success && r.eligible == 0 && r.deleted == 0 && r.batches == 0
    ensures r.Cleanup? && !countRaises ==> r.eligible == |ExpiredIds(old(db.jobs), r.cutoff)|
    ensures r.Cleanup? && !countRaises && dryRun ==> r.deleted == 0 && r.batches == 0 && r.success
    // undisturbed: exactly the expired rows go, in as many batches as needed
    ensures r.Cleanup? && !countRaises && !dryRun && r.success ==>
              && r.deleted == r.eligible && r.batches == Ceiling(r.eligible, batchSize)
              && db.jobs == old(db.jobs) - ExpiredIds(old(db.jobs), r.cutoff)
    // failing: the batches committed before, and they stay counted
    ensures r.Cleanup? && !countRaises && !dryRun && !r.success ==>
              && failingBatch == Some(r.batches) && r.batches <= Ceiling(r.eligible, batchSize)
              && r.deleted == Progress(r.batches, batchSize, r.eligible)
              && db.jobs == old(db.jobs) - OldestExpired(old(db.jobs), r.cutoff, r.deleted)
    ensures r.Cleanup? && !countRaises && !dryRun ==>
              (r.success <==>
                  r.eligible == 0 || failingBatch.None? || failingBatch.value > Ceiling(r.eligible, batchSize))
    // the same on the columns of the rows
    ensures r.Cleanup? ==> Cleaned(old(db.jobs), db.jobs, retentionDays, batchSize, override, countRaises, now, r)
  {
    ghost var before := db.jobs;
    if retentionDays < 1 || batchSize < 1 || batchSize > 1000 {
      return ValueError;
    }
    var cutoff := Cutoff(retentionDays, override, now);
    if countRaises {
      r := Cleanup(0, 0, 0, cutoff, dryRun, false);
      NothingCleaned(before, retentionDays, batchSize, override, true, now, r);
      return;
    }
    var eligible := CountEligibleSimulations(db, cutoff);
    if dryRun {
      r := Cleanup(eligible, 0, 0, cutoff, true, true);
      NothingCleaned(before, retentionDays, batchSize, override, false, now, r);
      return;
    }
    if eligible == 0 {
      NothingExpired(db.jobs, cutoff, batchSize);
      r := Cleanup(0, 0, 0, cutoff, false, true);
    } else {
      var success, deleted, batches := DeleteBatches(db, cutoff, batchSize, failingBatch, eligible);
      r := Cleanup(eligible, deleted, batches, cutoff, false, success);
    }
    EverythingDeleted(before, cutoff);
    CleanedBatches(before, db.jobs, retentionDays, batchSize, override, now, r);
  }

  /** The batch loop, until a query finds nothing or the database raises. */
  method DeleteBatches(db: Database, cutoff: Time, batchSize: nat, failingBatch: Option<nat>, ghost eligible: nat)
    returns (success: bool, deleted: nat, batches: nat)
    requires batchSize >= 1 && eligible == |ExpiredIds(db.jobs, cutoff)|
    modifies db
    ensures db.usage == old(db.usage) && db.events == old(db.events) && db.users == old(db.users)
    ensures success <==> failingBatch.None? || failingBatch.value > Ceiling(eligible, batchSize)
    ensures batches == if success then Ceiling(eligible, batchSize) else failingBatch.value
    ensures deleted == Progress(batches, batchSize, eligible)
    ensures success ==> deleted == eligible && db.jobs == old(db.jobs) - ExpiredIds(old(db.jobs), cutoff)
    ensures db.jobs == old(db.jobs) - OldestExpired(old(db.jobs), cutoff, deleted)
  {
    ghost var jobs := db.jobs;
    deleted, batches := 0, 0;
    NothingDeletedYet(jobs, cutoff, batchSize);
    while true
      invariant db.usage == old(db.usage) && db.events == old(db.events) && db.users == old(db.users)
      invariant AfterBatches(jobs, db.jobs, cutoff, batchSize, batches, deleted)
      invariant failingBatch.Some? ==> batches <= failingBatch.value
      decreases eligible - deleted
    {
      var ok, inBatch,
          found := DeleteSingleBatch(db, cutoff, batchSize, failingBatch == Some(batches), jobs, batches, deleted);
      if !ok {
        return false, deleted, batches;
      }
      if found == 0 {
        break;
      }
      deleted := deleted + inBatch;
      if inBatch > 0 {
        batches := batches + 1;
      }
    }
    EverythingDeleted(jobs, cutoff);
    return true, deleted, batches;
  }

  /** One round of the loop, as a step through the order of the initial rows `jobs`. */
  method DeleteSingleBatch(db: Database, cutoff: Time, batchSize: nat, raises: bool, ghost jobs: map<JobId, Job>,
                           ghost batches: nat, ghost deleted: nat)
    returns (ok: bool, inBatch: nat, found: nat)
    requires batchSize >= 1 && AfterBatches(jobs, db.jobs, cutoff, batchSize, batches, deleted)
    modifies db
    ensures ok == !raises
    ensures db.usage == old(db.usage) && db.events == old(db.events) && db.users == old(db.users)
    ensures !ok || found == 0 ==> db.jobs == old(db.jobs)
    ensures ok ==> inBatch == found && deleted + found <= |ExpiredIds(jobs, cutoff)|
    ensures ok && found == 0 ==>
              deleted == |ExpiredIds(jobs, cutoff)| && batches == Ceiling(|ExpiredIds(jobs, cutoff)|, batchSize)
    ensures ok && found > 0 ==>
              && batches < Ceiling(|ExpiredIds(jobs, cutoff)|, batchSize)
              && AfterBatches(jobs, db.jobs, cutoff, batchSize, batches + 1, deleted + found)
  {
    ghost var left, batch := db.jobs, ExpiredBatch(db.jobs, cutoff, batchSize);
    BatchRound(jobs, left, cutoff, batchSize, batches, deleted);
    ok, inBatch, found := PerformBatchDelete(db, cutoff, batchSize, raises);
    if ok {
      assert found == |batch| == inBatch && db.jobs == left - Elements(batch);
      if found == 0 {
        assert batch == [] && left - Elements(batch) == left;
      }
    }
  }

  /** `left` is what `batches` full batches leave of `jobs`. */
  ghost predicate AfterBatches(jobs: map<JobId, Job>, left: map<JobId, Job>, cutoff: Time, batchSize: nat,
                               batches: nat, deleted: nat)
    requires batchSize >= 1
  {
    var eligible := |ExpiredIds(jobs, cutoff)|;
    && batches <= Ceiling(eligible, batchSize) && deleted == Progress(batches, batchSize, eligible) <= eligible
    && left == jobs - OldestExpired(jobs, cutoff, deleted)
  }

  /** The rows gone after `k` batches. */
  function Progress(k: nat, batchSize: nat, n: nat): nat {
    Min(k * batchSize, n)
  }

  /** A batch adds its size until nothing is left, after exactly the ceiling. */
  lemma ProgressStep(k: nat, batchSize: nat, n: nat)
    requires batchSize >= 1 && k <= Ceiling(n, batchSize)
    ensures Progress(k, batchSize, n) <= n && Progress(0, batchSize, n) == 0
    ensures Progress(k, batchSize, n) == n <==> k == Ceiling(n, batchSize)
    ensures Progress(k + 1, batchSize, n) == Min(Progress(k, batchSize, n) + batchSize, n)
  {
    var c := Ceiling(n, batchSize);
    assert c * batchSize <= n + batchSize - 1 < c * batchSize + batchSize;
    assert (k + 1) * batchSize == k * batchSize + batchSize;
    if k < c {
      assert (k + 1) * batchSize <= c * batchSize;
    }
  }

  /** What one batch does to the table and to the counts. */
  lemma BatchRound(jobs: map<JobId, Job>, left: map<JobId, Job>, cutoff: Time, batchSize: nat, batches: nat,
                   deleted: nat)
    requires batchSize >= 1 && AfterBatches(jobs, left, cutoff, batchSize, batches, deleted)
    ensures var eligible := |ExpiredIds(jobs, cutoff)|;
            var batch := ExpiredBatch(left, cutoff, batchSize);
            && |Elements(batch)| == |batch| && deleted + |batch| <= eligible
            && (batch == [] ==> deleted == eligible && batches == Ceiling(eligible, batchSize))
            && (batch != [] ==>
                  && batches < Ceiling(eligible, batchSize)
                  && AfterBatches(jobs, left - Elements(batch), cutoff, batchSize, batches + 1, deleted + |batch|))
  {
    var eligible := |ExpiredIds(jobs, cutoff)|;
    ProgressStep(batches, batchSize, eligible);
    NextBatch(jobs, cutoff, deleted, batchSize);
  }

  lemma NothingDeletedYet(jobs: map<JobId, Job>, cutoff: Time, batchSize: nat)
    requires batchSize >= 1
    ensures AfterBatches(jobs, jobs, cutoff, batchSize, 0, 0)
  {
    ProgressStep(0, batchSize, |ExpiredIds(jobs, cutoff)|);
    assert OldestExpired(jobs, cutoff, 0) == {};
  }

  lemma EverythingDeleted(jobs: map<JobId, Job>, cutoff: Time)
    ensures OldestExpired(jobs, cutoff, |ExpiredIds(jobs, cutoff)|) == ExpiredIds(jobs, cutoff)
  {
    SortedIsOrdered(jobs, ExpiredIds(jobs, cutoff));
    var all := Sorted(jobs, ExpiredIds(jobs, cutoff));
    assert all[..|all|] == all;
  }

  lemma NothingExpired(jobs: map<JobId, Job>, cutoff: Time, batchSize: nat)
    requires batchSize >= 1 && |ExpiredIds(jobs, cutoff)| == 0
    ensures jobs == jobs - ExpiredIds(jobs, cutoff) && Ceiling(0, batchSize) == 0
  {
    assert ExpiredIds(jobs, cutoff) == {};
  }

  /** A second run with the same cutoff finds nothing to delete, and no live row
      and no newer row was touched by the first. */
  lemma CleanupIsIdempotent(jobs: map<JobId, Job>, cutoff: Time, batchSize: nat)
    ensures var jobs' := jobs - ExpiredIds(jobs, cutoff);
            && ExpiredIds(jobs', cutoff) == {} && ExpiredBatch(jobs', cutoff, batchSize) == []
            && forall id :: id in jobs && !Expired(jobs[id], cutoff) ==> id in jobs' && jobs'[id] == jobs[id]
  {
  }
}
