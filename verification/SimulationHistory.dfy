/** The paginated history of one user (app/api/v1/simulations.py). */
module SimulationHistory {
  import opened Domain
  import opened JobOrder

  /** The validated query parameters; the caller only ever sees own rows. */
  datatype Filter = Filter(caller: UserId, preset: Option<string>, status: Option<Status>)

  datatype Page = Page(items: seq<JobId>, total: nat, hasNext: bool)

  predicate Matches(job: Job, f: Filter) {
    && job.user == f.caller
    && (f.preset.Some? ==> job.params.preset == f.preset.value)
    && (f.status.Some? ==> job.status == f.status.value)
  }

  function Matching(jobs: map<JobId, Job>, f: Filter): set<JobId> {
    set id | id in jobs && Matches(jobs[id], f)
  }

  function Reversed(s: seq<JobId>): seq<JobId> {
    seq(|s|, i requires 0 <= i < |s| => s[|s| - 1 - i])
  }

  /** `order_by(created_at.desc(), id.desc())`. */
  function NewestFirst(jobs: map<JobId, Job>, f: Filter): seq<JobId> {
    Reversed(Sorted(jobs, Matching(jobs, f)))
  }

  /** `limit(pageSize).offset((page - 1) * pageSize)`. */
  function Slice(s: seq<JobId>, offset: nat, limit: nat): seq<JobId> {
    if offset >= |s| then []
    else if offset + limit <= |s| then s[offset..offset + limit]
    else s[offset..]
  }

  function ListSimulations(jobs: map<JobId, Job>, f: Filter, page: nat, pageSize: nat): Page
    requires page >= 1
  {
    var total := |Matching(jobs, f)|;
    Page(Slice(NewestFirst(jobs, f), (page - 1) * pageSize, pageSize), total, page * pageSize < total)
  }

  /** The items of pages 1 to `pages`, one after the other. */
  function FirstPages(jobs: map<JobId, Job>, f: Filter, pageSize: nat, pages: nat): seq<JobId> {
    if pages == 0 then []
    else FirstPages(jobs, f, pageSize, pages - 1) + ListSimulations(jobs, f, pages, pageSize).items
  }

  lemma ReversedElements(s: seq<JobId>)
    ensures Elements(Reversed(s)) == Elements(s)
  {
    var t := Reversed(s);
    forall x | x in Elements(s) ensures x in Elements(t) {
      var i :| 0 <= i < |s| && s[i] == x;
      assert t[|s| - 1 - i] == x;
    }
    forall x | x in Elements(t) ensures x in Elements(s) {
      var i :| 0 <= i < |t| && t[i] == x;
      assert s[|s| - 1 - i] == x;
    }
  }

  /** The whole history: each matching row once, the newest first. */
  lemma NewestFirstIsComplete(jobs: map<JobId, Job>, f: Filter)
    ensures var all := NewestFirst(jobs, f);
            && |all| == |Matching(jobs, f)| && Elements(all) == Matching(jobs, f)
            && forall i, j :: 0 <= i < j < |all| ==> all[i] in jobs && all[j] in jobs && Before(jobs, all[j], all[i])
  {
    SortedIsOrdered(jobs, Matching(jobs, f));
    ReversedElements(Sorted(jobs, Matching(jobs, f)));
  }

  function Prefix(s: seq<JobId>, n: nat): seq<JobId> {
    if n <= |s| then s[..n] else s
  }

  lemma SliceExtendsPrefix(s: seq<JobId>, offset: nat, limit: nat)
    ensures Prefix(s, offset) + Slice(s, offset, limit) == Prefix(s, offset + limit)
  {
  }

  lemma PageExtendsPrefix(jobs: map<JobId, Job>, f: Filter, page: nat, pageSize: nat)
    requires page >= 1
    ensures Prefix(NewestFirst(jobs, f), (page - 1) * pageSize) + ListSimulations(jobs, f, page, pageSize).items
         == Prefix(NewestFirst(jobs, f), page * pageSize)
  {
    SliceExtendsPrefix(NewestFirst(jobs, f), (page - 1) * pageSize, pageSize);
    assert (page - 1) * pageSize + pageSize == page * pageSize;
  }

  /** Pages follow each other without gap or repeat. */
  lemma {:induction false} PagesAreAPrefix(jobs: map<JobId, Job>, f: Filter, pageSize: nat, pages: nat)
    ensures FirstPages(jobs, f, pageSize, pages) == Prefix(NewestFirst(jobs, f), pages * pageSize)
    decreases pages
  {
    if pages > 0 {
      PagesAreAPrefix(jobs, f, pageSize, pages - 1);
      PageExtendsPrefix(jobs, f, pages, pageSize);
    }
  }

  /** Another page is announced exactly when it is not empty. */
  lemma NextPageIffNonEmpty(jobs: map<JobId, Job>, f: Filter, page: nat, pageSize: nat)
    requires page >= 1 && pageSize >= 1
    ensures ListSimulations(jobs, f, page, pageSize).hasNext
        <==> ListSimulations(jobs, f, page + 1, pageSize).items != []
  {
    NewestFirstIsComplete(jobs, f);
  }

  /** Following `has_next` from the first page to the end yields the caller's
      matching rows, each exactly once, newest first. */
  lemma PaginationIsLossless(jobs: map<JobId, Job>, f: Filter, pageSize: nat, last: nat)
    requires pageSize >= 1 && last >= 1 && !ListSimulations(jobs, f, last, pageSize).hasNext
    ensures var shown := FirstPages(jobs, f, pageSize, last);
            && shown == NewestFirst(jobs, f)
            && |shown| == |Matching(jobs, f)| && Elements(shown) == Matching(jobs, f)
  {
    NewestFirstIsComplete(jobs, f);
    PagesAreAPrefix(jobs, f, pageSize, last);
  }

  // ---- The same on the columns ----

  /** The caller's rows of the preset and the status asked for. */
  function OwnRows(jobs: map<JobId, Job>, caller: UserId, preset: Option<string>, status: Option<Status>): set<JobId> {
    set id | id in jobs && jobs[id].user == caller
          && (preset == None || Some(jobs[id].params.preset) == preset)
          && (status == None || Some(jobs[id].status) == status)
  }

  lemma OwnRowsMatch(jobs: map<JobId, Job>, f: Filter)
    ensures OwnRows(jobs, f.caller, f.preset, f.status) == Matching(jobs, f)
  {
  }

  /** Newest first, by creation time and then by id. */
  ghost predicate NewToOld(jobs: map<JobId, Job>, items: seq<JobId>)
    requires forall id :: id in items ==> id in jobs
  {
    forall i, j :: 0 <= i < j < |items| ==>
      || jobs[items[i]].createdAt > jobs[items[j]].createdAt
      || (jobs[items[i]].createdAt == jobs[items[j]].createdAt && items[i] > items[j])
  }

  /** A stretch of the whole history shows rows of the history, in its order, as
      many as there are from `offset` on. */
  lemma SliceShows(jobs: map<JobId, Job>, own: set<JobId>, all: seq<JobId>, offset: nat, limit: nat)
    requires Elements(all) == own && |all| == |own| && (forall id :: id in all ==> id in jobs) && NewToOld(jobs, all)
    ensures var items, left := Slice(all, offset, limit), |own| - offset;
            && (forall id :: id in items ==> id in own && id in jobs) && NewToOld(jobs, items)
            && |items| == if left <= 0 then 0 else if left <= limit then left else limit
  {
    var items := Slice(all, offset, limit);
    assert forall i :: 0 <= i < |items| ==> items[i] == all[offset + i];
    forall i | 0 <= i < |items| ensures items[i] in own {
      assert all[offset + i] in Elements(all);
    }
  }

  /** Every page shows rows of the caller only, as filtered, newest first and as
      many as there are for it, and counts them all. */
  lemma PageShowsOwnRows(jobs: map<JobId, Job>, f: Filter, page: nat, pageSize: nat)
    requires page >= 1
    ensures var p, own := ListSimulations(jobs, f, page, pageSize), OwnRows(jobs, f.caller, f.preset, f.status);
            && (forall id :: id in p.items ==> id in own) && NewToOld(jobs, p.items)
            && p.total == |own| && (p.hasNext <==> page * pageSize < |own|)
            && var left := |own| - (page - 1) * pageSize;
               |p.items| == if left <= 0 then 0 else if left <= pageSize then left else pageSize
  {
    var own := OwnRows(jobs, f.caller, f.preset, f.status);
    OwnRowsMatch(jobs, f);
    NewestFirstIsComplete(jobs, f);
    SliceShows(jobs, own, NewestFirst(jobs, f), (page - 1) * pageSize, pageSize);
  }

  /** Up to the last page each of these rows is shown once, and nothing else. */
  lemma PagesShowAllOwnRows(jobs: map<JobId, Job>, f: Filter, pageSize: nat, last: nat)
    requires pageSize >= 1 && last >= 1 && !ListSimulations(jobs, f, last, pageSize).hasNext
    ensures var shown, own := FirstPages(jobs, f, pageSize, last), OwnRows(jobs, f.caller, f.preset, f.status);
            && (forall id :: id in shown <==> id in own) && |shown| == |own| && NewToOld(jobs, shown)
  {
    OwnRowsMatch(jobs, f);
    PaginationIsLossless(jobs, f, pageSize, last);
    NewestFirstIsComplete(jobs, f);
    var shown := FirstPages(jobs, f, pageSize, last);
    assert forall id :: id in shown <==> id in Elements(shown);
  }
}
