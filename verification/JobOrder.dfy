/** The order in which queries return rows: by creation time, then by id. */
module JobOrder {
  import opened Domain

  predicate Before(jobs: map<JobId, Job>, a: JobId, b: JobId)
    requires a in jobs && b in jobs
  {
    jobs[a].createdAt < jobs[b].createdAt || (jobs[a].createdAt == jobs[b].createdAt && a < b)
  }

  predicate FirstOf(jobs: map<JobId, Job>, ids: set<JobId>, m: JobId)
    requires ids <= jobs.Keys
  {
    m in ids && forall x :: x in ids && x != m ==> Before(jobs, m, x)
  }

  lemma {:induction false} EarliestExists(jobs: map<JobId, Job>, ids: set<JobId>)
    requires ids <= jobs.Keys && ids != {}
    ensures exists m :: FirstOf(jobs, ids, m)
    decreases |ids|
  {
    var some :| some in ids;
    var rest := ids - {some};
    if rest == {} {
      assert ids == {some};
      assert FirstOf(jobs, ids, some);
    } else {
      EarliestExists(jobs, rest);
      var m :| FirstOf(jobs, rest, m);
      assert ids == rest + {some};
      assert FirstOf(jobs, ids, if Before(jobs, some, m) then some else m);
    }
  }

  function Earliest(jobs: map<JobId, Job>, ids: set<JobId>): (m: JobId)
    requires ids <= jobs.Keys && ids != {}
    ensures FirstOf(jobs, ids, m)
  {
    EarliestExists(jobs, ids);
    var m :| m in ids && FirstOf(jobs, ids, m);
    m
  }

  /** `order_by(created_at.asc(), id.asc())` over the rows `ids`. */
  function Sorted(jobs: map<JobId, Job>, ids: set<JobId>): (s: seq<JobId>)
    requires ids <= jobs.Keys
    decreases |ids|
  {
    if ids == {} then [] else
    var m := Earliest(jobs, ids);
    [m] + Sorted(jobs, ids - {m})
  }

  ghost predicate StrictlyOrdered(jobs: map<JobId, Job>, s: seq<JobId>) {
    && (forall i :: 0 <= i < |s| ==> s[i] in jobs)
    && (forall i, j :: 0 <= i < j < |s| ==> Before(jobs, s[i], s[j]))
  }

  function Elements(s: seq<JobId>): set<JobId> {
    set i | 0 <= i < |s| :: s[i]
  }

  lemma ElementsOf(m: JobId, t: seq<JobId>)
    ensures Elements([m] + t) == {m} + Elements(t)
  {
    var s := [m] + t;
    forall x | x in {m} + Elements(t) ensures x in Elements(s) {
      if x == m {
        assert s[0] == x;
      } else {
        var i :| 0 <= i < |t| && t[i] == x;
        assert s[i + 1] == x;
      }
    }
  }

  lemma ConsOrdered(jobs: map<JobId, Job>, m: JobId, t: seq<JobId>)
    requires m in jobs && StrictlyOrdered(jobs, t)
    requires forall x :: x in Elements(t) ==> x in jobs && Before(jobs, m, x)
    ensures StrictlyOrdered(jobs, [m] + t)
  {
    var s := [m] + t;
    forall i | 0 <= i < |s| ensures s[i] in jobs {
      assert i > 0 ==> s[i] == t[i - 1];
    }
    forall i, j | 0 <= i < j < |s| ensures Before(jobs, s[i], s[j]) {
      assert s[j] == t[j - 1] && t[j - 1] in Elements(t);
      if i > 0 {
        assert s[i] == t[i - 1] && Before(jobs, t[i - 1], t[j - 1]);
      }
    }
  }

  /** Sorting loses and repeats nothing, and puts every row after the earlier ones. */
  lemma {:induction false} SortedIsOrdered(jobs: map<JobId, Job>, ids: set<JobId>)
    requires ids <= jobs.Keys
    ensures |Sorted(jobs, ids)| == |ids|
    ensures Elements(Sorted(jobs, ids)) == ids
    ensures StrictlyOrdered(jobs, Sorted(jobs, ids))
    decreases |ids|
  {
    if ids != {} {
      var m := Earliest(jobs, ids);
      var t := Sorted(jobs, ids - {m});
      SortedIsOrdered(jobs, ids - {m});
      ElementsOf(m, t);
      ConsOrdered(jobs, m, t);
    }
  }

  /** Removing the first `n` rows of the order leaves the rest of the order. */
  lemma {:induction false} SortedSuffix(jobs: map<JobId, Job>, ids: set<JobId>, n: nat)
    requires ids <= jobs.Keys && n <= |Sorted(jobs, ids)|
    ensures Elements(Sorted(jobs, ids)[..n]) <= ids
    ensures Sorted(jobs, ids - Elements(Sorted(jobs, ids)[..n])) == Sorted(jobs, ids)[n..]
    decreases n
  {
    var s := Sorted(jobs, ids);
    if n == 0 {
      assert Elements(s[..n]) == {};
      assert ids - {} == ids;
    } else {
      var m := Earliest(jobs, ids);
      var t := Sorted(jobs, ids - {m});
      SortedSuffix(jobs, ids - {m}, n - 1);
      assert s[..n] == [m] + t[..n - 1];
      ElementsOf(m, t[..n - 1]);
      assert ids - Elements(s[..n]) == ids - {m} - Elements(t[..n - 1]);
    }
  }

  lemma TailIsOrdered(jobs: map<JobId, Job>, s: seq<JobId>)
    requires StrictlyOrdered(jobs, s) && s != []
    ensures StrictlyOrdered(jobs, s[1..]) && s[0] !in Elements(s[1..])
  {
    var t := s[1..];
    forall i | 0 <= i < |t| ensures t[i] in jobs {
      assert t[i] == s[i + 1];
    }
    forall i, j | 0 <= i < j < |t| ensures Before(jobs, t[i], t[j]) {
      assert t[i] == s[i + 1] && t[j] == s[j + 1];
    }
    forall i | 0 <= i < |t| ensures t[i] != s[0] {
      assert t[i] == s[i + 1] && Before(jobs, s[0], s[i + 1]);
    }
  }

  lemma PrefixIsOrdered(jobs: map<JobId, Job>, s: seq<JobId>, t: seq<JobId>)
    requires StrictlyOrdered(jobs, s) && t <= s
    ensures StrictlyOrdered(jobs, t)
  {
    forall i, j | 0 <= i < j < |t| ensures Before(jobs, t[i], t[j]) {
      assert t[i] == s[i] && t[j] == s[j];
    }
  }

  /** An order has no repeats. */
  lemma {:induction false} OrderedDistinct(jobs: map<JobId, Job>, s: seq<JobId>)
    requires StrictlyOrdered(jobs, s)
    ensures |Elements(s)| == |s|
  {
    if s != [] {
      TailIsOrdered(jobs, s);
      OrderedDistinct(jobs, s[1..]);
      ElementsOf(s[0], s[1..]);
      assert [s[0]] + s[1..] == s;
    } else {
      assert Elements(s) == {};
    }
  }

  lemma OrderedApart(jobs: map<JobId, Job>, s: seq<JobId>)
    requires StrictlyOrdered(jobs, s)
    ensures forall i, j :: 0 <= i < j < |s| ==> s[i] != s[j]
  {
    forall i, j | 0 <= i < j < |s| ensures s[i] != s[j] {
      assert Before(jobs, s[i], s[j]);
    }
  }

  /** The order looks at nothing but creation times. */
  lemma {:induction false} SortedFrame(jobs: map<JobId, Job>, jobs': map<JobId, Job>, ids: set<JobId>)
    requires ids <= jobs.Keys && ids <= jobs'.Keys
    requires forall x :: x in ids ==> jobs[x].createdAt == jobs'[x].createdAt
    ensures Sorted(jobs, ids) == Sorted(jobs', ids)
    decreases |ids|
  {
    if ids != {} {
      var m := Earliest(jobs, ids);
      assert Earliest(jobs', ids) == m;
      SortedFrame(jobs, jobs', ids - {m});
    }
  }
}
