/** Active operations per user, in memory (app/core/concurrency.py). */
module ConcurrencyLimiter {
  import opened Domain

  function CountOf(counts: map<UserId, nat>, user: UserId): nat {
    if user in counts then counts[user] else 0
  }

  function AfterAcquire(counts: map<UserId, nat>, user: UserId, limit: nat): map<UserId, nat> {
    if CountOf(counts, user) < limit then counts[user := CountOf(counts, user) + 1] else counts
  }

  function AfterRelease(counts: map<UserId, nat>, user: UserId): map<UserId, nat> {
    if CountOf(counts, user) <= 1 then counts - {user} else counts[user := CountOf(counts, user) - 1]
  }

  class ConcurrencyLimiter {
    var activeCounts: map<UserId, nat>

    constructor ()
      ensures Valid() && activeCounts == map[]
    {
      activeCounts := map[];
    }

    /** A user with nothing active has no entry. */
    ghost predicate Valid()
      reads this
    {
      forall u :: u in activeCounts ==> activeCounts[u] > 0
    }

    method Acquire(user: UserId, limit: nat) returns (acquired: bool)
      requires Valid()
      modifies this
      ensures Valid()
      ensures acquired <==> CountOf(old(activeCounts), user) < limit
      ensures activeCounts == AfterAcquire(old(activeCounts), user, limit)
      ensures !acquired ==> activeCounts == old(activeCounts)
      ensures acquired ==> activeCounts == old(activeCounts)[user := CountOf(old(activeCounts), user) + 1]
    {
      var current := if user in activeCounts then activeCounts[user] else 0;
      if current >= limit {
        return false;
      }
      activeCounts := activeCounts[user := current + 1];
      return true;
    }

    /** Releasing more often than acquiring does no harm. */
    method Release(user: UserId) returns (remaining: nat)
      requires Valid()
      modifies this
      ensures Valid()
      ensures activeCounts == AfterRelease(old(activeCounts), user)
      ensures remaining == CountOf(activeCounts, user)
      ensures CountOf(old(activeCounts), user) > 0 ==> remaining == CountOf(old(activeCounts), user) - 1
      ensures CountOf(old(activeCounts), user) == 0 ==> remaining == 0
      ensures activeCounts - {user} == old(activeCounts) - {user}
    {
      var current := if user in activeCounts then activeCounts[user] else 0;
      if current <= 1 {
        activeCounts := activeCounts - {user};
        return 0;
      }
      remaining := current - 1;
      activeCounts := activeCounts[user := remaining];
    }
  }

  /** Two tables without empty entries that agree on every count are the same. */
  lemma CountsDetermineTable(a: map<UserId, nat>, b: map<UserId, nat>, user: UserId)
    requires forall u :: u in a ==> a[u] > 0
    requires forall u :: u in b ==> b[u] > 0
    requires a - {user} == b - {user} && CountOf(a, user) == CountOf(b, user)
    ensures a == b
  {
    forall u: UserId ensures (u in a <==> u in b) && (u in a ==> a[u] == b[u]) {
      if u != user {
        assert u in a <==> u in a - {user};
        assert u in b <==> u in b - {user};
        if u in a {
          assert a[u] == (a - {user})[u] && b[u] == (b - {user})[u];
        }
      }
    }
  }

  // ---- Any interleaving ----

  /** A call of the limiter; its lock lets one through at a time. */
  datatype Op = AcquireOp(user: UserId, limit: nat) | ReleaseOp(user: UserId)

  function CountsAfter(ops: seq<Op>): map<UserId, nat> {
    if ops == [] then map[] else
    var before := CountsAfter(ops[..|ops| - 1]);
    match ops[|ops| - 1]
    case AcquireOp(user, limit) => AfterAcquire(before, user, limit)
    case ReleaseOp(user) => AfterRelease(before, user)
  }

  /** The answer of a call after `before`. */
  predicate Granted(before: seq<Op>, op: Op) {
    op.AcquireOp? && CountOf(CountsAfter(before), op.user) < op.limit
  }

  function Grants(ops: seq<Op>, user: UserId): nat {
    if ops == [] then 0 else
    var before, op := ops[..|ops| - 1], ops[|ops| - 1];
    Grants(before, user) + if op.user == user && Granted(before, op) then 1 else 0
  }

  function Releases(ops: seq<Op>, user: UserId): nat {
    if ops == [] then 0 else
    var before, op := ops[..|ops| - 1], ops[|ops| - 1];
    Releases(before, user) + if op.user == user && op.ReleaseOp? then 1 else 0
  }

  /** Only held slots are released. */
  predicate ReleasesAreHeld(ops: seq<Op>) {
    if ops == [] then true else
    var before, op := ops[..|ops| - 1], ops[|ops| - 1];
    ReleasesAreHeld(before) && (op.ReleaseOp? ==> Releases(before, op.user) < Grants(before, op.user))
  }

  lemma OneMoreOp(before: seq<Op>, op: Op, user: UserId)
    requires CountOf(CountsAfter(before), user) == Grants(before, user) - Releases(before, user)
    requires op.ReleaseOp? ==> Releases(before, op.user) < Grants(before, op.user)
    ensures var ops := before + [op];
            CountOf(CountsAfter(ops), user) == Grants(ops, user) - Releases(ops, user)
  {
    assert (before + [op])[..|before|] == before;
  }

  /** Whatever threads acquire and release in whatever order: as long as only
      held slots are released, the table counts exactly the slots held, granted
      less released, and has no empty entry. */
  lemma {:induction false} CountsAreSlotsHeld(ops: seq<Op>)
    requires ReleasesAreHeld(ops)
    ensures forall user :: CountOf(CountsAfter(ops), user) == Grants(ops, user) - Releases(ops, user)
    ensures forall user :: user in CountsAfter(ops) ==> CountsAfter(ops)[user] > 0
    decreases |ops|
  {
    if ops != [] {
      var before, op := ops[..|ops| - 1], ops[|ops| - 1];
      CountsAreSlotsHeld(before);
      assert before + [op] == ops;
      forall user ensures CountOf(CountsAfter(ops), user) == Grants(ops, user) - Releases(ops, user) {
        OneMoreOp(before, op, user);
      }
    }
  }

  /** A user never holds more slots than the largest limit asked with. */
  lemma {:induction false} SlotsWithinLimit(ops: seq<Op>, user: UserId, limit: nat)
    requires ReleasesAreHeld(ops)
    requires forall k :: 0 <= k < |ops| && ops[k].AcquireOp? && ops[k].user == user ==> ops[k].limit <= limit
    ensures 0 <= Grants(ops, user) - Releases(ops, user) <= limit
    decreases |ops|
  {
    CountsAreSlotsHeld(ops);
    if ops != [] {
      var before := ops[..|ops| - 1];
      SlotsWithinLimit(before, user, limit);
      CountsAreSlotsHeld(before);
    }
  }
}
