/** The protocol with claim calls in several transactions. */
module SplitRuns {
  import opened Domain
  import opened WorkerService
  import opened ClaimTheorem
  import opened Protocol
  import opened SplitClaim

  /** A claim call under way: its candidates as fetched at `at`, the next one to
      look at, and whether it still holds the locks of the fetch. */
  datatype Call = Call(seen: seq<Seen>, next: nat, at: Time, locked: bool)

  datatype Split = Split(base: System, calls: map<WorkerId, Call>)

  /** `Plain` is any step of the protocol but a claim; a crash also ends a call,
      as an exception does. */
  datatype SplitStep = Plain(step: Step) | Fetch(worker: WorkerId) | Look(worker: WorkerId)

  function SeenIds(call: Call): set<JobId> {
    set i | 0 <= i < |call.seen| :: call.seen[i].id
  }

  function Locked(calls: map<WorkerId, Call>): set<JobId> {
    set w, id | w in calls && calls[w].locked && id in SeenIds(calls[w]) :: id
  }

  predicate SameRow(db: Db, db': Db, id: JobId) {
    (id in db'.jobs <==> id in db.jobs) && (id in db.jobs ==> db'.jobs[id] == db.jobs[id])
  }

  /** Nobody may write a row that a call has locked. */
  predicate Waits(db: Db, db': Db, locked: set<JobId>) {
    exists id :: id in locked && !SameRow(db, db', id)
  }

  function CallsAfter(calls: map<WorkerId, Call>, step: Step): map<WorkerId, Call> {
    if step.Crash? then calls - {step.worker} else calls
  }

  /** A step that has to wait for a lock changes nothing. */
  function ApplyPlain(cfg: Config, s: Split, step: Step): Split {
    if step.ClaimNext? || step.ClaimBreaks? then s else
    var base := Apply(cfg, s.base, step);
    if Waits(s.base.db, base.db, Locked(s.calls)) then s else Split(base, CallsAfter(s.calls, step))
  }

  function ApplyFetch(cfg: Config, s: Split, w: WorkerId): Split {
    if WorkerAt(s.base, w).Busy? || w in s.calls then s else
    s.(calls := s.calls[w := Call(FetchRows(cfg, s.base.db.jobs, Locked(s.calls), s.base.now), 0, s.base.now, true)])
  }

  predicate Looking(s: Split, w: WorkerId) {
    w in s.calls && s.calls[w].next < |s.calls[w].seen|
  }

  function Candidate(s: Split, w: WorkerId): Seen
    requires Looking(s, w)
  {
    s.calls[w].seen[s.calls[w].next]
  }

  /** What the next look of `w` would do. */
  function NextLook(cfg: Config, s: Split, w: WorkerId): (Db, LookResult)
    requires Looking(s, w)
  {
    LookAt(cfg, s.base.db, Candidate(s, w), w, s.calls[w].at, s.base.now)
  }

  predicate MayLook(cfg: Config, s: Split, w: WorkerId)
    requires Looking(s, w)
  {
    !Waits(s.base.db, NextLook(cfg, s, w).0, Locked(s.calls - {w}))
  }

  /** The worker runs the row as it is after its write. */
  function Employ(s: System, w: WorkerId, db: Db, id: JobId): System {
    if id !in db.jobs then WithDb(s, db) else
    var row := db.jobs[id];
    WithWorker(WithDb(s, db), w, Busy(Execution(id, row.user, row.params, row.attempts)))
  }

  function ApplyLook(cfg: Config, s: Split, w: WorkerId): Split {
    if w !in s.calls then s else
    if !Looking(s, w) then s.(calls := s.calls - {w}) else
    if !MayLook(cfg, s, w) then s else
    var call := s.calls[w];
    var (db, result) := NextLook(cfg, s, w);
    match result
    case Taken => Split(Employ(s.base, w, db, Candidate(s, w).id), s.calls - {w})
    case GivenUp => Split(WithDb(s.base, db), s.calls[w := call.(next := call.next + 1, locked := false)])
    case PassedOver => s.(calls := s.calls[w := call.(next := call.next + 1)])
    case Vanished => s.(calls := s.calls - {w})
  }

  /** No call gains a candidate or another fetch time. */
  ghost predicate SameFetches(calls: map<WorkerId, Call>, calls': map<WorkerId, Call>) {
    forall w :: w in calls' ==> w in calls && calls'[w].seen == calls[w].seen && calls'[w].at == calls[w].at
  }

  lemma LookShape(cfg: Config, s: Split, w: WorkerId)
    ensures var s' := ApplyLook(cfg, s, w);
            && SameFetches(s.calls, s'.calls)
            && s'.base.db == (if Looking(s, w) && MayLook(cfg, s, w) then NextLook(cfg, s, w).0 else s.base.db)
  {
  }

  function ApplySplit(cfg: Config, s: Split, step: SplitStep): Split {
    match step
    case Plain(plain) => ApplyPlain(cfg, s, plain)
    case Fetch(w) => ApplyFetch(cfg, s, w)
    case Look(w) => ApplyLook(cfg, s, w)
  }

  function SplitRun(cfg: Config, s: Split, steps: seq<SplitStep>): Split {
    if steps == [] then s else ApplySplit(cfg, SplitRun(cfg, s, steps[..|steps| - 1]), steps[|steps| - 1])
  }

  ghost predicate SplitInitial(s: Split) {
    Initial(s.base) && s.calls == map[]
  }

  // ---- Locks ----

  /** No candidate so far was failed. */
  predicate NoneFailed(cfg: Config, call: Call) {
    forall i :: 0 <= i < call.next && i < |call.seen| ==> !Doomed(cfg, call.seen[i].row, call.at)
  }

  ghost predicate LockHolds(cfg: Config, db: Db, call: Call) {
    && call.next <= |call.seen|
    && (forall i :: 0 <= i < |call.seen| ==> Eligible(cfg, call.seen[i].row, call.at))
    && (call.locked <==> NoneFailed(cfg, call))
    && (call.locked ==> forall i :: 0 <= i < |call.seen| ==> Unchanged(db, call.seen[i]))
  }

  ghost predicate LocksHold(cfg: Config, s: Split) {
    forall w :: w in s.calls ==> LockHolds(cfg, s.base.db, s.calls[w])
  }

  lemma LockedStays(cfg: Config, calls: map<WorkerId, Call>, db: Db, db': Db, w: WorkerId)
    requires w in calls && LockHolds(cfg, db, calls[w]) && !Waits(db, db', Locked(calls))
    ensures LockHolds(cfg, db', calls[w])
  {
    var call := calls[w];
    if call.locked {
      forall i | 0 <= i < |call.seen| ensures Unchanged(db', call.seen[i]) {
        assert call.seen[i].id in SeenIds(call);
        assert call.seen[i].id in Locked(calls);
        assert SameRow(db, db', call.seen[i].id);
      }
    }
  }

  lemma PlainKeepsLocks(cfg: Config, s: Split, step: Step)
    requires LocksHold(cfg, s)
    ensures LocksHold(cfg, ApplyPlain(cfg, s, step))
  {
    var db, db', s' := s.base.db, Apply(cfg, s.base, step).db, ApplyPlain(cfg, s, step);
    if !Waits(db, db', Locked(s.calls)) {
      forall w | w in s'.calls ensures LockHolds(cfg, s'.base.db, s'.calls[w]) {
        LockedStays(cfg, s.calls, db, db', w);
      }
    }
  }

  lemma FetchKeepsLocks(cfg: Config, s: Split, w: WorkerId)
    requires LocksHold(cfg, s)
    ensures LocksHold(cfg, ApplyFetch(cfg, s, w))
  {
    FetchedAreRows(cfg, s.base.db.jobs, Locked(s.calls), s.base.now);
  }

  lemma OthersKeepLocks(cfg: Config, s: Split, w: WorkerId)
    requires LocksHold(cfg, s) && Looking(s, w) && MayLook(cfg, s, w)
    ensures forall v :: v in s.calls && v != w ==> LockHolds(cfg, NextLook(cfg, s, w).0, s.calls[v])
  {
    forall v | v in s.calls && v != w ensures LockHolds(cfg, NextLook(cfg, s, w).0, s.calls[v]) {
      LockedStays(cfg, s.calls - {w}, s.base.db, NextLook(cfg, s, w).0, v);
    }
  }

  lemma OwnLockAfterLook(cfg: Config, s: Split, w: WorkerId)
    requires LocksHold(cfg, s) && Looking(s, w)
    ensures var call, (db, result) := s.calls[w], NextLook(cfg, s, w);
            && (result.GivenUp? ==> LockHolds(cfg, db, call.(next := call.next + 1, locked := false)))
            && (result.PassedOver? ==> db == s.base.db && LockHolds(cfg, db, call.(next := call.next + 1)))
  {
    var call := s.calls[w];
    var next := call.(next := call.next + 1);
    assert NoneFailed(cfg, next) <==> NoneFailed(cfg, call) && !Doomed(cfg, Candidate(s, w).row, call.at);
    assert NoneFailed(cfg, next.(locked := false)) <==> NoneFailed(cfg, next);
  }

  lemma LookKeepsLocks(cfg: Config, s: Split, w: WorkerId)
    requires LocksHold(cfg, s)
    ensures LocksHold(cfg, ApplyLook(cfg, s, w))
  {
    if Looking(s, w) && MayLook(cfg, s, w) {
      OthersKeepLocks(cfg, s, w);
      OwnLockAfterLook(cfg, s, w);
    }
  }

  lemma {:induction false} RunKeepsLocks(cfg: Config, start: Split, steps: seq<SplitStep>)
    requires SplitInitial(start)
    ensures LocksHold(cfg, SplitRun(cfg, start, steps))
    decreases |steps|
  {
    if steps != [] {
      RunKeepsLocks(cfg, start, steps[..|steps| - 1]);
      var s := SplitRun(cfg, start, steps[..|steps| - 1]);
      match steps[|steps| - 1]
      case Plain(step) => PlainKeepsLocks(cfg, s, step);
      case Fetch(w) => FetchKeepsLocks(cfg, s, w);
      case Look(w) => LookKeepsLocks(cfg, s, w);
    }
  }

  /** In every run a call that has failed no candidate sees all its rows as they
      are, so its look is the one that would read the row again; only a call
      that has failed one can act on an old row. */
  lemma CallIsAtomicUntilItFailsOne(cfg: Config, start: Split, steps: seq<SplitStep>, w: WorkerId)
    requires SplitInitial(start)
    requires var s := SplitRun(cfg, start, steps); Looking(s, w) && NoneFailed(cfg, s.calls[w])
    ensures var s := SplitRun(cfg, start, steps);
            && (forall i :: 0 <= i < |s.calls[w].seen| ==> Unchanged(s.base.db, s.calls[w].seen[i]))
            && NextLook(cfg, s, w)
                 == LookAtCurrent(cfg, s.base.db, Candidate(s, w).id, w, s.calls[w].at, s.base.now)
  {
    RunKeepsLocks(cfg, start, steps);
  }
}
