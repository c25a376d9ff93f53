/** The pruned and swept store decides as if it had kept every admission. */
module RateLimiterTheorems {
  import opened FiniteSums
  import opened RateLimiter

  datatype Call = Hit(key: Key, now: real) | PruneAt(window: nat, now: real)

  /** A fixed window and a fixed limit per key. */
  datatype Policy = Policy(window: nat, limit: Key -> int)

  function StoreStep(p: Policy, store: Store, call: Call): Store {
    match call
    case Hit(key, now) => Check(store, key, p.limit(key), p.window, now).0
    case PruneAt(window, now) => Prune(store, window, now)
  }

  function StoreAfter(p: Policy, calls: seq<Call>): Store {
    if calls == [] then EMPTY else StoreStep(p, StoreAfter(p, calls[..|calls| - 1]), calls[|calls| - 1])
  }

  function Decide(p: Policy, calls: seq<Call>, key: Key, now: real): Verdict {
    Check(StoreAfter(p, calls), key, p.limit(key), p.window, now).1
  }

  predicate AdmitsNow(p: Policy, before: seq<Call>, call: Call, key: Key) {
    call.Hit? && call.key == key && Decide(p, before, key, call.now).Allowed?
  }

  /** The times of all admitted requests of `key`, nothing forgotten. */
  function Admitted(p: Policy, calls: seq<Call>, key: Key): seq<real> {
    if calls == [] then [] else
    var before, last := calls[..|calls| - 1], calls[|calls| - 1];
    var past := Admitted(p, before, key);
    if AdmitsNow(p, before, last, key) then past + [last.now] else past
  }

  lemma AfterOne(p: Policy, before: seq<Call>, last: Call, key: Key)
    ensures StoreAfter(p, before + [last]) == StoreStep(p, StoreAfter(p, before), last)
    ensures Admitted(p, before + [last], key)
         == if AdmitsNow(p, before, last, key) then Admitted(p, before, key) + [last.now] else Admitted(p, before, key)
  {
    assert (before + [last])[..|before|] == before;
  }

  /** The clock does not run backwards up to `now`, and pruning uses no shorter window. */
  ghost predicate Orderly(p: Policy, calls: seq<Call>, now: real) {
    calls == [] ||
    var last := calls[|calls| - 1];
    && last.now <= now && (last.PruneAt? ==> last.window >= p.window)
    && Orderly(p, calls[..|calls| - 1], last.now)
  }

  ghost predicate LimitsArePositive(p: Policy) {
    forall k: Key :: p.limit(k) >= 1
  }

  // ---- Filtering ----

  /** In order, and none after `now`. */
  ghost predicate SortedUpTo(stamps: seq<real>, now: real) {
    stamps == [] || (stamps[|stamps| - 1] <= now && SortedUpTo(stamps[..|stamps| - 1], stamps[|stamps| - 1]))
  }

  lemma {:induction false} SortedMeans(stamps: seq<real>, now: real)
    requires SortedUpTo(stamps, now)
    ensures forall i, j :: 0 <= i < j < |stamps| ==> stamps[i] <= stamps[j]
    ensures forall i :: 0 <= i < |stamps| ==> stamps[i] <= now
    decreases |stamps|
  {
    if stamps != [] {
      var init := stamps[..|stamps| - 1];
      SortedMeans(init, stamps[|stamps| - 1]);
      assert forall i :: 0 <= i < |init| ==> init[i] == stamps[i];
    }
  }

  lemma {:induction false} LiveTwice(stamps: seq<real>, start: real, later: real)
    requires start <= later
    ensures Live(Live(stamps, start), later) == Live(stamps, later)
    decreases |stamps|
  {
    if stamps != [] {
      LiveTwice(stamps[..|stamps| - 1], start, later);
      var rest, last := Live(stamps[..|stamps| - 1], start), stamps[|stamps| - 1];
      if last > start {
        assert (rest + [last])[..|rest|] == rest;
      }
    }
  }

  lemma LiveAppend(stamps: seq<real>, t: real, start: real)
    ensures Live(stamps + [t], start) == Live(stamps, start) + (if t > start then [t] else [])
  {
    assert (stamps + [t])[..|stamps|] == stamps;
  }

  lemma {:induction false} LiveSorted(stamps: seq<real>, start: real, now: real)
    requires SortedUpTo(stamps, now)
    ensures SortedUpTo(Live(stamps, start), now) && |Live(stamps, start)| <= |stamps|
    decreases |stamps|
  {
    if stamps != [] {
      var init, last := stamps[..|stamps| - 1], stamps[|stamps| - 1];
      LiveSorted(init, start, last);
      var rest := Live(init, start);
      assert (rest + [last])[..|rest|] == rest;
    }
  }

  lemma SortedAppend(stamps: seq<real>, now: real)
    requires SortedUpTo(stamps, now)
    ensures SortedUpTo(stamps + [now], now)
  {
    assert (stamps + [now])[..|stamps|] == stamps;
  }

  /** A dead list has nothing alive. */
  lemma {:induction false} DeadHasNothing(stamps: seq<real>, start: real, now: real)
    requires SortedUpTo(stamps, now) && Dead(stamps, start)
    ensures Live(stamps, start) == []
    decreases |stamps|
  {
    if stamps != [] {
      DeadHasNothing(stamps[..|stamps| - 1], start, stamps[|stamps| - 1]);
    }
  }

  lemma LiveLater(stamps: seq<real>, start: real, later: real, now: real)
    requires start <= later && SortedUpTo(stamps, now)
    ensures |Live(stamps, later)| <= |Live(stamps, start)|
    ensures Live(stamps, start) != [] && Live(stamps, start)[0] <= later ==>
        |Live(stamps, later)| < |Live(stamps, start)|
  {
    LiveTwice(stamps, start, later);
    LiveSorted(stamps, start, now);
    var live := Live(stamps, start);
    LiveSorted(live, later, now);
    if live != [] && live[0] <= later {
      DropsFirst(live, later, now);
    }
  }

  lemma {:induction false} DropsFirst(stamps: seq<real>, start: real, now: real)
    requires SortedUpTo(stamps, now) && stamps != [] && stamps[0] <= start
    ensures |Live(stamps, start)| < |stamps|
    decreases |stamps|
  {
    if |stamps| > 1 {
      DropsFirst(stamps[..|stamps| - 1], start, now);
    }
  }

  // ---- Refinement ----

  /** `stamps` and the full history agree on everything after `start`. */
  ghost predicate Agree(stored: seq<real>, history: seq<real>, start: real) {
    Live(stored, start) == Live(history, start)
  }

  /** A stored list stands for a full history as seen at `now`. */
  ghost predicate StandsFor(stored: seq<real>, history: seq<real>, limit: int, window: nat, now: real) {
    && SortedUpTo(stored, now) && SortedUpTo(history, now)
    && |stored| <= limit
    && Agree(stored, history, now - window as real)
  }

  ghost predicate KeyOk(p: Policy, calls: seq<Call>, key: Key, now: real) {
    StandsFor(Stored(StoreAfter(p, calls).records, key), Admitted(p, calls, key), p.limit(key), p.window, now)
  }

  lemma AgreeLater(stored: seq<real>, history: seq<real>, start: real, later: real)
    requires Agree(stored, history, start) && start <= later
    ensures Agree(stored, history, later)
  {
    LiveTwice(stored, start, later);
    LiveTwice(history, start, later);
  }

  /** Dropping a dead key loses nothing that will ever be looked at. */
  lemma PopAgrees(records: map<Key, seq<real>>, key: Key, history: seq<real>, popStart: real, start: real, now: real)
    requires SortedUpTo(Stored(records, key), now) && popStart <= start
    requires Agree(Stored(records, key), history, start)
    ensures Agree(Stored(records - DeadKeys(records, popStart), key), history, start)
    ensures Stored(records - DeadKeys(records, popStart), key) in {Stored(records, key), []}
  {
    if key in records && Dead(records[key], popStart) {
      DeadHasNothing(records[key], popStart, now);
      LiveTwice(records[key], popStart, start);
    }
  }

  lemma KeyOkLater(p: Policy, calls: seq<Call>, key: Key, now: real, later: real)
    requires KeyOk(p, calls, key, now) && now <= later
    ensures KeyOk(p, calls, key, later)
  {
    AgreeLater(Stored(StoreAfter(p, calls).records, key), Admitted(p, calls, key), now - p.window as real,
        later - p.window as real);
  }

  /** What a check stores and answers, from the live stamps of the store it was given. */
  lemma CheckByLive(store: Store, key: Key, limit: int, window: nat, now: real)
    requires SortedUpTo(Stored(store.records, key), now)
    ensures var valid := Live(Stored(store.records, key), now - window as real);
            var (store', verdict) := Check(store, key, limit, window, now);
            && verdict == (if |valid| < limit then Allowed
                           else if valid == [] then IndexError else Limited(RetryAfter(valid[0], window, now)))
            && (|valid| < limit ==> Stored(store'.records, key) == valid + [now])
            && (verdict.Limited? ==> Stored(store'.records, key) == valid)
            && (forall k: Key :: k != key ==>
                  Stored(store'.records, k) == Stored(Swept(store, now - window as real).records, k))
  {
    var start := now - window as real;
    PopAgrees(store.records, key, Stored(store.records, key), start, start, now);
  }

  /** A check of another key changes nothing that will be looked at. */
  lemma CheckSparesOthers(store: Store, hit: Key, limit: int, window: nat, now: real, key: Key, history: seq<real>,
                          bound: int)
    requires hit != key && SortedUpTo(Stored(store.records, hit), now) && bound >= 1
    requires StandsFor(Stored(store.records, key), history, bound, window, now)
    ensures StandsFor(Stored(Check(store, hit, limit, window, now).0.records, key), history, bound, window, now)
  {
    var start := now - window as real;
    CheckByLive(store, hit, limit, window, now);
    PopAgrees(store.records, key, history, start, start, now);
  }

  /** Evicting, and appending an admission to both sides, keeps agreement. */
  lemma EvictAndAppend(stamps: seq<real>, history: seq<real>, start: real, now: real)
    requires SortedUpTo(stamps, now) && SortedUpTo(history, now) && Agree(stamps, history, start)
    ensures var valid := Live(stamps, start);
            && SortedUpTo(valid, now) && |valid| <= |stamps| && Agree(valid, history, start)
            && SortedUpTo(valid + [now], now) && SortedUpTo(history + [now], now)
            && Agree(valid + [now], history + [now], start)
  {
    LiveSorted(stamps, start, now);
    SortedAppend(Live(stamps, start), now);
    SortedAppend(history, now);
    LiveTwice(stamps, start, start);
    LiveAppend(Live(stamps, start), now, start);
    LiveAppend(history, now, start);
  }

  /** A check of this key decides by the history and keeps standing for it. */
  lemma CheckRefines(store: Store, key: Key, limit: int, window: nat, now: real, history: seq<real>)
    requires limit >= 1 && StandsFor(Stored(store.records, key), history, limit, window, now)
    ensures var (store', verdict) := Check(store, key, limit, window, now);
            StandsFor(Stored(store'.records, key), if verdict.Allowed? then history + [now]
                else history, limit, window, now)
  {
    CheckByLive(store, key, limit, window, now);
    EvictAndAppend(Stored(store.records, key), history, now - window as real, now);
  }

  lemma PruneSpares(store: Store, pruneWindow: nat, window: nat, now: real, key: Key, history: seq<real>, bound: int)
    requires bound >= 1 && StandsFor(Stored(store.records, key), history, bound, window, now) && pruneWindow >= window
    ensures StandsFor(Stored(Prune(store, pruneWindow, now).records, key), history, bound, window, now)
  {
    PopAgrees(store.records, key, history, now - pruneWindow as real, now - window as real, now);
  }

  lemma CallKeepsKey(p: Policy, calls: seq<Call>, call: Call, key: Key)
    requires LimitsArePositive(p) && KeyOk(p, calls, key, call.now)
    requires call.Hit? ==> SortedUpTo(Stored(StoreAfter(p, calls).records, call.key), call.now)
    requires call.PruneAt? ==> call.window >= p.window
    ensures KeyOk(p, calls + [call], key, call.now)
  {
    var store, history := StoreAfter(p, calls), Admitted(p, calls, key);
    AfterOne(p, calls, call, key);
    if call.PruneAt? {
      PruneSpares(store, call.window, p.window, call.now, key, history, p.limit(key));
    } else if call.key == key {
      CheckRefines(store, key, p.limit(key), p.window, call.now, history);
    } else {
      CheckSparesOthers(store, call.key, p.limit(call.key), p.window, call.now, key, history, p.limit(key));
    }
  }

  lemma {:induction false} StoreRefinesHistory(p: Policy, calls: seq<Call>, key: Key, now: real)
    requires Orderly(p, calls, now) && LimitsArePositive(p)
    ensures KeyOk(p, calls, key, now)
    decreases |calls|
  {
    if calls != [] {
      var before, last := calls[..|calls| - 1], calls[|calls| - 1];
      assert calls == before + [last];
      StoreRefinesHistory(p, before, key, last.now);
      if last.Hit? {
        StoreRefinesHistory(p, before, last.key, last.now);
      }
      CallKeepsKey(p, before, last, key);
      KeyOkLater(p, calls, key, last.now, now);
    }
  }

  /** The verdict a full history calls for: admit exactly when fewer than `limit`
      admissions lie in (now - window, now], else reject by the oldest of them. */
  ghost predicate Justified(verdict: Verdict, history: seq<real>, limit: int, window: nat, now: real) {
    var recent := Live(history, now - window as real);
    && SortedUpTo(history, now) && |recent| <= limit
    && (verdict.Allowed? <==> |recent| < limit)
    && (!verdict.Allowed? ==> recent != [] && verdict == Limited(RetryAfter(recent[0], window, now)))
  }

  lemma CheckDecides(store: Store, key: Key, limit: int, window: nat, now: real, history: seq<real>)
    requires limit >= 1 && StandsFor(Stored(store.records, key), history, limit, window, now)
    ensures Justified(Check(store, key, limit, window, now).1, history, limit, window, now)
  {
    CheckByLive(store, key, limit, window, now);
    LiveSorted(Stored(store.records, key), now - window as real, now);
  }

  /** Every decision is the decision of the full history, retry_after included.
      Sweeps and prunings in between make no difference. */
  lemma DecisionsRefineFullHistory(p: Policy, calls: seq<Call>, key: Key, now: real)
    requires Orderly(p, calls, now) && LimitsArePositive(p)
    ensures Justified(Decide(p, calls, key, now), Admitted(p, calls, key), p.limit(key), p.window, now)
  {
    StoreRefinesHistory(p, calls, key, now);
    CheckDecides(StoreAfter(p, calls), key, p.limit(key), p.window, now, Admitted(p, calls, key));
  }

  /** Stored lists are sorted and never longer than the limit. */
  lemma StoredListsAreShort(p: Policy, calls: seq<Call>, key: Key, now: real)
    requires Orderly(p, calls, now) && LimitsArePositive(p)
    ensures var stamps := Stored(StoreAfter(p, calls).records, key);
            |stamps| <= p.limit(key) && forall i, j :: 0 <= i < j < |stamps| ==> stamps[i] <= stamps[j]
  {
    StoreRefinesHistory(p, calls, key, now);
    SortedMeans(Stored(StoreAfter(p, calls).records, key), now);
  }

  // ---- No window ever holds more than the limit ----

  /** How many stamps lie in (low, low + window]. */
  function Within(stamps: seq<real>, low: real, window: nat): nat {
    if stamps == [] then 0 else
    var last := stamps[|stamps| - 1];
    Within(stamps[..|stamps| - 1], low, window) + (if low < last <= low + window as real then 1 else 0)
  }

  lemma {:induction false} WithinIsLive(stamps: seq<real>, low: real, window: nat, now: real)
    requires SortedUpTo(stamps, now) && now <= low + window as real
    ensures Within(stamps, low, window) == |Live(stamps, low)|
    decreases |stamps|
  {
    if stamps != [] {
      WithinIsLive(stamps[..|stamps| - 1], low, window, stamps[|stamps| - 1]);
    }
  }

  /** One admission, looked at through one window. */
  lemma AdmissionFitsOne(past: seq<real>, limit: int, window: nat, now: real, low: real)
    requires SortedUpTo(past, now) && |Live(past, now - window as real)| < limit
    requires Within(past, low, window) <= limit
    ensures Within(past + [now], low, window) <= limit
  {
    assert (past + [now])[..|past|] == past;
    if low < now <= low + window as real {
      WithinIsLive(past, low, window, now);
      LiveLater(past, now - window as real, low, now);
    }
  }

  /** No interval (low, low + window], anywhere in time, contains more than `limit` stamps. */
  ghost predicate WindowsHold(stamps: seq<real>, limit: int, window: nat) {
    forall low: real :: Within(stamps, low, window) <= limit
  }

  /** Admitting what the history allows keeps the bound. */
  lemma AdmissionFitsWindow(past: seq<real>, limit: int, window: nat, now: real, verdict: Verdict)
    requires Justified(verdict, past, limit, window, now) && verdict.Allowed?
    requires WindowsHold(past, limit, window)
    ensures WindowsHold(past + [now], limit, window)
  {
    forall low: real
      ensures Within(past + [now], low, window) <= limit
    {
      AdmissionFitsOne(past, limit, window, now, low);
    }
  }

  lemma CallFitsWindow(p: Policy, calls: seq<Call>, call: Call, key: Key)
    requires Orderly(p, calls, call.now) && LimitsArePositive(p)
    requires WindowsHold(Admitted(p, calls, key), p.limit(key), p.window)
    ensures WindowsHold(Admitted(p, calls + [call], key), p.limit(key), p.window)
  {
    AfterOne(p, calls, call, key);
    if AdmitsNow(p, calls, call, key) {
      DecisionsRefineFullHistory(p, calls, key, call.now);
      AdmissionFitsWindow(Admitted(p, calls, key), p.limit(key), p.window, call.now, Decide(p, calls, key, call.now));
    }
  }

  /** No window of any key is ever exceeded. */
  lemma {:induction false} NoWindowExceedsLimit(p: Policy, calls: seq<Call>, key: Key, now: real)
    requires Orderly(p, calls, now) && LimitsArePositive(p)
    ensures WindowsHold(Admitted(p, calls, key), p.limit(key), p.window)
    decreases |calls|
  {
    if calls != [] {
      var before, last := calls[..|calls| - 1], calls[|calls| - 1];
      assert calls == before + [last];
      NoWindowExceedsLimit(p, before, key, last.now);
      CallFitsWindow(p, before, last, key);
    }
  }

  // ---- retry_after ----

  lemma RetryAfterBounds(oldest: real, window: nat, now: real)
    requires now - window as real < oldest <= now
    ensures var wait, left := RetryAfter(oldest, window, now), oldest + window as real - now;
            1 <= wait <= window + 1 && wait as real - 1.0 <= left < wait as real
  {
    var left := oldest + window as real - now;
    assert left.Floor as real <= left < left.Floor as real + 1.0;
    assert 0 <= left.Floor <= window;
  }

  /** The count falls below the limit exactly when the oldest stamp expires. */
  lemma OldestDecides(history: seq<real>, start: real, later: real, now: real)
    requires SortedUpTo(history, now) && start <= later && Live(history, start) != []
    ensures var recent := Live(history, start);
            if recent[0] <= later then |Live(history, later)| < |recent| else Live(history, later) == recent
  {
    LiveLater(history, start, later, now);
    LiveTwice(history, start, later);
    LiveSorted(history, start, now);
    if Live(history, start)[0] > later {
      AllLive(Live(history, start), later, now);
    }
  }

  /** The oldest live stamp lies within the window. */
  lemma {:induction false} FirstIsRecent(history: seq<real>, start: real, now: real)
    requires SortedUpTo(history, now) && Live(history, start) != []
    ensures start < Live(history, start)[0] <= now
    decreases |history|
  {
    var init := history[..|history| - 1];
    if Live(init, start) != [] {
      FirstIsRecent(init, start, history[|history| - 1]);
    }
  }

  /** How the verdict of an unchanged history develops after a rejection. */
  lemma VerdictAfterWait(history: seq<real>, limit: int, window: nat, now: real, wait: int, again: real,
                         verdict: Verdict)
    requires Justified(Limited(wait), history, limit, window, now)
    requires Justified(verdict, history, limit, window, again) && now <= again
    ensures 1 <= wait <= window + 1
    ensures again >= now + wait as real ==> verdict.Allowed?
    ensures again < now + wait as real - 1.0 ==> !verdict.Allowed?
  {
    var oldest := Live(history, now - window as real)[0];
    FirstIsRecent(history, now - window as real, now);
    RetryAfterBounds(oldest, window, now);
    OldestDecides(history, now - window as real, again - window as real, now);
  }

  /** A rejected request is told a wait of 1 to W + 1 seconds. If no other
      request of the key is admitted meanwhile, then after the wait it is
      admitted, and it could not have been admitted more than a second earlier. */
  lemma RetryAfterIsSufficientAndTight(p: Policy, calls: seq<Call>, key: Key, now: real, later: seq<Call>,
                                       again: real, wait: int)
    requires Orderly(p, calls, now) && LimitsArePositive(p) && Decide(p, calls, key, now) == Limited(wait)
    requires Orderly(p, later, again) && again >= now && Admitted(p, later, key) == Admitted(p, calls, key)
    ensures 1 <= wait <= p.window + 1
    ensures again >= now + wait as real ==> Decide(p, later, key, again).Allowed?
    ensures again < now + wait as real - 1.0 ==> !Decide(p, later, key, again).Allowed?
  {
    DecisionsRefineFullHistory(p, calls, key, now);
    DecisionsRefineFullHistory(p, later, key, again);
    VerdictAfterWait(Admitted(p, calls, key), p.limit(key), p.window, now, wait, again, Decide(p, later, key, again));
  }

  lemma {:induction false} AllLive(stamps: seq<real>, start: real, now: real)
    requires SortedUpTo(stamps, now) && stamps != [] && stamps[0] > start
    ensures Live(stamps, start) == stamps && stamps[0] <= now
    decreases |stamps|
  {
    if |stamps| > 1 {
      AllLive(stamps[..|stamps| - 1], start, stamps[|stamps| - 1]);
    }
  }

  // ---- The size of the store ----

  /** How many keys the sweep of this call left, if it swept. */
  function KeysStep(p: Policy, store: Store, call: Call, kept: nat): nat {
    if call.Hit? && store.sweepCounter + 1 >= SWEEP_EVERY
    then |store.records.Keys - DeadKeys(store.records, call.now - p.window as real)|
    else kept
  }

  /** The number of keys the last sweep left. */
  function KeysAtLastSweep(p: Policy, calls: seq<Call>): nat {
    if calls == [] then 0 else
    var before := calls[..|calls| - 1];
    KeysStep(p, StoreAfter(p, before), calls[|calls| - 1], KeysAtLastSweep(p, before))
  }

  lemma SweepSize(store: Store, start: real)
    ensures |Swept(store, start).records| ==
              if store.sweepCounter + 1 >= SWEEP_EVERY then |store.records.Keys - DeadKeys(store.records, start)|
              else |store.records|
  {
    var swept := store.records - DeadKeys(store.records, start);
    assert swept.Keys == store.records.Keys - DeadKeys(store.records, start);
  }

  lemma CheckSize(store: Store, key: Key, limit: int, window: nat, now: real)
    ensures var (store', swept) := (Check(store, key, limit, window, now).0, Swept(store, now - window as real));
            store'.sweepCounter == swept.sweepCounter && |store'.records| <= |swept.records| + 1
  {
    var store', swept := Check(store, key, limit, window, now).0, Swept(store, now - window as real);
    assert store'.records.Keys <= swept.records.Keys + {key};
    SubsetSize(store'.records.Keys, swept.records.Keys + {key});
  }

  lemma PruneSize(store: Store, window: nat, now: real)
    ensures |Prune(store, window, now).records| <= |store.records|
  {
    SubsetSize(Prune(store, window, now).records.Keys, store.records.Keys);
  }

  ghost predicate Small(store: Store, kept: nat) {
    store.sweepCounter < SWEEP_EVERY && |store.records| <= kept + store.sweepCounter + 1
  }

  lemma StepStaysSmall(p: Policy, store: Store, call: Call, kept: nat)
    requires Small(store, kept)
    ensures Small(StoreStep(p, store, call), KeysStep(p, store, call, kept))
  {
    if call.Hit? {
      SweepSize(store, call.now - p.window as real);
      CheckSize(store, call.key, p.limit(call.key), p.window, call.now);
    } else {
      PruneSize(store, call.window, call.now);
    }
  }

  /** The store never holds more than a hundred keys beyond those its last sweep left. */
  lemma {:induction false} StoreStaysSmall(p: Policy, calls: seq<Call>)
    ensures Small(StoreAfter(p, calls), KeysAtLastSweep(p, calls))
    ensures |StoreAfter(p, calls).records| <= KeysAtLastSweep(p, calls) + SWEEP_EVERY
    decreases |calls|
  {
    if calls != [] {
      var before := calls[..|calls| - 1];
      StoreStaysSmall(p, before);
      StepStaysSmall(p, StoreAfter(p, before), calls[|calls| - 1], KeysAtLastSweep(p, before));
    }
  }

  function Hits(calls: seq<Call>): nat {
    if calls == [] then 0 else Hits(calls[..|calls| - 1]) + (if calls[|calls| - 1].Hit? then 1 else 0)
  }

  function KeysIn(calls: seq<Call>): set<Key> {
    if calls == [] then {} else
    var last := calls[|calls| - 1];
    KeysIn(calls[..|calls| - 1]) + (if last.Hit? then {last.key} else {})
  }

  /** The keys with an admission in (now - W, now], by the full history. */
  function LiveKeys(p: Policy, calls: seq<Call>, now: real): set<Key> {
    set k | k in KeysIn(calls) && Live(Admitted(p, calls, k), now - p.window as real) != []
  }

  /** How many keys were live, by the full history, at the last hundredth check. */
  function LiveAtLastSweep(p: Policy, calls: seq<Call>): nat {
    if calls == [] then 0 else
    var before := calls[..|calls| - 1];
    LiveStep(p, before, calls[|calls| - 1], LiveAtLastSweep(p, before))
  }

  function LiveStep(p: Policy, before: seq<Call>, call: Call, kept: nat): nat {
    if call.Hit? && Hits(before) % SWEEP_EVERY == SWEEP_EVERY - 1 then |LiveKeys(p, before, call.now)| else kept
  }

  lemma {:induction false} OnlyHitKeysAreAdmitted(p: Policy, calls: seq<Call>, key: Key)
    requires key !in KeysIn(calls)
    ensures Admitted(p, calls, key) == []
    decreases |calls|
  {
    if calls != [] {
      OnlyHitKeysAreAdmitted(p, calls[..|calls| - 1], key);
    }
  }

  lemma DeadMeansNothingLive(stamps: seq<real>, start: real, now: real)
    requires SortedUpTo(stamps, now)
    ensures Dead(stamps, start) <==> Live(stamps, start) == []
  {
    if Dead(stamps, start) {
      DeadHasNothing(stamps, start, now);
    }
  }

  lemma KeptIffLive(records: map<Key, seq<real>>, key: Key, history: seq<real>, limit: int, window: nat, now: real)
    requires StandsFor(Stored(records, key), history, limit, window, now)
    ensures key in records.Keys - DeadKeys(records, now - window as real) <==> Live(history, now - window as real) != []
  {
    DeadMeansNothingLive(Stored(records, key), now - window as real, now);
  }

  /** A sweep keeps exactly the keys that are live by the full history. */
  lemma SweepKeepsTheLive(p: Policy, calls: seq<Call>, now: real)
    requires Orderly(p, calls, now) && LimitsArePositive(p)
    ensures var records := StoreAfter(p, calls).records;
            records.Keys - DeadKeys(records, now - p.window as real) == LiveKeys(p, calls, now)
  {
    var records := StoreAfter(p, calls).records;
    forall k: Key
      ensures k in records.Keys - DeadKeys(records, now - p.window as real) <==> k in LiveKeys(p, calls, now)
    {
      StoreRefinesHistory(p, calls, k, now);
      KeptIffLive(records, k, Admitted(p, calls, k), p.limit(k), p.window, now);
      if k !in KeysIn(calls) {
        OnlyHitKeysAreAdmitted(p, calls, k);
      }
    }
  }

  lemma CounterStep(p: Policy, store: Store, call: Call, hits: nat)
    requires store.sweepCounter == hits % SWEEP_EVERY
    ensures StoreStep(p, store, call).sweepCounter == (if call.Hit? then hits + 1 else hits) % SWEEP_EVERY
  {
    if call.Hit? {
      CheckSize(store, call.key, p.limit(call.key), p.window, call.now);
    }
  }

  lemma {:induction false} CounterCountsHits(p: Policy, calls: seq<Call>)
    ensures StoreAfter(p, calls).sweepCounter == Hits(calls) % SWEEP_EVERY
    decreases |calls|
  {
    if calls != [] {
      var before := calls[..|calls| - 1];
      CounterCountsHits(p, before);
      CounterStep(p, StoreAfter(p, before), calls[|calls| - 1], Hits(before));
    }
  }

  lemma KeysStepByCount(p: Policy, store: Store, call: Call, kept: nat, hits: nat, live: set<Key>)
    requires store.sweepCounter == hits % SWEEP_EVERY
    requires store.records.Keys - DeadKeys(store.records, call.now - p.window as real) == live
    ensures KeysStep(p, store, call, kept) == if call.Hit? && hits % SWEEP_EVERY == SWEEP_EVERY - 1 then |live|
        else kept
  {
  }

  lemma SweepLeavesTheLive(p: Policy, before: seq<Call>, call: Call, kept: nat)
    requires Orderly(p, before, call.now) && LimitsArePositive(p)
    ensures KeysStep(p, StoreAfter(p, before), call, kept) == LiveStep(p, before, call, kept)
  {
    CounterCountsHits(p, before);
    SweepKeepsTheLive(p, before, call.now);
    KeysStepByCount(p, StoreAfter(p, before), call, kept, Hits(before), LiveKeys(p, before, call.now));
  }

  lemma {:induction false} LastSweepLeftTheLive(p: Policy, calls: seq<Call>, now: real)
    requires Orderly(p, calls, now) && LimitsArePositive(p)
    ensures KeysAtLastSweep(p, calls) == LiveAtLastSweep(p, calls)
    decreases |calls|
  {
    if calls != [] {
      var before, last := calls[..|calls| - 1], calls[|calls| - 1];
      LastSweepLeftTheLive(p, before, last.now);
      SweepLeavesTheLive(p, before, last, KeysAtLastSweep(p, before));
    }
  }

  /** The store never holds more than a hundred keys beyond those that were
      live, by the full history, at the last sweep. */
  lemma StoreHoldsLittleBeyondTheLive(p: Policy, calls: seq<Call>, now: real)
    requires Orderly(p, calls, now) && LimitsArePositive(p)
    ensures |StoreAfter(p, calls).records| <= LiveAtLastSweep(p, calls) + SWEEP_EVERY
  {
    StoreStaysSmall(p, calls);
    LastSweepLeftTheLive(p, calls, now);
  }

  // ---- Pruning ----

  /** The clock does not run backwards up to `now`. */
  ghost predicate Timely(calls: seq<Call>, now: real) {
    calls == [] || (calls[|calls| - 1].now <= now && Timely(calls[..|calls| - 1], calls[|calls| - 1].now))
  }

  /** With or without this pruning, the check of `key` at `now` decides alike. */
  ghost predicate PruneInvisible(p: Policy, before: seq<Call>, prune: Call, after: seq<Call>, key: Key, now: real) {
    Decide(p, before + [prune] + after, key, now) == Decide(p, before + after, key, now)
  }

  lemma JustifiedIsUnique(a: Verdict, b: Verdict, history: seq<real>, limit: int, window: nat, now: real)
    requires Justified(a, history, limit, window, now) && Justified(b, history, limit, window, now)
    ensures a == b
  {
  }

  lemma SameHistorySameDecision(p: Policy, calls: seq<Call>, other: seq<Call>, key: Key, now: real)
    requires Orderly(p, calls, now) && Orderly(p, other, now) && LimitsArePositive(p)
    requires Admitted(p, calls, key) == Admitted(p, other, key)
    ensures Decide(p, calls, key, now) == Decide(p, other, key, now)
  {
    DecisionsRefineFullHistory(p, calls, key, now);
    DecisionsRefineFullHistory(p, other, key, now);
    JustifiedIsUnique(Decide(p, calls, key, now), Decide(p, other, key, now), Admitted(p, calls, key), p.limit(key),
        p.window, now);
  }

  lemma OrderlyPrune(p: Policy, before: seq<Call>, prune: Call, now: real)
    requires Orderly(p, before, now) && Timely(before + [prune], now) && prune.PruneAt? && prune.window >= p.window
    ensures Orderly(p, before + [prune], now)
  {
    assert (before + [prune])[..|before|] == before;
  }

  /** A long enough pruning anywhere in a sequence leaves no trace in the history. */
  lemma {:induction false} PrunedHistory(p: Policy, before: seq<Call>, prune: Call, after: seq<Call>, key: Key,
                                         now: real)
    requires LimitsArePositive(p) && prune.PruneAt? && prune.window >= p.window
    requires Orderly(p, before + after, now) && Timely(before + [prune] + after, now)
    ensures Orderly(p, before + [prune] + after, now)
    ensures Admitted(p, before + [prune] + after, key) == Admitted(p, before + after, key)
    decreases |after|
  {
    if after == [] {
      assert before + [] == before && before + [prune] + [] == before + [prune];
      OrderlyPrune(p, before, prune, now);
      AfterOne(p, before, prune, key);
    } else {
      var init, last := after[..|after| - 1], after[|after| - 1];
      var plain, pruned := before + init, before + [prune] + init;
      assert before + after == plain + [last] && before + [prune] + after == pruned + [last];
      assert (plain + [last])[..|plain|] == plain && (pruned + [last])[..|pruned|] == pruned;
      PrunedHistory(p, before, prune, init, key, last.now);
      AfterOne(p, plain, last, key);
      AfterOne(p, pruned, last, key);
      SameHistorySameDecision(p, pruned, plain, key, last.now);
    }
  }

  /** A limiter with this window, run with and without the pruning, in time order. */
  ghost predicate PruneSetting(p: Policy, window: nat, before: seq<Call>, prune: Call, after: seq<Call>, now: real) {
    && p.window == window && LimitsArePositive(p)
    && Orderly(p, before + after, now) && Timely(before + [prune] + after, now)
  }

  lemma LongPruneIsUnseen(p: Policy, before: seq<Call>, prune: Call, after: seq<Call>, key: Key, now: real)
    requires PruneSetting(p, p.window, before, prune, after, now) && prune.PruneAt? && prune.window >= p.window
    ensures PruneInvisible(p, before, prune, after, key, now)
  {
    PrunedHistory(p, before, prune, after, key, now);
    SameHistorySameDecision(p, before + [prune] + after, before + after, key, now);
  }

  ghost predicate NeverSeen(pruneWindow: nat, window: nat) {
    forall p: Policy, before: seq<Call>, t: real, after: seq<Call>, key: Key, now: real ::
      PruneSetting(p, window, before, PruneAt(pruneWindow, t), after, now) ==>
      PruneInvisible(p, before, PruneAt(pruneWindow, t), after, key, now)
  }

  lemma LongPruneIsNeverSeen(pruneWindow: nat, window: nat)
    requires pruneWindow >= window
    ensures NeverSeen(pruneWindow, window)
  {
    forall p: Policy, before: seq<Call>, t: real, after: seq<Call>, key: Key, now: real
      | PruneSetting(p, window, before, PruneAt(pruneWindow, t), after, now)
      ensures PruneInvisible(p, before, PruneAt(pruneWindow, t), after, key, now)
    {
      LongPruneIsUnseen(p, before, PruneAt(pruneWindow, t), after, key, now);
    }
  }

  lemma FirstHit(p: Policy, t: real)
    requires p.limit("k") == 1
    ensures StoreAfter(p, [Hit("k", t)]) == Store(map["k" := [t]], 1)
  {
    assert [Hit("k", t)][..0] == [] && [] + [t] == [t];
    assert Live([], t - p.window as real) == [] && EMPTY.records - {} == map[];
    assert Check(EMPTY, "k", 1, p.window, t).0 == Store(map[]["k" := [t]], 1);
  }

  lemma PruneAfterHit(p: Policy, pruneWindow: nat)
    requires p.limit("k") == 1
    ensures StoreAfter(p, [Hit("k", 0.0), PruneAt(pruneWindow, pruneWindow as real)]) == Store(map[], 1)
  {
    FirstHit(p, 0.0);
    assert [Hit("k", 0.0), PruneAt(pruneWindow, pruneWindow as real)][..1] == [Hit("k", 0.0)];
    assert map["k" := [0.0]] - {"k"} == map[];
    assert DeadKeys(map["k" := [0.0]], pruneWindow as real - pruneWindow as real) == {"k"};
  }

  /** One admission per window for every key. */
  function OnePerWindow(window: nat): Policy {
    Policy(window, (k: Key) => 1)
  }

  lemma ShortPruneSetting(pruneWindow: nat, window: nat)
    ensures var t := pruneWindow as real;
            PruneSetting(OnePerWindow(window), window, [Hit("k", 0.0)], PruneAt(pruneWindow, t), [], t)
  {
    var t := pruneWindow as real;
    var before, prune := [Hit("k", 0.0)], PruneAt(pruneWindow, t);
    assert before + [] == before && before + [prune] + [] == [Hit("k", 0.0), prune];
    assert before[..0] == [] && [Hit("k", 0.0), prune][..1] == before;
  }

  lemma StoredHitLimits(store: Store, window: nat, t: real)
    requires store.records == map["k" := [0.0]] && 0.0 <= t < window as real
    ensures Check(store, "k", 1, window, t).1.Limited?
  {
    var stamps := [0.0];
    assert stamps[..0] == [] && Live([], t - window as real) == [];
    assert Live(stamps, t - window as real) == stamps;
    CheckByLive(store, "k", 1, window, t);
  }

  lemma EmptyStoreAdmits(store: Store, window: nat, t: real)
    requires store.records == map[]
    ensures Check(store, "k", 1, window, t).1 == Allowed
  {
    CheckByLive(store, "k", 1, window, t);
  }

  /** Two checks of one key a short while apart, and a shorter pruning between
      them: the second check is admitted only because of the pruning. */
  lemma ShortPruneIsSeen(pruneWindow: nat, window: nat)
    requires pruneWindow < window
    ensures var p, t := OnePerWindow(window), pruneWindow as real;
            && Decide(p, [Hit("k", 0.0), PruneAt(pruneWindow, t)], "k", t) == Allowed
            && Decide(p, [Hit("k", 0.0)], "k", t).Limited?
  {
    var p, t := OnePerWindow(window), pruneWindow as real;
    FirstHit(p, 0.0);
    PruneAfterHit(p, pruneWindow);
    StoredHitLimits(StoreAfter(p, [Hit("k", 0.0)]), window, t);
    EmptyStoreAdmits(StoreAfter(p, [Hit("k", 0.0), PruneAt(pruneWindow, t)]), window, t);
  }

  lemma ShortPruneIsSometimesSeen(pruneWindow: nat, window: nat)
    requires pruneWindow < window
    ensures !NeverSeen(pruneWindow, window)
  {
    var t := pruneWindow as real;
    var before, prune := [Hit("k", 0.0)], PruneAt(pruneWindow, t);
    ShortPruneIsSeen(pruneWindow, window);
    ShortPruneSetting(pruneWindow, window);
    assert before + [] == before && before + [prune] + [] == [Hit("k", 0.0), prune];
    assert !PruneInvisible(OnePerWindow(window), before, prune, [], "k", t);
  }

  /** Pruning with window V never changes a later decision of a limiter with
      window W, in whatever sequence of calls, if and only if V is at least W. */
  lemma PruneIsInvisibleIffWindowIsLonger(pruneWindow: nat, window: nat)
    ensures NeverSeen(pruneWindow, window) <==> pruneWindow >= window
  {
    if pruneWindow >= window {
      LongPruneIsNeverSeen(pruneWindow, window);
    } else {
      ShortPruneIsSometimesSeen(pruneWindow, window);
    }
  }
}
