/** What the calls of the rate limiter do, said on the stored stamps alone:
    nothing here uses a definition of the limiter but the call itself. */
module RateLimiterContract {
  import opened RateLimiter
  import opened RateLimiterTheorems

  /** Nothing of the list is left in the window that ends at `now`. */
  predicate OutOfWindow(stamps: seq<real>, window: nat, now: real) {
    stamps == [] || stamps[|stamps| - 1] <= now - window as real
  }

  /** Every hundredth check sweeps. */
  predicate Sweeps(store: Store) { store.sweepCounter + 1 >= 100 }

  /** The keys that survive the sweep, if there is one. */
  predicate Survives(store: Store, key: Key, window: nat, now: real) {
    key in store.records && !(Sweeps(store) && OutOfWindow(store.records[key], window, now))
  }

  function StampsOf(store: Store, key: Key, window: nat, now: real): seq<real> {
    if Survives(store, key, window, now) then store.records[key] else []
  }

  /** The stamps after `start`, in order. */
  function Recent(stamps: seq<real>, start: real): seq<real> {
    if stamps == [] then []
    else if stamps[0] > start then [stamps[0]] + Recent(stamps[1..], start)
    else Recent(stamps[1..], start)
  }

  /** Seconds until the oldest stamp leaves the window, the fraction cut off, and
      one more; at least one. */
  function WaitFor(oldest: real, window: nat, now: real): int {
    var rest := oldest + window as real - now;
    if rest >= 0.0 then rest.Floor + 1 else 1
  }

  /** Every other list after a check, and the count of checks. */
  ghost predicate OthersChecked(store: Store, store': Store, key: Key, window: nat, now: real) {
    && store'.sweepCounter == (if Sweeps(store) then 0 else store.sweepCounter + 1)
    && (forall k :: k != key ==>
          && (k in store'.records <==> Survives(store, k, window, now))
          && (k in store'.records ==> store'.records[k] == store.records[k]))
  }

  /** The verdict and the list of the key after a check: what is left of it in the
      window, and the new stamp if it was admitted. */
  ghost predicate OwnChecked(store: Store, store': Store, verdict: Verdict, key: Key, limit: int, window: nat,
                             now: real)
  {
    var recent := Recent(StampsOf(store, key, window, now), now - window as real);
    if |recent| < limit then verdict == Allowed && key in store'.records && store'.records[key] == recent + [now]
    else if recent == [] then
      verdict == IndexError && (key in store'.records <==> Survives(store, key, window, now))
    else
      && verdict == Limited(WaitFor(recent[0], window, now))
      && key in store'.records && store'.records[key] == recent
  }

  lemma {:induction false} RecentAppend(stamps: seq<real>, t: real, start: real)
    ensures Recent(stamps + [t], start) == Recent(stamps, start) + if t > start then [t] else []
    decreases |stamps|
  {
    if stamps == [] {
      assert [t][1..] == [] && [] + [t] == [t];
    } else {
      assert (stamps + [t])[0] == stamps[0] && (stamps + [t])[1..] == stamps[1..] + [t];
      RecentAppend(stamps[1..], t, start);
    }
  }

  lemma {:induction false} LiveIsRecent(stamps: seq<real>, start: real)
    ensures Live(stamps, start) == Recent(stamps, start)
    decreases |stamps|
  {
    if stamps != [] {
      var init, last := stamps[..|stamps| - 1], stamps[|stamps| - 1];
      LiveIsRecent(init, start);
      RecentAppend(init, last, start);
      assert init + [last] == stamps;
    }
  }

  lemma WaitIsRetryAfter(oldest: real, window: nat, now: real)
    ensures RetryAfter(oldest, window, now) == WaitFor(oldest, window, now)
  {
  }

  lemma SweptOnFields(store: Store, window: nat, now: real, key: Key)
    ensures var swept := Swept(store, now - window as real);
            && (key in swept.records <==> Survives(store, key, window, now))
            && (key in swept.records ==> swept.records[key] == store.records[key])
            && Stored(swept.records, key) == StampsOf(store, key, window, now)
            && swept.sweepCounter == if Sweeps(store) then 0 else store.sweepCounter + 1
  {
  }

  lemma OthersAfterCheck(store: Store, key: Key, limit: int, window: nat, now: real)
    ensures OthersChecked(store, Check(store, key, limit, window, now).0, key, window, now)
  {
    forall k: Key
      ensures var swept := Swept(store, now - window as real);
              && (k in swept.records <==> Survives(store, k, window, now))
              && (k in swept.records ==> swept.records[k] == store.records[k])
    {
      SweptOnFields(store, window, now, k);
    }
    SweptOnFields(store, window, now, key);
  }

  /** One check of any store, in whatever state. */
  lemma CheckOnFields(store: Store, key: Key, limit: int, window: nat, now: real)
    ensures var (store', verdict) := Check(store, key, limit, window, now);
            && OwnChecked(store, store', verdict, key, limit, window, now)
            && OthersChecked(store, store', key, window, now)
  {
    var stamps, start := StampsOf(store, key, window, now), now - window as real;
    OthersAfterCheck(store, key, limit, window, now);
    SweptOnFields(store, window, now, key);
    LiveIsRecent(stamps, start);
    if Recent(stamps, start) != [] {
      WaitIsRetryAfter(Recent(stamps, start)[0], window, now);
    }
  }

  /** Pruning drops exactly the lists with nothing in its window. */
  lemma PruneOnFields(store: Store, window: nat, now: real)
    ensures var store' := Prune(store, window, now);
            && store'.sweepCounter == store.sweepCounter
            && (forall k :: k in store'.records <==> k in store.records && !OutOfWindow(store.records[k], window, now))
            && (forall k :: k in store'.records ==> store'.records[k] == store.records[k])
  {
  }

  /** The verdict by the full history: with `m` of the admissions of the key out
      of the window (now - W, now], the check admits exactly if fewer than the
      limit are in it, and otherwise asks to wait for the oldest of those. */
  ghost predicate ByHistory(verdict: Verdict, admitted: seq<real>, m: nat, limit: int, window: nat, now: real) {
    && m <= |admitted|
    && (forall i :: 0 <= i < m ==> admitted[i] <= now - window as real)
    && (forall i :: m <= i < |admitted| ==> now - window as real < admitted[i] <= now)
    && if |admitted| - m < limit then verdict == Allowed
       else m < |admitted| && verdict == Limited(WaitFor(admitted[m], window, now))
  }

  lemma {:induction false} LiveIsSuffix(stamps: seq<real>, start: real, now: real) returns (m: nat)
    requires SortedUpTo(stamps, now)
    ensures m <= |stamps| && Live(stamps, start) == stamps[m..]
    ensures forall i :: 0 <= i < m ==> stamps[i] <= start
    ensures forall i :: m <= i < |stamps| ==> start < stamps[i] <= now
    decreases |stamps|
  {
    m := 0;
    if stamps != [] {
      var init, last := stamps[..|stamps| - 1], stamps[|stamps| - 1];
      if last > start {
        m := LiveIsSuffix(init, start, last);
        assert forall i :: 0 <= i < |init| ==> init[i] == stamps[i];
        assert stamps[m..] == init[m..] + [last];
      } else {
        m := |stamps|;
        DeadHasNothing(stamps, start, now);
        SortedMeans(stamps, now);
        assert forall i :: 0 <= i < |init| ==> stamps[i] <= stamps[|init|];
      }
    }
  }

  /** Every decision of every orderly sequence of calls, by counting the full history. */
  lemma DecisionByCounting(p: Policy, calls: seq<Call>, key: Key, now: real) returns (m: nat)
    requires Orderly(p, calls, now) && LimitsArePositive(p)
    ensures ByHistory(Decide(p, calls, key, now), Admitted(p, calls, key), m, p.limit(key), p.window, now)
  {
    var admitted := Admitted(p, calls, key);
    DecisionsRefineFullHistory(p, calls, key, now);
    m := LiveIsSuffix(admitted, now - p.window as real, now);
    if m < |admitted| {
      WaitIsRetryAfter(admitted[m], p.window, now);
    }
  }
}
