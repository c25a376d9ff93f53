/** The in-memory sliding-window rate limiter (app/core/rate_limit.py). */
module RateLimiter {

  type Key = string

  /** A limit of zero with nothing stored indexes an empty list. */
  datatype Verdict = Allowed | Limited(retryAfter: int) | IndexError

  datatype Store = Store(records: map<Key, seq<real>>, sweepCounter: nat)

  const SWEEP_EVERY: nat := 100
  const EMPTY := Store(map[], 0)

  // ---- What a call does ----

  /** The stamps after `start`, in order. */
  function Live(stamps: seq<real>, start: real): (r: seq<real>) {
    if stamps == [] then [] else
    var rest := Live(stamps[..|stamps| - 1], start);
    var last := stamps[|stamps| - 1];
    if last > start then rest + [last] else rest
  }

  predicate Dead(stamps: seq<real>, start: real) {
    stamps == [] || stamps[|stamps| - 1] <= start
  }

  function DeadKeys(records: map<Key, seq<real>>, start: real): set<Key> {
    set k | k in records && Dead(records[k], start)
  }

  function Stored(records: map<Key, seq<real>>, key: Key): seq<real> {
    if key in records then records[key] else []
  }

  /** `int(x)`: the fraction is cut off. */
  function Truncate(x: real): int {
    if x >= 0.0 then x.Floor else -((-x).Floor)
  }

  function RetryAfter(oldest: real, window: nat, now: real): int {
    var wait := Truncate(oldest + window as real - now) + 1;
    if wait > 1 then wait else 1
  }

  /** The opportunistic sweep, every hundredth call. */
  function Swept(store: Store, start: real): Store {
    if store.sweepCounter + 1 >= SWEEP_EVERY
    then Store(store.records - DeadKeys(store.records, start), 0)
    else store.(sweepCounter := store.sweepCounter + 1)
  }

  function Check(store: Store, key: Key, limit: int, window: nat, now: real): (Store, Verdict) {
    var start := now - window as real;
    var swept := Swept(store, start);
    var valid := Live(Stored(swept.records, key), start);
    if |valid| >= limit then
      if valid == [] then (swept, IndexError)
      else (swept.(records := swept.records[key := valid]), Limited(RetryAfter(valid[0], window, now)))
    else (swept.(records := swept.records[key := valid + [now]]), Allowed)
  }

  function Prune(store: Store, window: nat, now: real): Store {
    store.(records := store.records - DeadKeys(store.records, now - window as real))
  }

  // ---- The limiter ----

  class InMemoryRateLimiter {
    var records: map<Key, seq<real>>
    var sweepCounter: nat

    constructor ()
      ensures State() == EMPTY
    {
      records, sweepCounter := map[], 0;
    }

    ghost function State(): Store
      reads this
    {
      Store(records, sweepCounter)
    }

    /** Pops the dead keys one at a time and says how many there were. */
    method PopDeadKeys(start: real) returns (popped: nat)
      modifies this`records
      ensures records == old(records) - DeadKeys(old(records), start)
      ensures popped == |DeadKeys(old(records), start)|
    {
      var dead := DeadKeys(records, start);
      popped := |dead|;
      var left := dead;
      while left != {}
        invariant left <= dead
        invariant records == old(records) - (dead - left)
        decreases left
      {
        var k :| k in left;
        records := records - {k};
        left := left - {k};
      }
      assert dead - {} == dead;
    }

    static method Evict(stamps: seq<real>, start: real) returns (valid: seq<real>)
      ensures valid == Live(stamps, start)
    {
      valid := [];
      var i := 0;
      while i < |stamps|
        invariant 0 <= i <= |stamps|
        invariant valid == Live(stamps[..i], start)
      {
        assert stamps[..i + 1][..i] == stamps[..i];
        if stamps[i] > start {
          valid := valid + [stamps[i]];
        }
        i := i + 1;
      }
      assert stamps[..i] == stamps;
    }

    /** Counts the call, and sweeps when it is the hundredth. */
    method CountAndSweep(start: real)
      modifies this
      ensures State() == Swept(old(State()), start)
    {
      sweepCounter := sweepCounter + 1;
      if sweepCounter >= 100 {
        sweepCounter := 0;
        var _ := PopDeadKeys(start);
      }
    }

    method CheckRateLimit(key: Key, limit: int, window: nat, now: real) returns (v: Verdict)
      modifies this
      ensures (State(), v) == Check(old(State()), key, limit, window, now)
    {
      var start := now - window as real;
      CountAndSweep(start);
      ghost var swept := State();
      var stamps := if key in records then records[key] else [];
      var valid := Evict(stamps, start);
      assert valid == Live(Stored(swept.records, key), start);
      if |valid| >= limit {
        if valid == [] {
          return IndexError;
        }
        var oldest := valid[0];
        var wait := Truncate(oldest + window as real - now) + 1;
        records := records[key := valid];
        return Limited(if 1 > wait then 1 else wait);
      }
      valid := valid + [now];
      records := records[key := valid];
      return Allowed;
    }

    method PruneExpired(window: nat, now: real) returns (pruned: nat)
      modifies this`records
      ensures State() == Prune(old(State()), window, now)
      ensures pruned == |old(records)| - |records|
    {
      pruned := PopDeadKeys(now - window as real);
      assert records.Keys == old(records).Keys - DeadKeys(old(records), now - window as real);
      assert |records.Keys| + pruned == |old(records).Keys|;
    }
  }
}
