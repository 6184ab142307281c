/**
  The observer's duplicate filter (mqtt_observer.py): a dictionary of recent frames that forgets
  what it has not seen for 30 seconds. The clock is monotonic; times are exact reals.
 */
module Dedup {
  import opened Wrappers
  import opened Bytes

  /** Device, direction and wire text. */
  type Key = (seq<byte>, seq<byte>, seq<byte>)

  const DUPLICATE_WINDOW := 3.0
  const EVICTION := 30.0

  datatype Observation = Observation(key: Key, at: real)

  type Cache = map<Key, real>

  /** The dictionary after _is_duplicate. */
  function Remember(c: Cache, o: Observation): Cache {
    var d := c[o.key := o.at];
    map k | k in d && !(o.at - d[k] > EVICTION) :: d[k]
  }

  /** The answer of _is_duplicate. */
  predicate Answer(c: Cache, o: Observation) { o.key in c && o.at - c[o.key] <= DUPLICATE_WINDOW }

  function CacheAfter(log: seq<Observation>): Cache {
    if log == [] then map[] else Remember(CacheAfter(log[..|log| - 1]), log[|log| - 1])
  }

  /** The latest earlier observation of a key in an unbounded log. */
  function Latest(log: seq<Observation>, k: Key): Option<real> {
    if log == [] then None
    else if log[|log| - 1].key == k then Some(log[|log| - 1].at)
    else Latest(log[..|log| - 1], k)
  }

  ghost predicate Monotonic(log: seq<Observation>) { forall i, j | 0 <= i < j < |log| :: log[i].at <= log[j].at }

  function Now(log: seq<Observation>): real
    requires log != []
  {
    log[|log| - 1].at
  }

  lemma {:induction false} LatestIsPast(log: seq<Observation>, k: Key)
    requires log != [] && Monotonic(log) && Latest(log, k).Some?
    ensures Latest(log, k).value <= Now(log)
  {
    if log[|log| - 1].key != k {
      LatestIsPast(log[..|log| - 1], k);
    }
  }

  /** The cache is the unbounded log restricted to the last 30 seconds. */
  lemma {:induction false} CacheIsRecentLog(log: seq<Observation>, k: Key)
    requires log != [] && Monotonic(log)
    ensures var c, l := CacheAfter(log), Latest(log, k);
            (k in c <==> l.Some? && Now(log) - l.value <= 30.0) && (k in c ==> Some(c[k]) == l)
  {
    var init := log[..|log| - 1];
    if init != [] {
      CacheIsRecentLog(init, k);
      assert Now(init) <= Now(log);
    }
  }

  /**
    With a monotonic clock the evicting cache answers exactly as an unbounded log would: a frame is
    a duplicate iff the latest earlier one like it is at most three seconds old.
   */
  lemma EvictionIsInvisible(log: seq<Observation>, o: Observation)
    requires Monotonic(log + [o])
    ensures Answer(CacheAfter(log), o) <==>
            Latest(log, o.key).Some? && o.at - Latest(log, o.key).value <= 3.0
  {
    if log != [] {
      assert log + [o] == log + [o] && (log + [o])[|log|] == o;
      assert forall i | 0 <= i < |log| :: (log + [o])[i] == log[i];
      CacheIsRecentLog(log, o.key);
      assert Now(log) <= o.at by { assert (log + [o])[|log| - 1].at <= (log + [o])[|log|].at; }
    }
  }

  /** An evicted frame could only be answered wrongly if the clock went back. */
  lemma ClockMustNotGoBack(k: Key, other: Key)
    requires k != other
    ensures var log := [Observation(k, 0.0), Observation(other, 40.0)];
            Latest(log, k) == Some(0.0) && !Answer(CacheAfter(log), Observation(k, 1.0))
  {
    var log := [Observation(k, 0.0), Observation(other, 40.0)];
    assert log[..1] == [Observation(k, 0.0)] && [Observation(k, 0.0)][..0] == [];
  }

  class DuplicateFilter {
    var recent: Cache

    constructor ()
      ensures recent == CacheAfter([])
    {
      recent := map[];
    }

    method IsDuplicate(key: Key, now: real) returns (duplicate: bool)
      modifies this
      ensures duplicate <==> Answer(old(recent), Observation(key, now))
      ensures recent == Remember(old(recent), Observation(key, now))
    {
      var seenBefore := key in recent;
      var previous := if seenBefore then recent[key] else 0.0;
      recent := recent[key := now];
      var stale := set k | k in recent && now - recent[k] > EVICTION :: k;
      recent := recent - stale;
      duplicate := seenBefore && now - previous <= DUPLICATE_WINDOW;
    }
  }
}
