/**
 How many checks of one key the limiter can allow in an interval (`api/src/main.rs`): upper bounds for
 readings that lag, when they hold exactly, and runs that reach them.
 */
module RateBounds {
  import opened Options
  import opened RateLimiter

  /** How many of the checks of `key` with a reading in `[from, to)` were allowed. */
  function AllowedOf<K(==)>(requests: seq<Request<K>>, key: K, from: nat, to: nat, pruning: bool): nat
    decreases |requests|
  {
    if requests == [] then 0
    else
      var last := |requests| - 1;
      AllowedOf(requests[..last], key, from, to, pruning)
      + (if requests[last].key == key && from <= requests[last].now < to && DecisionAt(requests, last, pruning).allowed
         then 1 else 0)
  }

  lemma AllowedOneMore<K>(requests: seq<Request<K>>, r: Request<K>, key: K, from: nat, to: nat, pruning: bool)
    ensures AllowedOf(requests + [r], key, from, to, pruning)
            == AllowedOf(requests, key, from, to, pruning)
               + (if r.key == key && from <= r.now < to && Check(After(map[], requests, pruning), r, pruning).1.allowed
                  then 1 else 0)
  {
    assert (requests + [r])[..|requests|] == requests;
  }

  // --- upper bounds -------------------------------------------------------------------------

  /**
   An interval that the checks of at most two buckets can reach, where the first check of one of them
   lies outside. If buckets can be evicted, an eviction lets the next bucket start a lag early.
   */
  predicate Short(from: nat, to: nat, window: nat, lag: nat, evicts: bool) {
    if evicts then to + lag <= from + window && to + 2 * lag <= from + window + 1
    else to <= from + window && to + lag <= from + window + 1
  }

  /**
   Where a key stands: nothing counted yet; all in one bucket; between two; in the second; or past the
   interval for good.
   */
  ghost predicate Stands(b: Option<Bucket>, low: nat, allowed: nat, limit: nat, window: nat, from: nat, to: nat,
                         lag: nat, evicts: bool)
  {
    && allowed <= 2 * limit - 1
    && (b.Some? ==> 1 <= b.value.count <= limit)
    && (|| allowed == 0
        || (b.Some? && from < b.value.started + window
            && allowed <= b.value.count - (if b.value.started < from then 1 else 0))
        || (evicts && b.None? && from < low + lag && allowed < limit)
        || (b.Some? && from < b.value.started + (if evicts then lag else 0) && allowed < limit + b.value.count)
        || to <= low)
  }

  /** The bucket is evicted by a reading that finds it run out. */
  lemma EvictStands(b: Option<Bucket>, low: nat, low': nat, x: nat, allowed: nat, limit: nat, window: nat, from: nat,
                    to: nat, lag: nat)
    requires Stands(b, low, allowed, limit, window, from, to, lag, true) && Short(from, to, window, lag, true)
    requires b.Some? && x >= b.value.started + window && low <= low' && x <= low' + lag
    ensures Stands(None, low', allowed, limit, window, from, to, lag, true)
  {
  }

  /** Time passes. */
  lemma WaitStands(b: Option<Bucket>, low: nat, low': nat, allowed: nat, limit: nat, window: nat, from: nat, to: nat,
                   lag: nat, evicts: bool)
    requires Stands(b, low, allowed, limit, window, from, to, lag, evicts) && low <= low'
    ensures Stands(b, low', allowed, limit, window, from, to, lag, evicts)
  {
  }

  /** The key is checked. */
  lemma UseStands(b: Option<Bucket>, low: nat, low': nat, t: nat, allowed: nat, limit: nat, window: nat, from: nat,
                  to: nat, lag: nat, evicts: bool)
    requires Stands(b, low, allowed, limit, window, from, to, lag, evicts) && Short(from, to, window, lag, evicts)
    requires limit >= 1 && window >= 1 && low <= low' <= t <= low' + lag
    ensures var (bucket, decision) := Use(b, limit, window, t);
            Stands(Some(bucket), low', allowed + (if from <= t < to && decision.allowed then 1 else 0),
                   limit, window, from, to, lag, evicts)
  {
    if b.Some? && Elapsed(t, b.value.started) < window {
      SameBucket(b.value, low, low', t, allowed, limit, window, from, to, lag, evicts);
    } else {
      NewBucket(b, low, low', t, allowed, limit, window, from, to, lag, evicts);
    }
  }

  lemma SameBucket(b: Bucket, low: nat, low': nat, t: nat, allowed: nat, limit: nat, window: nat, from: nat, to: nat,
                   lag: nat, evicts: bool)
    requires Stands(Some(b), low, allowed, limit, window, from, to, lag, evicts)
    requires limit >= 1 && low <= low' <= t && Elapsed(t, b.started) < window
    ensures if b.count >= limit then Stands(Some(b), low', allowed, limit, window, from, to, lag, evicts)
            else Stands(Some(Bucket(b.started, b.count + 1)), low', allowed + (if from <= t < to then 1 else 0),
                        limit, window, from, to, lag, evicts)
  {
  }

  lemma NewBucket(b: Option<Bucket>, low: nat, low': nat, t: nat, allowed: nat, limit: nat, window: nat, from: nat,
                  to: nat, lag: nat, evicts: bool)
    requires Stands(b, low, allowed, limit, window, from, to, lag, evicts) && Short(from, to, window, lag, evicts)
    requires limit >= 1 && low <= low' <= t <= low' + lag && (b.Some? ==> t >= b.value.started + window)
    ensures Stands(Some(Bucket(t, 1)), low', allowed + (if from <= t < to then 1 else 0),
                   limit, window, from, to, lag, evicts)
  {
  }

  /** The bucket that a check of any key leaves to `key` before it uses its own. */
  function Kept<K(==)>(buckets: map<K, Bucket>, key: K, r: Request<K>, pruning: bool): Option<Bucket> {
    Lookup(if pruning then Prune(buckets, r.window, r.now) else buckets, key)
  }

  lemma KeptCases<K>(buckets: map<K, Bucket>, key: K, r: Request<K>, pruning: bool)
    ensures var b, kept := Lookup(buckets, key), Kept(buckets, key, r, pruning);
            kept == b || (pruning && kept.None? && b.Some? && Elapsed(r.now, b.value.started) >= r.window)
    ensures Lookup(Check(buckets, r, pruning).0, key)
            == if r.key == key then Some(Use(Kept(buckets, key, r, pruning), r.limit, r.window, r.now).0)
               else Kept(buckets, key, r, pruning)
    ensures r.key == key ==>
              Check(buckets, r, pruning).1 == Use(Kept(buckets, key, r, pruning), r.limit, r.window, r.now).1
  {
  }

  lemma StepStands<K>(buckets: map<K, Bucket>, key: K, r: Request<K>, low: nat, low': nat, allowed: nat, limit: nat,
                      window: nat, from: nat, to: nat, lag: nat, pruning: bool)
    requires Stands(Lookup(buckets, key), low, allowed, limit, window, from, to, lag, pruning)
    requires Short(from, to, window, lag, pruning) && limit >= 1 && window >= 1
    requires low <= low' <= r.now <= low' + lag && r.window >= window
    requires r.key == key ==> r.limit == limit && r.window == window
    ensures var (after, decision) := Check(buckets, r, pruning);
            Stands(Lookup(after, key), low',
                   allowed + (if r.key == key && from <= r.now < to && decision.allowed then 1 else 0),
                   limit, window, from, to, lag, pruning)
  {
    var b, kept := Lookup(buckets, key), Kept(buckets, key, r, pruning);
    KeptCases(buckets, key, r, pruning);
    if kept != b {
      EvictStands(b, low, low', r.now, allowed, limit, window, from, to, lag);
      if r.key == key { EvictedUse(low', r.now, allowed, limit, window, from, to, lag); }
    } else if r.key == key {
      UseStands(b, low, low', r.now, allowed, limit, window, from, to, lag, pruning);
    } else {
      WaitStands(b, low, low', allowed, limit, window, from, to, lag, pruning);
    }
  }

  /** A check that evicts its own bucket starts a new one. */
  lemma EvictedUse(low: nat, t: nat, allowed: nat, limit: nat, window: nat, from: nat, to: nat, lag: nat)
    requires Stands(None, low, allowed, limit, window, from, to, lag, true) && Short(from, to, window, lag, true)
    requires limit >= 1 && low <= t <= low + lag
    ensures var (bucket, decision) := Use(None, limit, window, t);
            Stands(Some(bucket), low, allowed + (if from <= t < to && decision.allowed then 1 else 0),
                   limit, window, from, to, lag, true)
  {
  }

  lemma {:induction false} RunStands<K>(requests: seq<Request<K>>, key: K, limit: nat, window: nat, from: nat, to: nat,
                                        lag: nat, pruning: bool)
    requires limit >= 1 && window >= 1 && Lagging(requests, lag) && Constant(requests, key, limit, window)
    requires Windows(requests, key, window, 0) && Short(from, to, window, lag, pruning)
    ensures Stands(BucketOf(requests, key, pruning), Low(requests, lag), AllowedOf(requests, key, from, to, pruning),
                   limit, window, from, to, lag, pruning)
    decreases |requests|
  {
    if requests != [] {
      var last := |requests| - 1;
      var before := requests[..last];
      LowStep(requests, lag);
      RunStands(before, key, limit, window, from, to, lag, pruning);
      StepStands(After(map[], before, pruning), key, requests[last], Low(before, lag), Low(requests, lag),
                 AllowedOf(before, key, from, to, pruning), limit, window, from, to, lag, pruning);
    }
  }

  /**
   The rate bound of the code: for a key with constant limit L >= 1 and the shortest window W in use,
   an interval of length at most W - 2 * lag (and one more tick, within W - lag) contains at most
   2L - 1 allowed checks, whatever the other keys do. Without lag this is every interval of length W.
   */
  lemma RateBound<K>(requests: seq<Request<K>>, key: K, limit: nat, window: nat, from: nat, to: nat, lag: nat)
    requires limit >= 1 && window >= 1 && Lagging(requests, lag) && Constant(requests, key, limit, window)
    requires Windows(requests, key, window, 0)
    requires to + lag <= from + window && to + 2 * lag <= from + window + 1
    ensures AllowedOf(requests, key, from, to, true) <= 2 * limit - 1
  {
    RunStands(requests, key, limit, window, from, to, lag, true);
  }

  /** Where pruning is invisible, the allowed checks are those of the limiter that never evicts. */
  lemma {:induction false} SameAllowed<K>(requests: seq<Request<K>>, key: K, window: nat, from: nat, to: nat, lag: nat)
    requires Lagging(requests, lag) && Windows(requests, key, window, lag)
    ensures AllowedOf(requests, key, from, to, true) == AllowedOf(requests, key, from, to, false)
    decreases |requests|
  {
    if requests != [] {
      var last := |requests| - 1;
      SameAllowed(requests[..last], key, window, from, to, lag);
      if requests[last].key == key { PruningIsInvisible(requests, last, window, lag); }
    }
  }

  /**
   Where pruning is invisible, an interval of length at most W - lag + 1, within W, contains at most
   2L - 1 allowed checks.
   */
  lemma RateBoundWhenInvisible<K>(requests: seq<Request<K>>, key: K, limit: nat, window: nat, from: nat, to: nat,
                                  lag: nat)
    requires limit >= 1 && window >= 1 && Lagging(requests, lag) && Constant(requests, key, limit, window)
    requires Windows(requests, key, window, lag) && to <= from + window && to + lag <= from + window + 1
    ensures AllowedOf(requests, key, from, to, true) <= 2 * limit - 1
  {
    SameAllowed(requests, key, window, from, to, lag);
    RunStands(requests, key, limit, window, from, to, lag, false);
  }

  // --- exactly when the bound holds for a whole window --------------------------------------

  /** How many of the checks of `key` with a reading in the window from `from` on were allowed. */
  function AllowedWithin<K(==)>(requests: seq<Request<K>>, key: K, from: nat, window: nat): nat {
    AllowedOf(requests, key, from, from + window, true)
  }

  /** Under the policy table, `key` never has more than 2L - 1 allowed checks in an interval of its window. */
  ghost predicate RateKept(windows: nat -> nat, key: nat, lag: nat) {
    forall requests: seq<Request<nat>>, limit: nat, from: nat ::
      (&& limit >= 1 && Lagging(requests, lag) && Follows(requests, windows)
       && Constant(requests, key, limit, windows(key)))
      ==> AllowedWithin(requests, key, from, windows(key)) <= 2 * limit - 1
  }

  lemma {:induction false} NothingIn<K>(requests: seq<Request<K>>, key: K, from: nat, pruning: bool)
    ensures AllowedOf(requests, key, from, from, pruning) == 0
    decreases |requests|
  {
    if requests != [] { NothingIn(requests[..|requests| - 1], key, from, pruning); }
  }

  /** An allowed check in the interval is counted. */
  lemma {:induction false} AllowedIsCounted<K>(requests: seq<Request<K>>, key: K, from: nat, to: nat, i: nat)
    requires i < |requests| && requests[i].key == key && from <= requests[i].now < to
    requires DecisionAt(requests, i, true).allowed
    ensures AllowedOf(requests, key, from, to, true) >= 1
    decreases |requests|
  {
    var last := |requests| - 1;
    if i < last {
      PrefixDecision(requests, last, i, true);
      AllowedIsCounted(requests[..last], key, from, to, i);
    }
  }

  lemma TooManyAfterReset(windows: nat -> nat, key: nat, other: nat, lag: nat, full: nat)
    requires Close(windows, key, other, lag) && full == 10_001
    ensures !RateKept(windows, key, lag)
  {
    var requests := ResetRun(windows, key, other, lag, full);
    ResetRunShape(windows, key, other, lag, full);
    CloseWindowResets(windows, key, other, lag, full);
    PrefixDecision(requests, full + 2, 0, true);
    AllowedIsCounted(requests[..full + 2], key, 0, windows(key), 0);
    LastIsCounted(requests, key, 0, windows(key));
    assert AllowedWithin(requests, key, 0, windows(key)) >= 2;
  }

  lemma LastIsCounted<K>(requests: seq<Request<K>>, key: K, from: nat, to: nat)
    requires requests != [] && requests[|requests| - 1].key == key && from <= requests[|requests| - 1].now < to
    requires DecisionAt(requests, |requests| - 1, true).allowed
    ensures AllowedOf(requests, key, from, to, true) == AllowedOf(requests[..|requests| - 1], key, from, to, true) + 1
  {
  }

  // --- runs of one key ----------------------------------------------------------------------

  /** All checks are of one key, with one limit and one window. */
  ghost predicate OnlyOf<K>(requests: seq<Request<K>>, key: K, limit: nat, window: nat) {
    forall i :: 0 <= i < |requests| ==>
      requests[i].key == key && requests[i].limit == limit && requests[i].window == window
  }

  /** One key is checked by itself, and this is where it stands. */
  ghost predicate Alone<K>(requests: seq<Request<K>>, key: K, limit: nat, window: nat, from: nat, to: nat,
                           bucket: Bucket, allowed: nat)
  {
    && OnlyOf(requests, key, limit, window)
    && After(map[], requests, true) == map[key := bucket]
    && AllowedOf(requests, key, from, to, true) == allowed
  }

  lemma AloneStep<K>(requests: seq<Request<K>>, key: K, limit: nat, window: nat, from: nat, to: nat, bucket: Bucket,
                     allowed: nat, t: nat)
    requires Alone(requests, key, limit, window, from, to, bucket, allowed)
    ensures var (after, decision) := Use(Some(bucket), limit, window, t);
            Alone(requests + [Request(key, limit, window, t)], key, limit, window, from, to, after,
                  allowed + (if from <= t < to && decision.allowed then 1 else 0))
  {
    var r := Request(key, limit, window, t);
    AfterOneMore(requests, r, true);
    AllowedOneMore(requests, r, key, from, to, true);
    assert Prune(map[key := bucket], window, t) == map[key := bucket];
  }

  /** Every reading is between the two, and none lags by more than `lag`. */
  ghost predicate Readings<K>(requests: seq<Request<K>>, lag: nat, low: nat, high: nat) {
    Lagging(requests, lag) && forall i :: 0 <= i < |requests| ==> low <= requests[i].now <= high
  }

  lemma ReadingsStep<K>(requests: seq<Request<K>>, r: Request<K>, lag: nat, high: nat)
    requires Readings(requests, lag, 0, high) && r.now <= high <= r.now + lag
    ensures Readings(requests + [r], lag, 0, high)
  {
  }

  /** `n` checks at one reading in a running window that is not used up are allowed. */
  lemma {:induction false} Burst<K>(requests: seq<Request<K>>, key: K, limit: nat, window: nat, from: nat, to: nat,
                                    bucket: Bucket, allowed: nat, t: nat, n: nat, lag: nat, high: nat)
    returns (more: seq<Request<K>>)
    requires Alone(requests, key, limit, window, from, to, bucket, allowed) && from <= t < to
    requires t < bucket.started + window && bucket.count + n <= limit && window >= 1
    requires Readings(requests, lag, 0, high) && t <= high <= t + lag
    ensures Alone(more, key, limit, window, from, to, Bucket(bucket.started, bucket.count + n), allowed + n)
    ensures Readings(more, lag, 0, high)
    decreases n
  {
    more := requests;
    if n > 0 {
      var r := Request(key, limit, window, t);
      AloneStep(requests, key, limit, window, from, to, bucket, allowed, t);
      ReadingsStep(requests, r, lag, high);
      more := Burst(requests + [r], key, limit, window, from, to, Bucket(bucket.started, bucket.count + 1), allowed + 1,
                    t, n - 1, lag, high);
    }
  }

  lemma Start<K>(key: K, limit: nat, window: nat, from: nat, to: nat, t: nat) returns (requests: seq<Request<K>>)
    requires limit >= 1
    ensures Alone(requests, key, limit, window, from, to, Bucket(t, 1), if from <= t < to then 1 else 0)
    ensures Readings(requests, 0, 0, t)
  {
    var none: seq<Request<K>> := [];
    var r := Request(key, limit, window, t);
    AfterOneMore(none, r, true);
    AllowedOneMore(none, r, key, from, to, true);
    requests := none + [r];
  }

  /** The first bucket of the key, used up later. */
  lemma FirstBucket<K>(key: K, limit: nat, window: nat, from: nat, to: nat, started: nat, t: nat)
    returns (requests: seq<Request<K>>)
    requires limit >= 1 && started <= t < started + window && from <= t < to
    ensures Alone(requests, key, limit, window, from, to, Bucket(started, limit),
                  limit - 1 + (if from <= started then 1 else 0))
    ensures Readings(requests, 0, 0, t)
  {
    requests := Start(key, limit, window, from, to, started);
    requests := Burst(requests, key, limit, window, from, to, Bucket(started, 1), if from <= started then 1 else 0,
                      t, limit - 1, 0, t);
  }

  /** The next check after a window starts a new bucket. */
  lemma NextCheck<K>(requests: seq<Request<K>>, key: K, limit: nat, window: nat, from: nat, to: nat, bucket: Bucket,
                     allowed: nat, started: nat, lag: nat, high: nat)
    returns (more: seq<Request<K>>)
    requires Alone(requests, key, limit, window, from, to, bucket, allowed) && limit >= 1
    requires bucket.started + window <= started && Readings(requests, lag, 0, high) && high <= started
    ensures Alone(more, key, limit, window, from, to, Bucket(started, 1),
                  allowed + (if from <= started < to then 1 else 0))
    ensures Readings(more, lag, 0, started)
  {
    AloneStep(requests, key, limit, window, from, to, bucket, allowed, started);
    more := requests + [Request(key, limit, window, started)];
  }

  /** The next bucket of the key, used up by readings that may lag. */
  lemma NextBucket<K>(requests: seq<Request<K>>, key: K, limit: nat, window: nat, from: nat, to: nat, bucket: Bucket,
                      allowed: nat, started: nat, t: nat, lag: nat, high: nat)
    returns (more: seq<Request<K>>)
    requires Alone(requests, key, limit, window, from, to, bucket, allowed) && limit >= 1 && window >= 1
    requires bucket.started + window <= started && Readings(requests, lag, 0, high) && high <= started
    requires t <= started <= t + lag && from <= t < to
    ensures Alone(more, key, limit, window, from, to, Bucket(started, limit),
                  allowed + limit - 1 + (if started < to then 1 else 0))
    ensures Readings(more, lag, 0, started)
  {
    more := NextCheck(requests, key, limit, window, from, to, bucket, allowed, started, lag, high);
    more := Burst(more, key, limit, window, from, to, Bucket(started, 1),
                  allowed + (if started < to then 1 else 0), t, limit - 1, lag, started);
  }

  lemma OnlyWindow<K>(requests: seq<Request<K>>, key: K, limit: nat, window: nat)
    requires OnlyOf(requests, key, limit, window)
    ensures Constant(requests, key, limit, window) && Windows(requests, key, window, 0)
  {
  }

  /** Without lag, a burst at the end of one window and at the start of the next reaches 2L - 1, with any key. */
  lemma RateBoundIsReached<K>(key: K, limit: nat, window: nat) returns (requests: seq<Request<K>>)
    requires limit >= 1 && window >= 2
    ensures Lagging(requests, 0) && Constant(requests, key, limit, window) && Windows(requests, key, window, 0)
    ensures AllowedOf(requests, key, window - 1, window - 1 + window, true) == 2 * limit - 1
  {
    var from, to := window - 1, window - 1 + window;
    requests := FirstBucket(key, limit, window, from, to, 0, from);
    requests := NextBucket(requests, key, limit, window, from, to, Bucket(0, limit), limit - 1, window, window, 0,
                           from);
    OnlyWindow(requests, key, limit, window);
  }

  /**
   With readings that lag by two ticks, three buckets reach into one window: 3L - 2 checks are allowed in
   an interval of the key's own window, by checks of that key alone. With a window of ten ticks and a
   limit of three, the readings are 1, 10, 10, 11, 11, 11, 21, 19, 19.
   */
  lemma LagReachesThreeBuckets<K>(key: K, limit: nat, window: nat) returns (requests: seq<Request<K>>)
    requires limit >= 1 && window >= 1
    ensures Lagging(requests, 2) && OnlyOf(requests, key, limit, window)
    ensures AllowedWithin(requests, key, window, window) == 3 * limit - 2
  {
    if window == 1 {
      requests := ThreeTicks(key, limit);
    } else {
      requests := FirstBucket(key, limit, window, window, 2 * window, 1, window);
      requests := NextBucket(requests, key, limit, window, window, 2 * window, Bucket(1, limit), limit - 1,
                             window + 1, window + 1, 2, window);
      requests := NextBucket(requests, key, limit, window, window, 2 * window, Bucket(window + 1, limit),
                             2 * limit - 1, 2 * window + 1, 2 * window - 1, 2, window + 1);
    }
  }

  /** The case of a window of one tick. */
  lemma ThreeTicks<K>(key: K, limit: nat) returns (requests: seq<Request<K>>)
    requires limit >= 1
    ensures Alone(requests, key, limit, 1, 1, 2, Bucket(3, limit), 3 * limit - 2) && Readings(requests, 2, 0, 3)
  {
    requests := FirstBucket(key, limit, 1, 1, 2, 1, 1);
    requests := NextBucket(requests, key, limit, 1, 1, 2, Bucket(1, limit), limit, 2, 1, 2, 1);
    requests := NextBucket(requests, key, limit, 1, 1, 2, Bucket(2, limit), 2 * limit - 1, 3, 1, 2, 2);
  }

  lemma TooManyWithLag(windows: nat -> nat, key: nat, lag: nat)
    requires lag >= 2 && windows(key) >= 1
    ensures !RateKept(windows, key, lag)
  {
    var requests := LagReachesThreeBuckets(key, 2, windows(key));
    assert Lagging(requests, lag) && Follows(requests, windows) && Constant(requests, key, 2, windows(key));
    assert AllowedWithin(requests, key, windows(key), windows(key)) == 4;
  }

  /**
   The rate bound for a whole window, exactly: under a policy table and readings that lag by at most
   `lag`, a key never has more than 2L - 1 allowed checks in an interval of its window if and only if
   the window has no length, or the lag is at most one tick and every other key's window is longer by
   at least the lag.
   */
  lemma RateBoundExactlyWhen(windows: nat -> nat, key: nat, lag: nat)
    ensures RateKept(windows, key, lag) <==> windows(key) == 0 || (lag <= 1 && Clear(windows, key, lag))
  {
    if windows(key) == 0 || (lag <= 1 && Clear(windows, key, lag)) {
      forall requests: seq<Request<nat>>, limit: nat, from: nat
        | && limit >= 1 && Lagging(requests, lag) && Follows(requests, windows)
          && Constant(requests, key, limit, windows(key))
        ensures AllowedWithin(requests, key, from, windows(key)) <= 2 * limit - 1
      {
        if windows(key) == 0 {
          NothingIn(requests, key, from, true);
        } else {
          ClearWindows(requests, windows, key, lag);
          RateBoundWhenInvisible(requests, key, limit, windows(key), from, from + windows(key), lag);
        }
      }
    } else if !Clear(windows, key, lag) {
      var other :| other != key && windows(other) < windows(key) + lag;
      TooManyAfterReset(windows, key, other, lag, 10_001);
    } else {
      TooManyWithLag(windows, key, lag);
    }
  }
}
