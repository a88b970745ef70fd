/**
 The fixed-window rate limiter of the API (`api/src/main.rs`), whose map of buckets is pruned when
 it holds more than 10,000 keys. Times are instants of one monotonic clock, in clock ticks. A check
 reads the clock before it takes the lock, so a reading may lag behind those of earlier checks.
 */
module RateLimiter {
  import opened Options

  const PRUNE_ABOVE := 10_000

  datatype Bucket = Bucket(started: nat, count: nat)
  datatype Decision = Decision(allowed: bool, remaining: nat, retryAfter: nat)
  datatype Request<K> = Request(key: K, limit: nat, window: nat, now: nat)

  /** `Instant::duration_since`, which saturates at zero. */
  function Elapsed(now: nat, started: nat): nat {
    if now >= started then now - started else 0
  }

  /** A check against the bucket of one key. */
  function Use(bucket: Option<Bucket>, limit: nat, window: nat, now: nat): (Bucket, Decision) {
    var found := if bucket.Some? then bucket.value else Bucket(now, 0);
    var current := if Elapsed(now, found.started) >= window then Bucket(now, 0) else found;
    var elapsed := Elapsed(now, current.started);
    var retryAfter := if elapsed <= window then window - elapsed else 0;
    if current.count >= limit then (current, Decision(false, 0, retryAfter))
    else (Bucket(current.started, current.count + 1), Decision(true, limit - (current.count + 1), retryAfter))
  }

  function Lookup<K>(buckets: map<K, Bucket>, key: K): Option<Bucket> {
    if key in buckets then Some(buckets[key]) else None
  }

  function Prune<K>(buckets: map<K, Bucket>, window: nat, now: nat): map<K, Bucket> {
    if |buckets| > PRUNE_ABOVE then map k | k in buckets && Elapsed(now, buckets[k].started) < window :: buckets[k]
    else buckets
  }

  /** One check of the limiter; `pruning` switches the eviction off for comparison. */
  function Check<K>(buckets: map<K, Bucket>, r: Request<K>, pruning: bool): (map<K, Bucket>, Decision) {
    var kept := if pruning then Prune(buckets, r.window, r.now) else buckets;
    var (bucket, decision) := Use(Lookup(kept, r.key), r.limit, r.window, r.now);
    (kept[r.key := bucket], decision)
  }

  /** `RateLimiter::check` on the locked map. */
  class Limiter {
    var buckets: map<string, Bucket>

    constructor ()
      ensures buckets == map[]
    {
      buckets := map[];
    }

    method CheckKey(key: string, limit: nat, window: nat, now: nat) returns (decision: Decision)
      modifies this
      ensures (buckets, decision) == Check(old(buckets), Request(key, limit, window, now), true)
    {
      ghost var kept := Prune(buckets, window, now);
      if |buckets| > PRUNE_ABOVE {
        buckets := map k | k in buckets && Elapsed(now, buckets[k].started) < window :: buckets[k];
      }
      if key !in buckets {
        buckets := buckets[key := Bucket(now, 0)];
      }
      var bucket := buckets[key];
      if Elapsed(now, bucket.started) >= window {
        bucket := Bucket(now, 0);
      }
      var elapsed := Elapsed(now, bucket.started);
      var retryAfter := if elapsed <= window then window - elapsed else 0;
      if bucket.count >= limit {
        decision := Decision(false, 0, retryAfter);
      } else {
        bucket := Bucket(bucket.started, bucket.count + 1);
        decision := Decision(true, limit - bucket.count, retryAfter);
      }
      assert buckets[key := bucket] == kept[key := bucket];
      buckets := buckets[key := bucket];
    }
  }

  // --- runs ---------------------------------------------------------------------------------

  /** The map after a sequence of checks, in the order in which they take the lock. */
  function After<K>(buckets: map<K, Bucket>, requests: seq<Request<K>>, pruning: bool): map<K, Bucket>
    decreases |requests|
  {
    if requests == [] then buckets
    else
      var last := |requests| - 1;
      Check(After(buckets, requests[..last], pruning), requests[last], pruning).0
  }

  /** The bucket of `key` after a sequence of checks. */
  function BucketOf<K(==)>(requests: seq<Request<K>>, key: K, pruning: bool): Option<Bucket> {
    Lookup(After(map[], requests, pruning), key)
  }

  /** The decision of check number `i`. */
  function DecisionAt<K(==)>(requests: seq<Request<K>>, i: nat, pruning: bool): Decision
    requires i < |requests|
  {
    Check(After(map[], requests[..i], pruning), requests[i], pruning).1
  }

  lemma AfterOneMore<K>(requests: seq<Request<K>>, r: Request<K>, pruning: bool)
    ensures After(map[], requests + [r], pruning) == Check(After(map[], requests, pruning), r, pruning).0
  {
    assert (requests + [r])[..|requests|] == requests;
  }

  lemma PrefixDecision<K>(requests: seq<Request<K>>, last: nat, i: nat, pruning: bool)
    requires i < last <= |requests|
    ensures DecisionAt(requests[..last], i, pruning) == DecisionAt(requests, i, pruning)
  {
    assert requests[..last][..i] == requests[..i];
  }

  // --- readings that lag --------------------------------------------------------------------

  /** A reading is at most `lag` behind those of the checks before it; without lag, readings do not decrease. */
  ghost predicate Lagging<K>(requests: seq<Request<K>>, lag: nat) {
    forall i, j :: 0 <= i <= j < |requests| ==> requests[i].now <= requests[j].now + lag
  }

  /** The latest reading. */
  function Latest<K>(requests: seq<Request<K>>): nat
    decreases |requests|
  {
    if requests == [] then 0
    else
      var last, rest := requests[|requests| - 1].now, Latest(requests[..|requests| - 1]);
      if last > rest then last else rest
  }

  /** No later reading is before this one. */
  function Low<K>(requests: seq<Request<K>>, lag: nat): nat {
    if Latest(requests) >= lag then Latest(requests) - lag else 0
  }

  lemma {:induction false} LatestIsBounded<K>(requests: seq<Request<K>>, bound: nat)
    requires forall i :: 0 <= i < |requests| ==> requests[i].now <= bound
    ensures Latest(requests) <= bound
    decreases |requests|
  {
    if requests != [] { LatestIsBounded(requests[..|requests| - 1], bound); }
  }

  /** The last reading is not before the low mark of the others, and moves it up to at most the lag below itself. */
  lemma LowStep<K>(requests: seq<Request<K>>, lag: nat)
    requires requests != [] && Lagging(requests, lag)
    ensures var last, before := requests[|requests| - 1].now, requests[..|requests| - 1];
            && Lagging(before, lag)
            && Low(before, lag) <= Low(requests, lag) <= last <= Low(requests, lag) + lag
  {
    LatestIsBounded(requests[..|requests| - 1], requests[|requests| - 1].now + lag);
  }

  // --- when pruning is invisible ------------------------------------------------------------

  /** The checks of `key` use one window, and all others one that is longer by at least the margin. */
  ghost predicate Windows<K>(requests: seq<Request<K>>, key: K, window: nat, margin: nat) {
    forall i :: 0 <= i < |requests| ==>
      if requests[i].key == key then requests[i].window == window else requests[i].window >= window + margin
  }

  /** The two maps agree on `key`, except that the pruned one may lack a bucket that has run out for good. */
  predicate Agree<K>(pruned: map<K, Bucket>, full: map<K, Bucket>, key: K, window: nat, low: nat) {
    Lookup(pruned, key) == Lookup(full, key)
    || (key !in pruned && key in full && Elapsed(low, full[key].started) >= window)
  }

  lemma AgreeStep<K>(pruned: map<K, Bucket>, full: map<K, Bucket>, key: K, window: nat, lag: nat, low: nat, low': nat,
                     r: Request<K>)
    requires Agree(pruned, full, key, window, low) && low <= r.now && low <= low' && r.now <= low' + lag && window > 0
    requires if r.key == key then r.window == window else r.window >= window + lag
    ensures Agree(Check(pruned, r, true).0, Check(full, r, false).0, key, window, low')
    ensures r.key == key ==> Check(pruned, r, true).1 == Check(full, r, false).1
  {
  }

  lemma {:induction false} AgreeRun<K>(requests: seq<Request<K>>, key: K, window: nat, lag: nat)
    requires Lagging(requests, lag) && Windows(requests, key, window, lag) && window > 0
    ensures Agree(After(map[], requests, true), After(map[], requests, false), key, window, Low(requests, lag))
    decreases |requests|
  {
    if requests != [] {
      var last := |requests| - 1;
      var before := requests[..last];
      LowStep(requests, lag);
      AgreeRun(before, key, window, lag);
      AgreeStep(After(map[], before, true), After(map[], before, false), key, window, lag,
                Low(before, lag), Low(requests, lag), requests[last]);
    }
  }

  /** A window of no length is never running. */
  lemma NoWindow<K>(requests: seq<Request<K>>, i: nat)
    requires i < |requests| && requests[i].window == 0
    ensures DecisionAt(requests, i, true) == DecisionAt(requests, i, false)
  {
  }

  /**
   Pruning is invisible to a key when every other key's window is longer by at least the lag of the
   readings: over any sequence of checks of any keys, the limiter that evicts decides for that key as
   one that never evicts.
   */
  lemma PruningIsInvisible<K>(requests: seq<Request<K>>, i: nat, window: nat, lag: nat)
    requires Lagging(requests, lag) && i < |requests| && Windows(requests, requests[i].key, window, lag)
    ensures DecisionAt(requests, i, true) == DecisionAt(requests, i, false)
  {
    if window == 0 {
      NoWindow(requests, i);
    } else {
      var upTo, before := requests[..i + 1], requests[..i];
      assert upTo[..i] == before && upTo[i] == requests[i];
      LowStep(upTo, lag);
      AgreeRun(before, requests[i].key, window, lag);
      AgreeStep(After(map[], before, true), After(map[], before, false), requests[i].key, window, lag,
                Low(before, lag), Low(upTo, lag), requests[i]);
    }
  }

  /** The runs of the two limiters have one map as long as it holds few keys. */
  lemma {:induction false} FewKeysNeverPruned<K>(requests: seq<Request<K>>, keys: set<K>)
    requires |keys| <= 10_000 && forall i :: 0 <= i < |requests| ==> requests[i].key in keys
    ensures After(map[], requests, true) == After(map[], requests, false)
    ensures After(map[], requests, true).Keys <= keys
    decreases |requests|
  {
    if requests != [] {
      var before := requests[..|requests| - 1];
      FewKeysNeverPruned(before, keys);
      FewBuckets(After(map[], before, true), keys);
    }
  }

  lemma FewBuckets<K>(buckets: map<K, Bucket>, keys: set<K>)
    requires buckets.Keys <= keys && |keys| <= 10_000
    ensures forall window, now :: Prune(buckets, window, now) == buckets
  {
    assert keys == buckets.Keys + (keys - buckets.Keys);
    assert |buckets| == |buckets.Keys|;
  }

  /** With at most 10,000 keys in use pruning is invisible to all of them, whatever the windows and readings. */
  lemma FewKeysSeeNoPruning<K>(requests: seq<Request<K>>, keys: set<K>, i: nat)
    requires |keys| <= 10_000 && forall i :: 0 <= i < |requests| ==> requests[i].key in keys
    requires i < |requests|
    ensures DecisionAt(requests, i, true) == DecisionAt(requests, i, false)
  {
    FewKeysNeverPruned(requests[..i], keys);
    FewBuckets(After(map[], requests[..i], true), keys);
  }

  // --- policy tables ------------------------------------------------------------------------

  /** Every check of a key uses the window that `windows` gives to the key, as a policy table does. */
  ghost predicate Follows(requests: seq<Request<nat>>, windows: nat -> nat) {
    forall i :: 0 <= i < |requests| ==> requests[i].window == windows(requests[i].key)
  }

  /** The checks of `key` use one limit and one window. */
  ghost predicate Constant<K>(requests: seq<Request<K>>, key: K, limit: nat, window: nat) {
    forall i :: 0 <= i < |requests| && requests[i].key == key ==>
        requests[i].limit == limit && requests[i].window == window
  }

  /** Every other key has a window that is longer by at least the margin. */
  ghost predicate Clear(windows: nat -> nat, key: nat, margin: nat) {
    forall other :: other != key ==> windows(other) >= windows(key) + margin
  }

  lemma ClearWindows(requests: seq<Request<nat>>, windows: nat -> nat, key: nat, margin: nat)
    requires Follows(requests, windows) && Clear(windows, key, margin)
    ensures Windows(requests, key, windows(key), margin)
  {
  }

  /** No run under the policy table shows the pruning to `key`. */
  ghost predicate Invisible(windows: nat -> nat, key: nat, lag: nat) {
    forall requests: seq<Request<nat>>, i: nat ::
      Lagging(requests, lag) && Follows(requests, windows) && i < |requests| && requests[i].key == key
      ==> DecisionAt(requests, i, true) == DecisionAt(requests, i, false)
  }

  /** `n` checks at time zero, of `key` and the keys that follow it. */
  function Fill(key: nat, windows: nat -> nat, n: nat): (requests: seq<Request<nat>>)
    ensures |requests| == n
    ensures forall i :: 0 <= i < n ==> requests[i] == Request(key + i, 1, windows(key + i), 0)
  {
    if n == 0 then [] else Fill(key, windows, n - 1) + [Request(key + n - 1, 1, windows(key + n - 1), 0)]
  }

  /** The buckets of `n` keys from `key` on, all started at time zero. */
  ghost predicate FullOf(buckets: map<nat, Bucket>, key: nat, n: nat) {
    && |buckets| == n
    && (forall k :: k in buckets <==> key <= k < key + n)
    && (forall k :: k in buckets ==> buckets[k] == Bucket(0, 1))
  }

  lemma FillStep(buckets: map<nat, Bucket>, key: nat, n: nat, r: Request<nat>, pruning: bool)
    requires FullOf(buckets, key, n) && n <= PRUNE_ABOVE && r == Request(key + n, 1, r.window, 0)
    ensures FullOf(Check(buckets, r, pruning).0, key, n + 1)
  {
    assert Check(buckets, r, pruning).0 == buckets[r.key := Bucket(0, 1)];
  }

  lemma {:induction false} Filled(key: nat, windows: nat -> nat, n: nat, pruning: bool)
    requires n <= PRUNE_ABOVE + 1
    ensures FullOf(After(map[], Fill(key, windows, n), pruning), key, n)
  {
    if n > 0 {
      Filled(key, windows, n - 1, pruning);
      var before := Fill(key, windows, n - 1);
      var last: Request<nat> := Request(key + n - 1, 1, windows(key + n - 1), 0);
      AfterOneMore(before, last, pruning);
      FillStep(After(map[], before, pruning), key, n - 1, last, pruning);
    }
  }

  /** A check of another key at the end of its window empties the map. */
  lemma Evicts(buckets: map<nat, Bucket>, key: nat, evict: Request<nat>)
    requires FullOf(buckets, key, PRUNE_ABOVE + 1) && evict.key != key && evict.now == evict.window
    ensures key !in Check(buckets, evict, true).0
    ensures Lookup(Check(buckets, evict, false).0, key) == Some(Bucket(0, 1))
  {
  }

  /** A refused check leaves a full map as it is. */
  lemma RefusalKeepsFull(buckets: map<nat, Bucket>, key: nat, r: Request<nat>, pruning: bool)
    requires FullOf(buckets, key, PRUNE_ABOVE + 1) && r == Request(key, 1, r.window, 0) && r.window > 0
    ensures Check(buckets, r, pruning) == (buckets, Decision(false, 0, r.window))
  {
    assert buckets[key := Bucket(0, 1)] == buckets;
    assert Prune(buckets, r.window, 0) == buckets;
  }

  /** The reading of the last check of the reset run: as far behind that of the evicting check as the lag allows. */
  function ResetTime(windows: nat -> nat, other: nat, lag: nat): nat {
    if windows(other) >= lag then windows(other) - lag else 0
  }

  /**
   The run that shows the pruning to `key`: it fills the map and is refused, another key evicts its
   bucket at the end of its own window, and with a reading that lags behind that, within the window of
   the key, it is allowed again.
   */
  function ResetRun(windows: nat -> nat, key: nat, other: nat, lag: nat, full: nat): (requests: seq<Request<nat>>)
    ensures |requests| == full + 3
  {
    Fill(key, windows, full)
    + [Request(key, 1, windows(key), 0), Request(other, 1, windows(other), windows(other)),
       Request(key, 1, windows(key), ResetTime(windows, other, lag))]
  }

  /** The other key's window is not longer by the lag. */
  predicate Close(windows: nat -> nat, key: nat, other: nat, lag: nat) {
    other != key && windows(key) > 0 && windows(other) < windows(key) + lag
  }

  lemma ResetRunShape(windows: nat -> nat, key: nat, other: nat, lag: nat, full: nat)
    requires full >= 1 && Close(windows, key, other, lag)
    ensures var requests := ResetRun(windows, key, other, lag, full);
            && Lagging(requests, lag) && Follows(requests, windows) && Constant(requests, key, 1, windows(key))
            && requests[0] == Request(key, 1, windows(key), 0)
            && requests[full] == Request(key, 1, windows(key), 0)
            && requests[full + 1].key == other
            && requests[full + 2].key == key && requests[full + 2].now < windows(key)
  {
  }

  /** A full map and a check of a close window evict the live bucket of `key`. */
  lemma CloseWindowResets(windows: nat -> nat, key: nat, other: nat, lag: nat, full: nat)
    requires Close(windows, key, other, lag) && full == 10_001
    ensures var requests := ResetRun(windows, key, other, lag, full);
            && DecisionAt(requests, 0, true).allowed
            && DecisionAt(requests, full, true) == Decision(false, 0, windows(key))
            && DecisionAt(requests, full + 2, true).allowed && !DecisionAt(requests, full + 2, false).allowed
  {
    var requests := ResetRun(windows, key, other, lag, full);
    ResetRunShape(windows, key, other, lag, full);
    RefusedState(windows, key, other, lag, full, true);
    ResetState(windows, key, other, lag, full, true);
    ResetState(windows, key, other, lag, full, false);
    assert requests[..0] == [];
  }

  lemma ResetState(windows: nat -> nat, key: nat, other: nat, lag: nat, full: nat, pruning: bool)
    requires Close(windows, key, other, lag) && full == 10_001
    ensures var buckets := After(map[], ResetRun(windows, key, other, lag, full)[..full + 2], pruning);
            if pruning then key !in buckets else Lookup(buckets, key) == Some(Bucket(0, 1))
  {
    var requests := ResetRun(windows, key, other, lag, full);
    var before, evict := requests[..full + 1], requests[full + 1];
    RefusedState(windows, key, other, lag, full, pruning);
    assert requests[..full + 2] == before + [evict];
    AfterOneMore(before, evict, pruning);
    Evicts(After(map[], before, pruning), key, evict);
  }

  lemma RefusedState(windows: nat -> nat, key: nat, other: nat, lag: nat, full: nat, pruning: bool)
    requires Close(windows, key, other, lag) && full == 10_001
    ensures var requests := ResetRun(windows, key, other, lag, full);
            && DecisionAt(requests, full, pruning) == Decision(false, 0, windows(key))
            && FullOf(After(map[], requests[..full + 1], pruning), key, full)
  {
    var requests, fill := ResetRun(windows, key, other, lag, full), Fill(key, windows, full);
    assert requests[..full] == fill && requests[..full + 1][..full] == fill;
    Filled(key, windows, full, pruning);
    RefusalKeepsFull(After(map[], fill, pruning), key, requests[full], pruning);
  }

  /**
   With one window per key and readings that lag by at most `lag`, pruning is invisible to a key
   exactly when its window has no length or every other key's window is longer by at least the lag.
   Without lag this is no key with a shorter window: not bootstrap (an hour, beside policies of a
   minute). With any lag it is no key with an equal window either.
   */
  lemma PruningIsInvisibleExactlyWhen(windows: nat -> nat, key: nat, lag: nat)
    ensures Invisible(windows, key, lag) <==> windows(key) == 0 || Clear(windows, key, lag)
  {
    if windows(key) == 0 || Clear(windows, key, lag) {
      forall requests: seq<Request<nat>>, i: nat
        | Lagging(requests, lag) && Follows(requests, windows) && i < |requests| && requests[i].key == key
        ensures DecisionAt(requests, i, true) == DecisionAt(requests, i, false)
      {
        if windows(key) == 0 {
          NoWindow(requests, i);
        } else {
          ClearWindows(requests, windows, key, lag);
          PruningIsInvisible(requests, i, windows(key), lag);
        }
      }
    } else {
      var other :| other != key && windows(other) < windows(key) + lag;
      var full := 10_001;
      var requests := ResetRun(windows, key, other, lag, full);
      ResetRunShape(windows, key, other, lag, full);
      CloseWindowResets(windows, key, other, lag, full);
      assert DecisionAt(requests, full + 2, true) != DecisionAt(requests, full + 2, false);
    }
  }
}
