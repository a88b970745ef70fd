/** The retry times and remaining counts of the limiter's decisions (`api/src/main.rs`), and when they are exact. */
module RetryTimes {
  import opened Options
  import opened RateLimiter

  /** The bucket that check number `i` leaves for its key in the limiter that never evicts. */
  function BucketLeft<K(==)>(requests: seq<Request<K>>, i: nat): Bucket
    requires i < |requests|
  {
    var r := requests[i];
    Use(BucketOf(requests[..i], r.key, false), r.limit, r.window, r.now).0
  }

  /** Every check of the key of check `i` between `i` and `m` comes before the retry time of check `i`. */
  ghost predicate NoneDue<K>(requests: seq<Request<K>>, i: nat, m: nat, pruning: bool)
    requires i < m <= |requests|
  {
    forall j :: i < j < m && requests[j].key == requests[i].key ==>
      requests[j].now < requests[i].now + DecisionAt(requests, i, pruning).retryAfter
  }

  lemma {:induction false} NotAhead<K>(requests: seq<Request<K>>, key: K, now: nat)
    requires forall i :: 0 <= i < |requests| ==> requests[i].now <= now
    ensures var bucket := BucketOf(requests, key, false); bucket.Some? ==> bucket.value.started <= now
    decreases |requests|
  {
    if requests != [] { NotAhead(requests[..|requests| - 1], key, now); }
  }

  lemma {:induction false} BucketStays<K>(requests: seq<Request<K>>, limit: nat, window: nat, i: nat, m: nat)
    requires limit >= 1 && Lagging(requests, 0) && i < m <= |requests|
             && Constant(requests, requests[i].key, limit, window)
    requires !DecisionAt(requests, i, false).allowed && NoneDue(requests, i, m, false)
    ensures BucketOf(requests[..m], requests[i].key, false) == Some(BucketLeft(requests, i))
    ensures var bucket := BucketLeft(requests, i);
            && bucket.count >= limit && bucket.started <= requests[i].now < bucket.started + window
            && DecisionAt(requests, i, false).retryAfter == bucket.started + window - requests[i].now
    decreases m
  {
    NotAhead(requests[..i], requests[i].key, requests[i].now);
    assert requests[..m][..m - 1] == requests[..m - 1] && requests[..m][m - 1] == requests[m - 1];
    if m > i + 1 {
      BucketStays(requests, limit, window, i, m - 1);
    }
  }

  /**
   The retry time is exact over whole runs: after a refusal at check `i`, a later check `j` of the
   same key is refused if it comes before the retry time, and the first one that does not is allowed,
   whatever happens to other keys in between. No reading may lag, and no other window may be shorter.
   */
  lemma RetryAfterIsExact<K>(requests: seq<Request<K>>, limit: nat, window: nat, i: nat, j: nat)
    requires limit >= 1 && Lagging(requests, 0) && i < j < |requests| && requests[j].key == requests[i].key
    requires Constant(requests, requests[i].key, limit, window) && Windows(requests, requests[i].key, window, 0)
    requires !DecisionAt(requests, i, true).allowed && NoneDue(requests, i, j, true)
    ensures DecisionAt(requests, i, false) == DecisionAt(requests, i, true)
    ensures DecisionAt(requests, i, true).remaining == 0
    ensures DecisionAt(requests, j, true).allowed
            <==> requests[j].now >= requests[i].now + DecisionAt(requests, i, true).retryAfter
  {
    PruningIsInvisible(requests, i, window, 0);
    PruningIsInvisible(requests, j, window, 0);
    BucketStays(requests, limit, window, i, j);
  }

  /** Under the policy table, every retry time given to `key` is exact. */
  ghost predicate RetryKept(windows: nat -> nat, key: nat, lag: nat) {
    forall requests: seq<Request<nat>>, limit: nat, i: nat, j: nat ::
      (&& limit >= 1 && Lagging(requests, lag) && Follows(requests, windows)
       && Constant(requests, key, limit, windows(key))
       && i < j < |requests| && requests[i].key == key && requests[j].key == key
       && !DecisionAt(requests, i, true).allowed && NoneDue(requests, i, j, true))
      ==> (DecisionAt(requests, j, true).allowed
           <==> requests[j].now >= requests[i].now + DecisionAt(requests, i, true).retryAfter)
  }

  /**
   Retry times, exactly: under a policy table they are exact for a key if and only if its window has no
   length, or no reading lags and no other key has a shorter window.
   */
  lemma RetryTimesExactlyWhen(windows: nat -> nat, key: nat, lag: nat)
    ensures RetryKept(windows, key, lag) <==> windows(key) == 0 || (lag == 0 && Clear(windows, key, 0))
  {
    if windows(key) == 0 || (lag == 0 && Clear(windows, key, 0)) {
      forall requests: seq<Request<nat>>, limit: nat, i: nat, j: nat
        | && limit >= 1 && Lagging(requests, lag) && Follows(requests, windows)
          && Constant(requests, key, limit, windows(key))
          && i < j < |requests| && requests[i].key == key && requests[j].key == key
          && !DecisionAt(requests, i, true).allowed && NoneDue(requests, i, j, true)
        ensures DecisionAt(requests, j, true).allowed
                <==> requests[j].now >= requests[i].now + DecisionAt(requests, i, true).retryAfter
      {
        if windows(key) == 0 {
          NeverRefused(requests, i);
        } else {
          ClearWindows(requests, windows, key, 0);
          RetryAfterIsExact(requests, limit, windows(key), i, j);
        }
      }
    } else if lag == 0 {
      var other :| other != key && windows(other) < windows(key);
      AllowedTooEarly(windows, key, other, 10_001);
    } else {
      ToldTooEarly(windows, key, lag);
    }
  }

  lemma NeverRefused<K>(requests: seq<Request<K>>, i: nat)
    requires i < |requests| && requests[i].window == 0 && requests[i].limit >= 1
    ensures DecisionAt(requests, i, true).allowed
  {
  }

  lemma AllowedTooEarly(windows: nat -> nat, key: nat, other: nat, full: nat)
    requires Close(windows, key, other, 0) && full == 10_001
    ensures !RetryKept(windows, key, 0)
  {
    var requests := ResetRun(windows, key, other, 0, full);
    ResetRunShape(windows, key, other, 0, full);
    CloseWindowResets(windows, key, other, 0, full);
    assert NoneDue(requests, full, full + 2, true);
  }

  /**
   A refused check whose reading lags behind the start of its bucket is told to come back after a whole
   window, which is before the bucket has run out.
   */
  function LaggingRefusal(key: nat, window: nat): seq<Request<nat>> {
    [Request(key, 1, window, 1), Request(key, 1, window, 0), Request(key, 1, window, window)]
  }

  lemma ToldTooEarly(windows: nat -> nat, key: nat, lag: nat)
    requires lag >= 1 && windows(key) >= 1
    ensures !RetryKept(windows, key, lag)
  {
    var window := windows(key);
    var requests := LaggingRefusal(key, window);
    LaggingDecisions(key, window);
    assert Lagging(requests, lag) && Follows(requests, windows) && Constant(requests, key, 1, window);
    assert NoneDue(requests, 1, 2, true);
  }

  lemma LaggingDecisions(key: nat, window: nat)
    requires window >= 1
    ensures var requests := LaggingRefusal(key, window);
            && DecisionAt(requests, 1, true) == Decision(false, 0, window)
            && !DecisionAt(requests, 2, true).allowed
  {
    var requests := LaggingRefusal(key, window);
    var live := map[key := Bucket(1, 1)];
    assert requests[..0] == [] && requests[..1] == [] + [requests[0]] && requests[..2] == requests[..1] + [requests[1]];
    AfterOneMore([], requests[0], true);
    assert After(map[], requests[..1], true) == live;
    AfterOneMore(requests[..1], requests[1], true);
    assert After(map[], requests[..2], true) == live;
  }

  // --- remaining counts ---------------------------------------------------------------------

  /** How many checks of `key` there are from number `i` up to number `m`. */
  function ChecksOf<K(==)>(requests: seq<Request<K>>, key: K, i: nat, m: nat): nat
    requires m <= |requests|
    decreases m
  {
    if m <= i then 0 else ChecksOf(requests, key, i, m - 1) + (if requests[m - 1].key == key then 1 else 0)
  }

  /** What the decision of check `i` says of check `j`, the checks of the key in between being not yet due. */
  ghost predicate ForetoldBy<K>(requests: seq<Request<K>>, limit: nat, i: nat, j: nat)
    requires i < j < |requests|
  {
    var told, next := DecisionAt(requests, i, true), DecisionAt(requests, j, true);
    if requests[j].now < requests[i].now + told.retryAfter then
      && (next.allowed <==> ChecksOf(requests, requests[i].key, i + 1, j) < told.remaining)
      && requests[j].now + next.retryAfter == requests[i].now + told.retryAfter
    else next.allowed && next.remaining == limit - 1
  }

  lemma {:induction false} BucketFills<K>(requests: seq<Request<K>>, limit: nat, window: nat, i: nat, m: nat)
    requires limit >= 1 && Lagging(requests, 0) && i < m <= |requests|
             && Constant(requests, requests[i].key, limit, window)
    requires DecisionAt(requests, i, false).allowed && NoneDue(requests, i, m, false)
    ensures var left, more := BucketLeft(requests, i), ChecksOf(requests, requests[i].key, i + 1, m);
            BucketOf(requests[..m], requests[i].key, false)
            == Some(Bucket(left.started, if left.count + more <= limit then left.count + more else limit))
    ensures var left, told := BucketLeft(requests, i), DecisionAt(requests, i, false);
            && left.count + told.remaining == limit && left.started <= requests[i].now
            && requests[i].now + told.retryAfter == left.started + window
    decreases m
  {
    NotAhead(requests[..i], requests[i].key, requests[i].now);
    assert requests[..m][..m - 1] == requests[..m - 1] && requests[..m][m - 1] == requests[m - 1];
    if m > i + 1 {
      BucketFills(requests, limit, window, i, m - 1);
    }
  }

  /**
   An allowed check foretells the next ones: until its retry time exactly `remaining` further checks of
   the key are allowed and all others refused, all with the same retry time; the first one from then on
   starts anew. No reading may lag, and no other window may be shorter.
   */
  lemma RemainingIsExact<K>(requests: seq<Request<K>>, limit: nat, window: nat, i: nat, j: nat)
    requires limit >= 1 && Lagging(requests, 0) && i < j < |requests| && requests[j].key == requests[i].key
    requires Constant(requests, requests[i].key, limit, window) && Windows(requests, requests[i].key, window, 0)
    requires DecisionAt(requests, i, true).allowed && NoneDue(requests, i, j, true)
    ensures ForetoldBy(requests, limit, i, j)
  {
    PruningIsInvisible(requests, i, window, 0);
    PruningIsInvisible(requests, j, window, 0);
    BucketFills(requests, limit, window, i, j);
  }

  /** Under the policy table, every allowed check of `key` foretells the next ones. */
  ghost predicate RemainingKept(windows: nat -> nat, key: nat, lag: nat) {
    forall requests: seq<Request<nat>>, limit: nat, i: nat, j: nat ::
      (&& limit >= 1 && Lagging(requests, lag) && Follows(requests, windows)
       && Constant(requests, key, limit, windows(key))
       && i < j < |requests| && requests[i].key == key && requests[j].key == key
       && DecisionAt(requests, i, true).allowed && NoneDue(requests, i, j, true))
      ==> ForetoldBy(requests, limit, i, j)
  }

  /**
   Remaining counts, exactly: under a policy table they and the retry times of allowed checks hold for a
   key if and only if no reading lags and no other key has a shorter window.
   */
  lemma RemainingExactlyWhen(windows: nat -> nat, key: nat, lag: nat)
    ensures RemainingKept(windows, key, lag) <==> lag == 0 && Clear(windows, key, 0)
  {
    if lag == 0 && Clear(windows, key, 0) {
      forall requests: seq<Request<nat>>, limit: nat, i: nat, j: nat
        | && limit >= 1 && Lagging(requests, lag) && Follows(requests, windows)
          && Constant(requests, key, limit, windows(key))
          && i < j < |requests| && requests[i].key == key && requests[j].key == key
          && DecisionAt(requests, i, true).allowed && NoneDue(requests, i, j, true)
        ensures ForetoldBy(requests, limit, i, j)
      {
        ClearWindows(requests, windows, key, 0);
        RemainingIsExact(requests, limit, windows(key), i, j);
      }
    } else if lag == 0 {
      var other :| other != key && windows(other) < windows(key);
      MoreThanForetold(windows, key, other, 10_001);
    } else {
      LaggingCount(windows, key, lag);
    }
  }

  lemma MoreThanForetold(windows: nat -> nat, key: nat, other: nat, full: nat)
    requires Close(windows, key, other, 0) && full == 10_001
    ensures !RemainingKept(windows, key, 0)
  {
    var requests := ResetRun(windows, key, other, 0, full);
    ResetRunShape(windows, key, other, 0, full);
    CloseWindowResets(windows, key, other, 0, full);
    assert requests[..0] == [];
    assert DecisionAt(requests, 0, true) == Decision(true, 0, windows(key));
    assert NoneDue(requests, 0, full + 2, true);
    assert !ForetoldBy(requests, 1, 0, full + 2);
  }

  /** An allowed check that lags behind the start of its bucket foretells a fresh start that does not come. */
  function LaggingBurst(key: nat, window: nat): seq<Request<nat>> {
    [Request(key, 2, window, 1), Request(key, 2, window, 0), Request(key, 2, window, window)]
  }

  lemma LaggingCount(windows: nat -> nat, key: nat, lag: nat)
    requires lag >= 1
    ensures !RemainingKept(windows, key, lag)
  {
    var window := windows(key);
    if window == 0 {
      var requests := [Request(key, 1, 0, 1), Request(key, 1, 0, 0)];
      BackInTime(requests, key);
      assert Lagging(requests, lag) && Follows(requests, windows) && Constant(requests, key, 1, 0);
      assert NoneDue(requests, 0, 1, true) && !ForetoldBy(requests, 1, 0, 1);
    } else {
      var requests := LaggingBurst(key, window);
      BurstDecisions(key, window);
      assert Lagging(requests, lag) && Follows(requests, windows) && Constant(requests, key, 2, window);
      assert NoneDue(requests, 1, 2, true) && !ForetoldBy(requests, 2, 1, 2);
    }
  }

  lemma BackInTime(requests: seq<Request<nat>>, key: nat)
    requires requests == [Request(key, 1, 0, 1), Request(key, 1, 0, 0)]
    ensures DecisionAt(requests, 0, true) == Decision(true, 0, 0) && DecisionAt(requests, 1, true).allowed
  {
    assert requests[..0] == [] && requests[..1] == [] + [requests[0]];
    AfterOneMore([], requests[0], true);
    assert After(map[], requests[..1], true) == map[key := Bucket(1, 1)];
  }

  lemma BurstDecisions(key: nat, window: nat)
    requires window >= 1
    ensures var requests := LaggingBurst(key, window);
            && DecisionAt(requests, 1, true) == Decision(true, 0, window)
            && !DecisionAt(requests, 2, true).allowed
  {
    var requests := LaggingBurst(key, window);
    assert requests[..0] == [] && requests[..1] == [] + [requests[0]] && requests[..2] == requests[..1] + [requests[1]];
    AfterOneMore([], requests[0], true);
    assert After(map[], requests[..1], true) == map[key := Bucket(1, 1)];
    AfterOneMore(requests[..1], requests[1], true);
    assert After(map[], requests[..2], true) == map[key := Bucket(1, 2)];
  }
}
