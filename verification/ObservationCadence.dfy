/**
 The cadence of the observation probe: how far apart the starts of its cycles are in any run, and
 exactly which plans keep the pace that their validation is for.
 */
module ObservationCadence {
  import opened Options
  import opened ObservationProbe

  /** No way of ending a cycle takes longer than the pace. */
  ghost predicate KeepsPace(plan: Plan)
    requires Sized(plan)
  {
    forall k: nat :: k < plan.attempts && NoNegative(plan, k) ==> CycleWith(plan, k) <= Pace(plan)
  }

  /** Without negative back-off times the pace is kept. */
  lemma NonNegativeBackoffKeepsPace(plan: Plan)
    requires Sized(plan) && plan.timeout > 0.0 && NoNegative(plan, plan.attempts - 1)
    ensures KeepsPace(plan)
  {
    NonNegativeBackoffFits(plan);
    forall k: nat | k < plan.attempts && NoNegative(plan, k) ensures CycleWith(plan, k) <= Pace(plan) {
      assert CycleWith(plan, k) <= WorstCycle(plan);
    }
  }

  /** The turn comes at most the delays after the interval, or after the slowest end of the cycle if that is later. */
  lemma TurnWithin(plan: Plan, env: Env, n: nat, cycleStart: real) returns (m: nat)
    requires Sized(plan) && Timely(plan, env) && Cycle(plan, env, n).Done?
    ensures m < plan.attempts && NoNegative(plan, m)
    ensures NextTurn(plan, env, n, cycleStart) - cycleStart
            <= MaxOf(plan.interval, CycleWith(plan, m)) + env.finish(n) + env.wake(n)
  {
    m := CycleTime(plan, env, n, 0);
    CycleOfNone(plan, plan.timeout);
  }

  /** From one cycle start to the next: the slowest end that the cycle can have, or an interval, and the delays. */
  lemma GapWithin(plan: Plan, env: Env, existing: nat, samples: seq<Sample>, i: nat) returns (m: nat)
    requires Sized(plan) && Timely(plan, env) && Logged(plan, env, existing, samples) && i + 1 < |samples|
    ensures m < plan.attempts && NoNegative(plan, m)
    ensures plan.interval <= samples[i + 1].timestamp - samples[i].timestamp
            <= MaxOf(plan.interval, CycleWith(plan, m)) + Slack(env, i)
  {
    assert Reports(plan, env, existing, samples, i) && Paced(plan, env, samples, i);
    m := TurnWithin(plan, env, i, samples[i].timestamp);
  }

  /**
   When the probe turns to its next cycle, exactly: at once after a cycle that took its interval; otherwise
   when the interval is over, or already when the window ends, the delay on waking aside.
   */
  lemma TurnTells(plan: Plan, env: Env, n: nat, cycleStart: real)
    requires Sized(plan) && Cycle(plan, env, n).Done?
    ensures var ended := cycleStart + Cycle(plan, env, n).elapsed + env.finish(n);
            NextTurn(plan, env, n, cycleStart)
            == if ended >= cycleStart + plan.interval then ended
               else if cycleStart + plan.interval <= plan.end then cycleStart + plan.interval + env.wake(n)
               else if plan.end <= ended then ended + env.wake(n)
               else plan.end + env.wake(n)
  {
  }

  /** Two rows of a window in which the first cycle ends at attempt `k` and a second one still starts. */
  lemma SlowLog(plan: Plan, k: nat, duration: real) returns (samples: seq<Sample>)
    requires Sized(plan) && plan.interval > 0.0 && 0.0 <= duration <= plan.timeout && plan.limit >= 0.0
    requires k < plan.attempts && NoNegative(plan, k)
    requires plan.start + MaxOf(plan.interval, CycleOf(plan, k, duration)) < plan.end
    ensures var env := SlowUntil(k, duration);
            Timely(plan, env) && Prompt(env) && |samples| == 2 && Logged(plan, env, 0, samples)
    ensures samples[1].timestamp - samples[0].timestamp == MaxOf(plan.interval, CycleOf(plan, k, duration))
  {
    var env, gap := SlowUntil(k, duration), MaxOf(plan.interval, CycleOf(plan, k, duration));
    SlowCycle(plan, k, duration, 0, 0);
    SlowCycle(plan, k, duration, 1, 0);
    CycleOfNone(plan, duration);
    samples := TwoRows(plan, gap);
    assert NextTurn(plan, env, 0, plan.start) == plan.start + gap;
    assert GoesOn(plan, samples, 0) by { FirstRowGoesOn(plan, gap); }
    assert Times(0, plan.interval) == 0.0 && Times(1, plan.interval) == plan.interval;
    assert Reports(plan, env, 0, samples, 0) && Reports(plan, env, 0, samples, 1);
  }

  function TwoRows(plan: Plan, gap: real): seq<Sample> {
    [Sample(plan.start, 1, true, []), Sample(plan.start + gap, 2, true, [])]
  }

  lemma FirstRowGoesOn(plan: Plan, gap: real)
    requires plan.limit >= 0.0
    ensures GoesOn(plan, TwoRows(plan, gap), 0)
  {
    assert TwoRows(plan, gap)[..1] == [TwoRows(plan, gap)[0]];
  }

  /** The plan with a window that is long enough for a second cycle after the slowest end at attempt `k`. */
  function Widened(plan: Plan, k: nat): Plan
    requires k <= |plan.backoff|
  {
    plan.(end := plan.start + MaxOf(plan.interval, CycleWith(plan, k)) + 1.0)
  }

  /** The probe itself takes no time. */
  ghost predicate Prompt(env: Env) {
    && (forall n :: env.begin(n) == 0.0) && (forall n :: env.finish(n) == 0.0) && (forall n :: env.wake(n) == 0.0)
    && env.early == 0.0
  }

  /** In every window and environment, cycle starts are at most the pace and the delays apart. */
  ghost predicate AlwaysPaced(plan: Plan)
    requires Sized(plan)
  {
    forall end: real, env: Env, existing: nat, samples: seq<Sample>, i: nat ::
      Timely(plan, env) && Logged(plan.(end := end), env, existing, samples) && i + 1 < |samples|
      ==> samples[i + 1].timestamp - samples[i].timestamp <= Pace(plan) + Slack(env, i)
  }

  /**
   The cadence, exactly: the starts of successive cycles are at most max(interval, worst_cycle) and the
   delays apart, in every window and environment, if and only if no way of ending a cycle takes longer,
   or the limit is negative and no second cycle is ever started.
   */
  lemma CadenceExactlyWhen(plan: Plan)
    requires Accepted(plan)
    ensures AlwaysPaced(plan) <==> plan.limit < 0.0 || KeepsPace(plan)
  {
    if plan.limit < 0.0 || KeepsPace(plan) {
      forall end: real, env: Env, existing: nat, samples: seq<Sample>, i: nat
        | Timely(plan, env) && Logged(plan.(end := end), env, existing, samples) && i + 1 < |samples|
        ensures samples[i + 1].timestamp - samples[i].timestamp <= Pace(plan) + Slack(env, i)
      {
        var window := plan.(end := end);
        assert GoesOn(window, samples, i);
        var m := GapWithin(window, env, existing, samples, i);
        SameCycles(plan, window, m);
      }
    } else {
      var k: nat :| k < plan.attempts && NoNegative(plan, k) && CycleWith(plan, k) > Pace(plan);
      var window := Widened(plan, k);
      SameCycles(plan, window, k);
      var samples := SlowLog(window, k, plan.timeout);
      assert Logged(plan.(end := window.end), SlowUntil(k, plan.timeout), 0, samples);
      assert Slack(SlowUntil(k, plan.timeout), 0) == 0.0;
    }
  }

  lemma SameCycles(plan: Plan, window: Plan, m: nat)
    requires Sized(plan) && window == plan.(end := window.end) && m <= |plan.backoff|
    ensures CycleWith(window, m) == CycleWith(plan, m) && (NoNegative(window, m) <==> NoNegative(plan, m))
  {
  }

  /** In every window, with a prompt probe, cycle starts stay below three intervals. */
  ghost predicate NeverHidesGap(plan: Plan)
    requires Sized(plan)
  {
    forall end: real, env: Env, existing: nat, samples: seq<Sample>, i: nat ::
      Timely(plan, env) && Prompt(env) && Logged(plan.(end := end), env, existing, samples) && i + 1 < |samples|
      ==> samples[i + 1].timestamp - samples[i].timestamp < 3.0 * plan.interval
  }

  /**
   What the validation of `worst_cycle` is for, exactly: no end of a cycle that can be reached
   takes three intervals.
   */
  lemma NoHiddenGapExactlyWhen(plan: Plan)
    requires Accepted(plan)
    ensures NeverHidesGap(plan)
            <==> plan.limit < 0.0
                 || forall k: nat :: k < plan.attempts && NoNegative(plan, k) ==>
                     CycleWith(plan, k) < 3.0 * plan.interval
  {
    if k: nat :| (&& plan.limit >= 0.0 && k < plan.attempts && NoNegative(plan, k)
                  && CycleWith(plan, k) >= 3.0 * plan.interval) {
      var window := Widened(plan, k);
      SameCycles(plan, window, k);
      var samples := SlowLog(window, k, plan.timeout);
      assert Logged(plan.(end := window.end), SlowUntil(k, plan.timeout), 0, samples);
    } else {
      forall end: real, env: Env, existing: nat, samples: seq<Sample>, i: nat
        | Timely(plan, env) && Prompt(env) && Logged(plan.(end := end), env, existing, samples) && i + 1 < |samples|
        ensures samples[i + 1].timestamp - samples[i].timestamp < 3.0 * plan.interval
      {
        var window := plan.(end := end);
        assert GoesOn(window, samples, i);
        var m := GapWithin(window, env, existing, samples, i);
        SameCycles(plan, window, m);
      }
    }
  }

  /**
   An accepted plan with a negative back-off time, and a run whose second cycle starts five
   intervals after its first.
   */
  lemma NegativeBackoffHidesGap() returns (plan: Plan, env: Env, samples: seq<Sample>)
    ensures Accepted(plan) && Timely(plan, env) && Prompt(env) && |samples| == 2 && Logged(plan, env, 0, samples)
    ensures samples[1].timestamp - samples[0].timestamp == 5.0 * plan.interval
  {
    var shape := Plan(0.0, 3600.0, 10.0, 3, 20.0, [10.0, -100.0], 3.0, None);
    assert shape.backoff[..1] == [10.0] && shape.backoff[..2] == [10.0, -100.0];
    assert [10.0, -100.0][..1] == [10.0] && [10.0][..0] == [];
    assert Times(2, 20.0) == 40.0 && Times(3, 20.0) == 60.0;
    assert CycleWith(shape, 1) == 50.0;
    assert WorstCycle(shape) == 60.0 - 90.0;
    plan, env := shape, SlowUntil(1, 20.0);
    samples := SlowLog(plan, 1, 20.0);
  }

  // --- the plan's own window ----------------------------------------------------------------

  /**
   In the plan's own window, an end of a cycle at attempt `k` can take longer than `bound` and be
   followed by another cycle.
   */
  ghost predicate Overruns(plan: Plan, k: nat, bound: real)
    requires k <= |plan.backoff|
  {
    var width := plan.end - plan.start;
    NoNegative(plan, k) && CycleWith(plan, k) > bound && width > bound && width > Total(plan.backoff[..k])
  }

  /** Attempts of a suitable duration make the cycle take any time from its back-off times to the slowest. */
  lemma DurationFor(plan: Plan, k: nat, elapsed: real) returns (duration: real)
    requires k <= |plan.backoff| && Total(plan.backoff[..k]) <= elapsed <= CycleWith(plan, k)
    ensures 0.0 <= duration <= plan.timeout && CycleOf(plan, k, duration) == elapsed
  {
    var n, spent := (k + 1) as real, elapsed - Total(plan.backoff[..k]);
    duration := spent / n;
    assert n * duration == spent;
    TimesIsProduct(k + 1, duration);
    TimesIsProduct(k + 1, plan.timeout);
    ScaledBack(n, duration, plan.timeout);
  }

  lemma ScaledBack(n: real, x: real, y: real)
    requires n > 0.0 && 0.0 <= n * x <= n * y
    ensures 0.0 <= x <= y
  {
    assert x < 0.0 ==> n * x < 0.0;
    assert x > y ==> n * x > n * y;
  }

  /** A gap that exceeds the bound and the delays comes from such an end of a cycle. */
  lemma LongGapOverruns(plan: Plan, env: Env, existing: nat, samples: seq<Sample>, i: nat, bound: real)
    returns (m: nat)
    requires Sized(plan) && Timely(plan, env) && Logged(plan, env, existing, samples) && i + 1 < |samples|
    requires bound >= plan.interval && samples[i + 1].timestamp - samples[i].timestamp > bound + Slack(env, i)
    ensures m < plan.attempts && Overruns(plan, m, bound)
  {
    assert Reports(plan, env, existing, samples, i) && Paced(plan, env, samples, i);
    assert InWindow(plan, env, samples, i) && InWindow(plan, env, samples, i + 1);
    m := CycleTime(plan, env, i, 0);
    CycleOfNone(plan, plan.timeout);
    assert plan.backoff[..0] == [];
    var elapsed := Cycle(plan, env, i).elapsed;
    assert elapsed > bound && samples[i].timestamp + elapsed < plan.end;
  }

  /** And such an end makes one. */
  lemma OverrunMakesGap(plan: Plan, k: nat, bound: real) returns (env: Env, samples: seq<Sample>)
    requires Sized(plan) && plan.interval > 0.0 && plan.timeout > 0.0 && plan.limit >= 0.0 && bound >= plan.interval
    requires k < plan.attempts && Overruns(plan, k, bound)
    ensures Timely(plan, env) && Prompt(env) && |samples| == 2 && Logged(plan, env, 0, samples) && Slack(env, 0) == 0.0
    ensures samples[1].timestamp - samples[0].timestamp > bound
  {
    var width, pauses := plan.end - plan.start, Total(plan.backoff[..k]);
    SomeAttemptTime(plan, k);
    var low, high := MaxOf(bound, pauses), MinOf(width, CycleWith(plan, k));
    var duration := DurationFor(plan, k, (low + high) / 2.0);
    env := SlowUntil(k, duration);
    samples := SlowLog(plan, k, duration);
  }

  lemma {:induction false} SomeAttemptTime(plan: Plan, k: nat)
    requires k <= |plan.backoff| && plan.timeout > 0.0
    ensures Total(plan.backoff[..k]) < CycleWith(plan, k)
  {
    TimesIsPositive(k, plan.timeout);
  }

  lemma {:induction false} TimesIsPositive(n: nat, x: real)
    requires x > 0.0
    ensures Times(n + 1, x) > 0.0
  {
    if n == 0 { assert Times(0, x) == 0.0; } else { TimesIsPositive(n - 1, x); }
  }

  /** In the plan's own window, gaps stay within the bound and the delays. */
  ghost predicate GapsWithin(plan: Plan, bound: real)
    requires Sized(plan)
  {
    forall env: Env, existing: nat, samples: seq<Sample>, i: nat ::
      Timely(plan, env) && Logged(plan, env, existing, samples) && i + 1 < |samples|
      ==> samples[i + 1].timestamp - samples[i].timestamp <= bound + Slack(env, i)
  }

  /**
   Exactly which bounds hold for the gaps of a plan in its own window: a bound of at least the interval
   holds in every environment if and only if the limit is negative, or no reachable end of a cycle takes
   longer while the window is longer than the bound and than the back-off times before that end. For the
   pace this is the cadence; for three intervals it is what the validation of `worst_cycle` is for.
   */
  lemma GapsWithinExactlyWhen(plan: Plan, bound: real)
    requires Accepted(plan) && bound >= plan.interval
    ensures GapsWithin(plan, bound)
            <==> plan.limit < 0.0 || forall k: nat :: k < plan.attempts ==> !Overruns(plan, k, bound)
  {
    if k: nat :| plan.limit >= 0.0 && k < plan.attempts && Overruns(plan, k, bound) {
      var env, samples := OverrunMakesGap(plan, k, bound);
    } else {
      forall env: Env, existing: nat, samples: seq<Sample>, i: nat
        | Timely(plan, env) && Logged(plan, env, existing, samples) && i + 1 < |samples|
        ensures samples[i + 1].timestamp - samples[i].timestamp <= bound + Slack(env, i)
      {
        assert GoesOn(plan, samples, i);
        if samples[i + 1].timestamp - samples[i].timestamp > bound + Slack(env, i) {
          var m := LongGapOverruns(plan, env, existing, samples, i, bound);
          assert false;
        }
      }
    }
  }
}
