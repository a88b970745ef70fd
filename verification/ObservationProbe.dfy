/**
 The clocked observation probe (`scripts/phase7b-observe.py`, `validate_plan` and `probe`). Times are
 real numbers of seconds. What the probe cannot control is given by an environment: the outcome and
 duration of every attempt, the snapshot it reads, the stop file, and every delay of its own.
 */
module ObservationProbe {
  import opened Options
  import opened FailureRuns

  datatype Plan = Plan(start: real, end: real, interval: real, attempts: int, timeout: real, backoff: seq<real>,
                       limit: real, maxRuntime: Option<real>)

  function Total(xs: seq<real>): real
    decreases |xs|
  {
    if xs == [] then 0.0 else Total(xs[..|xs| - 1]) + xs[|xs| - 1]
  }

  /** `n * x`. */
  function Times(n: nat, x: real): real {
    if n == 0 then 0.0 else Times(n - 1, x) + x
  }

  lemma {:induction false} TimesIsProduct(n: nat, x: real)
    ensures Times(n, x) == n as real * x
  {
    if n > 0 {
      TimesIsProduct(n - 1, x);
      assert n as real * x == (n - 1) as real * x + x;
    }
  }

  function MaxOf(x: real, y: real): real { if x <= y then y else x }
  function MinOf(x: real, y: real): real { if x <= y then x else y }

  /** A cycle that uses attempts 0 to `k`, each of the given duration. */
  function CycleOf(plan: Plan, k: nat, duration: real): real
    requires k <= |plan.backoff|
  {
    Times(k + 1, duration) + Total(plan.backoff[..k])
  }

  /** The longest cycle that uses attempts 0 to `k`. */
  function CycleWith(plan: Plan, k: nat): real
    requires k <= |plan.backoff|
  {
    CycleOf(plan, k, plan.timeout)
  }

  /** Enough back-off times for the attempts of a cycle. */
  predicate Sized(plan: Plan) {
    plan.attempts >= 1 && |plan.backoff| >= plan.attempts - 1
  }

  /** `worst_cycle`. */
  function WorstCycle(plan: Plan): real
    requires Sized(plan)
  {
    CycleWith(plan, plan.attempts - 1)
  }

  /** The timing rules of `validate_plan`. */
  predicate Accepted(plan: Plan) {
    && plan.start < plan.end && plan.interval > 0.0 && plan.attempts >= 1 && plan.timeout > 0.0
    && (plan.attempts > 1 ==> |plan.backoff| >= plan.attempts - 1)
    && Sized(plan) && WorstCycle(plan) < plan.interval * 3.0
  }

  // --- one cycle ----------------------------------------------------------------------------

  datatype Attempt = Attempt(ok: bool, duration: real)

  /**
   `attempt(n, k)` is attempt `k` of cycle `n`; `begin`, `finish` and `wake` are the delays of a cycle
   before its first reading, after its last attempt, and on waking; `early` is that of the first sleep.
   */
  datatype Env = Env(attempt: (nat, nat) -> Attempt, problems: nat -> seq<string>, stopFile: nat -> bool,
                     begin: nat -> real, finish: nat -> real, wake: nat -> real, early: real)

  /** Every attempt ends by its timeout, and no delay is negative. */
  ghost predicate Timely(plan: Plan, env: Env) {
    && (forall n, k :: 0.0 <= env.attempt(n, k).duration <= plan.timeout)
    && (forall n :: env.begin(n) >= 0.0) && (forall n :: env.finish(n) >= 0.0) && (forall n :: env.wake(n) >= 0.0)
    && env.early >= 0.0
  }

  /** A cycle ends, or a negative back-off time makes `sleep` raise an error. */
  datatype CycleEnd = Done(ok: bool, elapsed: real) | Broke

  function After(d: real, end: CycleEnd): CycleEnd {
    match end case Done(ok, elapsed) => Done(ok, d + elapsed) case Broke => Broke
  }

  /** Cycle `n` from attempt `k` on. */
  function CycleFrom(plan: Plan, env: Env, n: nat, k: nat): CycleEnd
    requires Sized(plan) && k < plan.attempts
    decreases plan.attempts - k
  {
    var a := env.attempt(n, k);
    if a.ok then Done(true, a.duration)
    else if k == plan.attempts - 1 then Done(false, a.duration)
    else if plan.backoff[k] < 0.0 then Broke
    else After(a.duration + plan.backoff[k], CycleFrom(plan, env, n, k + 1))
  }

  function Cycle(plan: Plan, env: Env, n: nat): CycleEnd
    requires Sized(plan)
  {
    CycleFrom(plan, env, n, 0)
  }

  /** The attempt loop of `probe`. */
  method RunAttempts(plan: Plan, env: Env, n: nat, clock: real) returns (ok: bool, broke: bool, clock': real)
    requires Sized(plan)
    ensures broke <==> Cycle(plan, env, n).Broke?
    ensures !broke ==> Cycle(plan, env, n) == Done(ok, clock' - clock)
  {
    ok, broke, clock' := false, false, clock;
    var k := 0;
    while k < plan.attempts
      invariant 0 <= k <= plan.attempts
      invariant k < plan.attempts ==> Cycle(plan, env, n) == After(clock' - clock, CycleFrom(plan, env, n, k))
      invariant k == plan.attempts ==> Cycle(plan, env, n) == Done(false, clock' - clock)
    {
      var outcome := env.attempt(n, k);
      clock' := clock' + outcome.duration;
      if outcome.ok { ok := true; return; }
      if k + 1 < plan.attempts {
        if plan.backoff[k] < 0.0 { broke := true; return; }
        clock' := clock' + plan.backoff[k];
      }
      k := k + 1;
    }
  }

  // --- how long a cycle takes ---------------------------------------------------------------

  ghost predicate NoNegative(plan: Plan, k: nat)
    requires k <= |plan.backoff|
  {
    forall j :: 0 <= j < k ==> plan.backoff[j] >= 0.0
  }

  /**
   A cycle can get no further than attempt `k` past non-negative back-off times; none of these
   takes longer than `worst_cycle`.
   */
  ghost predicate Fits(plan: Plan)
    requires Sized(plan)
  {
    forall k: nat :: k < plan.attempts && NoNegative(plan, k) ==> CycleWith(plan, k) <= WorstCycle(plan)
  }

  lemma CycleOfNone(plan: Plan, duration: real)
    ensures CycleOf(plan, 0, duration) == duration
  {
    assert Times(0, duration) == 0.0;
    assert plan.backoff[..0] == [];
  }

  lemma CycleOfStep(plan: Plan, k: nat, duration: real)
    requires k < |plan.backoff|
    ensures CycleOf(plan, k + 1, duration) == CycleOf(plan, k, duration) + duration + plan.backoff[k]
    ensures Total(plan.backoff[..k + 1]) == Total(plan.backoff[..k]) + plan.backoff[k]
  {
    assert plan.backoff[..k + 1][..k] == plan.backoff[..k];
  }

  /** A cycle that ends at attempt `m` takes at most `CycleWith(m)`, and at least its back-off times. */
  lemma {:induction false} CycleTime(plan: Plan, env: Env, n: nat, k: nat) returns (m: nat)
    requires Sized(plan) && Timely(plan, env) && k < plan.attempts && NoNegative(plan, k)
    requires CycleFrom(plan, env, n, k).Done?
    ensures m < plan.attempts && NoNegative(plan, m)
    ensures CycleFrom(plan, env, n, k).elapsed + CycleWith(plan, k) - plan.timeout <= CycleWith(plan, m)
    ensures CycleFrom(plan, env, n, k).elapsed + Total(plan.backoff[..k]) >= Total(plan.backoff[..m])
    decreases plan.attempts - k
  {
    m := k;
    if !env.attempt(n, k).ok && k < plan.attempts - 1 {
      m := CycleTime(plan, env, n, k + 1);
      CycleOfStep(plan, k, plan.timeout);
    }
  }

  lemma CycleFits(plan: Plan, env: Env, n: nat)
    requires Sized(plan) && Timely(plan, env) && Fits(plan) && Cycle(plan, env, n).Done?
    ensures Cycle(plan, env, n).elapsed <= WorstCycle(plan)
  {
    var m := CycleTime(plan, env, n, 0);
    CycleOfNone(plan, plan.timeout);
  }

  /** An environment whose every cycle succeeds at attempt `k`, with attempts of the given duration. */
  function SlowUntil(k: nat, duration: real): Env {
    Env((n, j) => Attempt(j == k, duration), n => [], n => false, n => 0.0, n => 0.0, n => 0.0, 0.0)
  }

  lemma {:induction false} SlowCycle(plan: Plan, k: nat, duration: real, n: nat, j: nat)
    requires Sized(plan) && j <= k < plan.attempts && NoNegative(plan, k)
    ensures CycleFrom(plan, SlowUntil(k, duration), n, j)
            == Done(true, CycleOf(plan, k, duration) - CycleOf(plan, j, duration) + duration)
    decreases k - j
  {
    if j < k {
      SlowCycle(plan, k, duration, n, j + 1);
      CycleOfStep(plan, j, duration);
    }
  }

  ghost predicate AlwaysWithinWorst(plan: Plan)
    requires Sized(plan)
  {
    forall env: Env, n: nat :: Timely(plan, env) && Cycle(plan, env, n).Done? ==>
        Cycle(plan, env, n).elapsed <= WorstCycle(plan)
  }

  /** `worst_cycle` bounds every cycle exactly when no earlier end of a cycle exceeds it. */
  lemma WorstCycleIsWorstExactlyWhen(plan: Plan)
    requires Sized(plan) && plan.timeout > 0.0
    ensures AlwaysWithinWorst(plan) <==> Fits(plan)
  {
    if Fits(plan) {
      forall env: Env, n: nat | Timely(plan, env) && Cycle(plan, env, n).Done?
        ensures Cycle(plan, env, n).elapsed <= WorstCycle(plan)
      {
        CycleFits(plan, env, n);
      }
    }
    if AlwaysWithinWorst(plan) {
      forall k: nat | k < plan.attempts && NoNegative(plan, k) ensures CycleWith(plan, k) <= WorstCycle(plan) {
        SlowCycle(plan, k, plan.timeout, 0, 0);
        CycleOfNone(plan, plan.timeout);
        assert Timely(plan, SlowUntil(k, plan.timeout));
        assert Cycle(plan, SlowUntil(k, plan.timeout), 0) == Done(true, CycleWith(plan, k));
      }
    }
  }

  lemma {:induction false} CycleWithGrows(plan: Plan, k: nat, m: nat)
    requires k <= m <= |plan.backoff| && NoNegative(plan, m) && plan.timeout > 0.0
    ensures CycleWith(plan, k) <= CycleWith(plan, m)
    decreases m
  {
    if k < m {
      CycleWithGrows(plan, k, m - 1);
      CycleOfStep(plan, m - 1, plan.timeout);
    }
  }

  /** It does when no back-off time is negative. */
  lemma NonNegativeBackoffFits(plan: Plan)
    requires Sized(plan) && plan.timeout > 0.0 && NoNegative(plan, plan.attempts - 1)
    ensures Fits(plan)
  {
    forall k: nat | k < plan.attempts ensures CycleWith(plan, k) <= WorstCycle(plan) {
      CycleWithGrows(plan, k, plan.attempts - 1);
    }
  }

  // --- the log ------------------------------------------------------------------------------

  /** The row of one cycle. */
  datatype Sample = Sample(timestamp: real, cycle: nat, ok: bool, issues: seq<string>)

  datatype Exit =
    | BadPlan | TooEarly | WindowElapsed | OperatorStop | RuntimeBound | MaxCycles
    | StateStop | TelemetryStop | SleepError

  function SampleOks(samples: seq<Sample>): (oks: seq<bool>)
    ensures |oks| == |samples| && forall i :: 0 <= i < |samples| ==> oks[i] == samples[i].ok
  {
    seq(|samples|, i requires 0 <= i < |samples| => samples[i].ok)
  }

  /** A valid snapshot that violates a state invariant. */
  predicate Violates(sample: Sample) {
    sample.ok && sample.issues != []
  }

  /** More consecutive failures at the end than the limit allows. */
  predicate OverLimit(plan: Plan, samples: seq<Sample>) {
    Trailing(SampleOks(samples)) as real > plan.limit
  }

  /** The row reports what its cycle did. */
  ghost predicate Reports(plan: Plan, env: Env, existing: nat, samples: seq<Sample>, i: nat)
    requires Sized(plan) && i < |samples|
  {
    var cycle := Cycle(plan, env, i);
    && cycle.Done? && samples[i].ok == cycle.ok && samples[i].cycle == existing + i + 1
    && samples[i].issues == if cycle.ok then env.problems(i) else ["telemetry_unavailable"]
  }

  /** The delays between the starts of cycles `i` and `i + 1`. */
  function Slack(env: Env, i: nat): real {
    env.finish(i) + env.wake(i) + env.begin(i + 1)
  }

  /** The longest time from one cycle start to the next, delays aside. */
  function Pace(plan: Plan): real
    requires Sized(plan)
  {
    MaxOf(plan.interval, WorstCycle(plan))
  }

  /**
   The clock when the probe turns to its next cycle: cycle `n` and the rest of its interval, cut at
   the end of the window.
   */
  function NextTurn(plan: Plan, env: Env, n: nat, cycleStart: real): real
    requires Sized(plan)
  {
    match Cycle(plan, env, n)
    case Broke => cycleStart
    case Done(_, elapsed) =>
      var ended := cycleStart + elapsed + env.finish(n);
      var wait := plan.interval - (ended - cycleStart);
      if wait > 0.0 then ended + MinOf(wait, MaxOf(0.0, plan.end - ended)) + env.wake(n) else ended
  }

  /** Each cycle starts when the one before has turned to it, at least an interval later. */
  ghost predicate Paced(plan: Plan, env: Env, samples: seq<Sample>, i: nat)
    requires Sized(plan) && i + 1 < |samples|
  {
    && samples[i + 1].timestamp == NextTurn(plan, env, i, samples[i].timestamp) + env.begin(i + 1)
    && plan.interval <= samples[i + 1].timestamp - samples[i].timestamp
  }

  /** Nothing after cycle `i` has stopped the probe. */
  ghost predicate GoesOn(plan: Plan, samples: seq<Sample>, i: nat)
    requires i < |samples|
  {
    !Violates(samples[i]) && !OverLimit(plan, samples[..i + 1])
  }

  /** The row was written inside the window, the delay before its reading aside. */
  ghost predicate InWindow(plan: Plan, env: Env, samples: seq<Sample>, i: nat)
    requires i < |samples|
  {
    plan.start <= samples[i].timestamp < plan.end + env.begin(i)
  }

  ghost predicate Logged(plan: Plan, env: Env, existing: nat, samples: seq<Sample>)
    requires Sized(plan)
  {
    && (forall i :: 0 <= i < |samples| ==> Reports(plan, env, existing, samples, i) && InWindow(plan, env, samples, i))
    && (forall i :: 0 <= i < |samples| - 1 ==> Paced(plan, env, samples, i) && GoesOn(plan, samples, i))
    && (samples != [] ==>
          var last := |samples| - 1;
          && plan.start + Times(last, plan.interval) <= samples[last].timestamp
          && Times(last, plan.interval) < plan.end - plan.start)
  }

  /** The clock when the probe turns to its next cycle. */
  ghost predicate Turning(plan: Plan, env: Env, samples: seq<Sample>, clock: real)
    requires Sized(plan)
  {
    samples != [] ==>
      var last := |samples| - 1;
      && GoesOn(plan, samples, last)
      && plan.start <= clock == NextTurn(plan, env, last, samples[last].timestamp)
      && (samples[last].timestamp + plan.interval <= clock || plan.end <= clock)
  }

  /** One more cycle keeps the log. */
  lemma LogStep(plan: Plan, env: Env, existing: nat, samples: seq<Sample>, clock: real, sample: Sample)
    requires Sized(plan) && plan.interval > 0.0 && Timely(plan, env) && Logged(plan, env, existing, samples)
    requires Turning(plan, env, samples, clock) && plan.start <= clock < plan.end
    requires sample.timestamp == clock + env.begin(|samples|)
    requires Reports(plan, env, existing, samples + [sample], |samples|)
    ensures Logged(plan, env, existing, samples + [sample])
  {
    var more, n := samples + [sample], |samples|;
    forall i | 0 <= i < |more| ensures Reports(plan, env, existing, more, i) && InWindow(plan, env, more, i) {
      if i < n { assert Reports(plan, env, existing, samples, i) && InWindow(plan, env, samples, i); }
    }
    forall i | 0 <= i < n ensures Paced(plan, env, more, i) && GoesOn(plan, more, i) {
      assert more[..i + 1] == samples[..i + 1];
      if i < n - 1 { assert Paced(plan, env, samples, i) && GoesOn(plan, samples, i); }
    }
  }

  /** The window divided by the interval, rounded up. */
  function CycleBound(plan: Plan): int
    requires plan.interval > 0.0
  {
    -(0.0 - (plan.end - plan.start) / plan.interval).Floor
  }

  lemma LoggedIsBounded(plan: Plan, env: Env, existing: nat, samples: seq<Sample>)
    requires Accepted(plan) && Logged(plan, env, existing, samples)
    ensures |samples| <= CycleBound(plan)
  {
    if samples != [] {
      TimesIsProduct(|samples| - 1, plan.interval);
      Quotient((|samples| - 1) as real, plan.interval, plan.end - plan.start);
    }
  }

  lemma Quotient(n: real, x: real, width: real)
    requires x > 0.0 && n * x < width
    ensures n < width / x
  {
    var q := width / x;
    assert q * x == width;
    assert n >= q ==> n * x >= q * x;
  }

  lemma OneMore(samples: seq<Sample>, sample: Sample)
    ensures Trailing(SampleOks(samples + [sample])) == if sample.ok then 0 else Trailing(SampleOks(samples)) + 1
  {
    assert SampleOks(samples + [sample]) == SampleOks(samples) + [sample.ok];
    RunsStep(SampleOks(samples), sample.ok);
  }

  /** The row of one cycle and the clock after its last attempt; no row if a sleep failed. */
  method ReadCycle(plan: Plan, env: Env, existing: nat, n: nat, cycleStart: real)
      returns (row: Option<Sample>, ended: real)
    requires Sized(plan)
    ensures var cycle := Cycle(plan, env, n);
            && (row.None? <==> cycle.Broke?)
            && (row.Some? ==>
                  && ended == cycleStart + cycle.elapsed
                  && row.value == Sample(cycleStart, existing + n + 1, cycle.ok,
                                         if cycle.ok then env.problems(n) else ["telemetry_unavailable"]))
  {
    var ok, broke;
    ok, broke, ended := RunAttempts(plan, env, n, cycleStart);
    if broke { return None, ended; }
    row := Some(Sample(cycleStart, existing + n + 1, ok, if ok then env.problems(n) else ["telemetry_unavailable"]));
  }

  /** One cycle with its checks and its wait: what stops the probe, if anything, and the clock for the next turn. */
  method OneCycle(plan: Plan, env: Env, existing: nat, samples: seq<Sample>, consecutive: nat, turned: real)
    returns (stop: Option<Exit>, row: Option<Sample>, consecutive': nat, clock: real)
    requires Accepted(plan) && Timely(plan, env) && Logged(plan, env, existing, samples)
    requires Turning(plan, env, samples, turned) && plan.start <= turned < plan.end
    requires consecutive == Trailing(SampleOks(samples))
    ensures row.None? <==> stop == Some(SleepError)
    ensures row.None? ==> Cycle(plan, env, |samples|).Broke?
    ensures row.Some? ==> row.value.timestamp == turned + env.begin(|samples|)
    ensures row.Some? ==> CycleResult(plan, env, existing, samples + [row.value], stop, clock)
    ensures row.Some? ==> consecutive' == Trailing(SampleOks(samples + [row.value]))
  {
    var n, cycleStart := |samples|, turned + env.begin(|samples|);
    row, clock := ReadCycle(plan, env, existing, n, cycleStart);
    consecutive' := consecutive;
    if row.None? { return Some(SleepError), row, consecutive', clock; }
    RowStep(plan, env, existing, samples, turned, row.value);
    consecutive' := if row.value.ok then 0 else consecutive + 1;
    stop, clock := JudgeCycle(plan, env, n, existing, samples + [row.value], row.value, consecutive', clock);
  }

  /** After a row: what stops the probe, or the wait for the next turn. */
  method JudgeCycle(plan: Plan, env: Env, n: nat, ghost existing: nat, ghost samples: seq<Sample>, row: Sample,
                    consecutive: nat, ended: real)
    returns (stop: Option<Exit>, clock: real)
    requires Accepted(plan) && Timely(plan, env) && Logged(plan, env, existing, samples)
    requires |samples| == n + 1 && samples[n] == row && consecutive == Trailing(SampleOks(samples))
    requires Cycle(plan, env, n).Done? && ended == row.timestamp + Cycle(plan, env, n).elapsed
    ensures CycleResult(plan, env, existing, samples, stop, clock)
  {
    assert samples[..n + 1] == samples;
    stop := StopAfter(plan, row, consecutive);
    clock := ended;
    if stop.None? {
      assert InWindow(plan, env, samples, n);
      clock := Wait(plan, env, n, samples, row.timestamp, ended);
    }
  }

  /** The two checks that can stop the probe after a row. */
  function StopAfter(plan: Plan, row: Sample, consecutive: nat): Option<Exit> {
    if row.ok && row.issues != [] then Some(StateStop)
    else if consecutive as real > plan.limit then Some(TelemetryStop)
    else None
  }

  lemma RowStep(plan: Plan, env: Env, existing: nat, samples: seq<Sample>, turned: real, row: Sample)
    requires Accepted(plan) && Timely(plan, env) && Logged(plan, env, existing, samples)
    requires Turning(plan, env, samples, turned) && plan.start <= turned < plan.end
    requires row.timestamp == turned + env.begin(|samples|)
    requires Reports(plan, env, existing, samples + [row], |samples|)
    ensures Logged(plan, env, existing, samples + [row])
    ensures Trailing(SampleOks(samples + [row])) == if row.ok then 0 else Trailing(SampleOks(samples)) + 1
    ensures GoesOn(plan, samples + [row], |samples|) <==> !Violates(row) && !OverLimit(plan, samples + [row])
  {
    LogStep(plan, env, existing, samples, turned, row);
    OneMore(samples, row);
    assert (samples + [row])[..|samples| + 1] == samples + [row];
  }

  /** The end of a cycle: the rest of the interval, cut at the end of the window. */
  method Wait(plan: Plan, env: Env, n: nat, ghost samples: seq<Sample>, cycleStart: real, ended: real)
      returns (clock: real)
    requires |samples| == n + 1 && Accepted(plan) && Timely(plan, env) && samples != []
    requires var last := |samples| - 1;
             && samples[last].timestamp == cycleStart >= plan.start && GoesOn(plan, samples, last)
             && Cycle(plan, env, last).Done? && ended == cycleStart + Cycle(plan, env, last).elapsed
    ensures Turning(plan, env, samples, clock)
  {
    clock := ended + env.finish(n);
    var wait := plan.interval - (clock - cycleStart);
    if wait > 0.0 {
      clock := clock + MinOf(wait, MaxOf(0.0, plan.end - clock)) + env.wake(n);
    }
    TurnStep(plan, env, samples, cycleStart, clock);
  }

  /** The log after one more row, and the verdict on its last row. */
  ghost predicate CycleResult(plan: Plan, env: Env, existing: nat, samples: seq<Sample>, stop: Option<Exit>,
                              clock: real)
    requires Sized(plan) && samples != []
  {
    && Logged(plan, env, existing, samples)
    && (stop.None? ==> Turning(plan, env, samples, clock))
    && (stop.Some? ==> stop.value == if Violates(samples[|samples| - 1]) then StateStop else TelemetryStop)
    && (stop == Some(TelemetryStop) ==> OverLimit(plan, samples))
  }

  /** After a cycle and its wait the probe turns to the next one. */
  lemma TurnStep(plan: Plan, env: Env, samples: seq<Sample>, cycleStart: real, clock: real)
    requires Accepted(plan) && Timely(plan, env) && samples != []
    requires var last := |samples| - 1;
             && samples[last].timestamp == cycleStart >= plan.start && GoesOn(plan, samples, last)
             && Cycle(plan, env, last).Done? && clock == NextTurn(plan, env, last, cycleStart)
    ensures Turning(plan, env, samples, clock)
  {
    var last := |samples| - 1;
    CycleIsNotNegative(plan, env, last, 0);
  }

  lemma {:induction false} CycleIsNotNegative(plan: Plan, env: Env, n: nat, k: nat)
    requires Sized(plan) && Timely(plan, env) && k < plan.attempts && CycleFrom(plan, env, n, k).Done?
    ensures CycleFrom(plan, env, n, k).elapsed >= 0.0
    decreases plan.attempts - k
  {
    if !env.attempt(n, k).ok && k < plan.attempts - 1 { CycleIsNotNegative(plan, env, n, k + 1); }
  }

  /** No cycle was begun past the stop file, the cycle bound or the run-time bound. */
  ghost predicate Permitted(plan: Plan, env: Env, began: real, maxCycles: Option<nat>, samples: seq<Sample>) {
    forall i :: 0 <= i < |samples| ==>
      && !env.stopFile(i) && (maxCycles.Some? ==> i < maxCycles.value)
      && !RanOut(plan, samples[i].timestamp - env.begin(i) - began)
  }

  lemma PermittedStep(plan: Plan, env: Env, began: real, maxCycles: Option<nat>, samples: seq<Sample>, row: Sample,
                      turned: real)
    requires Permitted(plan, env, began, maxCycles, samples) && row.timestamp == turned + env.begin(|samples|)
    requires !env.stopFile(|samples|) && (maxCycles.Some? ==> |samples| < maxCycles.value)
    requires !RanOut(plan, turned - began)
    ensures Permitted(plan, env, began, maxCycles, samples + [row])
  {
  }

  /** The first cycle starts no later than the call or the start of the window allows. */
  ghost predicate StartedBy(plan: Plan, env: Env, began: real, samples: seq<Sample>, clock: real) {
    var first := MaxOf(began, plan.start + env.early);
    if samples == [] then clock <= first else samples[0].timestamp <= first + env.begin(0)
  }

  /** The run-time bound is reached; a bound of zero is none. */
  predicate RanOut(plan: Plan, elapsed: real) {
    plan.maxRuntime.Some? && plan.maxRuntime.value != 0.0 && elapsed >= plan.maxRuntime.value
  }

  /** What made the probe end before a next cycle, the checks being made in this order. */
  ghost predicate Ended(plan: Plan, env: Env, began: real, maxCycles: Option<nat>, exit: Exit, n: nat, clock: real) {
    match exit
    case TooEarly => n == 0 && began < plan.start - plan.interval
    case WindowElapsed => plan.end <= clock
    case OperatorStop => plan.start <= clock < plan.end && env.stopFile(n)
    case RuntimeBound => plan.start <= clock < plan.end && !env.stopFile(n) && RanOut(plan, clock - began)
    case MaxCycles =>
      plan.start <= clock < plan.end && !env.stopFile(n) && !RanOut(plan, clock - began) && maxCycles == Some(n)
    case SleepError => Sized(plan) && Cycle(plan, env, n).Broke?
    case _ => true
  }

  /** The checks before cycle `n`. */
  method BeforeCycle(plan: Plan, env: Env, began: real, maxCycles: Option<nat>, n: nat, clock: real)
    returns (stop: Option<Exit>)
    requires plan.start <= clock && (maxCycles.Some? ==> n <= maxCycles.value)
    ensures stop.Some? ==>
              && stop.value in {WindowElapsed, OperatorStop, RuntimeBound, MaxCycles}
              && Ended(plan, env, began, maxCycles, stop.value, n, clock)
    ensures stop.None? ==>
              && clock < plan.end && !env.stopFile(n) && (maxCycles.Some? ==> n < maxCycles.value)
              && !RanOut(plan, clock - began)
  {
    if clock >= plan.end { return Some(WindowElapsed); }
    if env.stopFile(n) { return Some(OperatorStop); }
    if RanOut(plan, clock - began) { return Some(RuntimeBound); }
    if maxCycles.Some? && n >= maxCycles.value { return Some(MaxCycles); }
    stop := None;
  }

  /**
   `probe`: `began` is the clock at the call, `existing` the number of rows already in the file. The
   result is the exit, the cycle rows it appends, and the time of an operator-stop row if it writes one.
   */
  method Probe(plan: Plan, env: Env, began: real, maxCycles: Option<nat>, existing: nat)
    returns (exit: Exit, samples: seq<Sample>, stopRow: Option<real>, clock: real)
    requires Timely(plan, env)
    ensures ProbeResult(plan, env, existing, exit, samples, clock)
    ensures stopRow == if exit.OperatorStop? then Some(clock) else None
    ensures Permitted(plan, env, began, maxCycles, samples)
    ensures exit.TooEarly? <==> Accepted(plan) && began < plan.start - plan.interval
    ensures Ended(plan, env, began, maxCycles, exit, |samples|, clock)
    ensures !exit.SleepError? ==> StartedBy(plan, env, began, samples, clock)
  {
    samples, stopRow, clock := [], None, began;
    if !Accepted(plan) { return BadPlan, samples, stopRow, clock; }
    var consecutive := 0;
    while true
      invariant stopRow.None?
      invariant Logged(plan, env, existing, samples) && Turning(plan, env, samples, clock)
      invariant consecutive == Trailing(SampleOks(samples))
      invariant StartedBy(plan, env, began, samples, clock)
      invariant Permitted(plan, env, began, maxCycles, samples) && (maxCycles.Some? ==> |samples| <= maxCycles.value)
      invariant clock == began || clock >= plan.start
      invariant clock == began || began >= plan.start - plan.interval
      invariant |samples| <= CycleBound(plan)
      decreases CycleBound(plan) - |samples|, if clock < plan.start then 1 else 0
    {
      if clock < plan.start - plan.interval { return TooEarly, samples, stopRow, clock; }
      if clock < plan.start {
        clock := clock + (plan.start - clock) + env.early;
        continue;
      }
      var stop := BeforeCycle(plan, env, began, maxCycles, |samples|, clock);
      if stop.Some? {
        if stop.value.OperatorStop? { stopRow := Some(clock); }
        return stop.value, samples, stopRow, clock;
      }
      ghost var turned := clock;
      var row;
      stop, row, consecutive, clock := OneCycle(plan, env, existing, samples, consecutive, clock);
      if row.Some? {
        PermittedStep(plan, env, began, maxCycles, samples, row.value, turned);
        samples := samples + [row.value];
      }
      LoggedIsBounded(plan, env, existing, samples);
      if stop.Some? { return stop.value, samples, stopRow, clock; }
    }
  }

  /**
   What the exits of a probe run say. No cycle begins under a stop file, past the cycle bound or past the
   run-time bound, where a bound of zero is none; and the run ends before a further cycle for the first of
   the reasons that applies: the end of the window, the stop file, the run time, the number of cycles.
   */
  lemma ExitTells(plan: Plan, env: Env, began: real, maxCycles: Option<nat>, exit: Exit, samples: seq<Sample>,
                  clock: real)
    requires Permitted(plan, env, began, maxCycles, samples)
    requires Ended(plan, env, began, maxCycles, exit, |samples|, clock)
    ensures forall i :: 0 <= i < |samples| ==> !env.stopFile(i)
    ensures maxCycles.Some? ==> |samples| <= maxCycles.value
    ensures forall bound, i :: plan.maxRuntime == Some(bound) && bound != 0.0 && 0 <= i < |samples| ==>
                                 samples[i].timestamp < began + bound + env.begin(i)
    ensures exit.WindowElapsed? ==> clock >= plan.end
    ensures exit in {OperatorStop, RuntimeBound, MaxCycles} ==>
              plan.start <= clock < plan.end && (exit.OperatorStop? <==> env.stopFile(|samples|))
    ensures exit in {RuntimeBound, MaxCycles} ==>
              (exit.RuntimeBound? <==> exists bound :: plan.maxRuntime == Some(bound) && bound != 0.0
                                                       && clock - began >= bound)
    ensures exit.MaxCycles? ==> maxCycles == Some(|samples|)
  {
    if samples != [] {
      var last := |samples| - 1;
      assert !env.stopFile(last) && (maxCycles.Some? ==> last < maxCycles.value);
    }
  }

  /** What a probe run has written when it ends, by its exit. */
  ghost predicate ProbeResult(plan: Plan, env: Env, existing: nat, exit: Exit, samples: seq<Sample>, clock: real) {
    && (exit.BadPlan? <==> !Accepted(plan))
    && (exit.BadPlan? || exit.TooEarly? ==> samples == [])
    && (Accepted(plan) ==>
          && Logged(plan, env, existing, samples)
          && (exit.WindowElapsed? ==> plan.end <= clock && Turning(plan, env, samples, clock))
          && (if exit.StateStop? then samples != [] && Violates(samples[|samples| - 1])
              else if exit.TelemetryStop? then
                samples != [] && !Violates(samples[|samples| - 1]) && OverLimit(plan, samples)
              else samples != [] ==> GoesOn(plan, samples, |samples| - 1)))
  }
}
