/**
 The telemetry part of the evaluator (`scripts/phase7b-observe.py`, `evaluate`), and what the rows
 that the probe writes can make it report.
 */
module ObservationEvaluation {
  import opened Options
  import opened FailureRuns
  import opened ObservationProbe
  import opened ObservationCadence

  datatype Verdict = NotMeasured | Met | NotMet

  datatype Criteria = Criteria(minAvailability: real, maxGap: real)

  datatype Report = Report(cycles: nat, okCycles: nat, runs: nat, longest: int, gap: real, stateIssues: set<string>,
                           covered: Verdict, available: Verdict, consecutive: Verdict, gapVerdict: Verdict,
                               idle: Verdict)

  function Judge(met: bool, measured: bool): Verdict {
    if !measured then NotMeasured else if met then Met else NotMet
  }

  // --- the rows that count ------------------------------------------------------------------

  /** The rows inside the window. */
  function Inside(plan: Plan, samples: seq<Sample>): seq<Sample>
    decreases |samples|
  {
    if samples == [] then []
    else
      var last := samples[|samples| - 1];
      Inside(plan, samples[..|samples| - 1]) + (if plan.start <= last.timestamp < plan.end then [last] else [])
  }

  /** Put a row behind those that are no later. */
  function InsertByTime(sample: Sample, sorted: seq<Sample>): seq<Sample>
    decreases |sorted|
  {
    if sorted == [] || sorted[|sorted| - 1].timestamp <= sample.timestamp then sorted + [sample]
    else InsertByTime(sample, sorted[..|sorted| - 1]) + [sorted[|sorted| - 1]]
  }

  /** `sorted(..., key=timestamp)`, which is stable. */
  function SortByTime(samples: seq<Sample>): seq<Sample>
    decreases |samples|
  {
    if samples == [] then [] else InsertByTime(samples[|samples| - 1], SortByTime(samples[..|samples| - 1]))
  }

  ghost predicate InOrder(samples: seq<Sample>) {
    forall i, j :: 0 <= i <= j < |samples| ==> samples[i].timestamp <= samples[j].timestamp
  }

  lemma {:induction false} InsertInOrder(sample: Sample, sorted: seq<Sample>)
    requires InOrder(sorted)
    ensures InOrder(InsertByTime(sample, sorted))
            && multiset(InsertByTime(sample, sorted)) == multiset(sorted) + multiset{sample}
    decreases |sorted|
  {
    if sorted != [] && sorted[|sorted| - 1].timestamp > sample.timestamp {
      var rest, last := sorted[..|sorted| - 1], sorted[|sorted| - 1];
      InsertInOrder(sample, rest);
      assert sorted == rest + [last];
      LaterThanAll(InsertByTime(sample, rest), rest, sample, last);
    }
  }

  lemma LaterThanAll(inserted: seq<Sample>, rest: seq<Sample>, sample: Sample, last: Sample)
    requires InOrder(inserted) && InOrder(rest + [last]) && sample.timestamp <= last.timestamp
    requires multiset(inserted) == multiset(rest) + multiset{sample}
    ensures InOrder(inserted + [last])
  {
    forall i | 0 <= i < |inserted| ensures inserted[i].timestamp <= last.timestamp {
      assert inserted[i] in multiset(inserted);
      if inserted[i] in rest {
        var k :| 0 <= k < |rest| && rest[k] == inserted[i];
        assert (rest + [last])[k] == rest[k] && (rest + [last])[|rest|] == last;
      }
    }
  }

  lemma {:induction false} SortInOrder(samples: seq<Sample>)
    ensures InOrder(SortByTime(samples)) && multiset(SortByTime(samples)) == multiset(samples)
    decreases |samples|
  {
    if samples != [] {
      var rest, last := samples[..|samples| - 1], samples[|samples| - 1];
      SortInOrder(rest);
      InsertInOrder(last, SortByTime(rest));
      assert samples == rest + [last];
    }
  }

  lemma SortStep(rest: seq<Sample>, last: Sample)
    requires SortByTime(rest) == rest && InOrder(rest + [last])
    ensures SortByTime(rest + [last]) == rest + [last]
  {
    var samples := rest + [last];
    assert samples[..|samples| - 1] == rest && samples[|samples| - 1] == last;
    assert rest != [] ==> samples[|rest| - 1] == rest[|rest| - 1];
  }

  lemma {:induction false} SortOfOrdered(samples: seq<Sample>, n: nat)
    requires InOrder(samples) && n <= |samples|
    ensures SortByTime(samples[..n]) == samples[..n]
  {
    if n > 0 {
      SortOfOrdered(samples, n - 1);
      assert samples[..n] == samples[..n - 1] + [samples[n - 1]];
      SortStep(samples[..n - 1], samples[n - 1]);
    }
  }

  function Counted(plan: Plan, samples: seq<Sample>): seq<Sample> {
    SortByTime(Inside(plan, samples))
  }

  // --- the evaluation -----------------------------------------------------------------------

  function GoodTimes(samples: seq<Sample>): seq<real>
    decreases |samples|
  {
    if samples == [] then []
    else
      var last := samples[|samples| - 1];
      GoodTimes(samples[..|samples| - 1]) + (if last.ok then [last.timestamp] else [])
  }

  function StateIssues(samples: seq<Sample>): set<string> {
    set i, x | 0 <= i < |samples| && samples[i].ok && x in samples[i].issues :: x
  }

  /** The number of cycles that the elapsed time should hold. */
  function Expected(plan: Plan, elapsed: real): nat
    requires plan.interval > 0.0
  {
    if elapsed <= 0.0 then 0
    else if (elapsed / plan.interval).Floor <= 1 then 1 else (elapsed / plan.interval).Floor
  }

  function Covered(plan: Plan, cycles: nat, now: real): Verdict
    requires plan.interval > 0.0
  {
    var expected := Expected(plan, MinOf(now, plan.end) - plan.start);
    var coverage := if expected == 0 then 0.0 else cycles as real / expected as real;
    Judge(now >= plan.end && coverage >= 0.95, cycles != 0 && now >= plan.end)
  }

  function Available(cycles: nat, good: nat, share: real): Verdict {
    Judge(cycles != 0 && good as real / cycles as real >= share, cycles != 0)
  }

  /** The report on the counted rows. */
  function Evaluation(plan: Plan, criteria: Criteria, samples: seq<Sample>, now: real): Report
    requires plan.interval > 0.0
  {
    var cycles := Counted(plan, samples);
    var good := GoodTimes(cycles);
    var runs := Runs(SampleOks(cycles));
    var gap := SuccessGap(good, plan.start, MinOf(now, plan.end));
    Report(|cycles|, |good|, |runs|, Longest(runs), gap, StateIssues(cycles),
           Covered(plan, |cycles|, now),
           Available(|cycles|, |good|, criteria.minAvailability),
           Judge(Longest(runs) as real <= plan.limit, |cycles| != 0),
           Judge(gap <= criteria.maxGap, |cycles| != 0),
           Judge(StateIssues(cycles) == {} && |good| != 0, |good| != 0))
  }

  /** The verdicts on telemetry by the counted rows. */
  lemma Verdicts(plan: Plan, criteria: Criteria, samples: seq<Sample>, now: real, cycles: seq<Sample>)
    requires plan.interval > 0.0 && cycles == Counted(plan, samples)
    ensures var report := Evaluation(plan, criteria, samples, now);
            && (report.consecutive == NotMet <==> cycles != [] && Longest(Runs(SampleOks(cycles))) as real > plan.limit)
            && report.stateIssues == StateIssues(cycles)
            && (report.idle == NotMet <==> GoodTimes(cycles) != [] && StateIssues(cycles) != {})
            && report.covered == Covered(plan, |cycles|, now)
  {
  }

  method Evaluate(plan: Plan, criteria: Criteria, samples: seq<Sample>, now: real) returns (report: Option<Report>)
    ensures report == if Accepted(plan) then Some(Evaluation(plan, criteria, samples, now)) else None
  {
    if !Accepted(plan) { return None; }
    var cycles := Counted(plan, samples);
    var good := GoodTimes(cycles);
    var runs, longest := CountRuns(SampleOks(cycles));
    var gap := MaxSuccessGap(good, plan.start, MinOf(now, plan.end));
    var issues := StateIssues(cycles);
    report := Some(Report(|cycles|, |good|, runs, longest, gap, issues,
                          Covered(plan, |cycles|, now),
                          Judge(|cycles| != 0 && |good| as real / |cycles| as real >= criteria.minAvailability,
                                |cycles| != 0),
                          Judge(longest as real <= plan.limit, |cycles| != 0),
                          Judge(gap <= criteria.maxGap, |cycles| != 0),
                          Judge(issues == {} && |good| != 0, |good| != 0)));
  }

  // --- the gap ------------------------------------------------------------------------------

  lemma {:induction false} GoodTimesRise(samples: seq<Sample>, low: real, high: real)
    requires InOrder(samples) && forall i :: 0 <= i < |samples| ==> low <= samples[i].timestamp <= high
    ensures Rising(GoodTimes(samples)) && forall i :: 0 <= i < |GoodTimes(samples)| ==>
              low <= GoodTimes(samples)[i] <= high
    decreases |samples|
  {
    if samples != [] {
      var last := samples[|samples| - 1].timestamp;
      GoodTimesRise(samples[..|samples| - 1], low, last);
    }
  }

  lemma {:induction false} InsideShape(plan: Plan, samples: seq<Sample>)
    ensures forall s :: s in Inside(plan, samples) <==> s in samples && plan.start <= s.timestamp < plan.end
    decreases |samples|
  {
    if samples != [] {
      InsideShape(plan, samples[..|samples| - 1]);
      assert samples == samples[..|samples| - 1] + [samples[|samples| - 1]];
    }
  }

  /** With all rows at most now, the reported gap is the longest success-free interval of the window so far. */
  lemma ReportedGap(plan: Plan, criteria: Criteria, samples: seq<Sample>, now: real)
    requires plan.interval > 0.0 && plan.start < plan.end && plan.start <= now
    requires forall s :: s in samples ==> s.timestamp <= now
    ensures IsLongestGap(Evaluation(plan, criteria, samples, now).gap, GoodTimes(Counted(plan, samples)), plan.start,
                         MinOf(now, plan.end))
  {
    var cycles, stop := Counted(plan, samples), MinOf(now, plan.end);
    CountedTimes(plan, samples, now);
    GoodTimesRise(cycles, plan.start, stop);
    SuccessGapIsLongestGap(GoodTimes(cycles), plan.start, stop);
  }

  lemma CountedTimes(plan: Plan, samples: seq<Sample>, now: real)
    requires forall s :: s in samples ==> s.timestamp <= now
    ensures var cycles := Counted(plan, samples);
            InOrder(cycles) && forall i :: 0 <= i < |cycles| ==>
                plan.start <= cycles[i].timestamp <= MinOf(now, plan.end)
  {
    var inside, cycles := Inside(plan, samples), Counted(plan, samples);
    SortInOrder(inside);
    forall i | 0 <= i < |cycles| ensures plan.start <= cycles[i].timestamp <= MinOf(now, plan.end) {
      assert cycles[i] in multiset(cycles);
      InsideTimes(plan, samples, now, cycles[i]);
    }
  }

  lemma InsideTimes(plan: Plan, samples: seq<Sample>, now: real, s: Sample)
    requires s in Inside(plan, samples) && forall r :: r in samples ==> r.timestamp <= now
    ensures plan.start <= s.timestamp <= MinOf(now, plan.end)
  {
    InsideShape(plan, samples);
  }

  // --- what the probe writes ----------------------------------------------------------------

  lemma {:induction false} LoggedInOrder(plan: Plan, env: Env, existing: nat, samples: seq<Sample>, i: nat, j: nat)
    requires Accepted(plan) && Logged(plan, env, existing, samples) && i <= j < |samples|
    ensures samples[i].timestamp + Times(j - i, plan.interval) <= samples[j].timestamp
    decreases j
  {
    if i < j {
      LoggedInOrder(plan, env, existing, samples, i, j - 1);
      assert Paced(plan, env, samples, j - 1);
    }
  }

  lemma {:induction false} TimesPositive(n: nat, x: real)
    requires x >= 0.0
    ensures Times(n, x) >= 0.0
  {
    if n > 0 { TimesPositive(n - 1, x); }
  }

  lemma {:induction false} InsideIsPrefix(plan: Plan, samples: seq<Sample>) returns (m: nat)
    requires InOrder(samples) && forall i :: 0 <= i < |samples| ==> plan.start <= samples[i].timestamp
    ensures m <= |samples| && Inside(plan, samples) == samples[..m]
    ensures m < |samples| ==> samples[m].timestamp >= plan.end
    decreases |samples|
  {
    if samples == [] { return 0; }
    var n := |samples| - 1;
    m := InsideIsPrefix(plan, samples[..n]);
    if samples[n].timestamp < plan.end {
      assert m == n;
      assert samples[..n + 1] == samples[..n] + [samples[n]];
      m := n + 1;
    } else {
      assert samples[..m] == samples[..n][..m];
    }
  }

  /** The rows of a probe that count are the first ones, and all of them if no reading is delayed. */
  lemma CountedRows(plan: Plan, env: Env, existing: nat, samples: seq<Sample>) returns (m: nat)
    requires Accepted(plan) && Logged(plan, env, existing, samples)
    ensures m <= |samples| && Counted(plan, samples) == samples[..m]
    ensures (forall n :: env.begin(n) == 0.0) ==> m == |samples|
  {
    forall i, j | 0 <= i <= j < |samples| ensures samples[i].timestamp <= samples[j].timestamp {
      LoggedInOrder(plan, env, existing, samples, i, j);
      TimesPositive(j - i, plan.interval);
    }
    forall i | 0 <= i < |samples| ensures plan.start <= samples[i].timestamp {
      assert InWindow(plan, env, samples, i);
    }
    m := InsideIsPrefix(plan, samples);
    SortOfOrdered(samples, m);
    assert m < |samples| ==> InWindow(plan, env, samples, m);
  }

  /** The failures that may precede every further cycle. */
  function Allowance(plan: Plan): nat {
    if plan.limit >= 0.0 then plan.limit.Floor else 0
  }

  lemma OverLimitByCount(plan: Plan, samples: seq<Sample>)
    requires plan.limit >= 0.0
    ensures OverLimit(plan, samples) <==> Trailing(SampleOks(samples)) > Allowance(plan)
  {
  }

  lemma PrefixOks(samples: seq<Sample>, i: nat)
    requires i <= |samples|
    ensures SampleOks(samples[..i]) == SampleOks(samples)[..i]
  {
  }

  /** The first rows, none of which stopped the probe, hold no run above the allowance. */
  lemma GoingOnNeverMore(plan: Plan, samples: seq<Sample>, m: nat)
    requires m <= |samples| && forall i :: 0 <= i < m ==> GoesOn(plan, samples, i)
    ensures NeverMore(SampleOks(samples[..m]), Allowance(plan))
    ensures plan.limit < 0.0 ==> m == 0
    ensures Longest(Runs(SampleOks(samples[..m]))) <= Allowance(plan)
  {
    var oks := SampleOks(samples[..m]);
    forall i | 0 <= i <= m ensures Trailing(oks[..i]) <= Allowance(plan) {
      if i > 0 {
        assert GoesOn(plan, samples, i - 1);
        PrefixOks(samples[..m], i);
        assert samples[..m][..i] == samples[..i - 1 + 1];
        OneGoesOn(plan, samples, i - 1);
      }
    }
    if m > 0 { OneGoesOn(plan, samples, 0); }
    LongestIsWorstTrailing(oks, Allowance(plan));
  }

  lemma OneGoesOn(plan: Plan, samples: seq<Sample>, i: nat)
    requires i < |samples| && GoesOn(plan, samples, i)
    ensures plan.limit >= 0.0 && Trailing(SampleOks(samples[..i + 1])) <= Allowance(plan)
  {
    if plan.limit >= 0.0 { OverLimitByCount(plan, samples[..i + 1]); }
  }

  /**
   Whatever happens, a probe run writes no run of failures longer than the limit and one more (or one,
   under a negative limit), and only its last row can hold a state issue. The rows are numbered on from
   those in the file, and hold the problems of their snapshots, or that there was none.
   */
  lemma ProbeRows(plan: Plan, env: Env, existing: nat, exit: Exit, samples: seq<Sample>, clock: real)
    requires Accepted(plan) && ProbeResult(plan, env, existing, exit, samples, clock)
    ensures Longest(Runs(SampleOks(samples))) <= Allowance(plan) + 1
    ensures forall i :: 0 <= i < |samples| && Violates(samples[i]) ==> i == |samples| - 1 && exit.StateStop?
    ensures forall i :: 0 <= i < |samples| ==>
              && samples[i].cycle == existing + 1 + i
              && samples[i].issues == if samples[i].ok then env.problems(i) else ["telemetry_unavailable"]
  {
    RowsReport(plan, env, existing, samples);
    if samples != [] {
      var n := |samples| - 1;
      GoingOnNeverMore(plan, samples, n);
      LastRowAdds(plan, samples, Allowance(plan));
      forall i | 0 <= i < |samples| && Violates(samples[i]) ensures i == n && exit.StateStop? {
        assert i < n ==> GoesOn(plan, samples, i);
      }
    }
  }

  /** The last row makes the longest run at most one longer. */
  lemma LastRowAdds(plan: Plan, samples: seq<Sample>, bound: nat)
    requires samples != [] && NeverMore(SampleOks(samples[..|samples| - 1]), bound)
    ensures Longest(Runs(SampleOks(samples))) <= bound + 1
  {
    var before, last := samples[..|samples| - 1], samples[|samples| - 1];
    assert samples == before + [last];
    OneMore(before, last);
    assert SampleOks(samples) == SampleOks(before) + [last.ok];
    RunsStep(SampleOks(before), last.ok);
    LongestIsWorstTrailing(SampleOks(before), bound);
  }

  lemma RowsReport(plan: Plan, env: Env, existing: nat, samples: seq<Sample>)
    requires Accepted(plan) && Logged(plan, env, existing, samples)
    ensures forall i :: 0 <= i < |samples| ==>
              && samples[i].cycle == existing + 1 + i
              && samples[i].issues == if samples[i].ok then env.problems(i) else ["telemetry_unavailable"]
  {
    forall i | 0 <= i < |samples|
      ensures samples[i].cycle == existing + 1 + i
      ensures samples[i].issues == if samples[i].ok then env.problems(i) else ["telemetry_unavailable"]
    {
      assert Reports(plan, env, existing, samples, i);
    }
  }

  lemma NoStateIssues(samples: seq<Sample>)
    ensures StateIssues(samples) == {} <==> forall i :: 0 <= i < |samples| ==> !Violates(samples[i])
  {
    forall i | 0 <= i < |samples| && Violates(samples[i]) ensures StateIssues(samples) != {} {
      var x := samples[i].issues[0];
      assert x in samples[i].issues;
      assert x in StateIssues(samples);
    }
  }

  /**
   A run that was stopped neither by its telemetry nor by a state violation cannot make the evaluator
   report a failed limit on consecutive failures or any state issue, whenever it is evaluated.
   */
  lemma CleanRunSatisfiesEvaluator(plan: Plan, env: Env, existing: nat, exit: Exit, samples: seq<Sample>, clock: real,
                                   criteria: Criteria, now: real)
    requires Accepted(plan) && ProbeResult(plan, env, existing, exit, samples, clock)
    requires !exit.StateStop? && !exit.TelemetryStop?
    ensures var report := Evaluation(plan, criteria, samples, now);
            report.consecutive != NotMet && report.stateIssues == {} && report.idle != NotMet
  {
    var m := CountedRows(plan, env, existing, samples);
    Verdicts(plan, criteria, samples, now, samples[..m]);
    AllGoOn(plan, env, existing, exit, samples, clock);
    CleanRows(plan, samples, m);
  }

  lemma AllGoOn(plan: Plan, env: Env, existing: nat, exit: Exit, samples: seq<Sample>, clock: real)
    requires Accepted(plan) && ProbeResult(plan, env, existing, exit, samples, clock)
    requires !exit.StateStop? && !exit.TelemetryStop?
    ensures forall i :: 0 <= i < |samples| ==> GoesOn(plan, samples, i)
  {
  }

  lemma CleanRows(plan: Plan, samples: seq<Sample>, m: nat)
    requires m <= |samples| && forall i :: 0 <= i < m ==> GoesOn(plan, samples, i)
    ensures m > 0 ==> Longest(Runs(SampleOks(samples[..m]))) as real <= plan.limit
    ensures StateIssues(samples[..m]) == {}
  {
    GoingOnNeverMore(plan, samples, m);
    NoStateIssues(samples[..m]);
    forall i | 0 <= i < m ensures !Violates(samples[..m][i]) {
      assert GoesOn(plan, samples, i);
    }
    if m > 0 {
      OneGoesOn(plan, samples, 0);
      var longest := Longest(Runs(SampleOks(samples[..m])));
      assert longest as real <= Allowance(plan) as real <= plan.limit;
    }
  }

  /**
   Conversely, with readings that are not delayed and a limit that is not negative, the evaluator finds
   the criterion failed exactly for the run that was stopped for it.
   */
  lemma EvaluatorAgreesWithExit(plan: Plan, env: Env, existing: nat, exit: Exit, samples: seq<Sample>, clock: real,
                                criteria: Criteria, now: real)
    requires Accepted(plan) && ProbeResult(plan, env, existing, exit, samples, clock)
    requires plan.limit >= 0.0 && forall n :: env.begin(n) == 0.0
    ensures Evaluation(plan, criteria, samples, now).consecutive == NotMet <==> exit.TelemetryStop?
    ensures Evaluation(plan, criteria, samples, now).idle == NotMet <==> exit.StateStop?
  {
    var m := CountedRows(plan, env, existing, samples);
    assert samples[..m] == samples;
    Verdicts(plan, criteria, samples, now, samples);
    if exit.TelemetryStop? {
      TelemetryStopFails(plan, samples);
      ProbeRows(plan, env, existing, exit, samples, clock);
      NoStateIssues(samples);
    } else if exit.StateStop? {
      StateStopFails(plan, env, existing, exit, samples, clock);
    } else {
      CleanRunSatisfiesEvaluator(plan, env, existing, exit, samples, clock, criteria, now);
    }
  }

  lemma TelemetryStopFails(plan: Plan, samples: seq<Sample>)
    requires plan.limit >= 0.0 && OverLimit(plan, samples)
    ensures Longest(Runs(SampleOks(samples))) as real > plan.limit
  {
    LongestIsWorstTrailing(SampleOks(samples), 0);
  }

  lemma StateStopFails(plan: Plan, env: Env, existing: nat, exit: Exit, samples: seq<Sample>, clock: real)
    requires Accepted(plan) && ProbeResult(plan, env, existing, exit, samples, clock) && exit.StateStop?
    requires plan.limit >= 0.0
    ensures StateIssues(samples) != {} && GoodTimes(samples) != []
    ensures Longest(Runs(SampleOks(samples))) as real <= plan.limit
  {
    var n := |samples| - 1;
    NoStateIssues(samples);
    GoingOnNeverMore(plan, samples, n);
    assert SampleOks(samples) == SampleOks(samples[..n]) + [true];
    RunsStep(SampleOks(samples[..n]), true);
  }

  // --- coverage -----------------------------------------------------------------------------

  lemma {:induction false} StartsKeepPace(plan: Plan, env: Env, existing: nat, samples: seq<Sample>, i: nat)
    requires Accepted(plan) && KeepsPace(plan) && Timely(plan, env) && Prompt(env)
             && Logged(plan, env, existing, samples) && i < |samples|
    ensures samples[i].timestamp <= samples[0].timestamp + Times(i, Pace(plan))
  {
    if i > 0 {
      StartsKeepPace(plan, env, existing, samples, i - 1);
      var m := GapWithin(plan, env, existing, samples, i - 1);
    }
  }

  /**
   The number of cycles of a whole window, from both sides: all but one of them take an interval each
   inside the window, and at the slowest pace all of them cover it.
   */
  lemma CyclesOfWindow(plan: Plan, env: Env, existing: nat, samples: seq<Sample>, clock: real)
    requires Accepted(plan) && KeepsPace(plan) && Timely(plan, env) && Prompt(env)
    requires ProbeResult(plan, env, existing, WindowElapsed, samples, clock)
    requires samples != [] && samples[0].timestamp <= plan.start
    ensures Times(|samples| - 1, plan.interval) < plan.end - plan.start <= Times(|samples|, Pace(plan))
  {
    var last := |samples| - 1;
    StartsKeepPace(plan, env, existing, samples, last);
    assert Reports(plan, env, existing, samples, last);
    var m := TurnWithin(plan, env, last, samples[last].timestamp);
    assert env.finish(last) == 0.0 && env.wake(last) == 0.0;
    assert clock <= plan.start + Times(|samples|, Pace(plan));
  }

  /**
   The cadence of one run: consecutive cycle starts are at least one interval apart, and at most
   max(interval, worst_cycle) and the probe's own delays, where the former stays below three intervals.
   */
  lemma Cadence(plan: Plan, env: Env, existing: nat, samples: seq<Sample>, i: nat)
    requires Accepted(plan) && KeepsPace(plan) && Timely(plan, env)
    requires Logged(plan, env, existing, samples) && i + 1 < |samples|
    ensures plan.interval <= samples[i + 1].timestamp - samples[i].timestamp <= Pace(plan) + Slack(env, i)
    ensures Pace(plan) < 3.0 * plan.interval
  {
    var m := GapWithin(plan, env, existing, samples, i);
  }

  /** A whole window probed from its start, by cycles that fit their interval, is fully covered. */
  lemma WholeWindowIsCovered(plan: Plan, env: Env, existing: nat, samples: seq<Sample>, clock: real,
                             criteria: Criteria, now: real)
    requires Accepted(plan) && KeepsPace(plan) && Timely(plan, env) && Prompt(env) && WorstCycle(plan) <= plan.interval
    requires ProbeResult(plan, env, existing, WindowElapsed, samples, clock)
    requires samples != [] && samples[0].timestamp <= plan.start
    requires now >= plan.end
    ensures Evaluation(plan, criteria, samples, now).covered == Met
  {
    var m := CountedRows(plan, env, existing, samples);
    assert samples[..m] == samples;
    Verdicts(plan, criteria, samples, now, samples);
    CyclesAtInterval(plan, env, existing, samples, clock);
    FullCount(plan, |samples|, now);
  }

  lemma CyclesAtInterval(plan: Plan, env: Env, existing: nat, samples: seq<Sample>, clock: real)
    requires Accepted(plan) && KeepsPace(plan) && Timely(plan, env) && Prompt(env) && WorstCycle(plan) <= plan.interval
    requires ProbeResult(plan, env, existing, WindowElapsed, samples, clock)
    requires samples != [] && samples[0].timestamp <= plan.start
    ensures plan.end - plan.start <= Times(|samples|, plan.interval)
  {
    CyclesOfWindow(plan, env, existing, samples, clock);
    assert Pace(plan) == plan.interval;
  }

  lemma FullCount(plan: Plan, n: nat, now: real)
    requires plan.interval > 0.0 && n >= 1 && 0.0 < plan.end - plan.start <= Times(n, plan.interval) && now >= plan.end
    ensures Covered(plan, n, now) == Met
  {
    TimesIsProduct(n, plan.interval);
    Expectation(plan, n);
    CoverageOf(n, Expected(plan, plan.end - plan.start));
  }

  lemma CoverageOf(n: nat, expected: nat)
    requires 1 <= expected <= n
    ensures n as real / expected as real >= 0.95
  {
    var e, q := expected as real, n as real / expected as real;
    assert q * e == n as real;
    assert q < 1.0 ==> q * e < 1.0 * e;
  }

  lemma Expectation(plan: Plan, n: nat)
    requires plan.interval > 0.0 && n >= 1 && 0.0 < plan.end - plan.start <= n as real * plan.interval
    ensures 1 <= Expected(plan, plan.end - plan.start) <= n
  {
    var width := plan.end - plan.start;
    var q := width / plan.interval;
    assert q * plan.interval == width;
    assert q > n as real ==> q * plan.interval > n as real * plan.interval;
  }
}
