/**
 The run and gap accounting of the observation tools: the streaming counters of
 `scripts/phase7b-observe.py` and the list of runs of `scripts/pilot-observation-evaluate.py`.
 */
module FailureRuns {

  /** The half-open range of positions of a run. */
  datatype Span = Span(lo: nat, hi: nat)

  /** The number of failures at the end. */
  function Trailing(oks: seq<bool>): (t: nat)
    ensures t <= |oks|
    decreases |oks|
  {
    if oks == [] || oks[|oks| - 1] then 0 else 1 + Trailing(oks[..|oks| - 1])
  }

  /** The runs of failures, in order. */
  function Runs(oks: seq<bool>): seq<Span>
    decreases |oks|
  {
    var n := |oks|;
    if n == 0 then []
    else if oks[n - 1] then Runs(oks[..n - 1])
    else Runs(oks[..n - Trailing(oks)]) + [Span(n - Trailing(oks), n)]
  }

  // --- the runs are the maximal failing ranges ----------------------------------------------

  /** A range of failures that cannot be extended on either side. */
  ghost predicate IsRun(oks: seq<bool>, s: Span) {
    && s.lo < s.hi <= |oks| && (forall i :: s.lo <= i < s.hi ==> !oks[i])
    && (s.lo == 0 || oks[s.lo - 1]) && (s.hi == |oks| || oks[s.hi])
  }

  lemma {:induction false} TrailingShape(oks: seq<bool>)
    ensures var k := |oks| - Trailing(oks);
            (forall i :: k <= i < |oks| ==> !oks[i]) && (k == 0 || oks[k - 1])
    decreases |oks|
  {
    if oks != [] && !oks[|oks| - 1] { TrailingShape(oks[..|oks| - 1]); }
  }

  /** A success at the end belongs to no run. */
  lemma DropSuccess(oks: seq<bool>, s: Span)
    requires oks != [] && oks[|oks| - 1]
    ensures IsRun(oks, s) <==> IsRun(oks[..|oks| - 1], s)
  {
  }

  /** The trailing failures are a run of their own. */
  lemma DropTrailing(oks: seq<bool>, s: Span)
    requires oks != [] && !oks[|oks| - 1]
    ensures var k := |oks| - Trailing(oks);
            IsRun(oks, s) <==> IsRun(oks[..k], s) || s == Span(k, |oks|)
  {
    var k := |oks| - Trailing(oks);
    TrailingShape(oks);
    if s.hi <= k { BeforeTrailing(oks, s, k); } else { InTrailing(oks, s, k); }
  }

  lemma BeforeTrailing(oks: seq<bool>, s: Span, k: nat)
    requires s.hi <= k < |oks| && (k == 0 || oks[k - 1])
    ensures IsRun(oks, s) <==> IsRun(oks[..k], s)
  {
  }

  lemma InTrailing(oks: seq<bool>, s: Span, k: nat)
    requires k < s.hi && k < |oks| && (k == 0 || oks[k - 1]) && forall i :: k <= i < |oks| ==> !oks[i]
    ensures IsRun(oks, s) <==> s == Span(k, |oks|)
  {
  }

  /** The listed runs are exactly the maximal ranges of failures. */
  lemma {:induction false} RunsExact(oks: seq<bool>, s: Span)
    ensures s in Runs(oks) <==> IsRun(oks, s)
    ensures s in Runs(oks) ==> s.hi <= |oks|
    decreases |oks|
  {
    var n := |oks|;
    if n == 0 {
    } else if oks[n - 1] {
      RunsExact(oks[..n - 1], s);
      DropSuccess(oks, s);
    } else {
      RunsExact(oks[..n - Trailing(oks)], s);
      DropTrailing(oks, s);
    }
  }

  ghost predicate Separate(runs: seq<Span>) {
    forall i, j :: 0 <= i < j < |runs| ==> runs[i].hi < runs[j].lo
  }

  /** The runs are listed once each, from left to right. */
  lemma {:induction false} RunsSeparate(oks: seq<bool>)
    ensures Separate(Runs(oks))
    decreases |oks|
  {
    var n, t := |oks|, Trailing(oks);
    if n == 0 {
    } else if oks[n - 1] {
      RunsSeparate(oks[..n - 1]);
    } else {
      var base := oks[..n - t];
      RunsSeparate(base);
      TrailingShape(oks);
      forall i | 0 <= i < |Runs(base)| ensures Runs(base)[i].hi < n - t {
        RunsExact(base, Runs(base)[i]);
        assert Runs(base)[i] in Runs(base);
      }
    }
  }

  // --- totals -------------------------------------------------------------------------------

  function Failed(oks: seq<bool>): nat
    decreases |oks|
  {
    if oks == [] then 0 else Failed(oks[..|oks| - 1]) + (if oks[|oks| - 1] then 0 else 1)
  }

  function Sum(runs: seq<Span>): int
    decreases |runs|
  {
    if runs == [] then 0 else Sum(runs[..|runs| - 1]) + (runs[|runs| - 1].hi - runs[|runs| - 1].lo)
  }

  function Longest(runs: seq<Span>): int
    decreases |runs|
  {
    if runs == [] then 0
    else
      var rest, last := Longest(runs[..|runs| - 1]), runs[|runs| - 1].hi - runs[|runs| - 1].lo;
      if rest <= last then last else rest
  }

  lemma {:induction false} FailedTrailing(oks: seq<bool>)
    ensures Failed(oks) == Failed(oks[..|oks| - Trailing(oks)]) + Trailing(oks)
    decreases |oks|
  {
    var n := |oks|;
    if n == 0 || oks[n - 1] {
      assert oks[..n] == oks;
    } else {
      FailedTrailing(oks[..n - 1]);
      assert oks[..n - 1][..n - Trailing(oks)] == oks[..n - Trailing(oks)];
    }
  }

  lemma Append(runs: seq<Span>, s: Span)
    ensures Sum(runs + [s]) == Sum(runs) + s.hi - s.lo
    ensures Longest(runs + [s]) == if Longest(runs) <= s.hi - s.lo then s.hi - s.lo else Longest(runs)
  {
    assert (runs + [s])[..|runs|] == runs;
  }

  /** The lengths of the runs add up to the failed cycles. */
  lemma {:induction false} RunsSumToFailed(oks: seq<bool>)
    ensures Sum(Runs(oks)) == Failed(oks)
    decreases |oks|
  {
    var n, t := |oks|, Trailing(oks);
    if n > 0 {
      if oks[n - 1] {
        RunsSumToFailed(oks[..n - 1]);
      } else {
        RunsSumToFailed(oks[..n - t]);
        FailedTrailing(oks);
        Append(Runs(oks[..n - t]), Span(n - t, n));
      }
    }
  }

  // --- the streaming counters ---------------------------------------------------------------

  /** One more cycle, as the counters see it. */
  lemma RunsStep(oks: seq<bool>, ok: bool)
    ensures Trailing(oks + [ok]) == if ok then 0 else Trailing(oks) + 1
    ensures var before, after := Runs(oks), Runs(oks + [ok]);
            if ok then after == before
            else && |after| == |before| + (if Trailing(oks) == 0 then 1 else 0)
                 && Longest(after) == (if Longest(before) <= Trailing(oks) + 1 then Trailing(oks) + 1
                                       else Longest(before))
  {
    var more, n, t := oks + [ok], |oks|, Trailing(oks);
    assert more[..n] == oks;
    if !ok {
      var base := oks[..n - t];
      assert more[..n + 1 - Trailing(more)] == base;
      Append(Runs(base), Span(n - t, n + 1));
      if t > 0 {
        Append(Runs(base), Span(n - t, n));
      } else {
        assert base == oks;
      }
    }
  }

  /** The streaming counters of `evaluate` are the number and the greatest length of the runs. */
  method CountRuns(oks: seq<bool>) returns (runs: nat, longest: int)
    ensures runs == |Runs(oks)| && longest == Longest(Runs(oks))
  {
    var current := 0;
    runs, longest := 0, 0;
    for n := 0 to |oks|
      invariant current == Trailing(oks[..n]) && runs == |Runs(oks[..n])| && longest == Longest(Runs(oks[..n]))
    {
      assert oks[..n + 1] == oks[..n] + [oks[n]];
      RunsStep(oks[..n], oks[n]);
      if oks[n] {
        current := 0;
      } else {
        if current == 0 { runs := runs + 1; }
        current := current + 1;
        longest := if longest <= current then current else longest;
      }
    }
    assert oks[..|oks|] == oks;
  }

  /** There never are more than `bound` failures at the end. */
  ghost predicate NeverMore(oks: seq<bool>, bound: int) {
    forall i :: 0 <= i <= |oks| ==> Trailing(oks[..i]) <= bound
  }

  lemma NeverMoreStep(oks: seq<bool>, ok: bool, bound: int)
    ensures NeverMore(oks + [ok], bound) <==> NeverMore(oks, bound) && Trailing(oks + [ok]) <= bound
  {
    var more := oks + [ok];
    assert more[..|more|] == more;
    assert forall i :: 0 <= i <= |oks| ==> more[..i] == oks[..i];
  }

  /** No run is longer than `bound` exactly when there never are more than `bound` failures at the end. */
  lemma {:induction false} LongestIsWorstTrailing(oks: seq<bool>, bound: nat)
    ensures Longest(Runs(oks)) <= bound <==> NeverMore(oks, bound)
    ensures Trailing(oks) <= Longest(Runs(oks))
    decreases |oks|
  {
    if oks != [] {
      var before, ok := oks[..|oks| - 1], oks[|oks| - 1];
      LongestIsWorstTrailing(before, bound);
      assert oks == before + [ok];
      RunsStep(before, ok);
      NeverMoreStep(before, ok, bound);
    }
  }

  // --- the list of runs ---------------------------------------------------------------------

  datatype Run = Run(first: real, last: real, length: int)

  /** The records name the times of the first and last failure of each run and its length. */
  ghost predicate Lists(records: seq<Run>, times: seq<real>, runs: seq<Span>) {
    && |records| == |runs|
    && forall k :: 0 <= k < |runs| ==>
         && runs[k].lo < runs[k].hi <= |times|
         && records[k] == Run(times[runs[k].lo], times[runs[k].hi - 1], runs[k].hi - runs[k].lo)
  }

  /** The failures collected so far: those at the end of the first `n` rows. */
  ghost predicate Collected(current: seq<real>, oks: seq<bool>, times: seq<real>, n: nat)
    requires n <= |oks| == |times|
  {
    && |current| == Trailing(oks[..n])
    && forall i :: 0 <= i < |current| ==> current[i] == times[n - |current| + i]
  }

  lemma CollectedStep(current: seq<real>, oks: seq<bool>, times: seq<real>, n: nat)
    requires n < |oks| == |times| && Collected(current, oks, times, n)
    ensures Collected(if oks[n] then [] else current + [times[n]], oks, times, n + 1)
  {
    assert oks[..n + 1][..n] == oks[..n] && oks[..n + 1][n] == oks[n];
    if !oks[n] {
      var more, n' := current + [times[n]], n + 1;
      assert |more| == Trailing(oks[..n']);
      assert forall i :: 0 <= i < |more| ==> more[i] == if i < |current| then current[i] else times[n];
    }
  }

  /** Closing the collected failures gives the runs of the first `n` rows. */
  lemma CloseRun(runs: seq<Run>, current: seq<real>, oks: seq<bool>, times: seq<real>, n: nat)
    requires n <= |oks| == |times| && Collected(current, oks, times, n)
             && Lists(runs, times, Runs(oks[..n - |current|]))
    ensures if current == [] then Lists(runs, times, Runs(oks[..n]))
            else Lists(runs + [Run(current[0], current[|current| - 1], |current|)], times, Runs(oks[..n]))
  {
    var prefix := oks[..n];
    assert prefix[..n - |current|] == oks[..n - |current|];
    if current != [] {
      assert Runs(prefix) == Runs(prefix[..n - |current|]) + [Span(n - |current|, n)];
    }
  }

  /** `failure_runs` over rows given by their outcomes and times. */
  method ListRuns(oks: seq<bool>, times: seq<real>) returns (runs: seq<Run>)
    requires |oks| == |times|
    ensures Lists(runs, times, Runs(oks))
  {
    var current: seq<real> := [];
    runs := [];
    for n := 0 to |oks|
      invariant Collected(current, oks, times, n)
      invariant Lists(runs, times, Runs(oks[..n - |current|]))
    {
      CollectedStep(current, oks, times, n);
      CloseRun(runs, current, oks, times, n);
      SkipSuccess(oks, n);
      if !oks[n] {
        current := current + [times[n]];
      } else if current != [] {
        runs := runs + [Run(current[0], current[|current| - 1], |current|)];
        current := [];
      }
    }
    CloseRun(runs, current, oks, times, |oks|);
    assert oks[..|oks|] == oks;
    if current != [] {
      runs := runs + [Run(current[0], current[|current| - 1], |current|)];
    }
  }

  lemma SkipSuccess(oks: seq<bool>, n: nat)
    requires n < |oks|
    ensures oks[n] ==> Runs(oks[..n + 1]) == Runs(oks[..n])
  {
    assert oks[..n + 1] == oks[..n] + [oks[n]];
    RunsStep(oks[..n], oks[n]);
  }

  // --- the success gap ----------------------------------------------------------------------

  ghost predicate Rising(times: seq<real>) {
    forall i, j :: 0 <= i <= j < |times| ==> times[i] <= times[j]
  }

  /** No success falls strictly inside the interval. */
  ghost predicate SuccessFree(good: seq<real>, a: real, b: real) {
    forall i :: 0 <= i < |good| ==> good[i] <= a || b <= good[i]
  }

  /** `gap` is the length of the longest success-free interval between `start` and `stop`. */
  ghost predicate IsLongestGap(gap: real, good: seq<real>, start: real, stop: real) {
    && (exists a, b :: start <= a <= b <= stop && SuccessFree(good, a, b) && gap == b - a)
    && (forall a, b :: start <= a <= b <= stop && SuccessFree(good, a, b) ==> b - a <= gap)
  }

  /** The points between which `evaluate` measures. */
  function Points(good: seq<real>, start: real, stop: real): seq<real> {
    [start] + good + [stop]
  }

  function Step(points: seq<real>, k: nat): real
    requires k + 1 < |points|
  {
    points[k + 1] - points[k]
  }

  /** The greatest difference of the first `n` pairs of successive points. */
  ghost predicate IsGreatestStep(gap: real, points: seq<real>, n: nat)
    requires n < |points|
  {
    (exists k :: 0 <= k < n && gap == Step(points, k)) && (forall k :: 0 <= k < n ==> Step(points, k) <= gap)
  }

  /** The greatest of the first `n` steps. */
  function GreatestStep(points: seq<real>, n: nat): real
    requires 1 <= n < |points|
  {
    if n == 1 || Step(points, n - 1) > GreatestStep(points, n - 1) then Step(points, n - 1)
        else GreatestStep(points, n - 1)
  }

  lemma {:induction false} GreatestStepIsGreatest(points: seq<real>, n: nat)
    requires 1 <= n < |points|
    ensures IsGreatestStep(GreatestStep(points, n), points, n)
  {
    if n > 1 { GreatestStepIsGreatest(points, n - 1); }
  }

  /** `max_success_gap` as specified. */
  function SuccessGap(good: seq<real>, start: real, stop: real): real {
    GreatestStep(Points(good, start, stop), |good| + 1)
  }

  /** `max_success_gap`. */
  method MaxSuccessGap(good: seq<real>, start: real, stop: real) returns (gap: real)
    ensures gap == SuccessGap(good, start, stop)
  {
    var points := Points(good, start, stop);
    gap := Step(points, 0);
    for n := 1 to |points| - 1
      invariant gap == GreatestStep(points, n)
    {
      if Step(points, n) > gap { gap := Step(points, n); }
    }
  }

  /** With every success between `start` and `stop`, `max_success_gap` is the longest success-free interval. */
  lemma SuccessGapIsLongestGap(good: seq<real>, start: real, stop: real)
    requires start <= stop && Rising(good) && forall i :: 0 <= i < |good| ==> start <= good[i] <= stop
    ensures IsLongestGap(SuccessGap(good, start, stop), good, start, stop)
  {
    PointsRise(good, start, stop);
    var points, gap := Points(good, start, stop), SuccessGap(good, start, stop);
    GreatestStepIsGreatest(points, |good| + 1);
    var k: nat :| k < |good| + 1 && gap == Step(points, k);
    PointsEnclose(good, start, stop, k);
    NoneLonger(gap, good, start, stop);
  }

  lemma PointsRise(good: seq<real>, start: real, stop: real)
    requires start <= stop && Rising(good) && forall i :: 0 <= i < |good| ==> start <= good[i] <= stop
    ensures var points := Points(good, start, stop);
            Rising(points) && forall k :: 0 <= k < |points| ==> start <= points[k] <= stop
  {
    var points := Points(good, start, stop);
    assert forall k :: 0 <= k < |points| ==>
           points[k] == if k == 0 then start else if k <= |good| then good[k - 1] else stop;
  }

  lemma NoneLonger(gap: real, good: seq<real>, start: real, stop: real)
    requires Rising(Points(good, start, stop)) && IsGreatestStep(gap, Points(good, start, stop), |good| + 1)
    ensures forall a, b :: start <= a <= b <= stop && SuccessFree(good, a, b) ==> b - a <= gap
  {
    forall a, b | start <= a <= b <= stop && SuccessFree(good, a, b) ensures b - a <= gap {
      var i := Enclosing(good, start, stop, a, b);
    }
  }

  lemma PointsEnclose(good: seq<real>, start: real, stop: real, k: nat)
    requires Rising(Points(good, start, stop)) && k <= |good|
    ensures SuccessFree(good, Points(good, start, stop)[k], Points(good, start, stop)[k + 1])
  {
    var points := Points(good, start, stop);
    assert forall i :: 0 <= i < |good| ==> good[i] == points[i + 1];
  }

  /** A success-free interval lies between two successive points. */
  lemma Enclosing(good: seq<real>, start: real, stop: real, a: real, b: real) returns (i: nat)
    requires Rising(Points(good, start, stop)) && start <= a <= b <= stop && SuccessFree(good, a, b)
    ensures i <= |good| && b - a <= Step(Points(good, start, stop), i)
  {
    var points := Points(good, start, stop);
    i := 0;
    while i < |good| && good[i] <= a
      invariant i <= |good| && points[i] <= a
    {
      i := i + 1;
      assert points[i] == good[i - 1];
    }
    assert i < |good| ==> points[i + 1] == good[i];
  }
}
