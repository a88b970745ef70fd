/**
 What the verdicts of the evaluator say about the rows of the log (`scripts/phase7b-observe.py`,
 `evaluate`): each one by the rows inside the window themselves, without the evaluator's counters.
 */
module ObservationVerdicts {
  import opened Options
  import opened FailureRuns
  import opened ObservationProbe
  import opened ObservationEvaluation

  /** The numbers of the rows inside the window. */
  function Rows(plan: Plan, samples: seq<Sample>): set<nat> {
    set i | 0 <= i < |samples| && plan.start <= samples[i].timestamp < plan.end
  }

  /** Those with a valid snapshot. */
  function GoodRows(plan: Plan, samples: seq<Sample>): set<nat> {
    set i | 0 <= i < |samples| && plan.start <= samples[i].timestamp < plan.end && samples[i].ok
  }

  // --- counting -----------------------------------------------------------------------------

  lemma {:induction false} InsideCounts(plan: Plan, samples: seq<Sample>)
    ensures |Inside(plan, samples)| == |Rows(plan, samples)|
    ensures |GoodTimes(Inside(plan, samples))| == |GoodRows(plan, samples)|
    decreases |samples|
  {
    if samples != [] {
      var n := |samples| - 1;
      var before, last := samples[..n], samples[n];
      InsideCounts(plan, before);
      RowsStep(plan, samples);
      if plan.start <= last.timestamp < plan.end {
        GoodTimesStep(Inside(plan, before), last);
      } else {
        assert Inside(plan, samples) == Inside(plan, before);
      }
    }
  }

  lemma RowsStep(plan: Plan, samples: seq<Sample>)
    requires samples != []
    ensures var before, last := samples[..|samples| - 1], samples[|samples| - 1];
            var counts := plan.start <= last.timestamp < plan.end;
            && |Rows(plan, samples)| == |Rows(plan, before)| + (if counts then 1 else 0)
            && |GoodRows(plan, samples)| == |GoodRows(plan, before)| + (if counts && last.ok then 1 else 0)
  {
    var n := |samples| - 1;
    var before, last := samples[..n], samples[n];
    var counts := plan.start <= last.timestamp < plan.end;
    assert Rows(plan, samples) == Rows(plan, before) + (if counts then {n} else {});
    assert GoodRows(plan, samples) == GoodRows(plan, before) + (if counts && last.ok then {n} else {});
  }

  lemma GoodTimesStep(samples: seq<Sample>, last: Sample)
    ensures GoodTimes(samples + [last]) == GoodTimes(samples) + (if last.ok then [last.timestamp] else [])
  {
    assert (samples + [last])[..|samples|] == samples;
  }

  lemma {:induction false} InsertKeepsCount(sample: Sample, sorted: seq<Sample>)
    ensures |InsertByTime(sample, sorted)| == |sorted| + 1
    ensures |GoodTimes(InsertByTime(sample, sorted))| == |GoodTimes(sorted)| + (if sample.ok then 1 else 0)
    decreases |sorted|
  {
    if sorted == [] || sorted[|sorted| - 1].timestamp <= sample.timestamp {
      GoodTimesStep(sorted, sample);
    } else {
      var rest, last := sorted[..|sorted| - 1], sorted[|sorted| - 1];
      InsertKeepsCount(sample, rest);
      GoodTimesStep(InsertByTime(sample, rest), last);
    }
  }

  lemma {:induction false} SortKeepsCount(samples: seq<Sample>)
    ensures |SortByTime(samples)| == |samples|
    ensures |GoodTimes(SortByTime(samples))| == |GoodTimes(samples)|
    decreases |samples|
  {
    if samples != [] {
      var rest, last := samples[..|samples| - 1], samples[|samples| - 1];
      SortKeepsCount(rest);
      InsertKeepsCount(last, SortByTime(rest));
    }
  }

  lemma {:induction false} GoodTimesShape(samples: seq<Sample>, t: real)
    ensures t in GoodTimes(samples) <==> exists s :: s in samples && s.ok && s.timestamp == t
    decreases |samples|
  {
    if samples != [] {
      var rest, last := samples[..|samples| - 1], samples[|samples| - 1];
      GoodTimesShape(rest, t);
      assert samples == rest + [last];
    }
  }

  /** The counted rows are those inside the window. */
  lemma CountedShape(plan: Plan, samples: seq<Sample>)
    ensures forall s :: s in Counted(plan, samples) <==> s in samples && plan.start <= s.timestamp < plan.end
    ensures |Counted(plan, samples)| == |Rows(plan, samples)|
    ensures |GoodTimes(Counted(plan, samples))| == |GoodRows(plan, samples)|
  {
    var inside := Inside(plan, samples);
    InsideShape(plan, samples);
    InsideCounts(plan, samples);
    SortInOrder(inside);
    SortKeepsCount(inside);
    assert forall s :: s in Counted(plan, samples) <==> s in multiset(Counted(plan, samples));
    assert forall s :: s in inside <==> s in multiset(inside);
  }

  // --- the gap ------------------------------------------------------------------------------

  /** No row inside the window with a valid snapshot falls strictly between the two times. */
  ghost predicate NoneGood(plan: Plan, samples: seq<Sample>, a: real, b: real) {
    forall i :: i in GoodRows(plan, samples) ==> samples[i].timestamp <= a || b <= samples[i].timestamp
  }

  lemma NoneGoodIsSuccessFree(plan: Plan, samples: seq<Sample>, a: real, b: real)
    ensures NoneGood(plan, samples, a, b) <==> SuccessFree(GoodTimes(Counted(plan, samples)), a, b)
  {
    var cycles := Counted(plan, samples);
    var good := GoodTimes(cycles);
    CountedShape(plan, samples);
    forall k | NoneGood(plan, samples, a, b) && 0 <= k < |good| ensures good[k] <= a || b <= good[k] {
      GoodTimesShape(cycles, good[k]);
      assert good[k] in good;
      var s :| s in cycles && s.ok && s.timestamp == good[k];
      var i :| 0 <= i < |samples| && samples[i] == s;
      assert i in GoodRows(plan, samples);
    }
    forall i | SuccessFree(good, a, b) && i in GoodRows(plan, samples)
      ensures samples[i].timestamp <= a || b <= samples[i].timestamp
    {
      assert samples[i] in cycles;
      GoodTimesShape(cycles, samples[i].timestamp);
      var k :| 0 <= k < |good| && good[k] == samples[i].timestamp;
    }
  }

  /**
   The gap criterion, exactly, with a row inside the window and no row in the future: it is met if and
   only if no time without a valid snapshot, from the start of the window to now or its end, is longer
   than the limit, and failed if and only if one is. Without a row it is not measured.
   */
  lemma GapVerdictTells(plan: Plan, criteria: Criteria, samples: seq<Sample>, now: real)
    requires plan.interval > 0.0 && plan.start < plan.end && plan.start <= now
    requires forall s :: s in samples ==> s.timestamp <= now
    ensures var stop := if now <= plan.end then now else plan.end;
            var tooLong := exists a, b ::
                plan.start <= a <= b <= stop && NoneGood(plan, samples, a, b) && b - a > criteria.maxGap;
            Evaluation(plan, criteria, samples, now).gapVerdict
            == if Rows(plan, samples) == {} then NotMeasured else if tooLong then NotMet else Met
  {
    var good, stop := GoodTimes(Counted(plan, samples)), MinOf(now, plan.end);
    ReportedGap(plan, criteria, samples, now);
    CountedShape(plan, samples);
    var gap := Evaluation(plan, criteria, samples, now).gap;
    forall a, b ensures NoneGood(plan, samples, a, b) <==> SuccessFree(good, a, b) {
      NoneGoodIsSuccessFree(plan, samples, a, b);
    }
    if gap > criteria.maxGap {
      var a, b :| plan.start <= a <= b <= stop && SuccessFree(good, a, b) && gap == b - a;
      assert NoneGood(plan, samples, a, b);
    }
  }

  // --- the other criteria -------------------------------------------------------------------

  /** At least this share of the rows has a valid snapshot. */
  predicate EnoughGood(rows: nat, good: nat, share: real) {
    good as real >= share * rows as real
  }

  /**
   The availability criterion, exactly: with a row inside the window it is met if and only if the share of
   rows with a valid snapshot is at least the required one.
   */
  lemma AvailabilityVerdictTells(plan: Plan, criteria: Criteria, samples: seq<Sample>, now: real)
    requires plan.interval > 0.0
    ensures var rows, good := |Rows(plan, samples)|, |GoodRows(plan, samples)|;
            var report := Evaluation(plan, criteria, samples, now);
            && report.cycles == rows && report.okCycles == good
            && report.available
               == if rows == 0 then NotMeasured
                  else if EnoughGood(rows, good, criteria.minAvailability) then Met else NotMet
  {
    CountedShape(plan, samples);
    AvailableField(plan, criteria, samples, now);
    AvailableShare(|Rows(plan, samples)|, |GoodRows(plan, samples)|, criteria.minAvailability);
  }

  lemma AvailableField(plan: Plan, criteria: Criteria, samples: seq<Sample>, now: real)
    requires plan.interval > 0.0
    ensures var cycles, report := Counted(plan, samples), Evaluation(plan, criteria, samples, now);
            && report.cycles == |cycles| && report.okCycles == |GoodTimes(cycles)|
            && report.available == Available(|cycles|, |GoodTimes(cycles)|, criteria.minAvailability)
  {
  }

  lemma AvailableShare(rows: nat, good: nat, share: real)
    ensures Available(rows, good, share)
            == if rows == 0 then NotMeasured else if EnoughGood(rows, good, share) then Met else NotMet
  {
    if rows > 0 { ShareAtLeast(good, rows, share); }
  }

  lemma ShareAtLeast(part: nat, whole: nat, share: real)
    requires whole > 0
    ensures part as real / whole as real >= share <==> part as real >= share * whole as real
  {
    var w, q := whole as real, part as real / whole as real;
    assert q * w == part as real;
    assert q >= share ==> q * w >= share * w;
    assert q < share ==> q * w < share * w;
  }

  /** Rows `i` to `j` of the counted ones are all without a valid snapshot. */
  ghost predicate AllFail(cycles: seq<Sample>, i: nat, j: nat) {
    i <= j <= |cycles| && forall k :: i <= k < j ==> !cycles[k].ok
  }

  lemma {:induction false} LongestIsARun(runs: seq<Span>)
    requires forall s :: s in runs ==> s.lo < s.hi
    ensures runs != [] ==> exists s :: s in runs && s.hi - s.lo == Longest(runs)
    ensures forall s :: s in runs ==> s.hi - s.lo <= Longest(runs)
    ensures Longest(runs) >= 0
    decreases |runs|
  {
    if runs != [] {
      var rest, last := runs[..|runs| - 1], runs[|runs| - 1];
      LongestIsARun(rest);
      assert runs == rest + [last];
      assert last in runs;
    }
  }

  lemma {:induction false} InsideSomeRun(oks: seq<bool>, i: nat, j: nat)
    requires i <= j <= |oks| && forall k :: i <= k < j ==> !oks[k]
    ensures j - i <= Longest(Runs(oks))
  {
    var bound := Longest(Runs(oks));
    LongestIsWorstTrailing(oks, 0);
    LongestIsWorstTrailing(oks, bound);
    TrailingCovers(oks[..j], i);
    assert Trailing(oks[..j]) <= bound;
  }

  lemma {:induction false} TrailingCovers(oks: seq<bool>, i: nat)
    requires i <= |oks| && forall k :: i <= k < |oks| ==> !oks[k]
    ensures |oks| - i <= Trailing(oks)
    decreases |oks|
  {
    if i < |oks| { TrailingCovers(oks[..|oks| - 1], i); }
  }

  /** The longest run, by the rows: the greatest number of successive counted rows without a valid snapshot. */
  lemma LongestRunTells(cycles: seq<Sample>)
    ensures var longest := Longest(Runs(SampleOks(cycles)));
            && (exists i: nat, j: nat :: AllFail(cycles, i, j) && j - i == longest)
            && (forall i: nat, j: nat :: AllFail(cycles, i, j) ==> j - i <= longest)
  {
    var oks := SampleOks(cycles);
    var runs := Runs(oks);
    forall s | s in runs ensures s.lo < s.hi <= |oks| && AllFail(cycles, s.lo, s.hi) { RunsExact(oks, s); }
    LongestIsARun(runs);
    if runs == [] {
      assert AllFail(cycles, 0, 0);
    } else {
      var s :| s in runs && s.hi - s.lo == Longest(runs);
      assert AllFail(cycles, s.lo, s.hi);
    }
    forall i: nat, j: nat | AllFail(cycles, i, j) ensures j - i <= Longest(runs) { InsideSomeRun(oks, i, j); }
  }

  /** The criterion on consecutive failures, exactly, by the counted rows in their order. */
  lemma ConsecutiveVerdictTells(plan: Plan, criteria: Criteria, samples: seq<Sample>, now: real)
    requires plan.interval > 0.0
    ensures var cycles := Counted(plan, samples);
            var tooMany := exists i: nat, j: nat :: AllFail(cycles, i, j) && (j - i) as real > plan.limit;
            Evaluation(plan, criteria, samples, now).consecutive
            == if Rows(plan, samples) == {} then NotMeasured else if tooMany then NotMet else Met
  {
    CountedShape(plan, samples);
    LongestRunTells(Counted(plan, samples));
  }

  /** The reported runs are counted right: they are the maximal ranges of counted rows without a valid snapshot. */
  lemma RunsReported(plan: Plan, criteria: Criteria, samples: seq<Sample>, now: real) returns (runs: seq<Span>)
    requires plan.interval > 0.0
    ensures Evaluation(plan, criteria, samples, now).runs == |runs| && Separate(runs)
    ensures forall s :: s in runs <==> IsRun(SampleOks(Counted(plan, samples)), s)
  {
    var oks := SampleOks(Counted(plan, samples));
    runs := Runs(oks);
    RunsSeparate(oks);
    forall s ensures s in runs <==> IsRun(oks, s) { RunsExact(oks, s); }
  }

  /** The reported state issues are those of the rows with a valid snapshot. */
  lemma IssuesReported(plan: Plan, criteria: Criteria, samples: seq<Sample>, now: real, x: string)
    requires plan.interval > 0.0
    ensures x in Evaluation(plan, criteria, samples, now).stateIssues
            <==> exists i :: i in GoodRows(plan, samples) && x in samples[i].issues
  {
    var cycles := Counted(plan, samples);
    CountedShape(plan, samples);
    if x in StateIssues(cycles) {
      var k :| 0 <= k < |cycles| && cycles[k].ok && x in cycles[k].issues;
      assert cycles[k] in cycles;
      var i :| 0 <= i < |samples| && samples[i] == cycles[k];
      assert i in GoodRows(plan, samples);
    }
    if i :| i in GoodRows(plan, samples) && x in samples[i].issues {
      assert samples[i] in cycles;
      var k :| 0 <= k < |cycles| && cycles[k] == samples[i];
    }
  }

  /** The criterion on the idle state, exactly: no row with a valid snapshot reports an issue. */
  lemma IdleVerdictTells(plan: Plan, criteria: Criteria, samples: seq<Sample>, now: real)
    requires plan.interval > 0.0
    ensures var good := GoodRows(plan, samples);
            Evaluation(plan, criteria, samples, now).idle
            == if good == {} then NotMeasured
               else if forall i :: i in good ==> samples[i].issues == [] then Met else NotMet
  {
    var cycles, good := Counted(plan, samples), GoodRows(plan, samples);
    CountedShape(plan, samples);
    NoStateIssues(cycles);
    forall k | (forall i :: i in good ==> samples[i].issues == []) && 0 <= k < |cycles| ensures !Violates(cycles[k]) {
      assert cycles[k] in cycles;
      var i :| 0 <= i < |samples| && samples[i] == cycles[k];
      assert cycles[k].ok ==> i in good;
    }
    forall i | (forall k :: 0 <= k < |cycles| ==> !Violates(cycles[k])) && i in good ensures samples[i].issues == [] {
      assert samples[i] in cycles;
      var k :| 0 <= k < |cycles| && cycles[k] == samples[i];
    }
  }

  /** One cycle, or as many as whole intervals fit into the window. */
  ghost predicate Due(plan: Plan, n: nat) {
    n == 1 || (n >= 1 && n as real * plan.interval <= plan.end - plan.start)
  }

  lemma DueExpected(plan: Plan)
    requires plan.interval > 0.0 && plan.start < plan.end
    ensures var expected := Expected(plan, plan.end - plan.start);
            expected >= 1 && Due(plan, expected) && forall n: nat :: Due(plan, n) ==> n <= expected
  {
    var width := plan.end - plan.start;
    var q := width / plan.interval;
    assert q * plan.interval == width;
    var expected := Expected(plan, width);
    if expected > 1 {
      assert expected as real <= q;
      assert expected as real * plan.interval <= q * plan.interval;
    }
    forall n: nat | Due(plan, n) ensures n <= expected {
      if n > 1 {
        assert n as real > q ==> n as real * plan.interval > q * plan.interval;
        assert n <= q.Floor;
      }
    }
  }

  /**
   The coverage criterion, exactly: it is measured when the window has elapsed with a row inside, and met
   if and only if there are rows for at least 95 in 100 of the cycles that are due.
   */
  lemma CoverageVerdictTells(plan: Plan, criteria: Criteria, samples: seq<Sample>, now: real)
    requires plan.interval > 0.0 && plan.start < plan.end
    ensures var rows := |Rows(plan, samples)|;
            Evaluation(plan, criteria, samples, now).covered
            == if rows == 0 || now < plan.end then NotMeasured
               else if forall n: nat :: Due(plan, n) ==> 100 * rows >= 95 * n then Met else NotMet
  {
    CountedShape(plan, samples);
    CoverageJudged(plan, |Rows(plan, samples)|, now);
  }

  lemma CoverageJudged(plan: Plan, rows: nat, now: real)
    requires plan.interval > 0.0 && plan.start < plan.end
    ensures Covered(plan, rows, now)
            == if rows == 0 || now < plan.end then NotMeasured
               else if forall n: nat :: Due(plan, n) ==> 100 * rows >= 95 * n then Met else NotMet
  {
    DueExpected(plan);
    if now >= plan.end {
      var expected := Expected(plan, plan.end - plan.start);
      NinetyFive(rows, expected);
      ShareAtLeast(rows, expected, 0.95);
    }
  }

  lemma NinetyFive(rows: nat, expected: nat)
    ensures rows as real >= 0.95 * expected as real <==> 100 * rows >= 95 * expected
  {
  }
}
