/**
 The table of incident candidates (`storage/src/lib.rs`, `persist_correlation`). A persisted
 correlation extends the newest live candidate of its key that was last seen at most a window before
 it, or opens a new one. Among equally new candidates the database may pick any.
 */
module CandidateTable {
  import opened Options
  import opened Numbers
  import opened Events
  import opened Correlation
  import opened Candidates
  import Text

  /** A row; it is live while its status is open or promoted. */
  datatype Candidate = Candidate(key: Key, confidence: nat, severity: string, firstSeen: int, lastSeen: int,
                                 summary: string, live: bool, ids: set<int>)

  /** `max_incident_severity`. */
  function StoreRank(severity: string): nat {
    if severity == "critical" then 5 else if severity == "high" then 4 else if severity == "medium" then 3
    else if severity == "low" then 2 else 1
  }

  function Worse(current: string, incoming: string): string {
    if StoreRank(incoming) > StoreRank(current) then incoming else current
  }

  predicate Takes(candidate: Candidate, p: Persistence, window: int) {
    candidate.key == p.key && candidate.live && candidate.lastSeen >= p.firstSeen - window
  }

  /** The row that the database locks for a correlation. */
  ghost predicate IsNewest(table: seq<Candidate>, i: nat, p: Persistence, window: int) {
    && i < |table| && Takes(table[i], p, window)
    && forall j :: 0 <= j < |table| && Takes(table[j], p, window) ==> table[j].lastSeen <= table[i].lastSeen
  }

  function IdSet(ids: seq<int>): set<int> {
    set id | id in ids
  }

  function Extended(candidate: Candidate, p: Persistence): Candidate {
    Candidate(candidate.key, Max(candidate.confidence, Min(100, p.outcome.confidence)),
              Worse(candidate.severity, p.outcome.severity),
              Min(candidate.firstSeen, p.firstSeen), Max(candidate.lastSeen, p.lastSeen),
              p.outcome.summary, true, candidate.ids + IdSet(p.ids))
  }

  function Opened(p: Persistence): Candidate {
    Candidate(p.key, Min(100, p.outcome.confidence), p.outcome.severity, p.firstSeen, p.lastSeen,
              p.outcome.summary, true, IdSet(p.ids))
  }

  ghost predicate Stored(table: seq<Candidate>, table': seq<Candidate>, p: Persistence, window: int) {
    if forall i :: 0 <= i < |table| ==> !Takes(table[i], p, window) then table' == table + [Opened(p)]
    else exists i: nat :: IsNewest(table, i, p, window) && table' == table[i := Extended(table[i], p)]
  }

  class Store {
    var table: seq<Candidate>

    constructor ()
      ensures table == []
    {
      table := [];
    }

    /** `persist_correlation`, one transaction. */
    method Persist(p: Persistence, window: int)
      modifies this
      ensures Stored(old(table), table, p, window)
    {
      var newest: Option<nat> := None;
      for n := 0 to |table|
        invariant table == old(table)
        invariant newest.None? ==> forall j :: 0 <= j < n ==> !Takes(table[j], p, window)
        invariant newest.Some? ==> newest.value < n && IsNewest(table[..n], newest.value, p, window)
      {
        if Takes(table[n], p, window) && (newest.None? || table[n].lastSeen > table[newest.value].lastSeen) {
          newest := Some(n);
        }
      }
      assert table[..|table|] == table;
      if newest.Some? {
        table := table[newest.value := Extended(table[newest.value], p)];
      } else {
        table := table + [Opened(p)];
      }
    }
  }

  // --- rows only grow -----------------------------------------------------------------------

  /** The order of the severities by their names; any other text is below them all. */
  predicate AtLeastAsSevere(s: string, t: string) {
    && (t == "critical" ==> s == "critical")
    && (t == "high" ==> s in {"high", "critical"})
    && (t == "medium" ==> s in {"medium", "high", "critical"})
    && (t == "low" ==> s in {"low", "medium", "high", "critical"})
  }

  /** Row `b` holds all that row `a` held. */
  ghost predicate Grew(a: Candidate, b: Candidate) {
    && a.key == b.key && a.ids <= b.ids && a.confidence <= b.confidence
    && AtLeastAsSevere(b.severity, a.severity)
    && b.firstSeen <= a.firstSeen && a.lastSeen <= b.lastSeen
  }

  ghost predicate GrewAll(a: seq<Candidate>, b: seq<Candidate>) {
    |a| <= |b| && forall i :: 0 <= i < |a| ==> Grew(a[i], b[i])
  }

  /** A persisted correlation, or a change of a row's status by the incident service. */
  datatype Step = Persisted(p: Persistence) | Reviewed(row: nat, live: bool)

  ghost predicate StepsTo(table: seq<Candidate>, table': seq<Candidate>, step: Step, window: int) {
    match step
    case Persisted(p) => Stored(table, table', p, window)
    case Reviewed(row, live) => row < |table| && table' == table[row := table[row].(live := live)]
  }

  ghost predicate Run(tables: seq<seq<Candidate>>, steps: seq<Step>, window: int) {
    && |tables| == |steps| + 1
    && forall k :: 0 <= k < |steps| ==> StepsTo(tables[k], tables[k + 1], steps[k], window)
  }

  ghost predicate Holds(table: seq<Candidate>, p: Persistence) {
    exists i :: 0 <= i < |table| && Contains(table[i], p)
  }

  predicate Contains(row: Candidate, p: Persistence) {
    && row.key == p.key && IdSet(p.ids) <= row.ids && AtLeastAsSevere(row.severity, p.outcome.severity)
    && Min(100, p.outcome.confidence) <= row.confidence
    && row.firstSeen <= p.firstSeen && p.lastSeen <= row.lastSeen
  }

  lemma GrewTrans(a: seq<Candidate>, b: seq<Candidate>, c: seq<Candidate>)
    requires GrewAll(a, b) && GrewAll(b, c)
    ensures GrewAll(a, c)
  {
    forall i | 0 <= i < |a| ensures Grew(a[i], c[i]) {
      assert Grew(a[i], b[i]) && Grew(b[i], c[i]);
    }
  }

  lemma HoldsOn(a: seq<Candidate>, b: seq<Candidate>, p: Persistence)
    requires Holds(a, p) && GrewAll(a, b)
    ensures Holds(b, p)
  {
    var i :| 0 <= i < |a| && Contains(a[i], p);
    assert Grew(a[i], b[i]);
    assert Contains(b[i], p);
  }

  /**
   Over any run, whatever the incident service does to the statuses, no candidate is lost, weakened or
   shortened, and every persisted correlation stays in a row of its key, with its events and times, at
   least as severe and as confident.
   */
  lemma {:induction false} RowsOnlyGrow(tables: seq<seq<Candidate>>, steps: seq<Step>, window: int, m: nat, n: nat)
    requires Run(tables, steps, window) && m <= n <= |steps|
    ensures GrewAll(tables[m], tables[n])
    ensures m < n && steps[m].Persisted? ==> Holds(tables[n], steps[m].p)
    decreases n
  {
    if m < n {
      RowsOnlyGrow(tables, steps, window, m, n - 1);
      StepGrows(tables[n - 1], tables[n], steps[n - 1], window);
      GrewTrans(tables[m], tables[n - 1], tables[n]);
      if m < n - 1 && steps[m].Persisted? { HoldsOn(tables[n - 1], tables[n], steps[m].p); }
    }
  }

  lemma StepGrows(before: seq<Candidate>, after: seq<Candidate>, step: Step, window: int)
    requires StepsTo(before, after, step, window)
    ensures GrewAll(before, after) && (step.Persisted? ==> Holds(after, step.p))
  {
    if step.Persisted? { StoredGrows(before, after, step.p, window); }
  }

  lemma StoredGrows(before: seq<Candidate>, after: seq<Candidate>, p: Persistence, window: int)
    requires Stored(before, after, p, window)
    ensures GrewAll(before, after)
    ensures Holds(after, p)
  {
    if forall i :: 0 <= i < |before| ==> !Takes(before[i], p, window) {
      assert Contains(after[|before|], p);
    } else {
      var i: nat :| IsNewest(before, i, p, window) && after == before[i := Extended(before[i], p)];
      assert Contains(after[i], p);
    }
  }

  // --- what a row is ------------------------------------------------------------------------

  /**
   The row is the summary of `ps`, the correlations that it took in: all of one key, the highest
   confidence and severity, first and last time, all events, and the latest text.
   */
  ghost predicate Summarises(row: Candidate, ps: seq<Persistence>) {
    && ps != [] && row.summary == ps[|ps| - 1].outcome.summary
    && (forall i :: 0 <= i < |ps| ==> Contains(row, ps[i]))
    && (exists i :: 0 <= i < |ps| && row.severity == ps[i].outcome.severity)
    && (exists i :: 0 <= i < |ps| && row.confidence == Min(100, ps[i].outcome.confidence))
    && (exists i :: 0 <= i < |ps| && row.firstSeen == ps[i].firstSeen)
    && (exists i :: 0 <= i < |ps| && row.lastSeen == ps[i].lastSeen)
    && (forall id :: id in row.ids ==> exists i :: 0 <= i < |ps| && id in ps[i].ids)
  }

  lemma SummarisesOpened(p: Persistence)
    ensures Summarises(Opened(p), [p])
  {
    assert [p][0] == p;
  }

  lemma SummarisesExtended(row: Candidate, ps: seq<Persistence>, p: Persistence)
    requires Summarises(row, ps) && row.key == p.key
    ensures Summarises(Extended(row, p), ps + [p])
  {
    var more, row' := ps + [p], Extended(row, p);
    assert more[|ps|] == p;
    forall i | 0 <= i < |more| ensures Contains(row', more[i]) {
      if i < |ps| { assert more[i] == ps[i] && Contains(row, ps[i]); }
    }
    forall id | id in row'.ids ensures exists i :: 0 <= i < |more| && id in more[i].ids {
      if id in row.ids {
        var i :| 0 <= i < |ps| && id in ps[i].ids;
        assert id in more[i].ids;
      }
    }
    SummaryWitnesses(row, ps, p);
  }

  lemma SummaryWitnesses(row: Candidate, ps: seq<Persistence>, p: Persistence)
    requires Summarises(row, ps)
    ensures var more, row' := ps + [p], Extended(row, p);
            && (exists i :: 0 <= i < |more| && row'.severity == more[i].outcome.severity)
            && (exists i :: 0 <= i < |more| && row'.confidence == Min(100, more[i].outcome.confidence))
            && (exists i :: 0 <= i < |more| && row'.firstSeen == more[i].firstSeen)
            && (exists i :: 0 <= i < |more| && row'.lastSeen == more[i].lastSeen)
  {
    var more := ps + [p];
    var a :| 0 <= a < |ps| && row.severity == ps[a].outcome.severity;
    var b :| 0 <= b < |ps| && row.confidence == Min(100, ps[b].outcome.confidence);
    var c :| 0 <= c < |ps| && row.firstSeen == ps[c].firstSeen;
    var d :| 0 <= d < |ps| && row.lastSeen == ps[d].lastSeen;
    assert more[a] == ps[a] && more[b] == ps[b] && more[c] == ps[c] && more[d] == ps[d] && more[|ps|] == p;
  }

  /** The correlations that were persisted in the first steps. */
  ghost function Persistences(steps: seq<Step>): multiset<Persistence>
    decreases |steps|
  {
    if steps == [] then multiset{}
    else
      var last := steps[|steps| - 1];
      Persistences(steps[..|steps| - 1]) + (if last.Persisted? then multiset{last.p} else multiset{})
  }

  ghost function AllOf(groups: seq<seq<Persistence>>): multiset<Persistence>
    decreases |groups|
  {
    if groups == [] then multiset{} else AllOf(groups[..|groups| - 1]) + multiset(groups[|groups| - 1])
  }

  lemma {:induction false} OneMoreIn(groups: seq<seq<Persistence>>, i: nat, p: Persistence)
    requires i < |groups|
    ensures AllOf(groups[i := groups[i] + [p]]) == AllOf(groups) + multiset{p}
    decreases |groups|
  {
    var last, more := |groups| - 1, groups[i := groups[i] + [p]];
    if i < last {
      assert more[..last] == groups[..last][i := groups[i] + [p]];
      OneMoreIn(groups[..last], i, p);
    } else {
      assert more[..last] == groups[..last];
    }
  }

  ghost predicate SummarisesAll(table: seq<Candidate>, groups: seq<seq<Persistence>>) {
    |groups| == |table| && forall i :: 0 <= i < |table| ==> Summarises(table[i], groups[i])
  }

  /**
   Over any run from the empty table, whatever happens to the statuses: every persisted correlation is
   taken in by exactly one row, and every row is the summary of those that it took in.
   */
  lemma {:induction false} RowsAreSummaries(tables: seq<seq<Candidate>>, steps: seq<Step>, window: int, n: nat)
    returns (groups: seq<seq<Persistence>>)
    requires Run(tables, steps, window) && n <= |steps| && tables[0] == []
    ensures SummarisesAll(tables[n], groups) && AllOf(groups) == Persistences(steps[..n])
    decreases n
  {
    if n == 0 { return []; }
    groups := RowsAreSummaries(tables, steps, window, n - 1);
    assert steps[..n][..n - 1] == steps[..n - 1];
    groups := StepSummarises(tables[n - 1], tables[n], steps[n - 1], window, groups);
  }

  lemma StepSummarises(before: seq<Candidate>, after: seq<Candidate>, step: Step, window: int,
                       groups: seq<seq<Persistence>>)
    returns (more: seq<seq<Persistence>>)
    requires StepsTo(before, after, step, window) && SummarisesAll(before, groups)
    ensures SummarisesAll(after, more)
    ensures AllOf(more) == AllOf(groups) + (if step.Persisted? then multiset{step.p} else multiset{})
  {
    more := groups;
    if step.Persisted? { more := TakesIn(before, after, step.p, window, groups); }
  }

  lemma TakesIn(before: seq<Candidate>, after: seq<Candidate>, p: Persistence, window: int,
                groups: seq<seq<Persistence>>)
    returns (more: seq<seq<Persistence>>)
    requires Stored(before, after, p, window) && SummarisesAll(before, groups)
    ensures SummarisesAll(after, more) && AllOf(more) == AllOf(groups) + multiset{p}
  {
    if forall i :: 0 <= i < |before| ==> !Takes(before[i], p, window) {
      more := groups + [[p]];
      OpenedIn(before, p, groups);
    } else {
      var i: nat :| IsNewest(before, i, p, window) && after == before[i := Extended(before[i], p)];
      more := groups[i := groups[i] + [p]];
      OneMoreIn(groups, i, p);
      ExtendedIn(before, i, p, groups);
    }
  }

  lemma OpenedIn(before: seq<Candidate>, p: Persistence, groups: seq<seq<Persistence>>)
    requires SummarisesAll(before, groups)
    ensures SummarisesAll(before + [Opened(p)], groups + [[p]])
    ensures AllOf(groups + [[p]]) == AllOf(groups) + multiset{p}
  {
    SummarisesOpened(p);
    assert (groups + [[p]])[..|groups|] == groups;
  }

  lemma ExtendedIn(before: seq<Candidate>, i: nat, p: Persistence, groups: seq<seq<Persistence>>)
    requires SummarisesAll(before, groups) && i < |before| && before[i].key == p.key
    ensures SummarisesAll(before[i := Extended(before[i], p)], groups[i := groups[i] + [p]])
  {
    SummarisesExtended(before[i], groups[i], p);
  }

  /** Row `i` is live, of the key, and was last seen at most a window before the correlation begins. */
  predicate Recent(table: seq<Candidate>, i: nat, p: Persistence, window: int) {
    i < |table| && table[i].live && table[i].key == p.key && p.firstSeen - table[i].lastSeen <= window
  }

  /**
   A correlation opens a row exactly when no live row of its key was seen at most a window before it; a
   row that it extends was seen no earlier than any other such row, and is open again. All other rows
   stay as they are.
   */
  lemma OpensExactlyWhen(before: seq<Candidate>, after: seq<Candidate>, p: Persistence, window: int)
    requires Stored(before, after, p, window)
    ensures |after| == |before| + 1 <==> forall i: nat :: !Recent(before, i, p, window)
    ensures |after| == |before| || (|after| == |before| + 1 && after[..|before|] == before)
    ensures |after| == |before| ==>
              exists i: nat :: Recent(before, i, p, window) && after == before[i := after[i]] && after[i].live
                && forall j: nat :: Recent(before, j, p, window) ==> before[j].lastSeen <= before[i].lastSeen
  {
    if forall i :: 0 <= i < |before| ==> !Takes(before[i], p, window) {
      forall i: nat ensures !Recent(before, i, p, window) {
        if i < |before| { assert !Takes(before[i], p, window); }
      }
    } else {
      var i: nat :| IsNewest(before, i, p, window) && after == before[i := Extended(before[i], p)];
      assert Recent(before, i, p, window);
      forall j: nat | Recent(before, j, p, window) ensures before[j].lastSeen <= before[i].lastSeen {
        assert Takes(before[j], p, window);
      }
    }
  }

  // --- continuity ---------------------------------------------------------------------------

  /** A first event alone, then a second event of another type with the same correlation id inside the window. */
  predicate FollowUp(first: Event, second: Event, recent: seq<Event>, window: nat) {
    && first.eventType in CORRELATABLE && first in recent
    && IdMatch(second, first, window) && first.eventType != second.eventType
  }

  lemma FollowUpKeys(first: Event, second: Event, recent: seq<Event>, window: nat)
    requires FollowUp(first, second, recent, window)
    ensures Processed(first, [], window).Some? && Processed(second, recent, window).Some?
    ensures var p, p' := Processed(first, [], window).value, Processed(second, recent, window).value;
            && p.key == CorrelationId(Text.Trim(first.correlationId.value))
            && p'.key == CorrelationId(first.correlationId.value)
            && p.lastSeen == first.occurredAt && p'.firstSeen <= first.occurredAt
            && first.id in p.ids && first.id in p'.ids && second.id in p'.ids
  {
    assert Ranked(first, [], window) == [];
    var chain := ChainIsStrongest(first, second, recent, window);
    FirstIsChosen(first, second, Ranked(second, recent, window), chain);
  }

  lemma ChainIsStrongest(first: Event, second: Event, recent: seq<Event>, window: nat) returns (chain: Found)
    requires FollowUp(first, second, recent, window)
    ensures var found := Ranked(second, recent, window);
            && chain in found && chain.related == first && chain.matched.key == found[0].matched.key
            && chain.matched.key == CorrelationId(first.correlationId.value)
  {
    Strongest(second, recent, window);
    chain := Found(first, Correlate(second, first, window).value);
    assert chain in Ranked(second, recent, window);
    HeadConfidence(second, recent, window);
  }

  lemma FirstIsChosen(first: Event, second: Event, found: seq<Found>, chain: Found)
    requires chain in found && chain.related == first && chain.matched.key == found[0].matched.key
    ensures var p := Joint(second, found);
            p.firstSeen <= first.occurredAt && first.id in p.ids && second.id in p.ids
  {
    var chosen := Chosen(found);
    WithKeyExactly(found, found[0].matched.key);
    var i :| 0 <= i < |chosen| && chosen[i] == chain;
    var events := EventsOf(second, chosen);
    assert events[i + 1] == first && IdsOf(events)[i + 1] == first.id && IdsOf(events)[0] == second.id;
    assert first in events;
    TimesOfEvents(events);
  }

  /** The second event never opens a candidate of its own, whatever the table holds. */
  ghost predicate AlwaysExtends(p: Persistence, p': Persistence, window: int) {
    forall t0: seq<Candidate>, t1: seq<Candidate>, t2: seq<Candidate> ::
      Stored(t0, t1, p, window) && Stored(t1, t2, p', window) ==> |t2| == |t1|
  }

  /**
   Candidate continuity, exactly: the follow-up of an event extends an existing candidate instead of
   opening a second one if and only if the correlation id has no surrounding white space.
   */
  lemma FollowUpExtendsExactlyWhen(first: Event, second: Event, recent: seq<Event>, window: nat)
    requires FollowUp(first, second, recent, window)
    ensures Processed(first, [], window).Some? && Processed(second, recent, window).Some?
    ensures AlwaysExtends(Processed(first, [], window).value, Processed(second, recent, window).value, window)
            <==> Text.Trimmed(first.correlationId.value)
  {
    FollowUpKeys(first, second, recent, window);
    Text.TrimExact(first.correlationId.value);
    var p, p' := Processed(first, [], window).value, Processed(second, recent, window).value;
    if p.key == p'.key {
      SameKeyExtends(p, p', window);
    } else {
      OtherKeyOpens(p, p', window);
    }
  }

  lemma SameKeyExtends(p: Persistence, p': Persistence, window: nat)
    requires p.key == p'.key && p'.firstSeen <= p.lastSeen
    ensures AlwaysExtends(p, p', window)
  {
    forall t0: seq<Candidate>, t1: seq<Candidate>, t2: seq<Candidate>
      | Stored(t0, t1, p, window) && Stored(t1, t2, p', window)
      ensures |t2| == |t1|
    {
      var i := StoredLeavesRow(t0, t1, p, window);
      assert Takes(t1[i], p', window);
    }
  }

  lemma OtherKeyOpens(p: Persistence, p': Persistence, window: nat)
    requires p.key != p'.key
    ensures !AlwaysExtends(p, p', window)
  {
    var t1 := [Opened(p)];
    assert [] + t1 == t1;
    assert Stored([], t1, p, window);
    assert Stored(t1, t1 + [Opened(p')], p', window);
  }

  lemma StoredLeavesRow(before: seq<Candidate>, after: seq<Candidate>, p: Persistence, window: int) returns (i: nat)
    requires Stored(before, after, p, window)
    ensures i < |after| && after[i].key == p.key && after[i].live && after[i].lastSeen >= p.lastSeen
  {
    if forall i :: 0 <= i < |before| ==> !Takes(before[i], p, window) {
      i := |before|;
    } else {
      i :| IsNewest(before, i, p, window) && after == before[i := Extended(before[i], p)];
    }
  }
}
