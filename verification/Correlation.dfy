/** Pair correlation and outcome scoring (`correlation/src/lib.rs`). */
module Correlation {
  import opened Options
  import opened Numbers
  import opened Events
  import Text
  import Indicators
  import Ordering

  /** A correlation key before it is printed. */
  datatype Key = CorrelationId(id: string) | Source(source: string) | Indicator(indicator: string)

  function KeyText(key: Key): string {
    match key
    case CorrelationId(id) => "correlation-id:" + id
    case Source(source) => "source:" + source
    case Indicator(indicator) => "indicator:" + indicator
  }

  /** Comparing keys is comparing the strings that the source compares. */
  lemma KeyTextInjective(a: Key, b: Key)
    requires KeyText(a) == KeyText(b)
    ensures a == b
  {
    assert KeyText(a)[0] == KeyText(b)[0];
    match a
    case CorrelationId(id) => assert KeyText(a)[15..] == id && KeyText(b)[15..] == b.id;
    case Source(source) => assert KeyText(a)[7..] == source && KeyText(b)[7..] == b.source;
    case Indicator(indicator) => assert KeyText(a)[10..] == indicator && KeyText(b)[10..] == b.indicator;
  }

  /** A match; its printed reason is a function of its key. */
  datatype Match = Match(key: Key, relation: string, confidence: nat)

  const CORRELATABLE: set<string> :=
    {"new_threat_indicator", "bgp_change", "rpki_invalid", "asn_change", "trusted_network_change", "provider_error"}

  /** The pairs that are compared at all. */
  predicate Comparable(left: Event, right: Event, window: int) {
    && left.id != right.id
    && left.eventType in CORRELATABLE && right.eventType in CORRELATABLE
    && Abs(left.occurredAt - right.occurredAt) <= window
  }

  /** The same correlation id on both sides, not blank. */
  predicate SameId(left: Event, right: Event) {
    left.correlationId.Some? && left.correlationId == right.correlationId && Text.Trim(left.correlationId.value) != ""
  }

  function Shared(left: Event, right: Event): set<string> {
    Indicators.Extract(left.payload) * Indicators.Extract(right.payload)
  }

  function IndicatorConfidence(differentTypes: bool, sameSource: bool): nat {
    if differentTypes then (if sameSource then 86 else 92) else (if sameSource then 72 else 78)
  }

  function Correlate(left: Event, right: Event, window: int): Option<Match> {
    var different := left.eventType != right.eventType;
    if !Comparable(left, right, window) then None
    else if SameId(left, right) then
      Some(Match(CorrelationId(left.correlationId.value), if different then "event-chain" else "shared-correlation-id",
                 if different then 96 else 82))
    else
      var shared := Shared(left, right);
      if shared == {} && left.source == right.source && Text.Trim(left.source) != ""
         && (left.eventType == "provider_error" || right.eventType == "provider_error") then
        Some(Match(Source(left.source), "shared-source", 68))
      else if shared == {} then None
      else
        Some(Match(Indicator(Ordering.First(shared)), if different then "event-chain" else "shared-indicator",
                   IndicatorConfidence(different, left.source == right.source)))
  }

  /** The whole result, key included, does not depend on which event arrived first. */
  lemma CorrelateSymmetric(left: Event, right: Event, window: int)
    ensures Correlate(left, right, window) == Correlate(right, left, window)
  {
    assert Shared(left, right) == Shared(right, left);
  }

  /**
   Which pairs match at all: two events of correlatable types, not the same one, at most a window apart,
   that share a correlation id that is not blank or an indicator, or come from one source, not blank, of
   which a provider error is one.
   */
  lemma CorrelatesExactlyWhen(left: Event, right: Event, window: int)
    ensures var types := {"new_threat_indicator", "bgp_change", "rpki_invalid", "asn_change",
                          "trusted_network_change", "provider_error"};
            Correlate(left, right, window).Some?
            <==>
            && left.id != right.id && left.eventType in types && right.eventType in types
            && left.occurredAt - right.occurredAt <= window && right.occurredAt - left.occurredAt <= window
            && (|| (left.correlationId.Some? && right.correlationId == left.correlationId
                    && Text.Trim(left.correlationId.value) != "")
                || (exists x :: x in Indicators.Extract(left.payload) && x in Indicators.Extract(right.payload))
                || (left.source == right.source && Text.Trim(left.source) != ""
                    && (left.eventType == "provider_error" || right.eventType == "provider_error")))
  {
    if x :| x in Indicators.Extract(left.payload) && x in Indicators.Extract(right.payload) {
      assert x in Shared(left, right);
    } else {
      assert Shared(left, right) == {};
    }
  }

  /**
   The confidence tells how two events matched, exactly: a second type and a second source both count
   more, and a shared correlation id with a second type beats everything. The key names what is shared,
   and the relation is a chain exactly when the types differ.
   */
  lemma ConfidenceTells(left: Event, right: Event, window: int)
    requires Correlate(left, right, window).Some?
    ensures var found := Correlate(left, right, window).value;
            var byId, byIndicator := SameId(left, right), !SameId(left, right) && Shared(left, right) != {};
            var types, sources := left.eventType != right.eventType, left.source != right.source;
            && Comparable(left, right, window)
            && (found.confidence == 96 <==> byId && types)
            && (found.confidence == 82 <==> byId && !types)
            && (found.confidence == 92 <==> byIndicator && types && sources)
            && (found.confidence == 86 <==> byIndicator && types && !sources)
            && (found.confidence == 78 <==> byIndicator && !types && sources)
            && (found.confidence == 72 <==> byIndicator && !types && !sources)
            && (found.confidence == 68 <==> !byId && !byIndicator)
            && found.confidence in {96, 92, 86, 82, 78, 72, 68}
            && (byId <==> found.key.CorrelationId?) && (byId ==> Some(found.key.id) == left.correlationId)
            && (byIndicator <==> found.key.Indicator?)
            && (byIndicator ==> Ordering.IsFirst(Shared(left, right), found.key.indicator))
            && (!byId && !byIndicator ==> found.key == Source(left.source))
            && (found.relation == "event-chain" <==> types && (byId || byIndicator))
            && (found.relation == "shared-correlation-id" <==> byId && !types)
            && (found.relation == "shared-indicator" <==> byIndicator && !types)
            && (found.relation == "shared-source" <==> !byId && !byIndicator)
  {
    RelationsDiffer();
  }

  lemma RelationsDiffer()
    ensures "event-chain" != "shared-correlation-id" && "event-chain" != "shared-indicator"
    ensures "event-chain" != "shared-source" && "shared-correlation-id" != "shared-indicator"
    ensures "shared-correlation-id" != "shared-source" && "shared-indicator" != "shared-source"
  {
    assert "event-chain"[0] == 'e' && "shared-correlation-id"[7] == 'c' && "shared-indicator"[7] == 'i'
           && "shared-source"[7] == 's' && "shared-source"[0] == 's';
  }

  // --- outcome ------------------------------------------------------------------------------

  datatype Outcome = Outcome(confidence: nat, severity: string, summary: string)

  function Rank(severity: string): nat {
    var name := Indicators.Lower(severity);
    if name == "critical" then 4 else if name == "high" then 3 else if name == "medium" then 2
        else if name == "low" then 1 else 0
  }

  function Name(rank: nat): string {
    if rank == 4 then "critical" else if rank == 3 then "high" else if rank == 2 then "medium"
        else if rank == 1 then "low" else "info"
  }

  /** `normalize_severity`. */
  function Normalized(severity: string): string {
    Name(Rank(severity))
  }

  function Types(events: seq<Event>): set<string> {
    set event | event in events :: event.eventType
  }

  /** The highest severity rank of the events, 0 if there are none. */
  function TopRank(events: seq<Event>): (rank: nat)
    ensures rank <= 4
    decreases |events|
  {
    if events == [] then 0
    else
      var last, rest := Rank(events[|events| - 1].severity), TopRank(events[..|events| - 1]);
      if last > rest then last else rest
  }

  lemma {:induction false} TopRankIsTop(events: seq<Event>)
    ensures forall event :: event in events ==> Rank(event.severity) <= TopRank(events)
    ensures TopRank(events) > 0 ==> exists event :: event in events && Rank(event.severity) == TopRank(events)
    decreases |events|
  {
    if events != [] {
      TopRankIsTop(events[..|events| - 1]);
      assert events == events[..|events| - 1] + [events[|events| - 1]];
    }
  }

  /** The highest confidence of the matches, 0 if there are none. */
  function Best(matches: seq<Match>): nat
    decreases |matches|
  {
    if matches == [] then 0
    else
      var last, rest := matches[|matches| - 1].confidence, Best(matches[..|matches| - 1]);
      if last > rest then last else rest
  }

  lemma {:induction false} BestIsBest(matches: seq<Match>)
    ensures forall m :: m in matches ==> m.confidence <= Best(matches)
    ensures Best(matches) > 0 ==> exists m :: m in matches && m.confidence == Best(matches)
    decreases |matches|
  {
    if matches != [] {
      BestIsBest(matches[..|matches| - 1]);
      assert matches == matches[..|matches| - 1] + [matches[|matches| - 1]];
    }
  }

  /** The confidence as the source computes it: the boost is cast to `u8`, the sum saturates at 255. */
  function Boosted(best: nat, types: nat): nat {
    Min(100, Min(255, best + ((if types >= 1 then types - 1 else 0) * 4) % 256))
  }

  /** The confidence as it is meant: four points for every further event type, up to 100. */
  function Intended(best: nat, types: nat): nat {
    Min(100, best + (if types >= 1 then types - 1 else 0) * 4)
  }

  /** Several event types raise a medium severity to high. */
  function Raised(rank: nat, types: nat): nat {
    if types >= 2 && rank == 2 then 3 else rank
  }

  function JoinTypes(types: seq<string>): string {
    if types == [] then "" else if |types| == 1 then types[0] else types[0] + ", " + JoinTypes(types[1..])
  }

  const CHAIN := "Correlated security event chain ("
  const SINGLE := "Correlated security events sharing an indicator"

  function Summary(types: set<string>): string {
    if |types| > 1 then CHAIN + JoinTypes(Ordering.Ascending(types)) + ")" else SINGLE
  }

  /** The outcome as a function of the event types, the top severity and the best match. */
  function Derived(events: seq<Event>, matches: seq<Match>): Outcome {
    var types := Types(events);
    Outcome(Boosted(Best(matches), |types|), Name(Raised(TopRank(events), |types|)), Summary(types))
  }

  lemma RankOfName(rank: nat)
    requires rank <= 4
    ensures Rank(Name(rank)) == rank
  {
    assert Indicators.Lower(Name(rank)) == Name(rank);
  }

  lemma EvidenceStep(events: seq<Event>, n: nat)
    requires n < |events|
    ensures Types(events[..n + 1]) == Types(events[..n]) + {events[n].eventType}
    ensures var before, rank := TopRank(events[..n]), Rank(events[n].severity);
            TopRank(events[..n + 1]) == if rank > before then rank else before
  {
    assert events[..n + 1][..n] == events[..n];
    assert events[..n + 1] == events[..n] + [events[n]];
  }

  /** `matches.iter().map(confidence).max().unwrap_or(0)`. */
  method BestConfidence(matches: seq<Match>) returns (confidence: nat)
    ensures confidence == Best(matches)
  {
    confidence := 0;
    for n := 0 to |matches|
      invariant confidence == Best(matches[..n])
    {
      assert matches[..n + 1][..n] == matches[..n];
      if matches[n].confidence > confidence { confidence := matches[n].confidence; }
    }
    assert matches[..|matches|] == matches;
  }

  /** `derive_outcome`. */
  method DeriveOutcome(events: seq<Event>, matches: seq<Match>) returns (outcome: Outcome)
    ensures outcome == Derived(events, matches)
  {
    var types: set<string>, severity := {}, "info";
    RankOfName(0);
    for n := 0 to |events|
      invariant types == Types(events[..n])
      invariant severity == Name(TopRank(events[..n])) && Rank(severity) == TopRank(events[..n])
    {
      EvidenceStep(events, n);
      types := types + {events[n].eventType};
      if Rank(events[n].severity) > Rank(severity) {
        severity := Normalized(events[n].severity);
      }
      RankOfName(TopRank(events[..n + 1]));
    }
    assert events[..|events|] == events;
    var confidence := BestConfidence(matches);
    confidence := Boosted(confidence, |types|);
    if |types| >= 2 && severity == "medium" { severity := "high"; }
    outcome := Outcome(confidence, severity, Summary(types));
  }

  /**
   The cast to `u8` is harmless exactly when there are at most 64 event types or the wrapped boost
   still reaches the cap.
   */
  lemma TruncationExactlyWhen(best: nat, types: nat)
    requires types >= 1
    ensures Boosted(best, types) == Intended(best, types) <==> types <= 64 || best + 4 * ((types - 1) % 64) >= 100
  {
    WrappedBoost(types - 1);
    if types > 64 { assert best + (types - 1) * 4 >= 100; }
  }

  lemma WrappedBoost(n: nat)
    ensures (n * 4) % 256 == 4 * (n % 64)
    ensures n < 64 ==> n % 64 == n
  {
    assert n == 64 * (n / 64) + n % 64;
    assert n * 4 == 256 * (n / 64) + 4 * (n % 64);
  }

  lemma SubsetSize(a: set<string>, b: set<string>)
    requires a <= b
    ensures |a| <= |b|
  {
    assert b == a + (b - a);
  }

  lemma AtMostSixTypes(events: seq<Event>)
    requires forall event :: event in events ==> event.eventType in CORRELATABLE
    ensures |Types(events)| <= 6
  {
    SubsetSize(Types(events), CORRELATABLE);
  }

  /** Over correlatable events the confidence is the intended one: nothing is truncated. */
  lemma ConfidenceAsIntended(events: seq<Event>, matches: seq<Match>)
    requires forall event :: event in events ==> event.eventType in CORRELATABLE
    ensures Derived(events, matches).confidence == Intended(Best(matches), |Types(events)|)
  {
    AtMostSixTypes(events);
    TruncationExactlyWhen(Best(matches), Max(1, |Types(events)|));
  }

  /**
   The intended confidence in numbers: that of the best match, four more for every further event
   type, at most 100.
   */
  lemma IntendedConfidence(best: nat, types: nat)
    requires types >= 1
    ensures Intended(best, types) <= 100
    ensures best + 4 * types <= 104 ==> Intended(best, types) == best + 4 * types - 4
    ensures best + 4 * types >= 104 ==> Intended(best, types) == 100
  {
  }

  /** Some event has this severity, in upper or lower case. */
  ghost predicate Has(events: seq<Event>, name: string) {
    exists event :: event in events && Indicators.Lower(event.severity) == name
  }

  lemma RankTells(severity: string)
    ensures var name := Indicators.Lower(severity);
            && (Rank(severity) == 4 <==> name == "critical") && (Rank(severity) == 3 <==> name == "high")
            && (Rank(severity) == 2 <==> name == "medium") && (Rank(severity) == 1 <==> name == "low")
            && Rank(severity) <= 4
  {
    assert |"critical"| == 8 && |"high"| == 4 && |"medium"| == 6 && |"low"| == 3;
  }

  lemma NoneAbove(events: seq<Event>)
    ensures TopRank(events) == 4 <==> Has(events, "critical")
    ensures TopRank(events) >= 3 <==> Has(events, "critical") || Has(events, "high")
    ensures TopRank(events) >= 2 <==> Has(events, "critical") || Has(events, "high") || Has(events, "medium")
    ensures TopRank(events) >= 1
            <==> Has(events, "critical") || Has(events, "high") || Has(events, "medium") || Has(events, "low")
  {
    TopRankIsTop(events);
    forall event | event in events
      ensures var name, rank := Indicators.Lower(event.severity), Rank(event.severity);
              && (rank == 4 <==> name == "critical") && (rank == 3 <==> name == "high")
              && (rank == 2 <==> name == "medium") && (rank == 1 <==> name == "low")
    {
      RankTells(event.severity);
    }
    if TopRank(events) > 0 {
      var top :| top in events && Rank(top.severity) == TopRank(events);
      RankTells(top.severity);
    }
  }

  lemma SeveralTypes(events: seq<Event>)
    ensures |Types(events)| >= 2
            <==> exists a, b :: a in events && b in events && a.eventType != b.eventType
  {
    if a, b :| a in events && b in events && a.eventType != b.eventType {
      SubsetSize({a.eventType, b.eventType}, Types(events));
    } else if events != [] {
      assert events[0] in events;
      SubsetSize(Types(events), {events[0].eventType});
    }
  }

  /**
   The severity by the events: the highest one among them, in lower case, except that a medium one
   becomes high when the events are of several types; "info" if none of the four names occurs.
   */
  lemma SeverityTells(events: seq<Event>, matches: seq<Match>)
    ensures var severity := Derived(events, matches).severity;
            var chain := exists a, b :: a in events && b in events && a.eventType != b.eventType;
            severity == if Has(events, "critical") then "critical"
                        else if Has(events, "high") then "high"
                        else if Has(events, "medium") then (if chain then "high" else "medium")
                        else if Has(events, "low") then "low"
                        else "info"
  {
    NoneAbove(events);
    SeveralTypes(events);
  }

  // --- the summary --------------------------------------------------------------------------

  lemma {:induction false} JoinDetermines(a: seq<string>, b: seq<string>)
    requires a != [] && b != [] && JoinTypes(a) == JoinTypes(b)
    requires (forall t :: t in a ==> ',' !in t) && (forall t :: t in b ==> ',' !in t)
    ensures a == b
  {
    FirstPiece(a);
    FirstPiece(b);
    if |a| > 1 && |b| > 1 {
      var text := JoinTypes(a);
      assert |a[0]| == |b[0]| && a[0] == text[..|a[0]|] == b[0];
      Unwrapped(a[0] + ", ", JoinTypes(a[1..]), JoinTypes(b[1..]), "");
      JoinDetermines(a[1..], b[1..]);
      assert a == [a[0]] + a[1..] && b == [b[0]] + b[1..];
    } else {
      assert |a| == 1 ==> a == [a[0]];
      assert |b| == 1 ==> b == [b[0]];
    }
  }

  /** The first listed type ends at the first comma. */
  lemma FirstPiece(types: seq<string>)
    requires types != [] && forall t :: t in types ==> ',' !in t
    ensures var text := JoinTypes(types);
            && types[0] <= text
            && (|types| == 1 <==> ',' !in text)
            && (|types| > 1 ==> |text| > |types[0]| && text[|types[0]|] == ',')
            && (forall i :: 0 <= i < |types[0]| ==> text[i] != ',')
  {
    var text := JoinTypes(types);
    assert types[0] in types;
    if |types| > 1 { assert text[|types[0]|] == ','; }
  }

  lemma CorrelatableHasNoComma(t: string)
    requires t in CORRELATABLE
    ensures ',' !in t
  {
  }

  /** The summary of an event chain names its types: two outcomes with one such summary are of the same types. */
  lemma SummaryTellsTypes(a: set<string>, b: set<string>)
    requires a <= CORRELATABLE && b <= CORRELATABLE && Summary(a) == Summary(b)
    ensures |a| > 1 <==> |b| > 1
    ensures |a| > 1 ==> a == b
  {
    SummaryShape(a);
    SummaryShape(b);
    if |a| > 1 && |b| > 1 {
      var x, y := Ordering.Ascending(a), Ordering.Ascending(b);
      Unwrapped(CHAIN, JoinTypes(x), JoinTypes(y), ")");
      forall t | t in x || t in y ensures ',' !in t { CorrelatableHasNoComma(t); }
      JoinDetermines(x, y);
    }
  }

  lemma SummaryShape(types: set<string>)
    ensures |Summary(types)| > 25 && (|types| > 1 <==> Summary(types)[25] == ' ')
  {
    Texts();
    if |types| > 1 { SummaryStarts(JoinTypes(Ordering.Ascending(types)) + ")"); }
  }

  lemma Texts()
    ensures |CHAIN| > 25 && CHAIN[25] == ' ' && |SINGLE| > 25 && SINGLE[25] == 's'
  {
  }

  lemma SummaryStarts(rest: string)
    requires |CHAIN| > 25
    ensures |CHAIN + rest| > 25 && (CHAIN + rest)[25] == CHAIN[25]
  {
  }

  lemma Unwrapped(opening: string, x: string, y: string, close: string)
    requires opening + x + close == opening + y + close
    ensures x == y
  {
    var text := opening + x + close;
    var end := |text| - |close|;
    assert text[|opening|..end] == x && (opening + y + close)[|opening|..end] == y;
  }

  lemma BoostedMonotone(best: nat, types: nat, best': nat, types': nat)
    requires best <= best' && types <= types' <= 64
    ensures Boosted(best, types) <= Boosted(best', types')
  {
  }

  lemma RaisedMonotone(rank: nat, types: nat, rank': nat, types': nat)
    requires rank <= rank' <= 4 && types <= types'
    ensures Rank(Name(Raised(rank, types))) <= Rank(Name(Raised(rank', types')))
  {
    RankOfName(Raised(rank, types));
    RankOfName(Raised(rank', types'));
  }

  lemma EvidenceGrows(events: seq<Event>, matches: seq<Match>, events': seq<Event>, matches': seq<Match>)
    requires forall event :: event in events ==> event in events'
    requires forall m :: m in matches ==> m in matches'
    ensures Best(matches) <= Best(matches') && TopRank(events) <= TopRank(events')
    ensures Types(events) <= Types(events') && |Types(events)| <= |Types(events')|
  {
    BestIsBest(matches);
    BestIsBest(matches');
    TopRankIsTop(events);
    TopRankIsTop(events');
    assert Types(events) <= Types(events');
    SubsetSize(Types(events), Types(events'));
  }

  /**
   Outcomes never weaken as evidence is added: every event and every match of the smaller evidence
   being in the larger one, in any order and any number, neither confidence nor severity goes down.
   */
  lemma OutcomeMonotone(events: seq<Event>, matches: seq<Match>, events': seq<Event>, matches': seq<Match>)
    requires forall event :: event in events ==> event in events'
    requires forall event :: event in events' ==> event.eventType in CORRELATABLE
    requires forall m :: m in matches ==> m in matches'
    ensures Derived(events, matches).confidence <= Derived(events', matches').confidence
    ensures Rank(Derived(events, matches).severity) <= Rank(Derived(events', matches').severity)
  {
    EvidenceGrows(events, matches, events', matches');
    AtMostSixTypes(events');
    BoostedMonotone(Best(matches), |Types(events)|, Best(matches'), |Types(events')|);
    RaisedMonotone(TopRank(events), |Types(events)|, TopRank(events'), |Types(events')|);
  }

  /** The whole outcome, summary included, depends neither on the order of the evidence nor on repetitions. */
  lemma OutcomeUnordered(events: seq<Event>, matches: seq<Match>, events': seq<Event>, matches': seq<Match>)
    requires forall event :: event in events <==> event in events'
    requires forall m :: m in matches <==> m in matches'
    ensures Derived(events, matches) == Derived(events', matches')
  {
    EvidenceGrows(events, matches, events', matches');
    EvidenceGrows(events', matches', events, matches);
    assert Types(events) == Types(events') && TopRank(events) == TopRank(events') && Best(matches) == Best(matches');
  }
}
