/**
 From an event to an incident candidate: `process_event` (`correlation/src/main.rs`) and the candidate
 table that `persist_correlation` (`storage/src/lib.rs`) keeps.
 */
module Candidates {
  import opened Options
  import opened Numbers
  import opened Events
  import opened Correlation
  import Text

  datatype Found = Found(related: Event, matched: Match)
  datatype Relation = Relation(eventId: int, relatedId: int, matched: Match)
  datatype Persistence = Persistence(key: Key, outcome: Outcome, firstSeen: int, lastSeen: int, ids: seq<int>,
                                     relations: seq<Relation>)

  // --- matching and sorting -----------------------------------------------------------------

  /** The recent events that correlate with `event`, in the store's order. */
  function FoundIn(event: Event, recent: seq<Event>, window: int): seq<Found>
    decreases |recent|
  {
    if recent == [] then []
    else
      var last := |recent| - 1;
      var found := Correlate(event, recent[last], window);
      FoundIn(event, recent[..last], window) + (if found.Some? then [Found(recent[last], found.value)] else [])
  }

  lemma {:induction false} FoundExactly(event: Event, recent: seq<Event>, window: int)
    ensures forall f :: f in FoundIn(event, recent, window) <==>
              f.related in recent && Correlate(event, f.related, window) == Some(f.matched)
    decreases |recent|
  {
    if recent != [] {
      var last := |recent| - 1;
      FoundExactly(event, recent[..last], window);
      assert recent == recent[..last] + [recent[last]];
    }
  }

  /** Put a match behind those at least as confident. */
  function Insert(f: Found, sorted: seq<Found>): seq<Found> {
    if sorted == [] || f.matched.confidence > sorted[0].matched.confidence then [f] + sorted
    else [sorted[0]] + Insert(f, sorted[1..])
  }

  /** `sort_by_key(Reverse(confidence))`, which is stable. */
  function Sort(found: seq<Found>): seq<Found>
    decreases |found|
  {
    if found == [] then []
    else
      var last := |found| - 1;
      Insert(found[last], Sort(found[..last]))
  }

  ghost predicate Descending(found: seq<Found>) {
    forall i, j :: 0 <= i <= j < |found| ==> found[i].matched.confidence >= found[j].matched.confidence
  }

  /** The matches of one confidence, in order. */
  function OfConfidence(found: seq<Found>, confidence: nat): seq<Found> {
    if found == [] then []
    else (if found[0].matched.confidence == confidence then [found[0]] else []) + OfConfidence(found[1..], confidence)
  }

  lemma {:induction false} InsertSorts(f: Found, sorted: seq<Found>)
    requires Descending(sorted)
    ensures Descending(Insert(f, sorted)) && multiset(Insert(f, sorted)) == multiset(sorted) + multiset{f}
  {
    if sorted != [] && f.matched.confidence <= sorted[0].matched.confidence {
      InsertSorts(f, sorted[1..]);
      assert sorted == [sorted[0]] + sorted[1..];
      forall x | x in Insert(f, sorted[1..]) ensures x.matched.confidence <= sorted[0].matched.confidence {
        assert x in multiset(Insert(f, sorted[1..]));
      }
    }
  }

  lemma {:induction false} InsertIsStable(f: Found, sorted: seq<Found>, confidence: nat)
    requires Descending(sorted)
    ensures OfConfidence(Insert(f, sorted), confidence)
            == OfConfidence(sorted, confidence) + (if f.matched.confidence == confidence then [f] else [])
  {
    if sorted == [] {
    } else if f.matched.confidence > sorted[0].matched.confidence {
      assert ([f] + sorted)[1..] == sorted;
      if f.matched.confidence == confidence { NoneLeft(sorted, confidence); }
    } else {
      InsertIsStable(f, sorted[1..], confidence);
      assert ([sorted[0]] + Insert(f, sorted[1..]))[1..] == Insert(f, sorted[1..]);
    }
  }

  lemma {:induction false} NoneLeft(found: seq<Found>, confidence: nat)
    requires forall i :: 0 <= i < |found| ==> found[i].matched.confidence < confidence
    ensures OfConfidence(found, confidence) == []
  {
    if found != [] { NoneLeft(found[1..], confidence); }
  }

  lemma {:induction false} OfConfidenceAppend(found: seq<Found>, f: Found, confidence: nat)
    ensures OfConfidence(found + [f], confidence)
            == OfConfidence(found, confidence) + (if f.matched.confidence == confidence then [f] else [])
  {
    if found == [] {
      assert (found + [f])[1..] == [];
    } else {
      var head := if found[0].matched.confidence == confidence then [found[0]] else [];
      assert (found + [f])[1..] == found[1..] + [f];
      OfConfidenceAppend(found[1..], f, confidence);
      assert OfConfidence(found + [f], confidence) == head + OfConfidence(found[1..] + [f], confidence);
    }
  }

  /** The sort orders by confidence, loses and adds nothing, and keeps the order of equal confidences. */
  lemma {:induction false} SortIsStable(found: seq<Found>, confidence: nat)
    ensures Descending(Sort(found)) && multiset(Sort(found)) == multiset(found)
    ensures OfConfidence(Sort(found), confidence) == OfConfidence(found, confidence)
    decreases |found|
  {
    if found != [] {
      var last := |found| - 1;
      SortIsStable(found[..last], confidence);
      InsertSorts(found[last], Sort(found[..last]));
      InsertIsStable(found[last], Sort(found[..last]), confidence);
      OfConfidenceAppend(found[..last], found[last], confidence);
      assert found == found[..last] + [found[last]];
    }
  }

  // --- what is persisted --------------------------------------------------------------------

  /** The matches with the given key, in order. */
  function WithKey(found: seq<Found>, key: Key): seq<Found>
    decreases |found|
  {
    if found == [] then []
    else
      var last := |found| - 1;
      WithKey(found[..last], key) + (if found[last].matched.key == key then [found[last]] else [])
  }

  lemma {:induction false} WithKeyExactly(found: seq<Found>, key: Key)
    ensures forall f :: f in WithKey(found, key) <==> f in found && f.matched.key == key
    decreases |found|
  {
    if found != [] {
      var last := |found| - 1;
      WithKeyExactly(found[..last], key);
      assert found == found[..last] + [found[last]];
    }
  }

  function EventsOf(event: Event, chosen: seq<Found>): (events: seq<Event>)
    ensures |events| == |chosen| + 1 && events[0] == event
    ensures forall i :: 0 <= i < |chosen| ==> events[i + 1] == chosen[i].related
  {
    [event] + seq(|chosen|, i requires 0 <= i < |chosen| => chosen[i].related)
  }

  function MatchesOf(chosen: seq<Found>): (matches: seq<Match>)
    ensures |matches| == |chosen| && forall i :: 0 <= i < |chosen| ==> matches[i] == chosen[i].matched
  {
    seq(|chosen|, i requires 0 <= i < |chosen| => chosen[i].matched)
  }

  function IdsOf(events: seq<Event>): (ids: seq<int>)
    ensures |ids| == |events| && forall i :: 0 <= i < |events| ==> ids[i] == events[i].id
  {
    seq(|events|, i requires 0 <= i < |events| => events[i].id)
  }

  function RelationsOf(event: Event, found: seq<Found>): (relations: seq<Relation>)
    ensures |relations| == |found|
    ensures forall i :: 0 <= i < |found| ==> relations[i] == Relation(event.id, found[i].related.id, found[i].matched)
  {
    seq(|found|, i requires 0 <= i < |found| => Relation(event.id, found[i].related.id, found[i].matched))
  }

  function Earliest(events: seq<Event>): int
    requires events != []
  {
    if |events| == 1 then events[0].occurredAt
    else Min(Earliest(events[..|events| - 1]), events[|events| - 1].occurredAt)
  }

  function Latest(events: seq<Event>): int
    requires events != []
  {
    if |events| == 1 then events[0].occurredAt
    else Max(Latest(events[..|events| - 1]), events[|events| - 1].occurredAt)
  }

  /** The persisted times are the first and the last time of the events. */
  lemma {:induction false} TimesOfEvents(events: seq<Event>)
    requires events != []
    ensures forall e :: e in events ==> Earliest(events) <= e.occurredAt <= Latest(events)
    ensures exists e :: e in events && Earliest(events) == e.occurredAt
    ensures exists e :: e in events && Latest(events) == e.occurredAt
    decreases |events|
  {
    if |events| == 1 {
      assert events[0] in events;
    } else {
      var rest, last := events[..|events| - 1], events[|events| - 1];
      TimesOfEvents(rest);
      assert events == rest + [last];
    }
  }

  predicate Blank(id: Option<string>) {
    id.None? || Text.Trim(id.value) == ""
  }

  /** A candidate of one event, keyed by its trimmed correlation id. */
  function Solo(event: Event): Persistence
    requires !Blank(event.correlationId)
  {
    Persistence(CorrelationId(Text.Trim(event.correlationId.value)), Derived([event], []),
                event.occurredAt, event.occurredAt,
                [event.id], [])
  }

  /** The sorted matches with the key of the first one. */
  function Chosen(found: seq<Found>): seq<Found>
    requires found != []
  {
    WithKey(found, found[0].matched.key)
  }

  /** A candidate of the event and everything that matched it with the strongest key; relations to all matches. */
  function Joint(event: Event, found: seq<Found>): Persistence
    requires found != []
  {
    var events := EventsOf(event, Chosen(found));
    Persistence(found[0].matched.key, Derived(events, MatchesOf(Chosen(found))), Earliest(events), Latest(events),
                IdsOf(events), RelationsOf(event, found))
  }

  /** The matches of an event, the strongest first. */
  function Ranked(event: Event, recent: seq<Event>, window: int): seq<Found> {
    Sort(FoundIn(event, recent, window))
  }

  /** What the processing of one event hands to the store. */
  function Processed(event: Event, recent: seq<Event>, window: int): Option<Persistence> {
    if event.eventType !in CORRELATABLE then None
    else if Ranked(event, recent, window) != [] then Some(Joint(event, Ranked(event, recent, window)))
    else if Blank(event.correlationId) then None
    else Some(Solo(event))
  }

  method TimeRange(events: seq<Event>) returns (firstSeen: int, lastSeen: int)
    requires events != []
    ensures firstSeen == Earliest(events) && lastSeen == Latest(events)
  {
    firstSeen, lastSeen := events[0].occurredAt, events[0].occurredAt;
    for n := 1 to |events|
      invariant firstSeen == Earliest(events[..n]) && lastSeen == Latest(events[..n])
    {
      assert events[..n + 1][..n] == events[..n];
      firstSeen, lastSeen := Min(firstSeen, events[n].occurredAt), Max(lastSeen, events[n].occurredAt);
    }
    assert events[..|events|] == events;
  }

  method CollectMatches(event: Event, recent: seq<Event>, window: int) returns (matches: seq<Found>)
    ensures matches == FoundIn(event, recent, window)
  {
    matches := [];
    for n := 0 to |recent|
      invariant matches == FoundIn(event, recent[..n], window)
    {
      assert recent[..n + 1][..n] == recent[..n];
      var found := Correlate(event, recent[n], window);
      if found.Some? {
        matches := matches + [Found(recent[n], found.value)];
      }
    }
    assert recent[..|recent|] == recent;
  }

  method SelectStrongest(event: Event, matches: seq<Found>, strongest: Key)
    returns (events: seq<Event>, relations: seq<Relation>, chosen: seq<Match>)
    ensures var kept := WithKey(matches, strongest);
            events == EventsOf(event, kept) && chosen == MatchesOf(kept) && relations == RelationsOf(event, matches)
  {
    events, relations, chosen := [event], [], [];
    for n := 0 to |matches|
      invariant events == EventsOf(event, WithKey(matches[..n], strongest))
      invariant chosen == MatchesOf(WithKey(matches[..n], strongest))
      invariant relations == RelationsOf(event, matches[..n])
    {
      assert matches[..n + 1][..n] == matches[..n];
      if matches[n].matched.key == strongest {
        events := events + [matches[n].related];
        chosen := chosen + [matches[n].matched];
      }
      relations := relations + [Relation(event.id, matches[n].related.id, matches[n].matched)];
    }
    assert matches[..|matches|] == matches;
  }

  /** `process_event`, with the store's answer as a parameter. */
  method ProcessEvent(event: Event, recent: seq<Event>, window: int) returns (p: Option<Persistence>)
    ensures p == Processed(event, recent, window)
  {
    if event.eventType !in CORRELATABLE { return None; }
    var matches := CollectMatches(event, recent, window);
    matches := Sort(matches);
    if matches == [] {
      if Blank(event.correlationId) { return None; }
      var key := CorrelationId(Text.Trim(event.correlationId.value));
      var outcome := DeriveOutcome([event], []);
      return Some(Persistence(key, outcome, event.occurredAt, event.occurredAt, [event.id], []));
    }
    var strongest := matches[0].matched.key;
    var events, relations, chosen := SelectStrongest(event, matches, strongest);
    var outcome := DeriveOutcome(events, chosen);
    var firstSeen, lastSeen := TimeRange(events);
    p := Some(Persistence(strongest, outcome, firstSeen, lastSeen, IdsOf(events), relations));
  }

  // --- the key ------------------------------------------------------------------------------

  /** The head of the sorted matches is one of them, and none is more confident. */
  lemma Strongest(event: Event, recent: seq<Event>, window: int)
    ensures var found := Ranked(event, recent, window);
            && (forall f :: f in found <==>
                  f.related in recent && Correlate(event, f.related, window) == Some(f.matched))
            && (forall f :: f in found ==> f.matched.confidence <= found[0].matched.confidence)
  {
    var found := FoundIn(event, recent, window);
    FoundExactly(event, recent, window);
    SortIsStable(found, 0);
    assert forall f :: f in Sort(found) <==> f in multiset(Sort(found));
    assert forall f :: f in found <==> f in multiset(found);
  }

  /** No recent event matches with more confidence than the first of the ranked ones. */
  lemma NoneMoreConfident(event: Event, recent: seq<Event>, window: int, r: Event)
    requires r in recent && Correlate(event, r, window).Some?
    ensures Ranked(event, recent, window) != []
    ensures Correlate(event, r, window).value.confidence <= Ranked(event, recent, window)[0].matched.confidence
  {
    Strongest(event, recent, window);
    assert Found(r, Correlate(event, r, window).value) in Ranked(event, recent, window);
  }

  /** A recent event shares the correlation id. */
  predicate IdMatch(event: Event, related: Event, window: int) {
    Comparable(event, related, window) && SameId(event, related)
  }

  /** A recent event of another type shares an indicator but not the correlation id. */
  predicate ChainMatch(event: Event, related: Event, window: int) {
    && Comparable(event, related, window) && !SameId(event, related)
    && Shared(event, related) != {} && event.eventType != related.eventType
  }

  lemma HeadConfidence(event: Event, recent: seq<Event>, window: int)
    requires Ranked(event, recent, window) != []
    ensures var head := Ranked(event, recent, window)[0].matched;
            && (head.confidence == 96
                <==> exists r :: r in recent && IdMatch(event, r, window) && r.eventType != event.eventType)
            && (82 < head.confidence < 96 ==> exists r :: r in recent && ChainMatch(event, r, window))
            && (head.confidence <= 82 ==> forall r :: r in recent ==> !ChainMatch(event, r, window))
            && (head.confidence < 82 ==> forall r :: r in recent ==> !IdMatch(event, r, window))
            && head.confidence <= 96
            && (head.key.CorrelationId? <==> head.confidence in {82, 96})
            && (head.key.CorrelationId? ==> exists r :: r in recent && IdMatch(event, r, window))
            && (head.key.CorrelationId? ==> event.correlationId == Some(head.key.id))
  {
    var found := Ranked(event, recent, window);
    Strongest(event, recent, window);
    var top := found[0];
    assert top in found;
    ConfidenceTells(event, top.related, window);
    forall r | r in recent && Correlate(event, r, window).Some?
      ensures Correlate(event, r, window).value.confidence <= top.matched.confidence
    {
      NoneMoreConfident(event, recent, window, r);
    }
    forall r | r in recent && IdMatch(event, r, window) ensures Correlate(event, r, window).Some? { }
  }

  lemma RankedWhenFound(event: Event, recent: seq<Event>, window: int)
    ensures Ranked(event, recent, window) == [] <==> forall r :: r in recent ==> Correlate(event, r, window).None?
  {
    Strongest(event, recent, window);
    var found := Ranked(event, recent, window);
    if found != [] {
      assert found[0] in found;
    } else {
      forall r | r in recent ensures Correlate(event, r, window).None? {
        if Correlate(event, r, window).Some? { NoneMoreConfident(event, recent, window, r); }
      }
    }
  }

  /**
   Which key is persisted, exactly: with any match at all, it is the event's correlation id if and only
   if some recent event shares that id and either one of those has another type or no event of another
   type shares an indicator.
   */
  lemma KeyIsCorrelationIdExactlyWhen(event: Event, recent: seq<Event>, window: int)
    requires event.eventType in CORRELATABLE && exists r :: r in recent && Correlate(event, r, window).Some?
    ensures Processed(event, recent, window).Some?
    ensures event.correlationId.Some?
            && Processed(event, recent, window).value.key == CorrelationId(event.correlationId.value)
            <==>
            && (exists r :: r in recent && IdMatch(event, r, window))
            && ((exists r :: r in recent && IdMatch(event, r, window) && r.eventType != event.eventType)
                || forall r :: r in recent ==> !ChainMatch(event, r, window))
  {
    RankedWhenFound(event, recent, window);
    HeadConfidence(event, recent, window);
  }

  // --- times and confidence -----------------------------------------------------------------

  /** The events of a joint candidate are of correlatable types and within one window of the event. */
  lemma ChosenAreComparable(event: Event, recent: seq<Event>, window: int)
    requires Ranked(event, recent, window) != []
    ensures forall e :: e in EventsOf(event, Chosen(Ranked(event, recent, window))) ==>
              e == event || Comparable(event, e, window)
  {
    var found := Ranked(event, recent, window);
    Strongest(event, recent, window);
    WithKeyExactly(found, found[0].matched.key);
    var chosen := Chosen(found);
    var events := EventsOf(event, chosen);
    forall e | e in events ensures e == event || Comparable(event, e, window) {
      var i :| 0 <= i < |events| && events[i] == e;
      if i > 0 {
        assert chosen[i - 1] in chosen;
        ConfidenceTells(event, chosen[i - 1].related, window);
      }
    }
  }

  /** Persisted times enclose the event and every event of the candidate, and reach at most one window either way. */
  lemma TimesEncloseEvent(event: Event, recent: seq<Event>, window: nat)
    requires Processed(event, recent, window).Some?
    ensures var p := Processed(event, recent, window).value;
            && event.occurredAt - window <= p.firstSeen <= event.occurredAt <= p.lastSeen <= event.occurredAt + window
            && p.lastSeen - p.firstSeen <= 2 * window
  {
    var found := Ranked(event, recent, window);
    if found != [] {
      ChosenAreComparable(event, recent, window);
      var events := EventsOf(event, Chosen(found));
      assert events[0] in events;
      TimesOfEvents(events);
    }
  }

  /**
   The persisted confidence is the best confidence of all matches, not only of those with the
   persisted key, plus four for every further event type of the candidate, up to 100.
   */
  lemma ConfidenceOfCandidate(event: Event, recent: seq<Event>, window: int)
    requires event.eventType in CORRELATABLE && Ranked(event, recent, window) != []
    ensures var found := Ranked(event, recent, window);
            && (forall r :: r in recent && Correlate(event, r, window).Some? ==>
                  Correlate(event, r, window).value.confidence <= found[0].matched.confidence)
            && Processed(event, recent, window).value.outcome.confidence
               == Intended(found[0].matched.confidence, |Types(EventsOf(event, Chosen(found)))|)
  {
    var found := Ranked(event, recent, window);
    forall r | r in recent && Correlate(event, r, window).Some?
      ensures Correlate(event, r, window).value.confidence <= found[0].matched.confidence
    {
      NoneMoreConfident(event, recent, window, r);
    }
    ChosenAreComparable(event, recent, window);
    ConfidenceAsIntended(EventsOf(event, Chosen(found)), MatchesOf(Chosen(found)));
    Strongest(event, recent, window);
    BestOfChosen(found);
  }

  lemma BestOfChosen(found: seq<Found>)
    requires found != [] && forall f :: f in found ==> f.matched.confidence <= found[0].matched.confidence
    ensures Best(MatchesOf(Chosen(found))) == found[0].matched.confidence
  {
    var chosen := Chosen(found);
    BestIsBest(MatchesOf(chosen));
    WithKeyExactly(found, found[0].matched.key);
    assert found[0] in chosen;
    var i :| 0 <= i < |chosen| && chosen[i] == found[0];
    assert MatchesOf(chosen)[i] in MatchesOf(chosen);
    forall m | m in MatchesOf(chosen) ensures m.confidence <= found[0].matched.confidence {
      var j :| 0 <= j < |chosen| && MatchesOf(chosen)[j] == m;
      assert chosen[j] in chosen;
    }
  }

  // --- contents -----------------------------------------------------------------------------

  /**
   What is handed to the store, exactly. Nothing is, if and only if the event is of no correlatable type,
   or no recent event matches it and it has no correlation id of its own.
   */
  lemma NothingExactlyWhen(event: Event, recent: seq<Event>, window: int)
    ensures Processed(event, recent, window).None?
            <==>
            || event.eventType !in CORRELATABLE
            || ((forall r :: r in recent ==> Correlate(event, r, window).None?)
                && (event.correlationId.None? || Text.Trim(event.correlationId.value) == ""))
  {
    RankedWhenFound(event, recent, window);
  }

  /**
   A lone event becomes a candidate of its own without a confidence, with its severity, times and id. If
   any recent event matches, the candidate holds the event and exactly the matching events that share the
   strongest key, and there is one relation for every matching event, whatever its key, with its match.
   */
  lemma CandidateContents(event: Event, recent: seq<Event>, window: int)
    requires Processed(event, recent, window).Some?
    ensures var p := Processed(event, recent, window).value;
            if forall r :: r in recent ==> Correlate(event, r, window).None? then
              && p.ids == [event.id] && p.relations == [] && p.firstSeen == p.lastSeen == event.occurredAt
              && p.key == CorrelationId(Text.Trim(event.correlationId.value))
              && p.outcome.confidence == 0 && p.outcome.severity == Derived([event], []).severity
            else
              && (forall id :: id in p.ids <==> id == event.id || exists r :: Supports(event, r, p.key, window, recent)
                                                                            && r.id == id)
              && (forall relation :: relation in p.relations <==>
                    exists r :: Relates(event, r, window, recent, relation))
  {
    RankedWhenFound(event, recent, window);
    var found := Ranked(event, recent, window);
    if found == [] {
      AtMostOneType(event);
    } else {
      CandidateIds(event, recent, window);
      CandidateRelations(event, recent, window);
    }
  }

  /** Recent event `r` matches with this key. */
  ghost predicate Supports(event: Event, r: Event, key: Key, window: int, recent: seq<Event>) {
    r in recent && Correlate(event, r, window).Some? && Correlate(event, r, window).value.key == key
  }

  ghost predicate Relates(event: Event, r: Event, window: int, recent: seq<Event>, relation: Relation) {
    && r in recent && Correlate(event, r, window).Some?
    && relation == Relation(event.id, r.id, Correlate(event, r, window).value)
  }

  lemma AtMostOneType(event: Event)
    ensures Derived([event], []).confidence == 0
  {
    assert Types([event]) == {event.eventType};
  }

  lemma CandidateIds(event: Event, recent: seq<Event>, window: int)
    requires Ranked(event, recent, window) != []
    ensures var p := Joint(event, Ranked(event, recent, window));
            forall id :: id in p.ids <==>
                  id == event.id || exists r :: Supports(event, r, p.key, window, recent) && r.id == id
  {
    var found := Ranked(event, recent, window);
    var key, chosen := found[0].matched.key, Chosen(found);
    var events := EventsOf(event, chosen);
    Strongest(event, recent, window);
    WithKeyExactly(found, key);
    forall id | id in IdsOf(events)
      ensures id == event.id || exists r :: Supports(event, r, key, window, recent) && r.id == id
    {
      var i :| 0 <= i < |events| && IdsOf(events)[i] == id;
      if i > 0 {
        assert chosen[i - 1] in chosen;
        assert Supports(event, chosen[i - 1].related, key, window, recent);
      }
    }
    assert IdsOf(events)[0] == event.id;
    forall r | Supports(event, r, key, window, recent) ensures r.id in IdsOf(events) {
      var f := Found(r, Correlate(event, r, window).value);
      assert f in found && f in chosen;
      var i :| 0 <= i < |chosen| && chosen[i] == f;
      assert IdsOf(events)[i + 1] == r.id;
    }
  }

  lemma CandidateRelations(event: Event, recent: seq<Event>, window: int)
    requires Ranked(event, recent, window) != []
    ensures var p := Joint(event, Ranked(event, recent, window));
            forall relation :: relation in p.relations <==> exists r :: Relates(event, r, window, recent, relation)
  {
    var found := Ranked(event, recent, window);
    var relations := RelationsOf(event, found);
    Strongest(event, recent, window);
    forall relation | relation in relations ensures exists r :: Relates(event, r, window, recent, relation) {
      var i :| 0 <= i < |relations| && relations[i] == relation;
      assert found[i] in found;
      assert Relates(event, found[i].related, window, recent, relation);
    }
    forall relation, r | Relates(event, r, window, recent, relation) ensures relation in relations {
      var f := Found(r, Correlate(event, r, window).value);
      assert f in found;
      var i :| 0 <= i < |found| && found[i] == f;
      assert relations[i] == relation;
    }
  }
}
