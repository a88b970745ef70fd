/**
 The grouping of alert events by rule (`correlation/src/lib.rs`, `group_alert_events`). The groups
 are those of module Sessions, and the records that the source updates in place are shown to describe
 them. Times and windows are in one unit of the wall clock.
 */
module AlertGrouping {
  import opened Options
  import opened Numbers
  import opened Events
  import opened Sessions

  datatype Rule = Rule(source: Option<string>, errorClass: Option<string>, window: int)
  datatype Group<K> = Group(key: K, ids: seq<int>, firstSeen: int, lastSeen: int, confidence: nat)

  function Or(value: Option<string>, default: string): string { if value.Some? then value.value else default }

  predicate Matches(rule: Rule, event: Event) {
    && (rule.source.None? || rule.source.value == event.source)
    && (rule.errorClass.None? || event.eventType == rule.errorClass.value)
  }

  function Key(rule: Rule, event: Event): string {
    Or(rule.source, event.source) + ":" + Or(rule.errorClass, event.eventType)
  }

  /** An event as an item to be grouped: an event that the rule does not match has no key. */
  function ItemOf(event: Event, rule: Rule): Item<string> {
    Item(event.id, if Matches(rule, event) then Some(Key(rule, event)) else None, event.occurredAt)
  }

  function Items(events: seq<Event>, rule: Rule): (items: seq<Item<string>>)
    ensures |items| == |events| && forall i :: 0 <= i < |events| ==> items[i] == ItemOf(events[i], rule)
  {
    seq(|events|, i requires 0 <= i < |events| => ItemOf(events[i], rule))
  }

  // --- the records --------------------------------------------------------------------------

  /** The items of group `g`, in input order. */
  ghost function Members(homes: seq<Option<nat>>, g: nat): seq<nat>
    decreases |homes|
  {
    if homes == [] then []
    else
      var last := |homes| - 1;
      Members(homes[..last], g) + (if homes[last] == Some(g) then [last] else [])
  }

  ghost predicate Increasing(group: seq<nat>) {
    forall i, j :: 0 <= i < j < |group| ==> group[i] < group[j]
  }

  lemma {:induction false} MembersExact(homes: seq<Option<nat>>, g: nat)
    ensures Within(Members(homes, g), |homes|) && Increasing(Members(homes, g))
    ensures forall i :: 0 <= i < |homes| ==> (i in Members(homes, g) <==> homes[i] == Some(g))
    decreases |homes|
  {
    if homes != [] {
      var last := |homes| - 1;
      MembersExact(homes[..last], g);
    }
  }

  lemma MembersAppend(homes: seq<Option<nat>>, home: Option<nat>, g: nat)
    ensures Members(homes + [home], g) == Members(homes, g) + (if home == Some(g) then [|homes|] else [])
  {
    assert (homes + [home])[..|homes|] == homes;
  }

  ghost predicate ListsIds<K>(ids: seq<int>, items: seq<Item<K>>, group: seq<nat>)
    requires Within(group, |items|)
  {
    |ids| == |group| && forall i :: 0 <= i < |group| ==> ids[i] == items[group[i]].id
  }

  ghost predicate IsEarliest<K>(items: seq<Item<K>>, group: seq<nat>, t: int)
    requires Within(group, |items|)
  {
    && (forall i :: 0 <= i < |group| ==> t <= items[group[i]].time)
    && (exists i :: 0 <= i < |group| && t == items[group[i]].time)
  }

  /** 60 for the first member and 3 for every further one, up to 100. */
  function Confidence(size: nat): nat
    requires size >= 1
  {
    Min(100, 60 + 3 * (size - 1))
  }

  /** The record of a non-empty group: all its members, their earliest time, the time of the last member. */
  ghost predicate Describes<K>(record: Group<K>, items: seq<Item<K>>, group: seq<nat>)
    requires Within(group, |items|) && group != []
  {
    var last := items[group[|group| - 1]];
    && Some(record.key) == last.key
    && ListsIds(record.ids, items, group)
    && IsEarliest(items, group, record.firstSeen)
    && record.lastSeen == last.time
    && record.confidence == Confidence(|group|)
  }

  ghost predicate Recorded<K>(record: Group<K>, items: seq<Item<K>>, ledger: Ledger, g: nat)
    requires g < |ledger.latest|
  {
    var group := Members(ledger.homes, g);
    && Within(group, |items|) && group != [] && group[|group| - 1] == ledger.latest[g]
    && Describes(record, items, group)
  }

  /** The records describe the groups of the first `n` items, one record for each group. */
  ghost predicate Records<K>(records: seq<Group<K>>, items: seq<Item<K>>, window: int, n: nat)
    requires n <= |items|
  {
    var ledger := Assign(items, window, n);
    && |records| == |ledger.latest|
    && forall g :: 0 <= g < |records| ==> Recorded(records[g], items, ledger, g)
  }

  // --- the source's updates -----------------------------------------------------------------

  /** `u8::saturating_add`. */
  function SaturatingAdd(x: nat, y: nat): nat { Min(255, x + y) }

  /** What the source does to the record of a group that an item joins. */
  function Joined<K>(record: Group<K>, item: Item<K>): Group<K> {
    Group(record.key, record.ids + [item.id], Min(record.firstSeen, item.time), item.time,
          Min(SaturatingAdd(record.confidence, 3), 100))
  }

  /** The record of a new group. */
  function Started<K>(item: Item<K>): Group<K>
    requires item.key.Some?
  {
    Group(item.key.value, [item.id], item.time, item.time, 60)
  }

  /** The records after one more item, whose group number is `g`. */
  function Updated<K>(records: seq<Group<K>>, item: Item<K>, g: nat): seq<Group<K>>
    requires item.key.Some?
  {
    if g < |records| then records[g := Joined(records[g], item)] else records + [Started(item)]
  }

  lemma DescribesJoined<K>(record: Group<K>, items: seq<Item<K>>, group: seq<nat>, i: nat)
    requires i < |items| && Within(group, |items|) && group != [] && Describes(record, items, group)
    requires items[i].key == Some(record.key)
    ensures Within(group + [i], |items|) && Describes(Joined(record, items[i]), items, group + [i])
  {
    var more := group + [i];
    if record.firstSeen <= items[i].time {
      var k :| 0 <= k < |group| && record.firstSeen == items[group[k]].time;
      assert more[k] == group[k];
    } else {
      assert more[|group|] == i;
    }
  }

  /** The other records stay as they are. */
  lemma RecordedStays<K>(record: Group<K>, items: seq<Item<K>>, window: int, ledger: Ledger, i: nat, g: nat)
    requires i < |items| && |ledger.homes| == i && Within(ledger.latest, i) && g < |ledger.latest|
    requires Recorded(record, items, ledger, g)
    ensures var after := Place(items, window, ledger, i);
            g < |after.latest| && (after.homes[i] != Some(g) ==> Recorded(record, items, after, g))
  {
    MembersAppend(ledger.homes, Place(items, window, ledger, i).homes[i], g);
  }

  lemma RecordedJoins<K>(record: Group<K>, items: seq<Item<K>>, window: int, ledger: Ledger, i: nat, g: nat)
    requires i < |items| && |ledger.homes| == i && Within(ledger.latest, i) && g < |ledger.latest|
    requires Recorded(record, items, ledger, g)
    requires items[i].key.Some? && FirstFit(items, window, ledger.latest, i, 0) == g
    ensures var after := Place(items, window, ledger, i);
            g < |after.latest| && Recorded(Joined(record, items[i]), items, after, g)
  {
    MembersAppend(ledger.homes, Some(g), g);
    DescribesJoined(record, items, Members(ledger.homes, g), i);
  }

  lemma RecordedStarts<K>(items: seq<Item<K>>, window: int, ledger: Ledger, i: nat)
    requires i < |items| && Partition(items, ledger, i)
    requires items[i].key.Some? && FirstFit(items, window, ledger.latest, i, 0) == |ledger.latest|
    ensures Recorded(Started(items[i]), items, Place(items, window, ledger, i), |ledger.latest|)
  {
    MembersAppend(ledger.homes, Some(|ledger.latest|), |ledger.latest|);
    NoMembersYet(items, ledger, i);
    DescribesStarted(items, i);
  }

  lemma NoMembersYet<K>(items: seq<Item<K>>, ledger: Ledger, n: nat)
    requires n <= |items| && Partition(items, ledger, n)
    ensures Members(ledger.homes, |ledger.latest|) == []
  {
    var group := Members(ledger.homes, |ledger.latest|);
    assert group == [] || group[0] in group;
    MembersExact(ledger.homes, |ledger.latest|);
    forall i | 0 <= i < n ensures ledger.homes[i] != Some(|ledger.latest|) {
      assert Housed(items, ledger, i);
    }
  }

  lemma DescribesStarted<K>(items: seq<Item<K>>, i: nat)
    requires i < |items| && items[i].key.Some?
    ensures Describes(Started(items[i]), items, [i])
  {
    assert items[[i][0]].time == items[i].time;
  }

  lemma RecordsStep<K>(records: seq<Group<K>>, items: seq<Item<K>>, window: int, n: nat)
    requires n < |items| && Records(records, items, window, n)
    ensures if items[n].key.None? then Records(records, items, window, n + 1)
            else Records(Updated(records, items[n], FirstFit(items, window, Assign(items, window, n).latest, n, 0)),
                         items, window, n + 1)
  {
    var ledger, after := Assign(items, window, n), Assign(items, window, n + 1);
    EveryItemHasOneGroup(items, window, n);
    forall g | 0 <= g < |records|
      ensures g < |after.latest| && (after.homes[n] != Some(g) ==> Recorded(records[g], items, after, g))
    {
      RecordedStays(records[g], items, window, ledger, n, g);
    }
    if items[n].key.Some? {
      var f := FirstFit(items, window, ledger.latest, n, 0);
      if f < |records| {
        RecordedJoins(records[f], items, window, ledger, n, f);
      } else {
        RecordedStarts(items, window, ledger, n);
      }
    }
  }

  lemma FitsByRecord<K>(records: seq<Group<K>>, items: seq<Item<K>>, window: int, n: nat, g: nat)
    requires n < |items| && Records(records, items, window, n) && g < |records| && items[n].key.Some?
    ensures Fits(items, window, Assign(items, window, n).latest[g], n)
            <==> records[g].key == items[n].key.value && Abs(items[n].time - records[g].lastSeen) <= window
  {
    assert Recorded(records[g], items, Assign(items, window, n), g);
  }

  // --- the source's loop --------------------------------------------------------------------

  /** `group_alert_events`: the records describe the groups of the events. */
  method GroupAlertEvents(events: seq<Event>, rule: Rule) returns (records: seq<Group<string>>)
    ensures Records(records, Items(events, rule), rule.window, |events|)
  {
    ghost var items := Items(events, rule);
    records := [];
    for n := 0 to |events|
      invariant Records(records, items, rule.window, n)
    {
      RecordsStep(records, items, rule.window, n);
      var event := ItemOf(events[n], rule);
      if event.key.Some? {
        var g := 0;
        ghost var latest := Assign(items, rule.window, n).latest;
        while g < |records|
          invariant 0 <= g <= |records|
          invariant FirstFit(items, rule.window, latest, n, 0) == FirstFit(items, rule.window, latest, n, g)
        {
          FitsByRecord(records, items, rule.window, n, g);
          if records[g].key == event.key.value && Abs(event.time - records[g].lastSeen) <= rule.window { break; }
          g := g + 1;
        }
        if g < |records| {
          records := records[g := Joined(records[g], event)];
        } else {
          records := records + [Started(event)];
        }
      }
    }
  }

  // --- what the records are -----------------------------------------------------------------

  /**
   Over any input, every event that has the rule's source and type, as far as the rule names them, is
   listed by exactly one record, once and in input order; no other event is.
   */
  lemma RecordsPartitionEvents(events: seq<Event>, rule: Rule, i: nat)
    requires i < |events|
    ensures var homes := Homes(Items(events, rule), rule.window);
            && ((exists g: nat :: i in Members(homes, g))
                <==>
                && (rule.source.Some? ==> events[i].source == rule.source.value)
                && (rule.errorClass.Some? ==> events[i].eventType == rule.errorClass.value))
            && (forall g: nat, h: nat :: i in Members(homes, g) && i in Members(homes, h) ==> g == h)
            && (forall g: nat :: Increasing(Members(homes, g)))
  {
    var items := Items(events, rule);
    var homes := Homes(items, rule.window);
    EveryItemHasOneGroup(items, rule.window, |events|);
    assert Housed(items, Assign(items, rule.window, |events|), i);
    assert homes[i].Some? <==> Matches(rule, events[i]);
    forall g: nat ensures Increasing(Members(homes, g)) && (i in Members(homes, g) <==> homes[i] == Some(g)) {
      MembersExact(homes, g);
    }
    if homes[i].Some? {
      assert i in Members(homes, homes[i].value);
    }
  }

  /** On time-sorted input the times of a record enclose its members: the last time is the latest. */
  lemma RecordEnclosesMembers<K>(record: Group<K>, items: seq<Item<K>>, window: int, g: nat, i: nat)
    requires TimeSorted(items) && g < |Assign(items, window, |items|).latest|
    requires Recorded(record, items, Assign(items, window, |items|), g)
    requires i < |items| && Homes(items, window)[i] == Some(g)
    ensures record.firstSeen <= items[i].time <= record.lastSeen
  {
    var ledger := Assign(items, window, |items|);
    EveryItemHasOneGroup(items, window, |items|);
    assert Housed(items, ledger, i);
    MembersExact(ledger.homes, g);
    var group := Members(ledger.homes, g);
    var k :| 0 <= k < |group| && group[k] == i;
    assert record.firstSeen <= items[group[k]].time;
  }

  /** `a` and `b` name one source and type; or, for a rule that names neither, their texts meet at another colon. */
  predicate SameKey(rule: Rule, a: Event, b: Event) {
    || (a.source == b.source && a.eventType == b.eventType)
    || (rule.source.None? && rule.errorClass.None? && a.source + ":" + a.eventType == b.source + ":" + b.eventType)
  }

  /** When two matching events have one key. */
  lemma KeysTell(rule: Rule, a: Event, b: Event)
    requires Matches(rule, a) && Matches(rule, b)
    ensures Key(rule, a) == Key(rule, b) <==> SameKey(rule, a, b)
  {
    if rule.source.Some? {
      assert Key(rule, a)[|a.source| + 1..] == a.eventType && Key(rule, b)[|b.source| + 1..] == b.eventType;
    } else if rule.errorClass.Some? {
      assert Key(rule, a)[..|Key(rule, a)| - |a.eventType| - 1] == a.source;
      assert Key(rule, b)[..|Key(rule, b)| - |b.eventType| - 1] == b.source;
    }
  }

  /** Types without a colon leave no ambiguity: one key is one source and one type. */
  lemma KeysIdentify(rule: Rule, a: Event, b: Event)
    requires Matches(rule, a) && Matches(rule, b) && ':' !in a.eventType && ':' !in b.eventType
    ensures Key(rule, a) == Key(rule, b) <==> a.source == b.source && a.eventType == b.eventType
  {
    KeysTell(rule, a, b);
    if a.source + ":" + a.eventType == b.source + ":" + b.eventType {
      LastColon(a.source, a.eventType, b.source, b.eventType);
    }
  }

  lemma LastColon(a: string, x: string, b: string, y: string)
    requires a + ":" + x == b + ":" + y && ':' !in x && ':' !in y
    ensures a == b && x == y
  {
    LastColonFirst(a, x, b, y);
    LastColonFirst(b, y, a, x);
    var text := a + ":" + x;
    assert text[..|a|] == a && (b + ":" + y)[..|b|] == b;
    assert text[|a| + 1..] == x && (b + ":" + y)[|b| + 1..] == y;
  }

  lemma LastColonFirst(a: string, x: string, b: string, y: string)
    requires a + ":" + x == b + ":" + y && ':' !in x
    ensures |b| <= |a|
  {
    var text := b + ":" + y;
    assert text[|b|] == ':';
    assert text == a + ":" + x;
    assert forall n :: |a| < n < |text| ==> text[n] == x[n - |a| - 1];
  }

  /** Otherwise two sources and types can have one key. */
  lemma KeysCanMeet(a: Event, b: Event)
    requires a.source == "a:b" && a.eventType == "c" && b.source == "a" && b.eventType == "b:c"
    ensures Key(Rule(None, None, 0), a) == Key(Rule(None, None, 0), b) && a.source != b.source
  {
    assert a.source + ":" + a.eventType == "a:b:c" == b.source + ":" + b.eventType;
  }

  /**
   The confidence of a record by its number of events: 60 for one, 3 more for every other, 100 from
   the fifteenth on.
   */
  lemma ConfidenceBySize<K>(record: Group<K>, items: seq<Item<K>>, window: int, g: nat)
    requires g < |Assign(items, window, |items|).latest|
    requires Recorded(record, items, Assign(items, window, |items|), g)
    ensures |record.ids| >= 1 && (|record.ids| <= 14 ==> record.confidence == 57 + 3 * |record.ids|)
    ensures |record.ids| >= 15 ==> record.confidence == 100
  {
  }

  /**
   The session theorem for alert events: on time-sorted input, two matching events share a record
   exactly when they name one source and type (or their texts meet) and no gap between successive
   matching events of that key from the first to the second exceeds the rule's window.
   */
  lemma AlertSessions(events: seq<Event>, rule: Rule, i: nat, j: nat)
    requires forall a, b :: 0 <= a <= b < |events| ==> events[a].occurredAt <= events[b].occurredAt
    requires i <= j < |events| && Matches(rule, events[i]) && Matches(rule, events[j])
    ensures var items := Items(events, rule);
            Homes(items, rule.window)[i] == Homes(items, rule.window)[j]
            <==> SameKey(rule, events[i], events[j]) && SameSession(items, rule.window, i, j)
  {
    KeysTell(rule, events[i], events[j]);
    GroupsAreSessions(Items(events, rule), rule.window, i, j);
  }
}
