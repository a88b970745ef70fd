/**
 Grouping of a stream of keyed, timed items in place: an item joins the first group of its key whose
 latest member is at most a window away, or starts a group. The groups are described by the group
 number of every item. On time-sorted input they are shown to be the sessions of each key.
 */
module Sessions {
  import opened Options
  import opened Numbers

  /** An item without a key is not grouped. */
  datatype Item<K> = Item(id: int, key: Option<K>, time: int)

  /** The group of each item, if it is in one, and the latest item of each group. */
  datatype Ledger = Ledger(homes: seq<Option<nat>>, latest: seq<nat>)

  /** Item `i` may join a group whose latest item is `l`. */
  predicate Fits<K(==)>(items: seq<Item<K>>, window: int, l: nat, i: nat)
    requires l < |items| && i < |items|
  {
    items[l].key == items[i].key && Abs(items[i].time - items[l].time) <= window
  }

  ghost predicate Within(latest: seq<nat>, n: nat) {
    forall g :: 0 <= g < |latest| ==> latest[g] < n
  }

  /** The first group from `from` on that item `i` fits, or the number of groups. */
  ghost function FirstFit<K>(items: seq<Item<K>>, window: int, latest: seq<nat>, i: nat, from: nat): (g: nat)
    requires i < |items| && from <= |latest| && Within(latest, |items|)
    ensures from <= g <= |latest| && (g < |latest| ==> Fits(items, window, latest[g], i))
    ensures forall h :: from <= h < g ==> !Fits(items, window, latest[h], i)
    decreases |latest| - from
  {
    if from == |latest| || Fits(items, window, latest[from], i) then from
    else FirstFit(items, window, latest, i, from + 1)
  }

  ghost function Place<K>(items: seq<Item<K>>, window: int, ledger: Ledger, i: nat): (after: Ledger)
    requires i < |items| && Within(ledger.latest, i)
    ensures Within(after.latest, i + 1)
  {
    if items[i].key.None? then Ledger(ledger.homes + [None], ledger.latest)
    else
      var g := FirstFit(items, window, ledger.latest, i, 0);
      Ledger(ledger.homes + [Some(g)],
             if g < |ledger.latest| then ledger.latest[g := i] else ledger.latest + [i])
  }

  /** The groups of the first `n` items. */
  ghost function Assign<K>(items: seq<Item<K>>, window: int, n: nat): (ledger: Ledger)
    requires n <= |items|
    ensures Within(ledger.latest, n) && |ledger.homes| == n
  {
    if n == 0 then Ledger([], []) else Place(items, window, Assign(items, window, n - 1), n - 1)
  }

  ghost function Homes<K>(items: seq<Item<K>>, window: int): (homes: seq<Option<nat>>)
    ensures |homes| == |items|
  {
    Assign(items, window, |items|).homes
  }

  // --- every keyed item is in exactly one group ---------------------------------------------

  /** Item `i` has a group if it has a key, and its group is one of that key. */
  ghost predicate Housed<K>(items: seq<Item<K>>, ledger: Ledger, i: nat)
    requires i < |items| && i < |ledger.homes| && Within(ledger.latest, |items|)
  {
    && (ledger.homes[i].Some? <==> items[i].key.Some?)
    && (ledger.homes[i].Some? ==>
          var g := ledger.homes[i].value;
          g < |ledger.latest| && i <= ledger.latest[g] && items[i].key == items[ledger.latest[g]].key)
  }

  ghost predicate Partition<K>(items: seq<Item<K>>, ledger: Ledger, n: nat)
    requires n <= |items|
  {
    && |ledger.homes| == n && Within(ledger.latest, n)
    && (forall i :: 0 <= i < n ==> Housed(items, ledger, i))
    && (forall g :: 0 <= g < |ledger.latest| ==> ledger.homes[ledger.latest[g]] == Some(g))
  }

  lemma PlacePartition<K>(items: seq<Item<K>>, window: int, ledger: Ledger, n: nat)
    requires n < |items| && Partition(items, ledger, n)
    ensures Partition(items, Place(items, window, ledger, n), n + 1)
  {
    var after := Place(items, window, ledger, n);
    forall i | 0 <= i <= n ensures Housed(items, after, i) {
      if i < n { assert Housed(items, ledger, i); }
    }
    forall g | 0 <= g < |after.latest| ensures after.homes[after.latest[g]] == Some(g) {
      if after.latest[g] < n { assert ledger.homes[ledger.latest[g]] == Some(g); }
    }
  }

  /**
   Over any input, in any order: exactly the keyed items have a group, and one each; a group has one
   key; every group has an item.
   */
  lemma {:induction false} EveryItemHasOneGroup<K>(items: seq<Item<K>>, window: int, n: nat)
    requires n <= |items|
    ensures Partition(items, Assign(items, window, n), n)
  {
    if n > 0 {
      EveryItemHasOneGroup(items, window, n - 1);
      PlacePartition(items, window, Assign(items, window, n - 1), n - 1);
    }
  }

  // --- sessions -----------------------------------------------------------------------------

  ghost predicate TimeSorted<K>(items: seq<Item<K>>) {
    forall i, j :: 0 <= i <= j < |items| ==> items[i].time <= items[j].time
  }

  /** Items of one key. */
  predicate Alike<K(==)>(items: seq<Item<K>>, i: nat, j: nat)
    requires i < |items| && j < |items|
  {
    items[i].key.Some? && items[i].key == items[j].key
  }

  /** Item `j` is the next item of its key after item `i`. */
  ghost predicate Successive<K>(items: seq<Item<K>>, i: nat, j: nat)
    requires j < |items|
  {
    i < j && Alike(items, i, j) && forall k :: i < k < j ==> !Alike(items, k, j)
  }

  /** The session specification: no gap between successive items of the key exceeds the window. */
  ghost predicate SameSession<K>(items: seq<Item<K>>, window: int, i: nat, j: nat)
    requires i <= j < |items|
  {
    forall a: nat, b: nat :: i <= a < b <= j && Alike(items, b, j) && Successive(items, a, b) ==>
      items[b].time - items[a].time <= window
  }

  /** If item `j` of a key is in a later group than item `i`, it comes later, and by more than the window. */
  ghost predicate Apart<K>(items: seq<Item<K>>, window: int, homes: seq<Option<nat>>, i: nat, j: nat)
    requires i < |homes| <= |items| && j < |homes|
  {
    homes[i].Some? && homes[j].Some? && homes[i].value < homes[j].value && items[i].key == items[j].key
    ==> i < j && items[i].time + window < items[j].time
  }

  ghost predicate Ordered<K>(items: seq<Item<K>>, window: int, homes: seq<Option<nat>>)
    requires |homes| <= |items|
  {
    forall i, j :: 0 <= i < |homes| && 0 <= j < |homes| ==> Apart(items, window, homes, i, j)
  }

  /** Only the latest group of its key can take a new item. */
  lemma OnlyLatestFits<K>(items: seq<Item<K>>, window: int, ledger: Ledger, n: nat, i: nat)
    requires TimeSorted(items) && n < |items| && items[n].key.Some?
    requires Partition(items, ledger, n) && Ordered(items, window, ledger.homes)
    requires i < n && ledger.homes[i].Some? && items[i].key == items[n].key
    ensures var f := FirstFit(items, window, ledger.latest, n, 0);
            && ledger.homes[i].value <= f
            && (ledger.homes[i].value < f ==> items[i].time + window < items[n].time)
  {
    var f, g := FirstFit(items, window, ledger.latest, n, 0), ledger.homes[i].value;
    assert Housed(items, ledger, i);
    assert f < |ledger.latest| ==>
        Fits(items, window, ledger.latest[f], n) && Apart(items, window, ledger.homes, ledger.latest[f], i);
    if g < f {
      assert !Fits(items, window, ledger.latest[g], n);
    }
  }

  lemma PlaceOrdered<K>(items: seq<Item<K>>, window: int, ledger: Ledger, n: nat)
    requires TimeSorted(items) && n < |items|
    requires Partition(items, ledger, n) && Ordered(items, window, ledger.homes)
    ensures |Place(items, window, ledger, n).homes| == n + 1
    ensures Ordered(items, window, Place(items, window, ledger, n).homes)
  {
    var homes := Place(items, window, ledger, n).homes;
    forall i, j | 0 <= i <= n && 0 <= j <= n ensures Apart(items, window, homes, i, j) {
      if i < n && j < n {
        assert Apart(items, window, ledger.homes, i, j);
      } else if i < n && homes[i].Some? && homes[n].Some? && items[i].key == items[n].key {
        OnlyLatestFits(items, window, ledger, n, i);
      } else if j < n && homes[j].Some? && homes[n].Some? && items[j].key == items[n].key {
        OnlyLatestFits(items, window, ledger, n, j);
      }
    }
  }

  lemma {:induction false} AssignOrdered<K>(items: seq<Item<K>>, window: int, n: nat)
    requires TimeSorted(items) && n <= |items|
    ensures Ordered(items, window, Assign(items, window, n).homes)
  {
    if n > 0 {
      AssignOrdered(items, window, n - 1);
      EveryItemHasOneGroup(items, window, n - 1);
      PlaceOrdered(items, window, Assign(items, window, n - 1), n - 1);
    }
  }

  /** Later items never move earlier ones. */
  lemma {:induction false} Stable<K>(items: seq<Item<K>>, window: int, n: nat, m: nat)
    requires n <= m <= |items|
    ensures Assign(items, window, n).homes == Assign(items, window, m).homes[..n]
    decreases m
  {
    if n < m {
      Stable(items, window, n, m - 1);
    }
  }

  /** On time-sorted input, successive items of a key share a group exactly when the gap is within the window. */
  lemma SuccessiveTogether<K>(items: seq<Item<K>>, window: int, i: nat, j: nat)
    requires TimeSorted(items) && j < |items| && Successive(items, i, j)
    ensures Homes(items, window)[i] == Homes(items, window)[j] <==> items[j].time - items[i].time <= window
  {
    var ledger := Assign(items, window, j);
    EveryItemHasOneGroup(items, window, j);
    AssignOrdered(items, window, j);
    Stable(items, window, j, |items|);
    Stable(items, window, j + 1, |items|);
    assert Homes(items, window)[i] == ledger.homes[i];
    assert Homes(items, window)[j] == Assign(items, window, j + 1).homes[j]
           == Some(FirstFit(items, window, ledger.latest, j, 0));
    assert Housed(items, ledger, i);
    OnlyLatestFits(items, window, ledger, j, i);
    assert ledger.latest[ledger.homes[i].value] == i by {
      assert Alike(items, ledger.latest[ledger.homes[i].value], j);
    }
    assert Fits(items, window, i, j) <==> items[j].time - items[i].time <= window;
  }

  lemma Predecessor<K>(items: seq<Item<K>>, i: nat, j: nat) returns (p: nat)
    requires i < j < |items| && Alike(items, i, j)
    ensures i <= p < j && Successive(items, p, j)
  {
    p := j - 1;
    while !Alike(items, p, j)
      invariant i <= p < j
      invariant forall k :: p < k < j ==> !Alike(items, k, j)
      decreases p
    {
      p := p - 1;
    }
  }

  lemma SessionStep<K>(items: seq<Item<K>>, window: int, i: nat, p: nat, j: nat)
    requires i <= p < j < |items| && Alike(items, i, j) && Successive(items, p, j)
    ensures SameSession(items, window, i, j)
            <==> SameSession(items, window, i, p) && items[j].time - items[p].time <= window
  {
    forall a: nat, b: nat | i <= a < b <= j && Alike(items, b, j) && Successive(items, a, b)
      ensures b <= p || (a == p && b == j)
    {
    }
  }

  /**
   The session theorem: on time-sorted input the in-place grouping is the gap-based one. Two keyed
   items share a group exactly when they have one key and no gap between successive items of that key
   from the first to the second exceeds the window.
   */
  lemma {:induction false} GroupsAreSessions<K>(items: seq<Item<K>>, window: int, i: nat, j: nat)
    requires TimeSorted(items) && i <= j < |items| && items[i].key.Some? && items[j].key.Some?
    ensures Homes(items, window)[i] == Homes(items, window)[j]
            <==> Alike(items, i, j) && SameSession(items, window, i, j)
    decreases j
  {
    EveryItemHasOneGroup(items, window, |items|);
    assert Housed(items, Assign(items, window, |items|), i) && Housed(items, Assign(items, window, |items|), j);
    if Alike(items, i, j) && i < j {
      var p := Predecessor(items, i, j);
      SuccessiveTogether(items, window, p, j);
      GroupsAreSessions(items, window, i, p);
      SessionStep(items, window, i, p, j);
      AssignOrdered(items, window, |items|);
      var homes := Homes(items, window);
      assert Housed(items, Assign(items, window, |items|), p);
      assert Apart(items, window, homes, i, p) && Apart(items, window, homes, p, j)
             && Apart(items, window, homes, p, i) && Apart(items, window, homes, j, p);
    }
  }
}
