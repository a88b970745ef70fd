/** The indicators in an event payload (`correlation/src/lib.rs`, `extract_indicators`). */
module Indicators {
  import opened Options
  import Text

  /** A payload; a number is given by its printed form. */
  datatype Payload =
    | Null
    | Bool(truth: bool)
    | Number(printed: string)
    | Str(text: string)
    | Arr(values: seq<Payload>)
    | Obj(members: seq<(string, Payload)>)

  function LowerChar(c: char): char {
    if 'A' <= c <= 'Z' then (c as int + 32) as char else c
  }

  /** `to_ascii_lowercase`. */
  function Lower(s: string): (r: string)
    ensures |r| == |s| && forall i :: 0 <= i < |s| ==> r[i] == LowerChar(s[i])
  {
    seq(|s|, i requires 0 <= i < |s| => LowerChar(s[i]))
  }

  const MEANINGFUL: set<string> :=
    {"resource", "target", "indicator", "ip", "ip_address", "source_ip", "destination_ip", "prefix", "asn", "domain",
     "url", "hash", "correlation_id"}

  /** The indicators of a leaf under the name of the nearest enclosing object member. */
  function OfLeaf(leaf: Payload, key: Option<string>): set<string> {
    match leaf
    case Str(text) =>
      var normalized := Lower(Text.Trim(text));
      var name := if key.Some? then Lower(key.value) else "";
      if name in MEANINGFUL && 3 <= Text.ByteLength(normalized) <= 512 then {normalized} else {}
    case Number(printed) => if key.Some? && Lower(key.value) == "asn" then {printed} else {}
    case _ => {}
  }

  /** The number of children of an object or an array. */
  function Width(value: Payload): nat {
    match value case Obj(members) => |members| case Arr(values) => |values| case _ => 0
  }

  /** Child number `i`, with the name it is read under. */
  function Child(value: Payload, key: Option<string>, i: nat): (child: Leaf)
    requires i < Width(value)
    ensures child.value < value
  {
    if value.Obj? then Leaf(value.members[i].1, Some(value.members[i].0)) else Leaf(value.values[i], key)
  }

  /** A value and the name of the nearest enclosing object member. */
  datatype Leaf = Leaf(value: Payload, key: Option<string>)

  /** `collect_indicators`. */
  function Collect(value: Payload, key: Option<string>): set<string>
    decreases value, 1, 0
  {
    if value.Obj? || value.Arr? then CollectChildren(value, key, Width(value)) else OfLeaf(value, key)
  }

  /** The indicators of the first `n` children. */
  function CollectChildren(value: Payload, key: Option<string>, n: nat): set<string>
    requires n <= Width(value)
    decreases value, 0, n
  {
    if n == 0 then {}
    else
      var child := Child(value, key, n - 1);
      CollectChildren(value, key, n - 1) + Collect(child.value, child.key)
  }

  function Extract(value: Payload): set<string> {
    Collect(value, None)
  }

  /** The source's accumulation into one set gives the same indicators. */
  method CollectInto(value: Payload, key: Option<string>, found: set<string>) returns (result: set<string>)
    ensures result == found + Collect(value, key)
    decreases value
  {
    if value.Obj? || value.Arr? {
      result := found;
      for n := 0 to Width(value)
        invariant result == found + CollectChildren(value, key, n)
      {
        var child := Child(value, key, n);
        result := CollectInto(child.value, child.key, result);
      }
    } else {
      result := found + OfLeaf(value, key);
    }
  }

  method ExtractIndicators(value: Payload) returns (result: set<string>)
    ensures result == Extract(value)
  {
    result := CollectInto(value, None, {});
  }

  // --- which leaves count -------------------------------------------------------------------

  /** The leaf at a path of child numbers, with the name it is read under. */
  function LeafAt(value: Payload, key: Option<string>, path: seq<nat>): Option<Leaf>
    decreases path
  {
    if value.Obj? || value.Arr? then
      if path == [] || path[0] >= Width(value) then None
      else var child := Child(value, key, path[0]); LeafAt(child.value, child.key, path[1..])
    else if path == [] then Some(Leaf(value, key)) else None
  }

  ghost predicate AtLeaf(value: Payload, key: Option<string>, path: seq<nat>, x: string) {
    var leaf := LeafAt(value, key, path);
    leaf.Some? && x in OfLeaf(leaf.value.value, leaf.value.key)
  }

  lemma {:induction false} OfSomeChild(value: Payload, key: Option<string>, n: nat, x: string) returns (i: nat)
    requires n <= Width(value) && x in CollectChildren(value, key, n)
    ensures i < n && x in Collect(Child(value, key, i).value, Child(value, key, i).key)
  {
    i := n - 1;
    if x in CollectChildren(value, key, n - 1) { i := OfSomeChild(value, key, n - 1, x); }
  }

  lemma {:induction false} OfEveryChild(value: Payload, key: Option<string>, n: nat, i: nat)
    requires i < n <= Width(value)
    ensures Collect(Child(value, key, i).value, Child(value, key, i).key) <= CollectChildren(value, key, n)
  {
    if i < n - 1 { OfEveryChild(value, key, n - 1, i); }
  }

  lemma {:induction false} CollectedAtLeaf(value: Payload, key: Option<string>, x: string) returns (path: seq<nat>)
    requires x in Collect(value, key)
    ensures AtLeaf(value, key, path, x)
    decreases value
  {
    path := [];
    if value.Obj? || value.Arr? {
      var i := OfSomeChild(value, key, Width(value), x);
      var rest := CollectedAtLeaf(Child(value, key, i).value, Child(value, key, i).key, x);
      path := [i] + rest;
      assert path[1..] == rest;
    }
  }

  lemma {:induction false} LeafIsCollected(value: Payload, key: Option<string>, path: seq<nat>, x: string)
    requires AtLeaf(value, key, path, x)
    ensures x in Collect(value, key)
    decreases path
  {
    if value.Obj? || value.Arr? {
      var child := Child(value, key, path[0]);
      LeafIsCollected(child.value, child.key, path[1..], x);
      OfEveryChild(value, key, Width(value), path[0]);
    }
  }

  /** The indicators are exactly those of the leaves, at any depth, under their nearest member name. */
  lemma ExtractExact(value: Payload, x: string)
    ensures x in Extract(value) <==> exists path :: AtLeaf(value, None, path, x)
  {
    if x in Extract(value) {
      var path := CollectedAtLeaf(value, None, x);
    }
    if path :| AtLeaf(value, None, path, x) {
      LeafIsCollected(value, None, path, x);
    }
  }

  /**
   The leaf shows `x`: a text of 3 to 512 bytes, trimmed and in lower case, under one of these
   names, or an AS number.
   */
  predicate Shows(leaf: Leaf, x: string) {
    && leaf.key.Some?
    && var name := Lower(leaf.key.value);
    || (leaf.value.Str? && x == Lower(Text.Trim(leaf.value.text)) && 3 <= Text.ByteLength(x) <= 512
        && name in {"resource", "target", "indicator", "ip", "ip_address", "source_ip", "destination_ip", "prefix",
                    "asn", "domain", "url", "hash", "correlation_id"})
    || (leaf.value.Number? && x == leaf.value.printed && name == "asn")
  }

  lemma OfLeafShows(leaf: Leaf, x: string)
    ensures x in OfLeaf(leaf.value, leaf.key) <==> Shows(leaf, x)
  {
  }

  ghost predicate ShownAt(value: Payload, path: seq<nat>, x: string) {
    LeafAt(value, None, path).Some? && Shows(LeafAt(value, None, path).value, x)
  }

  /** The indicators of a payload, exactly: what the leaves at any depth show under their nearest member name. */
  lemma IndicatorsTell(value: Payload, x: string)
    ensures x in Extract(value) <==> exists path :: ShownAt(value, path, x)
  {
    ExtractExact(value, x);
    if x in Extract(value) {
      var path :| AtLeaf(value, None, path, x);
      OfLeafShows(LeafAt(value, None, path).value, x);
      assert ShownAt(value, path, x);
    }
    if path :| ShownAt(value, path, x) {
      OfLeafShows(LeafAt(value, None, path).value, x);
      assert AtLeaf(value, None, path, x);
    }
  }
}
