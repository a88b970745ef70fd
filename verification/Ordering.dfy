/** The order of Rust's `BTreeSet<String>`: strings by code point, which is also their order by UTF-8 bytes. */
module Ordering {

  predicate AtMost(a: string, b: string) {
    a == [] || (b != [] && (a[0] < b[0] || (a[0] == b[0] && AtMost(a[1..], b[1..]))))
  }

  lemma {:induction false} Antisymmetric(a: string, b: string)
    requires AtMost(a, b) && AtMost(b, a)
    ensures a == b
  {
    if a != [] {
      Antisymmetric(a[1..], b[1..]);
      assert a == [a[0]] + a[1..] && b == [b[0]] + b[1..];
    }
  }

  lemma {:induction false} Transitive(a: string, b: string, c: string)
    requires AtMost(a, b) && AtMost(b, c)
    ensures AtMost(a, c)
  {
    if a != [] && a[0] == b[0] == c[0] { Transitive(a[1..], b[1..], c[1..]); }
  }

  lemma {:induction false} Total(a: string, b: string)
    ensures AtMost(a, b) || AtMost(b, a)
  {
    if a != [] && b != [] && a[0] == b[0] { Total(a[1..], b[1..]); }
  }

  predicate IsFirst(s: set<string>, x: string) {
    x in s && forall y :: y in s ==> AtMost(x, y)
  }

  lemma {:induction false} FirstExists(s: set<string>) returns (x: string)
    requires s != {}
    ensures IsFirst(s, x)
    decreases s
  {
    var y :| y in s;
    Total(y, y);
    if s - {y} == {} {
      x := y;
      assert forall z :: z in s ==> z in s - {y} || z == y;
    } else {
      var z := FirstExists(s - {y});
      Total(y, z);
      x := if AtMost(y, z) then y else z;
      forall w | w in s ensures AtMost(x, w) {
        if w != y && x == y { Transitive(y, z, w); }
      }
    }
  }

  lemma FirstIsUnique(s: set<string>, x: string, y: string)
    requires IsFirst(s, x) && IsFirst(s, y)
    ensures x == y
  {
    Antisymmetric(x, y);
  }

  /** `BTreeSet::iter().next()`: the first element in order. */
  function First(s: set<string>): (x: string)
    requires s != {}
    ensures IsFirst(s, x)
  {
    assert exists x :: IsFirst(s, x) by { var x := FirstExists(s); }
    assert forall x, y :: IsFirst(s, x) && IsFirst(s, y) ==> x == y by {
      forall x, y | IsFirst(s, x) && IsFirst(s, y) ensures x == y { FirstIsUnique(s, x, y); }
    }
    var x :| x in s && IsFirst(s, x); x
  }

  /** `BTreeSet::iter`: the elements in order. */
  function Ascending(s: set<string>): (elements: seq<string>)
    ensures |elements| == |s| && forall x :: x in elements <==> x in s
    decreases s
  {
    if s == {} then [] else [First(s)] + Ascending(s - {First(s)})
  }

  /** Strictly ascending strings. */
  ghost predicate Rises(elements: seq<string>) {
    forall i, j :: 0 <= i < j < |elements| ==> AtMost(elements[i], elements[j]) && elements[i] != elements[j]
  }

  lemma RisesAfter(x: string, elements: seq<string>)
    requires Rises(elements) && forall y :: y in elements ==> AtMost(x, y) && x != y
    ensures Rises([x] + elements)
  {
    var more := [x] + elements;
    forall i, j | 0 <= i < j < |more| ensures AtMost(more[i], more[j]) && more[i] != more[j] {
      assert more[j] == elements[j - 1];
      assert elements[j - 1] in elements;
      assert i > 0 ==> more[i] == elements[i - 1];
    }
  }

  lemma {:induction false} AscendingIsSorted(s: set<string>)
    ensures Rises(Ascending(s))
    decreases s
  {
    if s != {} {
      AscendingIsSorted(s - {First(s)});
      RisesAfter(First(s), Ascending(s - {First(s)}));
    }
  }
}
