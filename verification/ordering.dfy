/**
  Stable sorting. A sortable element is reduced to its comparison keys and its
  position in the list being sorted; breaking ties by position is what makes
  JavaScript's `sort` stable.
 */
module Ordering {

  datatype Slot = Slot(major: int, middle: int, minor: int, index: nat)

  predicate Precedes(a: Slot, b: Slot) {
    || a.major < b.major
    || (a.major == b.major && a.middle < b.middle)
    || (a.major == b.major && a.middle == b.middle && a.minor < b.minor)
    || (a.major == b.major && a.middle == b.middle && a.minor == b.minor && a.index < b.index)
  }

  ghost predicate Ascending(s: seq<Slot>) {
    forall i, j :: 0 <= i < j < |s| ==> Precedes(s[i], s[j])
  }

  ghost predicate DistinctIndices(s: seq<Slot>) {
    forall i, j :: 0 <= i < j < |s| ==> s[i].index != s[j].index
  }

  function Insert(x: Slot, s: seq<Slot>): (r: seq<Slot>)
    ensures multiset(r) == multiset(s) + multiset{x}
  {
    if s == [] then [x]
    else if Precedes(x, s[0]) then
      [x] + s
    else
      assert s == [s[0]] + s[1..];
      [s[0]] + Insert(x, s[1..])
  }

  function Sorted(s: seq<Slot>): (r: seq<Slot>)
    ensures multiset(r) == multiset(s)
  {
    if s == [] then []
    else
      assert s == [s[0]] + s[1..];
      Insert(s[0], Sorted(s[1..]))
  }

  lemma SameElements(a: seq<Slot>, b: seq<Slot>)
    requires multiset(a) == multiset(b)
    ensures |a| == |b|
    ensures forall x :: x in a <==> x in b
  {
    assert |a| == |multiset(a)| && |b| == |multiset(b)|;
    forall x ensures x in a <==> x in b {
      assert x in a <==> x in multiset(a);
      assert x in b <==> x in multiset(b);
    }
  }

  lemma {:induction false} InsertAscending(x: Slot, s: seq<Slot>)
    requires Ascending(s)
    requires x !in s
    requires forall y :: y in s ==> y.index != x.index
    ensures Ascending(Insert(x, s))
  {
    if s == [] {
    } else if Precedes(x, s[0]) {
      forall j | 0 <= j < |s| ensures Precedes(x, s[j]) {}
    } else {
      assert s == [s[0]] + s[1..];
      var rest := Insert(x, s[1..]);
      InsertAscending(x, s[1..]);
      SameElements(rest, s[1..] + [x]);
      forall j | 0 <= j < |rest| ensures Precedes(s[0], rest[j]) {
        assert rest[j] in s[1..] + [x];
        assert s[0].index != x.index;
      }
    }
  }

  /** Sorting elements at distinct positions yields a strictly ascending list. */
  lemma {:induction false} SortedAscending(s: seq<Slot>)
    requires DistinctIndices(s)
    ensures Ascending(Sorted(s))
    ensures |Sorted(s)| == |s|
    ensures forall x :: x in Sorted(s) <==> x in s
    ensures DistinctIndices(Sorted(s))
  {
    SameElements(Sorted(s), s);
    if s != [] {
      SortedAscending(s[1..]);
      SameElements(Sorted(s[1..]), s[1..]);
      InsertAscending(s[0], Sorted(s[1..]));
    }
    var r := Sorted(s);
    forall i, j | 0 <= i < j < |r| ensures r[i].index != r[j].index {
      assert r[i] in s && r[j] in s && Precedes(r[i], r[j]);
    }
  }

  function IndexSet(s: seq<Slot>): set<nat> {
    set x | x in s :: x.index
  }

  lemma {:induction false} IndexSetSize(s: seq<Slot>)
    requires DistinctIndices(s)
    ensures |IndexSet(s)| == |s|
  {
    if s == [] {
      assert IndexSet(s) == {};
    } else {
      var front, last := s[..|s| - 1], s[|s| - 1];
      IndexSetSize(front);
      assert s == front + [last];
      assert IndexSet(s) == IndexSet(front) + {last.index};
    }
  }

  /** In an ascending list the element at position p is preceded by exactly p others. */
  lemma RankIsPosition(s: seq<Slot>, p: nat)
    requires Ascending(s) && DistinctIndices(s) && p < |s|
    ensures |set x | x in s && Precedes(x, s[p]) :: x.index| == p
    ensures (set x | x in s && Precedes(x, s[p]) :: x.index) == IndexSet(s[..p])
  {
    IndexSetSize(s[..p]);
    var before := set x | x in s && Precedes(x, s[p]) :: x.index;
    forall k ensures k in before <==> k in IndexSet(s[..p]) {
      if k in before {
        var x :| x in s && Precedes(x, s[p]) && x.index == k;
        var q :| 0 <= q < |s| && s[q] == x;
        assert q < p;
        assert x in s[..p];
      }
      if k in IndexSet(s[..p]) {
        var x :| x in s[..p] && x.index == k;
        var q :| 0 <= q < p && s[q] == x;
        assert Precedes(s[q], s[p]);
      }
    }
    assert before == IndexSet(s[..p]);
  }
}
