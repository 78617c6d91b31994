/** Finding, replacing, appending and removing by key in a list. */
module Lookup {

  /** The first position of `key`, or the length when it is absent. */
  function First<K(==)>(keys: seq<K>, key: K): (k: nat)
    ensures k <= |keys|
    ensures k < |keys| ==> keys[k] == key
    ensures forall i :: 0 <= i < k ==> keys[i] != key
  {
    if keys == [] || keys[0] == key then 0
    else
      var k := First(keys[1..], key);
      assert forall i :: 0 < i < k + 1 ==> keys[i] == keys[1..][i - 1];
      k + 1
  }

  predicate Distinct<K(==)>(keys: seq<K>) {
    forall i, j :: 0 <= i < j < |keys| ==> keys[i] != keys[j]
  }

  lemma ConsDistinct<K>(key: K, keys: seq<K>)
    ensures Distinct([key] + keys) ==> Distinct(keys) && key !in keys
  {
    var all := [key] + keys;
    assert forall i :: 0 <= i < |keys| ==> keys[i] == all[i + 1];
    if key in keys {
      var i :| 0 <= i < |keys| && keys[i] == key;
      assert all[0] == all[i + 1];
    }
  }

  function Without<T>(s: seq<T>, k: nat): seq<T>
    requires k < |s|
  {
    s[..k] + s[k + 1..]
  }

  /** `now` is `before` with `x` put at position k. */
  ghost predicate PutAt<T>(before: seq<T>, now: seq<T>, k: nat, x: T) {
    k <= |before| && now == if k < |before| then before[k := x] else before + [x]
  }

  /** Distinct values in the order of their first occurrence. */
  function Dedupe<T(==,!new)>(s: seq<T>): (r: seq<T>)
    ensures Distinct(r)
    ensures forall x :: x in r <==> x in s
  {
    if s == [] then []
    else
      var n := |s| - 1;
      var r := Dedupe(s[..n]);
      assert s == s[..n] + [s[n]];
      if s[n] in r then r else r + [s[n]]
  }

  lemma DedupeMore<T(!new)>(s: seq<T>, x: T)
    ensures Dedupe(s + [x]) == if x in Dedupe(s) then Dedupe(s) else Dedupe(s) + [x]
  {
    assert (s + [x])[..|s|] == s;
  }

  lemma {:induction false} DedupeDistinct<T(!new)>(s: seq<T>)
    requires Distinct(s)
    ensures Dedupe(s) == s
  {
    if s != [] {
      var n := |s| - 1;
      DedupeDistinct(s[..n]);
      assert s == s[..n] + [s[n]];
    }
  }

  /** Values keep the order in which they first occur. */
  lemma {:induction false} DedupeInOrder<T(!new)>(s: seq<T>, i: nat, j: nat)
    requires i < j < |Dedupe(s)|
    ensures First(s, Dedupe(s)[i]) < First(s, Dedupe(s)[j])
  {
    var n := |s| - 1;
    var r := Dedupe(s[..n]);
    assert s == s[..n] + [s[n]];
    FirstOfPrefix(s, n, r[i]);
    if j < |r| {
      DedupeInOrder(s[..n], i, j);
      FirstOfPrefix(s, n, r[j]);
    } else {
      assert s[n] !in s[..n];
      assert forall k :: 0 <= k < n ==> s[k] in s[..n];
    }
  }

  lemma FirstOfPrefix<T>(s: seq<T>, n: nat, x: T)
    requires n <= |s| && x in s[..n]
    ensures First(s, x) == First(s[..n], x) < n
  {
    var k := First(s[..n], x);
    assert s[k] == x;
    assert forall i :: 0 <= i < k ==> s[i] == s[..n][i];
  }

  /** Replacing at a key's position keeps the keys; removing one drops just it. */
  lemma RemovedKey<K(!new)>(keys: seq<K>, k: nat)
    requires Distinct(keys) && k < |keys|
    ensures Distinct(Without(keys, k))
    ensures forall x :: x in Without(keys, k) <==> x in keys && x != keys[k]
  {
  }
}
