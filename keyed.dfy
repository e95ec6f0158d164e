/**
 * An object store keyed by a string primary key, as the engine's two stores
 * (transactions and goals) are: `put` replaces the record that has the same key or
 * adds a new one, `delete` removes the record with the given key, if any.
 * A store is a sequence whose keys are pairwise distinct (`UniqueKeys`).
 */
module Keyed {
  import opened Common

  /** No two records share a key. */
  predicate UniqueKeys<T>(s: seq<T>, key: T -> string)
  {
    forall i, j :: 0 <= i < j < |s| ==> key(s[i]) != key(s[j])
  }

  /** The position of the first record whose key is `k`; this is also `Array.prototype.find`. */
  function IndexOf<T>(s: seq<T>, key: T -> string, k: string): (r: Option<nat>)
    ensures r.Some? ==> r.value < |s| && key(s[r.value]) == k
    ensures r.Some? ==> forall j :: 0 <= j < r.value ==> key(s[j]) != k
    ensures r.None? ==> forall j :: 0 <= j < |s| ==> key(s[j]) != k
  {
    if |s| == 0 then None
    else if key(s[0]) == k then Some(0)
    else match IndexOf(s[1..], key, k)
      case None => None
      case Some(i) => Some(i + 1)
  }

  /** Upsert: replace the record with `x`'s key, or append `x` when there is none. */
  function Put<T>(s: seq<T>, x: T, key: T -> string): seq<T>
  {
    match IndexOf(s, key, key(x))
    case Some(i) => s[i := x]
    case None => s + [x]
  }

  /** Remove the record whose key is `k`; a missing key leaves the store as it is. */
  function Delete<T>(s: seq<T>, k: string, key: T -> string): seq<T>
  {
    match IndexOf(s, key, k)
    case Some(i) => s[..i] + s[i+1..]
    case None => s
  }

  /** After a put, `x` is the one record with its key, every other record is kept, nothing else appears. */
  lemma PutSpec<T>(s: seq<T>, x: T, key: T -> string)
    requires UniqueKeys(s, key)
    ensures UniqueKeys(Put(s, x, key), key)
    ensures x in Put(s, x, key)
    ensures forall y :: y in s && key(y) != key(x) ==> y in Put(s, x, key)
    ensures forall y :: y in Put(s, x, key) ==> y == x || (y in s && key(y) != key(x))
  {
    var r := Put(s, x, key);
    match IndexOf(s, key, key(x))
    case Some(i) =>
      assert r[i] == x;
      forall y | y in s && key(y) != key(x) ensures y in r {
        var j :| 0 <= j < |s| && s[j] == y;
        assert r[j] == y;
      }
    case None =>
      assert r[|s|] == x;
      assert forall j :: 0 <= j < |s| ==> r[j] == s[j];
  }

  /** A put of a new key appends: the store grows by exactly that record. */
  lemma PutFresh<T>(s: seq<T>, x: T, key: T -> string)
    requires forall y :: y in s ==> key(y) != key(x)
    ensures Put(s, x, key) == s + [x]
  {
  }

  /** After a delete, no record has key `k`, every other record is kept, and keys stay unique. */
  lemma DeleteSpec<T>(s: seq<T>, k: string, key: T -> string)
    requires UniqueKeys(s, key)
    ensures UniqueKeys(Delete(s, k, key), key)
    ensures forall y :: y in Delete(s, k, key) <==> y in s && key(y) != k
    ensures |Delete(s, k, key)| == if IndexOf(s, key, k).Some? then |s| - 1 else |s|
  {
    match IndexOf(s, key, k)
    case Some(i) =>
      RemoveAtElements(s, i);
      var r := s[..i] + s[i+1..];
      forall y | y in s && key(y) != k ensures y in r {
        var j :| 0 <= j < |s| && s[j] == y;
        if j < i { assert r[j] == y; } else { assert j != i; assert r[j - 1] == y; }
      }
      forall y | y in r ensures y in s && key(y) != k {
        var j :| 0 <= j < |r| && r[j] == y;
        if j < i { assert s[j] == y; } else { assert s[j + 1] == y; }
      }
    case None =>
  }

  /** Removing the element at `i` shifts the later elements down by one. */
  lemma RemoveAtElements<T>(s: seq<T>, i: nat)
    requires i < |s|
    ensures |s[..i] + s[i+1..]| == |s| - 1
    ensures forall j :: 0 <= j < |s| - 1 ==> (s[..i] + s[i+1..])[j] == if j < i then s[j] else s[j + 1]
  {
  }
}
