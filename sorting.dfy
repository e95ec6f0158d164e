/**
 * A stable sort of a sequence under a total preorder `le` ("`a` may come before `b`").
 * The engine sorts with JavaScript's Array.prototype.sort, which is stable; a
 * comparator `cmp` corresponds to `le(a, b) == (cmp(a, b) <= 0)`. The result is
 * characterised by three lemmas: it is a permutation of the input, it is sorted,
 * and elements the order cannot tell apart keep their relative input order.
 */
module Sorting {
  import opened Keyed

  /** `le` is total and transitive over all values of `T`. */
  ghost predicate TotalPreorder<T(!new)>(le: (T, T) -> bool)
  {
    && (forall a, b :: le(a, b) || le(b, a))
    && (forall a, b, c :: le(a, b) && le(b, c) ==> le(a, c))
  }

  /** Every element may come before every later one. */
  predicate Sorted<T>(s: seq<T>, le: (T, T) -> bool)
  {
    forall i, j :: 0 <= i < j < |s| ==> le(s[i], s[j])
  }

  /** The elements of `s` that `le` cannot tell apart from `x`, in their order in `s`. */
  function Equivalents<T>(s: seq<T>, x: T, le: (T, T) -> bool): seq<T>
  {
    if |s| == 0 then []
    else (if le(x, s[0]) && le(s[0], x) then [s[0]] else []) + Equivalents(s[1..], x, le)
  }

  /** Inserts `x` in front of the first element it may precede. */
  function Insert<T>(x: T, s: seq<T>, le: (T, T) -> bool): seq<T>
  {
    if |s| == 0 then [x]
    else if le(x, s[0]) then [x] + s
    else [s[0]] + Insert(x, s[1..], le)
  }

  /** Insertion sort: the first element goes in front of all its equivalents in the sorted rest. */
  function SortBy<T>(s: seq<T>, le: (T, T) -> bool): seq<T>
  {
    if |s| == 0 then [] else Insert(s[0], SortBy(s[1..], le), le)
  }

  lemma {:induction false} InsertPermutation<T>(x: T, s: seq<T>, le: (T, T) -> bool)
    ensures multiset(Insert(x, s, le)) == multiset(s) + multiset{x}
  {
    if |s| > 0 && !le(x, s[0]) {
      InsertPermutation(x, s[1..], le);
      assert Insert(x, s, le) == [s[0]] + Insert(x, s[1..], le);
      assert s == [s[0]] + s[1..];
    }
  }

  /** Every element of `Insert(x, s, le)` is `x` or an element of `s`. */
  lemma InsertElements<T>(x: T, s: seq<T>, le: (T, T) -> bool)
    ensures forall y :: y in Insert(x, s, le) ==> y == x || y in s
  {
    InsertPermutation(x, s, le);
    forall y | y in Insert(x, s, le) ensures y == x || y in s {
      assert y in multiset(Insert(x, s, le));
    }
  }

  /** An element that may precede every element of a sorted `t` can go in front of it. */
  lemma ConsSorted<T>(h: T, t: seq<T>, le: (T, T) -> bool)
    requires Sorted(t, le)
    requires forall j :: 0 <= j < |t| ==> le(h, t[j])
    ensures Sorted([h] + t, le)
  {
    var r := [h] + t;
    forall i, j | 0 <= i < j < |r| ensures le(r[i], r[j]) {
      assert r[j] == t[j - 1];
      if i > 0 {
        assert r[i] == t[i - 1];
      }
    }
  }

  lemma {:induction false} InsertSorted<T(!new)>(x: T, s: seq<T>, le: (T, T) -> bool)
    requires TotalPreorder(le)
    requires Sorted(s, le)
    ensures Sorted(Insert(x, s, le), le)
  {
    if |s| == 0 {
    } else if le(x, s[0]) {
      forall j | 0 <= j < |s| ensures le(x, s[j]) {
        if j > 0 {
          assert le(s[0], s[j]);
        }
      }
      ConsSorted(x, s, le);
    } else {
      var t := Insert(x, s[1..], le);
      InsertSorted(x, s[1..], le);
      InsertElements(x, s[1..], le);
      forall j | 0 <= j < |t| ensures le(s[0], t[j]) {
        assert t[j] in t;
        if t[j] != x {
          var k :| 0 <= k < |s[1..]| && s[1..][k] == t[j];
          assert le(s[0], s[k + 1]);
        }
      }
      ConsSorted(s[0], t, le);
    }
  }

  /** Two equivalents of `z` are equivalent to each other, so `Insert` never moves `x` past one. */
  lemma {:induction false} InsertStable<T(!new)>(x: T, s: seq<T>, z: T, le: (T, T) -> bool)
    requires TotalPreorder(le)
    ensures Equivalents(Insert(x, s, le), z, le) == Equivalents([x] + s, z, le)
  {
    if |s| == 0 {
    } else if le(x, s[0]) {
    } else {
      var t := s[1..];
      InsertStable(x, t, z, le);
      var ex := if le(z, x) && le(x, z) then [x] else [];
      var e0 := if le(z, s[0]) && le(s[0], z) then [s[0]] else [];
      assert ([s[0]] + Insert(x, t, le))[1..] == Insert(x, t, le);
      assert ([x] + t)[1..] == t;
      assert ([x] + s)[1..] == s;
      assert Equivalents([s[0]] + Insert(x, t, le), z, le) == e0 + (ex + Equivalents(t, z, le));
      assert Equivalents([x] + s, z, le) == ex + (e0 + Equivalents(t, z, le));
      assert ex == [] || e0 == [];
    }
  }

  /** The sorted sequence is a permutation of the input. */
  lemma {:induction false} SortPermutation<T>(s: seq<T>, le: (T, T) -> bool)
    ensures multiset(SortBy(s, le)) == multiset(s)
  {
    if |s| > 0 {
      SortPermutation(s[1..], le);
      InsertPermutation(s[0], SortBy(s[1..], le), le);
      assert s == [s[0]] + s[1..];
    }
  }

  /** The sorted sequence is sorted. */
  lemma {:induction false} SortSorted<T(!new)>(s: seq<T>, le: (T, T) -> bool)
    requires TotalPreorder(le)
    ensures Sorted(SortBy(s, le), le)
  {
    if |s| > 0 {
      SortSorted(s[1..], le);
      InsertSorted(s[0], SortBy(s[1..], le), le);
    }
  }

  /** The sort is stable: the equivalents of any `z` appear in the same order as in the input. */
  lemma {:induction false} SortStable<T(!new)>(s: seq<T>, z: T, le: (T, T) -> bool)
    requires TotalPreorder(le)
    ensures Equivalents(SortBy(s, le), z, le) == Equivalents(s, z, le)
  {
    if |s| > 0 {
      var r := SortBy(s[1..], le);
      SortStable(s[1..], z, le);
      InsertStable(s[0], r, z, le);
      assert ([s[0]] + r)[1..] == r;
    }
  }

  /** Inserting an element whose key is new keeps keys distinct. */
  lemma {:induction false} InsertUniqueKeys<T>(x: T, s: seq<T>, key: T -> string, le: (T, T) -> bool)
    requires UniqueKeys(s, key)
    requires forall y :: y in s ==> key(y) != key(x)
    ensures UniqueKeys(Insert(x, s, le), key)
  {
    if |s| > 0 && !le(x, s[0]) {
      var t := Insert(x, s[1..], le);
      InsertUniqueKeys(x, s[1..], key, le);
      InsertElements(x, s[1..], le);
      forall j | 0 <= j < |t| ensures key(s[0]) != key(t[j]) {
        assert t[j] in t;
        if t[j] != x {
          var k :| 0 <= k < |s[1..]| && s[1..][k] == t[j];
          assert s[k + 1] == t[j];
        }
      }
      ConsUniqueKeys(s[0], t, key);
    }
  }

  /** A record whose key no record of `t` has can go in front of `t`. */
  lemma ConsUniqueKeys<T>(h: T, t: seq<T>, key: T -> string)
    requires UniqueKeys(t, key)
    requires forall j :: 0 <= j < |t| ==> key(h) != key(t[j])
    ensures UniqueKeys([h] + t, key)
  {
    var r := [h] + t;
    forall i, j | 0 <= i < j < |r| ensures key(r[i]) != key(r[j]) {
      assert r[j] == t[j - 1];
      if i > 0 {
        assert r[i] == t[i - 1];
      }
    }
  }

  /** Sorting keeps distinct keys distinct: no key ends up twice in the output. */
  lemma {:induction false} SortUniqueKeys<T>(s: seq<T>, key: T -> string, le: (T, T) -> bool)
    requires UniqueKeys(s, key)
    ensures UniqueKeys(SortBy(s, le), key)
  {
    if |s| > 0 {
      var r := SortBy(s[1..], le);
      SortUniqueKeys(s[1..], key, le);
      SortPermutation(s[1..], le);
      forall y | y in r ensures key(y) != key(s[0]) {
        assert y in multiset(r);
        assert y in multiset(s[1..]);
        var k :| 0 <= k < |s[1..]| && s[1..][k] == y;
        assert s[k + 1] == y;
      }
      InsertUniqueKeys(s[0], r, key, le);
    }
  }
}
