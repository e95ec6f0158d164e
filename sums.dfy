/**
 * Sums of a real-valued measure over a sequence. Every accumulator loop of the
 * accounting engine (balances, goal totals, category totals) adds up one such
 * measure, so the running total after `i` steps is `Sum(s[..i], f)`.
 */
module Sums {

  /** The sum of `f` over the elements of `s`, taken front to back. */
  function Sum<T>(s: seq<T>, f: T -> real): real
  {
    if |s| == 0 then 0.0 else f(s[0]) + Sum(s[1..], f)
  }

  /** Appending one element adds its measure: the step of every accumulator loop. */
  lemma {:induction false} SumAppend<T>(s: seq<T>, x: T, f: T -> real)
    ensures Sum(s + [x], f) == Sum(s, f) + f(x)
  {
    if |s| > 0 {
      assert (s + [x])[1..] == s[1..] + [x];
      SumAppend(s[1..], x, f);
    }
  }

  /** The sum over a concatenation is the sum of the sums. */
  lemma {:induction false} SumConcat<T>(a: seq<T>, b: seq<T>, f: T -> real)
    ensures Sum(a + b, f) == Sum(a, f) + Sum(b, f)
  {
    if |a| == 0 {
      assert a + b == b;
    } else {
      assert (a + b)[1..] == a[1..] + b;
      SumConcat(a[1..], b, f);
    }
  }

  /** Dropping the element at `i` subtracts exactly its measure. */
  lemma SumRemoveAt<T>(s: seq<T>, i: nat, f: T -> real)
    requires i < |s|
    ensures Sum(s[..i] + s[i+1..], f) == Sum(s, f) - f(s[i])
  {
    assert s == s[..i] + ([s[i]] + s[i+1..]);
    SumConcat(s[..i], [s[i]] + s[i+1..], f);
    SumConcat(s[..i], s[i+1..], f);
    assert Sum([s[i]] + s[i+1..], f) == f(s[i]) + Sum(s[i+1..], f) by {
      assert ([s[i]] + s[i+1..])[1..] == s[i+1..];
    }
  }

  /** Replacing the element at `i` by `v` changes the sum by the difference of the two measures. */
  lemma SumUpdate<T>(s: seq<T>, i: nat, v: T, f: T -> real)
    requires i < |s|
    ensures Sum(s[i := v], f) == Sum(s, f) - f(s[i]) + f(v)
  {
    var t := s[i := v];
    assert t[..i] + t[i+1..] == s[..i] + s[i+1..];
    SumRemoveAt(s, i, f);
    SumRemoveAt(t, i, f);
  }

  /** The multiset of `b` is that of `b` without its element at `k`, plus that element. */
  lemma MultisetRemoveAt<T>(b: seq<T>, k: nat)
    requires k < |b|
    ensures multiset(b) == multiset(b[..k] + b[k+1..]) + multiset{b[k]}
  {
    assert b == b[..k] + [b[k]] + b[k+1..];
  }

  /** Taking a common element off the front of `a` and out of `b` at `k` keeps the two permutations of each other. */
  lemma RemoveMatching<T>(a: seq<T>, b: seq<T>, k: nat)
    requires multiset(a) == multiset(b) && |a| > 0 && k < |b| && b[k] == a[0]
    ensures multiset(a[1..]) == multiset(b[..k] + b[k+1..])
  {
    var rest := b[..k] + b[k+1..];
    assert a == [a[0]] + a[1..];
    MultisetRemoveAt(b, k);
    forall x ensures multiset(a[1..])[x] == multiset(rest)[x] {
      assert multiset(a)[x] == multiset(b)[x];
    }
  }

  /** Sums are invariant under permutation. */
  lemma {:induction false} SumPermutation<T>(a: seq<T>, b: seq<T>, f: T -> real)
    requires multiset(a) == multiset(b)
    ensures Sum(a, f) == Sum(b, f)
  {
    if |a| > 0 {
      assert a[0] in multiset(b);
      var k :| 0 <= k < |b| && b[k] == a[0];
      RemoveMatching(a, b, k);
      SumPermutation(a[1..], b[..k] + b[k+1..], f);
      SumRemoveAt(b, k, f);
    }
  }

  /** A sum of measures that are pointwise the sum of two others splits accordingly. */
  lemma {:induction false} SumSplit<T>(s: seq<T>, f: T -> real, g: T -> real, h: T -> real)
    requires forall i :: 0 <= i < |s| ==> f(s[i]) == g(s[i]) + h(s[i])
    ensures Sum(s, f) == Sum(s, g) + Sum(s, h)
  {
    if |s| > 0 {
      SumSplit(s[1..], f, g, h);
    }
  }

  /** A sum of non-negative measures is non-negative. */
  lemma {:induction false} SumNonNegative<T>(s: seq<T>, f: T -> real)
    requires forall i :: 0 <= i < |s| ==> f(s[i]) >= 0.0
    ensures Sum(s, f) >= 0.0
  {
    if |s| > 0 {
      SumNonNegative(s[1..], f);
    }
  }
}
