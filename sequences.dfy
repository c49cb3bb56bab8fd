/**
  Sequences without repeated elements: the shape of an insertion-ordered set,
  which is what the graph keeps its edges in.
 */
module Sequences {

  /** No element occurs twice. */
  predicate NoDup<T(==)>(s: seq<T>)
  {
    forall i, j :: 0 <= i < j < |s| ==> s[i] != s[j]
  }

  /** The set of elements of `s`. */
  function Elements<T(==)>(s: seq<T>): set<T>
  {
    set x | x in s
  }

  /** `f` applied to every element of `s`, in order. */
  function Map<T, U>(s: seq<T>, f: T -> U): (r: seq<U>)
    ensures |r| == |s|
    ensures forall i :: 0 <= i < |s| ==> r[i] == f(s[i])
  {
    seq(|s|, i requires 0 <= i < |s| => f(s[i]))
  }

  lemma MapConcat<T, U>(a: seq<T>, b: seq<T>, f: T -> U)
    ensures Map(a + b, f) == Map(a, f) + Map(b, f)
  {
    var l, r := Map(a + b, f), Map(a, f) + Map(b, f);
    assert |l| == |r|;
    forall i | 0 <= i < |l| ensures l[i] == r[i] {
      if i < |a| {
        assert (a + b)[i] == a[i];
      } else {
        assert (a + b)[i] == b[i - |a|];
      }
    }
  }

  /** Dropping the head of a duplicate-free sequence keeps it so, and the head is not in the rest. */
  lemma NoDupTail<T>(s: seq<T>)
    requires NoDup(s) && s != []
    ensures NoDup(s[1..]) && s[0] !in s[1..]
  {
    var t := s[1..];
    forall i, j | 0 <= i < j < |t| ensures t[i] != t[j] {
      assert t[i] == s[i + 1] && t[j] == s[j + 1];
    }
    forall k | 0 <= k < |t| ensures t[k] != s[0] {
      assert t[k] == s[k + 1];
    }
  }

  lemma MapCons<T, U>(s: seq<T>, f: T -> U)
    requires s != []
    ensures Map(s, f) == [f(s[0])] + Map(s[1..], f)
  {
    assert |Map(s, f)| == |[f(s[0])] + Map(s[1..], f)|;
  }

  /** A duplicate-free sequence has as many distinct elements as positions. */
  lemma {:induction false} NoDupCardinality<T>(s: seq<T>)
    requires NoDup(s)
    ensures |Elements(s)| == |s|
  {
    if s != [] {
      var t := s[1..];
      assert s == [s[0]] + t;
      NoDupTail(s);
      NoDupCardinality(t);
      assert s[0] !in Elements(t);
      assert Elements(s) == {s[0]} + Elements(t);
    }
  }

  /** The position of the first occurrence of `x` in `s`. */
  function IndexOf<T(==)>(s: seq<T>, x: T): (i: nat)
    requires x in s
    ensures i < |s| && s[i] == x
    ensures x !in s[..i]
  {
    if s[0] == x then 0
    else
      var k := IndexOf(s[1..], x);
      assert s[..k + 1] == [s[0]] + s[1..][..k];
      k + 1
  }

  /**
    `s` without its element at position `i`, the last element moving into the
    gap: this is how an insertion-ordered hash set removes an entry.
   */
  function SwapRemove<T>(s: seq<T>, i: nat): (r: seq<T>)
    requires i < |s|
    ensures |r| == |s| - 1
    ensures multiset(r) + multiset{s[i]} == multiset(s)
  {
    var last := |s| - 1;
    if i == last then
      assert s == s[..i] + [s[i]];
      s[..i]
    else
      assert s == s[..i] + [s[i]] + s[i + 1..last] + [s[last]];
      s[..i] + [s[last]] + s[i + 1..last]
  }

  /** The position in `s` that position `k` of `SwapRemove(s, i)` came from. */
  function SwapRemoveOrigin(n: nat, i: nat, k: nat): nat
    requires i < n && k < n - 1
  {
    if k == i then n - 1 else k
  }

  lemma SwapRemoveOriginAt<T>(s: seq<T>, i: nat, k: nat)
    requires i < |s| && k < |s| - 1
    ensures SwapRemoveOrigin(|s|, i, k) != i
    ensures SwapRemove(s, i)[k] == s[SwapRemoveOrigin(|s|, i, k)]
  {
  }

  /** Swap-removal keeps every other element, loses `s[i]`, and keeps a duplicate-free sequence so. */
  lemma SwapRemoveMembers<T>(s: seq<T>, i: nat)
    requires i < |s|
    ensures forall y :: y in SwapRemove(s, i) ==> y in s
    ensures forall y :: y in s && y != s[i] ==> y in SwapRemove(s, i)
    ensures NoDup(s) ==> NoDup(SwapRemove(s, i)) && s[i] !in SwapRemove(s, i)
  {
    var r, n := SwapRemove(s, i), |s|;
    forall y | y in r ensures y in s {
      var k :| 0 <= k < |r| && r[k] == y;
      SwapRemoveOriginAt(s, i, k);
    }
    forall y | y in s && y != s[i] ensures y in r {
      var k :| 0 <= k < n && s[k] == y;
      if k == n - 1 {
        SwapRemoveOriginAt(s, i, i);
      } else {
        SwapRemoveOriginAt(s, i, k);
      }
    }
    if NoDup(s) {
      forall a, b | 0 <= a < b < |r| ensures r[a] != r[b] {
        SwapRemoveOriginAt(s, i, a);
        SwapRemoveOriginAt(s, i, b);
      }
      if s[i] in r {
        var k :| 0 <= k < |r| && r[k] == s[i];
        SwapRemoveOriginAt(s, i, k);
      }
    }
  }

  lemma MapSwapRemove<T, U>(s: seq<T>, i: nat, f: T -> U)
    requires i < |s|
    ensures Map(SwapRemove(s, i), f) == SwapRemove(Map(s, f), i)
  {
    var l, r := Map(SwapRemove(s, i), f), SwapRemove(Map(s, f), i);
    forall k | 0 <= k < |l| ensures l[k] == r[k] {
      SwapRemoveOriginAt(s, i, k);
      SwapRemoveOriginAt(Map(s, f), i, k);
    }
  }
}
