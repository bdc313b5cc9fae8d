/**
 Generic facts about sequences used by the storefront model: duplicate-freedom,
 order-preserving subsequences and occurrence counts.
 */
module Sequences {

  /** No element occurs twice in `s`. */
  predicate Distinct<T(==)>(s: seq<T>) {
    forall i, j :: 0 <= i < j < |s| ==> s[i] != s[j]
  }

  /** `r` is `s` with some elements deleted; the rest keep their relative order. */
  predicate IsSubsequence<T(==)>(r: seq<T>, s: seq<T>)
    decreases |s|
  {
    if r == [] then true
    else if s == [] then false
    else (r[0] == s[0] && IsSubsequence(r[1..], s[1..])) || IsSubsequence(r, s[1..])
  }

  /** The number of occurrences of `x` in `s`. */
  function Count<T(==)>(s: seq<T>, x: T): (n: nat)
    ensures n <= |s|
    ensures n == 0 <==> x !in s
  {
    if s == [] then 0 else (if s[0] == x then 1 else 0) + Count(s[1..], x)
  }

  lemma DistinctCons<T>(x: T, s: seq<T>)
    ensures x !in s && Distinct(s) ==> Distinct([x] + s)
    ensures Distinct([x] + s) ==> x !in s && Distinct(s)
  {
    assert ([x] + s)[1..] == s;
    if Distinct([x] + s) {
      forall i, j | 0 <= i < j < |s| ensures s[i] != s[j] {
        assert s[i] == ([x] + s)[i + 1] && s[j] == ([x] + s)[j + 1];
      }
      forall k | 0 <= k < |s| ensures s[k] != x {
        assert s[k] == ([x] + s)[k + 1] && x == ([x] + s)[0];
      }
    }
    if !(x !in s && Distinct(s)) { return; }
    forall i, j | 0 <= i < j < |[x] + s| ensures ([x] + s)[i] != ([x] + s)[j] {
      if i > 0 {
        assert ([x] + s)[i] == s[i - 1] && ([x] + s)[j] == s[j - 1];
      } else {
        assert ([x] + s)[j] == s[j - 1];
      }
    }
  }

  lemma DistinctSnoc<T>(s: seq<T>, x: T)
    ensures x !in s && Distinct(s) ==> Distinct(s + [x])
  {
    if !(x !in s && Distinct(s)) { return; }
    forall i, j | 0 <= i < j < |s + [x]| ensures (s + [x])[i] != (s + [x])[j] {
      assert (s + [x])[i] == s[i];
      if j < |s| { assert (s + [x])[j] == s[j]; }
    }
  }

  /** A duplicate-free sequence holds each of its elements exactly once. */
  lemma {:induction false} DistinctCount<T>(s: seq<T>, x: T)
    requires Distinct(s) && x in s
    ensures Count(s, x) == 1
  {
    if s[0] == x {
      assert x !in s[1..] by {
        forall k | 0 <= k < |s| - 1 ensures s[1..][k] != x {
          assert s[1..][k] == s[k + 1];
        }
      }
    } else {
      assert x in s[1..] by {
        var k :| 0 <= k < |s| && s[k] == x;
        assert s[1..][k - 1] == x;
      }
      DistinctCount(s[1..], x);
    }
  }

  /** Deleting elements in front of a subsequence keeps it a subsequence. */
  lemma SubsequenceCons<T>(r: seq<T>, x: T, s: seq<T>)
    ensures IsSubsequence(r, s) ==> IsSubsequence(r, [x] + s)
    ensures IsSubsequence(r, s) ==> IsSubsequence([x] + r, [x] + s)
  {
    assert ([x] + s)[1..] == s;
    assert ([x] + r)[1..] == r;
  }
}
