/** Sequence helpers shared by the tallies, the rankings and the reducers. */
module Seqs {

  /** No value occurs twice in `s`. */
  ghost predicate NoDup<T>(s: seq<T>) {
    forall i, j :: 0 <= i < j < |s| ==> s[i] != s[j]
  }

  /** Position of the first occurrence of `x` in `s`, or `|s|` when it does not occur. */
  function IndexOf<T(==)>(s: seq<T>, x: T): (n: nat)
    ensures n <= |s|
    ensures n < |s| <==> x in s
    ensures n < |s| ==> s[n] == x
    ensures forall i :: 0 <= i < n ==> s[i] != x
  {
    if s == [] then 0 else if s[0] == x then 0 else 1 + IndexOf(s[1..], x)
  }

  /** Python's `s[:n]`. */
  function Take<T>(s: seq<T>, n: nat): (r: seq<T>)
    ensures |r| == if n <= |s| then n else |s|
    ensures r == s[..|r|]
  {
    if n <= |s| then s[..n] else s
  }

  /** Python's `s[lo:hi]` for non-negative bounds. */
  function Slice<T>(s: seq<T>, lo: nat, hi: nat): (r: seq<T>)
    requires lo <= hi
    ensures |r| == (if hi <= |s| then hi else |s|) - (if lo <= |s| then lo else |s|)
    ensures forall i :: 0 <= i < |r| ==> r[i] == s[lo + i]
  {
    Take(s, hi)[if lo <= |s| then lo else |s|..]
  }

  /** `[f(x) for x in s]`. */
  function Map<T, U>(s: seq<T>, f: T -> U): (r: seq<U>)
    ensures |r| == |s|
    ensures forall i :: 0 <= i < |s| ==> r[i] == f(s[i])
  {
    if s == [] then [] else [f(s[0])] + Map(s[1..], f)
  }

  /** `[x for x in s if p(x)]`. */
  function Filter<T>(s: seq<T>, p: T -> bool): (r: seq<T>)
    ensures |r| <= |s|
    ensures forall i :: 0 <= i < |r| ==> r[i] in s && p(r[i])
    ensures forall i :: 0 <= i < |s| && p(s[i]) ==> s[i] in r
  {
    if s == [] then [] else (if p(s[0]) then [s[0]] else []) + Filter(s[1..], p)
  }

  /** `a` can be obtained from `b` by deleting entries. */
  ghost predicate IsSubsequence<T>(a: seq<T>, b: seq<T>)
    decreases |b|
  {
    a == [] || (b != [] && ((a[0] == b[0] && IsSubsequence(a[1..], b[1..])) || IsSubsequence(a, b[1..])))
  }

  lemma {:induction false} FilterIsSubsequence<T>(s: seq<T>, p: T -> bool)
    ensures IsSubsequence(Filter(s, p), s)
  {
    if s != [] {
      FilterIsSubsequence(s[1..], p);
      if p(s[0]) {
        assert Filter(s, p) == [s[0]] + Filter(s[1..], p);
        assert Filter(s, p)[1..] == Filter(s[1..], p);
      } else {
        assert Filter(s, p) == Filter(s[1..], p);
      }
    }
  }

  lemma {:induction false} MapSubsequence<T, U>(a: seq<T>, b: seq<T>, f: T -> U)
    requires IsSubsequence(a, b)
    ensures IsSubsequence(Map(a, f), Map(b, f))
    decreases |b|
  {
    if a != [] {
      assert Map(b, f)[1..] == Map(b[1..], f);
      if a[0] == b[0] && IsSubsequence(a[1..], b[1..]) {
        MapSubsequence(a[1..], b[1..], f);
        assert Map(a, f)[1..] == Map(a[1..], f);
      } else {
        MapSubsequence(a, b[1..], f);
      }
    }
  }

  /** A sequence has no duplicates exactly when no value occurs twice in its multiset. */
  lemma {:induction false} NoDupMultiset<T>(s: seq<T>)
    ensures NoDup(s) <==> forall x :: multiset(s)[x] <= 1
  {
    if NoDup(s) {
      NoDupOccursOnce(s);
    } else {
      var i, j :| 0 <= i < j < |s| && s[i] == s[j];
      assert s == s[..i] + [s[i]] + s[i+1..j] + [s[j]] + s[j+1..];
      assert multiset(s)[s[i]] >= 2;
    }
  }

  lemma {:induction false} NoDupOccursOnce<T>(s: seq<T>)
    requires NoDup(s)
    ensures forall x :: multiset(s)[x] <= 1
  {
    if s != [] {
      NoDupOccursOnce(s[1..]);
      assert s == [s[0]] + s[1..];
      assert s[0] !in s[1..];
    }
  }

  /** A permutation of a sequence without duplicates has none either. */
  lemma PermutationNoDup<T>(s: seq<T>, r: seq<T>)
    requires NoDup(s) && multiset(r) == multiset(s)
    ensures NoDup(r)
  {
    NoDupMultiset(s);
    NoDupMultiset(r);
  }

  /** The number of distinct values of a duplicate-free sequence is its length. */
  lemma {:induction false} NoDupCardinality<T>(s: seq<T>)
    requires NoDup(s)
    ensures |set x | x in s| == |s|
  {
    if s != [] {
      NoDupCardinality(s[1..]);
      assert (set x | x in s) == (set x | x in s[1..]) + {s[0]};
      assert s[0] !in s[1..];
    }
  }

  /** Where a value first occurs in a concatenation. */
  lemma {:induction false} IndexOfAppend<T>(a: seq<T>, b: seq<T>, y: T)
    ensures IndexOf(a + b, y) == if y in a then IndexOf(a, y) else |a| + IndexOf(b, y)
  {
    if a == [] {
      assert a + b == b;
    } else {
      assert (a + b)[0] == a[0];
      if a[0] != y {
        IndexOfAppend(a[1..], b, y);
        assert (a + b)[1..] == a[1..] + b;
        assert y in a <==> y in a[1..] by {
          assert a == [a[0]] + a[1..];
        }
        assert IndexOf(a + b, y) == 1 + IndexOf(a[1..] + b, y);
        assert IndexOf(a, y) == 1 + IndexOf(a[1..], y);
      }
    }
  }

  /** Every entry of a subsequence is an entry of the sequence. */
  lemma {:induction false} SubsequenceMembers<T>(a: seq<T>, b: seq<T>)
    requires IsSubsequence(a, b)
    ensures forall x :: x in a ==> x in b
    decreases |b|
  {
    if a != [] {
      if a[0] == b[0] && IsSubsequence(a[1..], b[1..]) {
        SubsequenceMembers(a[1..], b[1..]);
        assert a == [a[0]] + a[1..];
      } else {
        SubsequenceMembers(a, b[1..]);
      }
    }
  }

  /** Deleting entries keeps a sequence that is increasing under `rank` increasing. */
  lemma {:induction false} SubsequenceIncreasing<T>(a: seq<T>, b: seq<T>, rank: T -> int)
    requires IsSubsequence(a, b)
    requires forall i, j :: 0 <= i < j < |b| ==> rank(b[i]) < rank(b[j])
    ensures forall i, j :: 0 <= i < j < |a| ==> rank(a[i]) < rank(a[j])
    decreases |b|
  {
    if a != [] {
      if a[0] == b[0] && IsSubsequence(a[1..], b[1..]) {
        SubsequenceIncreasing(a[1..], b[1..], rank);
        SubsequenceMembers(a[1..], b[1..]);
        forall j | 0 < j < |a| ensures rank(a[0]) < rank(a[j]) {
          assert a[j] in a[1..];
          var k :| 0 <= k < |b[1..]| && b[1..][k] == a[j];
          assert b[k + 1] == a[j];
        }
      } else {
        SubsequenceIncreasing(a, b[1..], rank);
      }
    }
  }

  /** A prefix is a subsequence. */
  lemma {:induction false} PrefixIsSubsequence<T>(a: seq<T>, b: seq<T>)
    requires |a| <= |b| && a == b[..|a|]
    ensures IsSubsequence(a, b)
  {
    if a != [] {
      PrefixIsSubsequence(a[1..], b[1..]);
    }
  }
}
