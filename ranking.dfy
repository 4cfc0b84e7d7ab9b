/** Python's stable descending sort: `sorted(s, key=key, reverse=True)`, which
    is also what `Counter.most_common` does. Entries whose keys compare equal
    keep the order they had in the input. */
module Ranking {
  import opened Seqs

  /** A sort key; Python compares such tuples lexicographically. */
  type Key = (int, int)

  /** `a` is strictly greater than `b` under tuple comparison. */
  predicate Above(a: Key, b: Key) {
    a.0 > b.0 || (a.0 == b.0 && a.1 > b.1)
  }

  /** Puts `x` in front of the first entry of `r` whose key is not strictly above its own. */
  function Insert<T>(x: T, r: seq<T>, key: T -> Key): (r': seq<T>)
    ensures multiset(r') == multiset(r) + multiset{x}
    ensures |r'| == |r| + 1
  {
    if r == [] || !Above(key(r[0]), key(x)) then [x] + r
    else
      assert r == [r[0]] + r[1..];
      [r[0]] + Insert(x, r[1..], key)
  }

  /** Insertion sort from the back: each entry is inserted in front of the entries
      that followed it in `s` and share its key, so ties keep their input order. */
  function SortDesc<T>(s: seq<T>, key: T -> Key): (r: seq<T>)
    ensures multiset(r) == multiset(s)
    ensures |r| == |s|
  {
    if s == [] then []
    else
      assert s == [s[0]] + s[1..];
      Insert(s[0], SortDesc(s[1..], key), key)
  }

  /** `a` comes before `b` in a ranking of `s`: a strictly greater key, or an
      equal key and an earlier position in `s`. */
  ghost predicate Precedes<T>(s: seq<T>, key: T -> Key, a: T, b: T) {
    Above(key(a), key(b)) || (key(a) == key(b) && IndexOf(s, a) < IndexOf(s, b))
  }

  /** `r` lists its entries in descending key order, ties in the order of `s`. */
  ghost predicate RankedBy<T>(s: seq<T>, r: seq<T>, key: T -> Key) {
    forall i, j :: 0 <= i < j < |r| ==> Precedes(s, key, r[i], r[j])
  }

  /** Putting in front an entry that precedes every entry of a ranking keeps it ranked. */
  lemma RankedCons<T>(s: seq<T>, x: T, r: seq<T>, key: T -> Key)
    requires RankedBy(s, r, key)
    requires forall j :: 0 <= j < |r| ==> Precedes(s, key, x, r[j])
    ensures RankedBy(s, [x] + r, key)
  {
    var r' := [x] + r;
    forall i, j | 0 <= i < j < |r'| ensures Precedes(s, key, r'[i], r'[j]) {
      assert r'[j] == r[j - 1];
      if i > 0 {
        assert r'[i] == r[i - 1];
      }
    }
  }

  /** `x`, not strictly below the head of a ranking and earlier in `s` than all its
      entries, precedes each of them. */
  lemma PrecedesAll<T>(s: seq<T>, x: T, r: seq<T>, key: T -> Key)
    requires RankedBy(s, r, key) && r != [] && !Above(key(r[0]), key(x))
    requires forall y :: y in r ==> IndexOf(s, x) < IndexOf(s, y)
    ensures forall j :: 0 <= j < |r| ==> Precedes(s, key, x, r[j])
  {
    forall j | 0 <= j < |r| ensures Precedes(s, key, x, r[j]) {
      assert r[j] in r;
      if j > 0 {
        assert Precedes(s, key, r[0], r[j]);
      }
    }
  }

  lemma {:induction false} InsertRanked<T>(s: seq<T>, x: T, r: seq<T>, key: T -> Key)
    requires RankedBy(s, r, key)
    requires forall y :: y in r ==> IndexOf(s, x) < IndexOf(s, y)
    ensures RankedBy(s, Insert(x, r, key), key)
  {
    if r == [] || !Above(key(r[0]), key(x)) {
      if r != [] {
        PrecedesAll(s, x, r, key);
      }
      RankedCons(s, x, r, key);
    } else {
      var tail := Insert(x, r[1..], key);
      assert RankedBy(s, r[1..], key) by {
        forall i, j | 0 <= i < j < |r[1..]| ensures Precedes(s, key, r[1..][i], r[1..][j]) {
          assert r[1..][i] == r[i + 1] && r[1..][j] == r[j + 1];
        }
      }
      InsertRanked(s, x, r[1..], key);
      forall j | 0 <= j < |tail| ensures Precedes(s, key, r[0], tail[j]) {
        assert tail[j] in multiset(r[1..]) + multiset{x};
        if tail[j] != x {
          assert tail[j] in r[1..];
          var k :| 1 <= k < |r| && r[k] == tail[j];
        }
      }
      RankedCons(s, r[0], tail, key);
    }
  }

  /** The sort produces the ranking of `s`: keys descending, ties in input order. */
  lemma {:induction false} SortDescRanked<T>(s: seq<T>, key: T -> Key)
    requires NoDup(s)
    ensures RankedBy(s, SortDesc(s, key), key)
  {
    if s != [] {
      var rest := s[1..];
      SortDescRanked(rest, key);
      var r := SortDesc(rest, key);
      forall y | y in r ensures y in rest && y != s[0] && IndexOf(s, y) == 1 + IndexOf(rest, y) {
        assert y in multiset(rest);
      }
      assert RankedBy(s, r, key) by {
        forall i, j | 0 <= i < j < |r| ensures Precedes(s, key, r[i], r[j]) {
          assert Precedes(rest, key, r[i], r[j]);
          assert r[i] in r && r[j] in r;
        }
      }
      InsertRanked(s, s[0], r, key);
    }
  }

  /** Ranking permutes entries, so any per-entry projection keeps its multiset. */
  lemma {:induction false} SortDescMapPermutes<T, U>(s: seq<T>, key: T -> Key, f: T -> U)
    ensures multiset(Map(SortDesc(s, key), f)) == multiset(Map(s, f))
  {
    if s != [] {
      SortDescMapPermutes(s[1..], key, f);
      InsertMapPermutes(s[0], SortDesc(s[1..], key), key, f);
      assert Map(s, f) == [f(s[0])] + Map(s[1..], f);
    }
  }

  lemma {:induction false} InsertMapPermutes<T, U>(x: T, r: seq<T>, key: T -> Key, f: T -> U)
    ensures multiset(Map(Insert(x, r, key), f)) == multiset(Map(r, f)) + multiset{f(x)}
  {
    if r != [] && Above(key(r[0]), key(x)) {
      InsertMapPermutes(x, r[1..], key, f);
      assert Map(Insert(x, r, key), f) == [f(r[0])] + Map(Insert(x, r[1..], key), f);
      assert Map(r, f) == [f(r[0])] + Map(r[1..], f);
    } else {
      assert Map(Insert(x, r, key), f) == [f(x)] + Map(r, f);
    }
  }
}
