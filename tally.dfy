/** Python's `collections.Counter` over string keys: its items in insertion
    (first-seen) order, `c[k] += 1`, `Counter(xs)`, `most_common(n)`. */
module Tally {
  import opened Seqs
  import opened Ranking

  /** One `(key, count)` item. */
  datatype Entry = Entry(key: string, count: nat)

  /** A counter: its items in the order their keys were first inserted. */
  type Tally = seq<Entry>

  function Keys(t: Tally): (ks: seq<string>)
    ensures |ks| == |t|
    ensures forall i :: 0 <= i < |t| ==> ks[i] == t[i].key
  {
    seq(|t|, i requires 0 <= i < |t| => t[i].key)
  }

  /** The keys of a slice are the slice of the keys. */
  lemma KeysSlice(t: Tally, lo: nat, hi: nat)
    requires lo <= hi <= |t|
    ensures Keys(t[lo..hi]) == Keys(t)[lo..hi]
  {
    var a, b := Keys(t[lo..hi]), Keys(t)[lo..hi];
    forall i | 0 <= i < |a| ensures a[i] == b[i] {
      calc {
        a[i];
        t[lo..hi][i].key;
        t[lo + i].key;
        Keys(t)[lo + i];
      }
    }
  }


  function EntryKey(e: Entry): string { e.key }

  /** What every counter built by counting satisfies: distinct keys, positive counts. */
  ghost predicate Valid(t: Tally) {
    NoDup(Keys(t)) && forall i :: 0 <= i < |t| ==> t[i].count > 0
  }

  /** `c[k]`: the count of `k`, 0 when absent. */
  function CountOf(t: Tally, k: string): nat {
    if t == [] then 0 else if t[0].key == k then t[0].count else CountOf(t[1..], k)
  }

  /** Sum of all counts. */
  function Total(t: Tally): nat {
    if t == [] then 0 else t[0].count + Total(t[1..])
  }

  /** `c[k] += 1`: an existing key keeps its place, a new key goes last. */
  function Add(t: Tally, k: string): Tally {
    if t == [] then [Entry(k, 1)]
    else if t[0].key == k then [Entry(k, t[0].count + 1)] + t[1..]
    else [t[0]] + Add(t[1..], k)
  }

  /** Adding `k` raises its count by one and leaves every other count alone. */
  lemma {:induction false} AddCounts(t: Tally, k: string)
    ensures CountOf(Add(t, k), k) == CountOf(t, k) + 1
    ensures forall k' :: k' != k ==> CountOf(Add(t, k), k') == CountOf(t, k')
    ensures Total(Add(t, k)) == Total(t) + 1
  {
    if t != [] && t[0].key != k {
      AddCounts(t[1..], k);
      var r := Add(t, k);
      assert r[1..] == Add(t[1..], k);
    }
  }

  /** Adding keeps the place of an existing key and puts a new key last. */
  lemma {:induction false} AddKeys(t: Tally, k: string)
    ensures Keys(Add(t, k)) == if k in Keys(t) then Keys(t) else Keys(t) + [k]
  {
    if t != [] {
      var r := Add(t, k);
      KeysCons(t);
      KeysCons(r);
      if t[0].key == k {
        assert r[1..] == t[1..];
      } else {
        AddKeys(t[1..], k);
        assert r[1..] == Add(t[1..], k);
        assert k in Keys(t) <==> k in Keys(t[1..]);
      }
    }
  }

  lemma KeysCons(t: Tally)
    requires t != []
    ensures Keys(t) == [t[0].key] + Keys(t[1..])
  {
    assert forall i :: 0 < i < |t| ==> Keys(t)[i] == Keys(t[1..])[i - 1];
  }


  /** Adding keeps the keys distinct and the counts positive. */
  lemma {:induction false} AddValid(t: Tally, k: string)
    requires Valid(t)
    ensures Valid(Add(t, k))
  {
    var r := Add(t, k);
    AddKeys(t, k);
    if t != [] && t[0].key != k {
      AddValid(t[1..], k) by {
        assert Keys(t[1..]) == Keys(t)[1..];
      }
      assert r == [t[0]] + Add(t[1..], k);
    }
  }

  /** `Counter(xs)`, the same as `c[x] += 1` for each `x` of `xs` in turn. */
  function Count(xs: seq<string>): Tally {
    if xs == [] then [] else Add(Count(xs[..|xs| - 1]), xs[|xs| - 1])
  }

  /** A counter of `xs` holds each distinct value of `xs` once, with its number of occurrences. */
  lemma {:induction false} CountSpec(xs: seq<string>)
    ensures Valid(Count(xs))
    ensures forall k :: CountOf(Count(xs), k) == multiset(xs)[k]
    ensures forall k :: k in Keys(Count(xs)) <==> k in xs
    ensures Total(Count(xs)) == |xs|
  {
    if xs != [] {
      var front, x := xs[..|xs| - 1], xs[|xs| - 1];
      assert xs == front + [x];
      CountSpec(front);
      AddCounts(Count(front), x);
      AddKeys(Count(front), x);
      AddValid(Count(front), x);
    }
  }

  /** Only an empty list has an empty counter. */
  lemma CountEmpty(xs: seq<string>)
    ensures Count(xs) == [] <==> xs == []
  {
    if xs != [] {
      var front := xs[..|xs| - 1];
      assert Add(Count(front), xs[|xs| - 1]) != [];
    }
  }

  lemma CountSnoc(xs: seq<string>, x: string)
    ensures Count(xs + [x]) == Add(Count(xs), x)
  {
    assert (xs + [x])[..|xs|] == xs;
  }

  /** In a valid counter the count of a listed key is that item's count. */
  lemma {:induction false} CountOfAt(t: Tally, i: nat)
    requires Valid(t) && i < |t|
    ensures CountOf(t, t[i].key) == t[i].count
  {
    if i > 0 {
      assert Keys(t)[0] != Keys(t)[i];
      assert Valid(t[1..]) by {
        assert Keys(t[1..]) == Keys(t)[1..];
      }
      CountOfAt(t[1..], i - 1);
    }
  }

  /** A counter lists its keys in the order in which they first occur in the counted sequence. */
  lemma {:induction false} CountKeysFirstSeen(xs: seq<string>)
    ensures FirstSeenOrder(Keys(Count(xs)), xs)
  {
    if xs != [] {
      var front, x := xs[..|xs| - 1], xs[|xs| - 1];
      assert xs == front + [x];
      CountKeysFirstSeen(front);
      CountSpec(front);
      AddKeys(Count(front), x);
      FirstSeenExtend(front, x, Keys(Count(front)));
    }
  }

  /** Keys in first-seen order of `front` stay so after one more value, and a value not
      seen before goes last. */
  lemma FirstSeenExtend(front: seq<string>, x: string, ks: seq<string>)
    requires FirstSeenOrder(ks, front)
    requires forall k :: k in ks <==> k in front
    ensures FirstSeenOrder(ks, front + [x])
    ensures x !in ks ==> FirstSeenOrder(ks + [x], front + [x])
  {
    var xs := front + [x];
    forall i | 0 <= i < |ks| ensures IndexOf(xs, ks[i]) == IndexOf(front, ks[i]) < |front| {
      assert ks[i] in front;
      IndexOfAppend(front, [x], ks[i]);
    }
    if x !in ks {
      IndexOfAppend(front, [x], x);
      var ks' := ks + [x];
      forall i, j | 0 <= i < j < |ks'| ensures IndexOf(xs, ks'[i]) < IndexOf(xs, ks'[j]) {
        assert ks'[i] == ks[i];
        if j < |ks| {
          assert ks'[j] == ks[j];
        }
      }
    }
  }


  /** Each listed value occurs in `xs` before the values listed after it. */
  ghost predicate FirstSeenOrder(ks: seq<string>, xs: seq<string>) {
    forall i, j :: 0 <= i < j < |ks| ==> IndexOf(xs, ks[i]) < IndexOf(xs, ks[j])
  }

  function CountKey(e: Entry): Key { (e.count, 0) }

  /** Two entries already in ranking order stay as they are. */
  lemma RankedPair(b: Entry, c: Entry)
    requires b.count >= c.count
    ensures MostCommon([b, c]) == [b, c]
  {
    assert [b, c][1..] == [c] && [c][1..] == [];
    assert SortDesc([c], CountKey) == [c];
  }

  /** `c.most_common()`: counts descending, ties in insertion order. */
  function MostCommon(t: Tally): (r: Tally)
    ensures multiset(r) == multiset(t)
    ensures |r| == |t|
  {
    SortDesc(t, CountKey)
  }

  lemma {:induction false} TotalInsert(x: Entry, r: Tally)
    ensures Total(Insert(x, r, CountKey)) == x.count + Total(r)
  {
    if r != [] && Above(CountKey(r[0]), CountKey(x)) {
      TotalInsert(x, r[1..]);
      assert Insert(x, r, CountKey)[1..] == Insert(x, r[1..], CountKey);
    }
  }

  /** Ranking a counter keeps the sum of its counts. */
  lemma {:induction false} MostCommonTotal(t: Tally)
    ensures Total(MostCommon(t)) == Total(t)
  {
    if t != [] {
      MostCommonTotal(t[1..]);
      TotalInsert(t[0], SortDesc(t[1..], CountKey));
    }
  }

  /** Ties in a counter ranking of a valid counter follow its key order. */
  lemma MostCommonRanked(t: Tally)
    requires Valid(t)
    ensures forall i, j :: 0 <= i < j < |MostCommon(t)| ==>
      MostCommon(t)[i].count > MostCommon(t)[j].count ||
      (MostCommon(t)[i].count == MostCommon(t)[j].count &&
       IndexOf(Keys(t), MostCommon(t)[i].key) < IndexOf(Keys(t), MostCommon(t)[j].key))
  {
    var r := MostCommon(t);
    EntriesDistinct(t);
    SortDescRanked(t, CountKey);
    forall i, j | 0 <= i < j < |r|
      ensures r[i].count > r[j].count ||
        (r[i].count == r[j].count && IndexOf(Keys(t), r[i].key) < IndexOf(Keys(t), r[j].key))
    {
      assert Precedes(t, CountKey, r[i], r[j]);
      assert r[i] in multiset(t) && r[j] in multiset(t);
      EntryIndex(t, r[i]);
      EntryIndex(t, r[j]);
    }
  }

  /** Distinct keys make distinct entries. */
  lemma EntriesDistinct(t: Tally)
    requires NoDup(Keys(t))
    ensures NoDup(t)
  {
    forall i, j | 0 <= i < j < |t| ensures t[i] != t[j] {
      assert Keys(t)[i] != Keys(t)[j];
    }
  }

  /** With distinct keys, an entry sits where its key does. */
  lemma EntryIndex(t: Tally, e: Entry)
    requires NoDup(Keys(t)) && e in t
    ensures IndexOf(t, e) == IndexOf(Keys(t), e.key)
  {
    var n := IndexOf(t, e);
    assert Keys(t)[n] == e.key;
  }


  /** `r` is the ranking of the values of `xs`: each distinct value once, with its number of
      occurrences, counts descending, ties in order of first occurrence in `xs`. */
  ghost predicate IsRankingOf(xs: seq<string>, r: Tally) {
    && NoDup(Keys(r))
    && (forall x :: x in xs <==> x in Keys(r))
    && (forall i :: 0 <= i < |r| ==> r[i].count == multiset(xs)[r[i].key])
    && (forall i, j :: 0 <= i < j < |r| ==>
          r[i].count > r[j].count ||
          (r[i].count == r[j].count && IndexOf(xs, r[i].key) < IndexOf(xs, r[j].key)))
  }

  /** `Counter(xs).most_common()` is the ranking of the values of `xs`. */
  lemma MostCommonOfCount(xs: seq<string>)
    ensures IsRankingOf(xs, MostCommon(Count(xs)))
  {
    var t := Count(xs);
    var r := MostCommon(t);
    CountSpec(xs);
    MostCommonKeys(t);
    forall i | 0 <= i < |r| ensures r[i].count == multiset(xs)[r[i].key] {
      assert r[i] in multiset(t);
      var k :| 0 <= k < |t| && t[k] == r[i];
      CountOfAt(t, k);
    }
    MostCommonRanked(t);
    CountKeysFirstSeen(xs);
    forall i, j | 0 <= i < j < |r| && r[i].count == r[j].count
      ensures IndexOf(xs, r[i].key) < IndexOf(xs, r[j].key)
    {
      var a, b := IndexOf(Keys(t), r[i].key), IndexOf(Keys(t), r[j].key);
      assert r[i].key in Keys(r) && r[j].key in Keys(r);
      assert a < b;
      assert Keys(t)[a] == r[i].key && Keys(t)[b] == r[j].key;
    }
  }

  /** Ranking a valid counter keeps its set of keys, each once. */
  lemma MostCommonKeys(t: Tally)
    requires Valid(t)
    ensures NoDup(Keys(MostCommon(t)))
    ensures forall x :: x in Keys(t) <==> x in Keys(MostCommon(t))
  {
    var r := MostCommon(t);
    KeysPermute(t);
    PermutationNoDup(Keys(t), Keys(r));
    forall x ensures x in Keys(t) <==> x in Keys(r) {
      assert x in Keys(t) <==> x in multiset(Keys(t));
      assert x in Keys(r) <==> x in multiset(Keys(r));
    }
  }

  /** Ranking a counter permutes its keys. */
  lemma KeysPermute(t: Tally)
    ensures multiset(Keys(MostCommon(t))) == multiset(Keys(t))
  {
    SortDescMapPermutes(t, CountKey, EntryKey);
    MapKeys(t);
    MapKeys(MostCommon(t));
  }

  lemma MapKeys(t: Tally)
    ensures Map(t, EntryKey) == Keys(t)
  {
    assert forall i :: 0 <= i < |t| ==> Map(t, EntryKey)[i] == Keys(t)[i];
  }


  /** `c.most_common(1)[0][0] if c else fallback`. */
  function Winner(t: Tally, fallback: string): string {
    if t == [] then fallback else MostCommon(t)[0].key
  }

  /** `w` is the most frequent value of `xs`, and of the values equally frequent the one seen first. */
  ghost predicate IsMode(xs: seq<string>, w: string) {
    && w in xs
    && (forall y :: multiset(xs)[y] <= multiset(xs)[w])
    && (forall y :: y in xs && multiset(xs)[y] == multiset(xs)[w] ==> IndexOf(xs, w) <= IndexOf(xs, y))
  }

  /** A single-winner field: the mode, or the fallback literal when no value was given. */
  ghost predicate ModeOr(xs: seq<string>, w: string, fallback: string) {
    if xs == [] then w == fallback else IsMode(xs, w)
  }

  lemma WinnerIsMode(xs: seq<string>, fallback: string)
    ensures ModeOr(xs, Winner(Count(xs), fallback), fallback)
  {
    if xs != [] {
      var t := Count(xs);
      var r := MostCommon(t);
      MostCommonOfCount(xs);
      var w := r[0].key;
      assert Winner(t, fallback) == w;
      assert IsMode(xs, w) by {
        ModeOfRanking(xs, r);
      }
    }
  }

  lemma ModeOfRanking(xs: seq<string>, r: Tally)
    requires IsRankingOf(xs, r) && xs != []
    ensures r != [] && IsMode(xs, r[0].key)
  {
    assert xs[0] in Keys(r);
    var w := r[0].key;
    assert w == Keys(r)[0];
    forall y ensures multiset(xs)[y] <= multiset(xs)[w] {
      if y in xs {
        var j :| 0 <= j < |r| && Keys(r)[j] == y;
      }
    }
    forall y | y in xs && multiset(xs)[y] == multiset(xs)[w] ensures IndexOf(xs, w) <= IndexOf(xs, y) {
      var j :| 0 <= j < |r| && Keys(r)[j] == y;
    }
  }

  /** `c.most_common(n)`. */
  function Top(t: Tally, n: nat): (r: Tally)
    ensures |r| <= n && |r| <= |t|
  {
    Take(MostCommon(t), n)
  }

  /** `most_common(n)` of `Counter(xs)` is the first `n` (or all) entries of its ranking:
      distinct values of `xs` with their counts, and no value left out occurs more often
      than one kept. */
  lemma TopOfCount(xs: seq<string>, n: nat)
    ensures |Top(Count(xs), n)| == if n <= |set x | x in xs| then n else |set x | x in xs|
    ensures IsSubsequence(Top(Count(xs), n), MostCommon(Count(xs)))
    ensures Top(Count(xs), n) == MostCommon(Count(xs))[..|Top(Count(xs), n)|]
    ensures forall x, i :: x in xs && x !in Keys(Top(Count(xs), n)) && 0 <= i < |Top(Count(xs), n)| ==>
      multiset(xs)[x] <= Top(Count(xs), n)[i].count
  {
    var r := MostCommon(Count(xs));
    MostCommonOfCount(xs);
    TopOfRanking(xs, r, n);
  }

  lemma TopOfRanking(xs: seq<string>, r: Tally, n: nat)
    requires IsRankingOf(xs, r)
    ensures |Take(r, n)| == if n <= |set x | x in xs| then n else |set x | x in xs|
    ensures IsSubsequence(Take(r, n), r)
    ensures Take(r, n) == r[..|Take(r, n)|]
    ensures forall x, i :: x in xs && x !in Keys(Take(r, n)) && 0 <= i < |Take(r, n)| ==>
      multiset(xs)[x] <= Take(r, n)[i].count
  {
    RankingSize(xs, r);
    PrefixIsSubsequence(Take(r, n), r);
    forall x, i | x in xs && x !in Keys(Take(r, n)) && 0 <= i < |Take(r, n)|
      ensures multiset(xs)[x] <= Take(r, n)[i].count
    {
      LeftOutOfTop(xs, r, n, x, i);
    }
  }

  /** A value left out of the first `n` entries of a ranking occurs no more often than
      any entry kept. */
  lemma LeftOutOfTop(xs: seq<string>, r: Tally, n: nat, x: string, i: nat)
    requires IsRankingOf(xs, r)
    requires x in xs && x !in Keys(Take(r, n)) && i < |Take(r, n)|
    ensures multiset(xs)[x] <= Take(r, n)[i].count
  {
    var top := Take(r, n);
    assert x in Keys(r);
    var j :| 0 <= j < |r| && Keys(r)[j] == x;
    assert top[i] == r[i];
  }


  /** Every count in a ranking of `xs` is positive and at most `|xs|`. */
  lemma RankingCounts(xs: seq<string>, r: Tally)
    requires IsRankingOf(xs, r)
    ensures forall i :: 0 <= i < |r| ==> 0 < r[i].count <= |xs|
  {
    forall i | 0 <= i < |r| ensures 0 < r[i].count <= |xs| {
      assert Keys(r)[i] == r[i].key;
      assert r[i].key in xs;
      assert r[i].key in multiset(xs);
      assert multiset(xs)[r[i].key] <= |multiset(xs)|;
    }
  }

  /** The winner's entry heads the ranking and carries its number of occurrences. */
  lemma WinnerCount(xs: seq<string>, fallback: string)
    requires xs != []
    ensures |MostCommon(Count(xs))| > 0
    ensures var top := MostCommon(Count(xs))[0];
      && top.key == Winner(Count(xs), fallback)
      && top.count == multiset(xs)[top.key]
      && 0 < top.count <= |xs|
  {
    var r := MostCommon(Count(xs));
    MostCommonOfCount(xs);
    assert xs[0] in Keys(r);
    RankingCounts(xs, r);
  }

  /** A ranking has one entry per distinct value. */
  lemma RankingSize(xs: seq<string>, r: Tally)
    requires IsRankingOf(xs, r)
    ensures |r| == |set x | x in xs|
  {
    NoDupCardinality(Keys(r));
    assert (set x | x in Keys(r)) == (set x | x in xs);
  }

  /** `[k for k, c in counter.items() if c >= 2]`: the repeated keys, in counter order. */
  function Repeated(t: Tally): seq<string> {
    Map(Filter(t, IsRepeated), EntryKey)
  }

  predicate IsRepeated(e: Entry) { e.count >= 2 }

  /** The repeated keys of `Counter(xs)` are exactly the values occurring at least twice in
      `xs`, each once, in order of first occurrence. */
  lemma RepeatedOfCount(xs: seq<string>)
    ensures forall x :: x in Repeated(Count(xs)) <==> multiset(xs)[x] >= 2
    ensures NoDup(Repeated(Count(xs)))
    ensures FirstSeenOrder(Repeated(Count(xs)), xs)
  {
    CountKeysFirstSeen(xs);
    CountSpec(xs);
    RepeatedOfTally(xs, Count(xs));
  }

  lemma RepeatedOfTally(xs: seq<string>, t: Tally)
    requires Valid(t) && FirstSeenOrder(Keys(t), xs)
    requires forall k :: CountOf(t, k) == multiset(xs)[k]
    requires forall k :: k in Keys(t) <==> k in xs
    ensures forall x :: x in Repeated(t) <==> multiset(xs)[x] >= 2
    ensures NoDup(Repeated(t))
    ensures FirstSeenOrder(Repeated(t), xs)
  {
    RepeatedInOrder(xs, t);
    RepeatedMembers(xs, t);
  }

  lemma RepeatedInOrder(xs: seq<string>, t: Tally)
    requires FirstSeenOrder(Keys(t), xs)
    ensures NoDup(Repeated(t))
    ensures FirstSeenOrder(Repeated(t), xs)
  {
    var f := Filter(t, IsRepeated);
    var rep := Repeated(t);
    assert Map(t, EntryKey) == Keys(t);
    FilterIsSubsequence(t, IsRepeated);
    MapSubsequence(f, t, EntryKey);
    SubsequenceIncreasing(rep, Keys(t), y => IndexOf(xs, y));
    forall i, j | 0 <= i < j < |rep| ensures rep[i] != rep[j] {
      assert IndexOf(xs, rep[i]) < IndexOf(xs, rep[j]);
    }
  }

  lemma RepeatedMembers(xs: seq<string>, t: Tally)
    requires Valid(t)
    requires forall k :: CountOf(t, k) == multiset(xs)[k]
    requires forall k :: k in Keys(t) <==> k in xs
    ensures forall x :: x in Repeated(t) <==> multiset(xs)[x] >= 2
  {
    forall x | x in Repeated(t) ensures multiset(xs)[x] >= 2 {
      var k := RepeatedSound(t, x);
      CountOfAt(t, k);
    }
    forall x | multiset(xs)[x] >= 2 ensures x in Repeated(t) {
      assert x in Keys(t);
      var k :| 0 <= k < |t| && Keys(t)[k] == x;
      CountOfAt(t, k);
      RepeatedComplete(t, k);
    }
  }

  /** A repeated key is the key of an entry counting at least two. */
  lemma RepeatedSound(t: Tally, x: string) returns (k: nat)
    requires x in Repeated(t)
    ensures k < |t| && t[k].key == x && t[k].count >= 2
  {
    var f := Filter(t, IsRepeated);
    var i :| 0 <= i < |f| && f[i].key == x;
    assert f[i] in t;
    k :| k < |t| && t[k] == f[i];
  }

  /** The key of an entry counting at least two is repeated. */
  lemma RepeatedComplete(t: Tally, k: nat)
    requires k < |t| && t[k].count >= 2
    ensures t[k].key in Repeated(t)
  {
    var f := Filter(t, IsRepeated);
    assert t[k] in f;
    var i :| 0 <= i < |f| && f[i] == t[k];
    assert Repeated(t)[i] == t[k].key;
  }

  /** `counter[x] += 1` for each `x` of `items` in turn, continuing a counter of `counted`. */
  method AddAll(t: Tally, ghost counted: seq<string>, items: seq<string>) returns (r: Tally)
    requires t == Count(counted)
    ensures r == Count(counted + items)
  {
    r := t;
    assert counted + items[..0] == counted;
    for j := 0 to |items|
      invariant r == Count(counted + items[..j])
    {
      assert counted + items[..j + 1] == (counted + items[..j]) + [items[j]];
      CountSnoc(counted + items[..j], items[j]);
      r := Add(r, items[j]);
    }
    assert items[..|items|] == items;
  }
}
