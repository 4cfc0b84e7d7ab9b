/** `_aggregate_notable_elements`: every notable element of every record, counted;
    the twenty most frequent, the number of distinct ones and those seen more than once. */
module NotableReducer {
  import opened Wrappers
  import opened Seqs
  import opened Ranking
  import opened Tally
  import opened Records

  datatype NotableSummary = NotableSummary(
    allNotableElements: Tally,
    uniqueNotableCount: nat,
    recurringElements: seq<string>)

  function NotableElements(a: Analysis): seq<string> { a.notable }

  /** The summary built from the collected elements. */
  function NotableSummaryFrom(allNotable: seq<string>): NotableSummary {
    var counts := Count(allNotable);
    NotableSummary(Top(counts, 20), |counts|, Repeated(counts))
  }

  /** The notable-element summary of a list of analyses. */
  function NotableSummaryOf(analyses: seq<Analysis>): NotableSummary {
    NotableSummaryFrom(Flatten(analyses, NotableElements))
  }

  method AggregateNotableElements(analyses: seq<Analysis>) returns (summary: NotableSummary)
    ensures summary == NotableSummaryOf(analyses)
  {
    var allNotable: seq<string> := [];
    for i := 0 to |analyses|
      invariant allNotable == Flatten(analyses[..i], NotableElements)
    {
      FlattenStep(analyses, i, NotableElements);
      allNotable := allNotable + analyses[i].notable;
    }
    assert analyses[..|analyses|] == analyses;
    summary := NotableSummaryFrom(allNotable);
  }

  /** `all_notable_elements` holds the twenty most frequent elements (all of them when fewer
      are distinct) with their numbers of mentions, in ranking order, and no element left out
      is mentioned more often than one kept; `unique_notable_count` is the number of distinct
      elements. */
  lemma NotableRanking(analyses: seq<Analysis>)
    ensures var xs := Flatten(analyses, NotableElements);
      var top := NotableSummaryOf(analyses).allNotableElements;
      && |top| == (if 20 <= |set x | x in xs| then 20 else |set x | x in xs|)
      && IsSubsequence(top, MostCommon(Count(xs)))
      && top == MostCommon(Count(xs))[..|top|]
      && (forall x, i :: x in xs && x !in Keys(top) && 0 <= i < |top| ==> multiset(xs)[x] <= top[i].count)
      && NotableSummaryOf(analyses).uniqueNotableCount == |set x | x in xs|
  {
    var xs := Flatten(analyses, NotableElements);
    TopOfCount(xs, 20);
    MostCommonOfCount(xs);
    RankingSize(xs, MostCommon(Count(xs)));
  }

  /** `recurring_elements` holds exactly the elements mentioned at least twice, each once, in
      the order they were first mentioned, however far down the ranking they sit. */
  lemma RecurringElements(analyses: seq<Analysis>)
    ensures var xs := Flatten(analyses, NotableElements);
      var recurring := NotableSummaryOf(analyses).recurringElements;
      && (forall x :: x in recurring <==> multiset(xs)[x] >= 2)
      && NoDup(recurring)
      && FirstSeenOrder(recurring, xs)
  {
    RepeatedOfCount(Flatten(analyses, NotableElements));
  }

  function WithNotable(notable: seq<string>): Analysis {
    Analysis(NoScene, map[], NoVisual, NoMood, notable)
  }

  lemma CountTwo(x: string, y: string)
    requires x != y
    ensures Count([x, y]) == [Entry(x, 1), Entry(y, 1)]
  {
    CountSnoc([], x);
    CountSnoc([x], y);
    assert [] + [x] == [x] && [x] + [y] == [x, y];
  }

  lemma CountReturning(x: string, y: string)
    requires x != y
    ensures Count([x, y, x]) == [Entry(x, 2), Entry(y, 1)]
  {
    CountTwo(x, y);
    CountSnoc([x, y], x);
    assert [x, y] + [x] == [x, y, x];
  }

  /** `[x, y] + [x, z]` counts `x` twice and `y`, `z` once each, in that order. */
  lemma SharedFirstCount(x: string, y: string, z: string)
    requires x != y && x != z && y != z
    ensures Count([x, y, x, z]) == [Entry(x, 2), Entry(y, 1), Entry(z, 1)]
  {
    CountReturning(x, y);
    CountSnoc([x, y, x], z);
    assert [x, y, x] + [z] == [x, y, x, z];
    var t := [Entry(x, 2), Entry(y, 1)];
    assert Add(t[1..], z) == [Entry(y, 1), Entry(z, 1)] by {
      assert t[1..][1..] == [];
    }
  }


  /** A counter already in ranking order stays as it is. */
  lemma AlreadyRanked(a: Entry, b: Entry, c: Entry)
    requires a.count >= b.count >= c.count
    ensures MostCommon([a, b, c]) == [a, b, c]
  {
    assert [a, b, c][1..] == [b, c];
    RankedPair(b, c);
  }

  /** Only the head of this counter is repeated. */
  lemma HeadOnlyRepeated(x: string, y: string, z: string)
    ensures Repeated([Entry(x, 2), Entry(y, 1), Entry(z, 1)]) == [x]
  {
    var t := [Entry(x, 2), Entry(y, 1), Entry(z, 1)];
    assert t[1..][1..] == t[2..] && t[2..][1..] == [];
    assert Filter(t[2..], IsRepeated) == [];
    assert Filter(t[1..], IsRepeated) == [];
    assert Filter(t, IsRepeated) == [t[0]];
  }

  /** Two records naming a lighthouse beside one other sight each: the lighthouse recurs,
      three elements are distinct, and it heads the ranking. */
  lemma SharedLighthouse()
    ensures var summary := NotableSummaryOf([WithNotable(["lighthouse", "pier"]), WithNotable(["lighthouse", "market"])]);
      && summary.recurringElements == ["lighthouse"]
      && summary.uniqueNotableCount == 3
      && summary.allNotableElements == [Entry("lighthouse", 2), Entry("pier", 1), Entry("market", 1)]
  {
    var analyses := [WithNotable(["lighthouse", "pier"]), WithNotable(["lighthouse", "market"])];
    assert Flatten(analyses, NotableElements) == ["lighthouse", "pier", "lighthouse", "market"] by {
      assert analyses[..1] == [WithNotable(["lighthouse", "pier"])];
      assert analyses[..1][..0] == [];
    }
    SharedFirstCount("lighthouse", "pier", "market");
    AlreadyRanked(Entry("lighthouse", 2), Entry("pier", 1), Entry("market", 1));
    HeadOnlyRepeated("lighthouse", "pier", "market");
  }
}
