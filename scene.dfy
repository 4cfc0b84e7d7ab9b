/** `_aggregate_scene_classifications`: tallies of primary categories and of
    primary plus secondary categories, each ranked with a percentage per row. */
module SceneReducer {
  import opened Wrappers
  import opened Seqs
  import opened Tally
  import opened Rounding
  import opened Records

  /** One ranked row; `percentage` is in tenths of a percent of the valid records. */
  datatype CategoryShare = CategoryShare(category: string, count: nat, percentage: int)

  datatype SceneSummary = SceneSummary(
    primaryCategories: seq<CategoryShare>,
    allCategories: seq<CategoryShare>,
    dominantSceneType: string,
    sceneDiversity: nat)

  function PrimaryCategory(a: Analysis): Option<string> { a.scene.primaryCategory }

  /** What one record adds to the combined tally: its primary (when truthy), then each secondary. */
  function SceneCategories(a: Analysis): seq<string> {
    (if Truthy(a.scene.primaryCategory) then [a.scene.primaryCategory.value] else []) + a.scene.secondaryCategories
  }

  /** The rows of a ranking, each with its percentage of `total`. */
  function Shares(ranked: Tally, total: nat): seq<CategoryShare>
    requires total > 0 || ranked == []
  {
    seq(|ranked|, i requires 0 <= i < |ranked| =>
      CategoryShare(ranked[i].key, ranked[i].count, Percentage(ranked[i].count, total)))
  }

  function ShareEntry(row: CategoryShare): Entry { Entry(row.category, row.count) }

  /** The `(category, count)` pairs of a list of rows. */
  function Entries(rows: seq<CategoryShare>): Tally { Map(rows, ShareEntry) }

  /** The summary built from the two finished tallies. */
  function SceneSummaryFrom(primary: Tally, all: Tally, total: nat): SceneSummary
    requires total > 0 || (primary == [] && all == [])
  {
    var primaryRanked := Shares(MostCommon(primary), total);
    SceneSummary(
      primaryRanked,
      Shares(MostCommon(all), total),
      if primaryRanked != [] then primaryRanked[0].category else "mixed",
      |primary|)
  }

  /** The scene summary of a list of analyses. */
  function SceneSummaryOf(analyses: seq<Analysis>): SceneSummary {
    SceneSummaryFrom(
      Count(Tokens(analyses, PrimaryCategory)),
      Count(Flatten(analyses, SceneCategories)),
      |analyses|)
  }

  /** The body of the loop for one record: `primary_categories[p] += 1` and
      `all_categories[p] += 1` for a truthy primary `p`, then
      `all_categories[s] += 1` for each secondary `s`. */
  method TallyScene(primaryCategories: Tally, allCategories: Tally, a: Analysis,
                    ghost primaries: seq<string>, ghost categories: seq<string>)
    returns (primaryCategories': Tally, allCategories': Tally)
    requires primaryCategories == Count(primaries) && allCategories == Count(categories)
    ensures primaryCategories' == Count(primaries + (if Truthy(PrimaryCategory(a)) then [PrimaryCategory(a).value] else []))
    ensures allCategories' == Count(categories + SceneCategories(a))
  {
    var scene := a.scene;
    primaryCategories', allCategories' := primaryCategories, allCategories;
    ghost var head: seq<string> := [];
    if Truthy(scene.primaryCategory) {
      var primary := scene.primaryCategory.value;
      CountSnoc(primaries, primary);
      CountSnoc(categories, primary);
      primaryCategories' := Add(primaryCategories', primary);
      allCategories' := Add(allCategories', primary);
      head := [primary];
    } else {
      assert primaries + [] == primaries;
      assert categories + head == categories;
    }
    allCategories' := AddAll(allCategories', categories + head, scene.secondaryCategories);
    assert categories + head + scene.secondaryCategories == categories + SceneCategories(a);
  }

  method AggregateSceneClassifications(analyses: seq<Analysis>) returns (summary: SceneSummary)
    ensures summary == SceneSummaryOf(analyses)
  {
    var primaryCategories: Tally := [];
    var allCategories: Tally := [];
    for i := 0 to |analyses|
      invariant primaryCategories == Count(Tokens(analyses[..i], PrimaryCategory))
      invariant allCategories == Count(Flatten(analyses[..i], SceneCategories))
    {
      TokensStep(analyses, i, PrimaryCategory);
      FlattenStep(analyses, i, SceneCategories);
      primaryCategories, allCategories := TallyScene(primaryCategories, allCategories, analyses[i],
        Tokens(analyses[..i], PrimaryCategory), Flatten(analyses[..i], SceneCategories));
    }
    assert analyses[..|analyses|] == analyses;
    summary := SceneSummaryFrom(primaryCategories, allCategories, |analyses|);
  }

  /** The rows of `Shares` carry the ranking unchanged and each row's own percentage. */
  lemma SharesRows(ranked: Tally, total: nat)
    requires total > 0 || ranked == []
    ensures Entries(Shares(ranked, total)) == ranked
    ensures forall i :: 0 <= i < |ranked| ==>
      total > 0 && Shares(ranked, total)[i].percentage == Percentage(ranked[i].count, total)
  {
    var rows := Shares(ranked, total);
    assert forall i :: 0 <= i < |ranked| ==> Entries(rows)[i] == ranked[i];
  }

  /** `primary_categories` ranks the truthy primaries: each distinct one once with its number
      of records, counts descending, ties in first-seen order; the counts sum to the number
      of records that name a primary. */
  lemma PrimaryRanking(analyses: seq<Analysis>)
    ensures IsRankingOf(Tokens(analyses, PrimaryCategory), Entries(SceneSummaryOf(analyses).primaryCategories))
    ensures Total(Entries(SceneSummaryOf(analyses).primaryCategories)) == |Tokens(analyses, PrimaryCategory)| <= |analyses|
  {
    var primaries := Tokens(analyses, PrimaryCategory);
    var ranked := MostCommon(Count(primaries));
    MostCommonOfCount(primaries);
    SharesRows(ranked, |analyses|);
    CountSpec(primaries);
    MostCommonTotal(Count(primaries));
  }

  /** No primary count exceeds the number of records, so every primary percentage lies
      within 0.0 and 100.0. */
  lemma PrimaryShares(analyses: seq<Analysis>)
    ensures forall row :: row in SceneSummaryOf(analyses).primaryCategories ==>
      0 < row.count <= |analyses| && row.percentage == Percentage(row.count, |analyses|) &&
      0 <= row.percentage <= 1000
  {
    var primaries := Tokens(analyses, PrimaryCategory);
    var ranked := MostCommon(Count(primaries));
    var rows := SceneSummaryOf(analyses).primaryCategories;
    MostCommonOfCount(primaries);
    RankingCounts(primaries, ranked);
    SharesRows(ranked, |analyses|);
    forall row | row in rows
      ensures 0 < row.count <= |analyses| && row.percentage == Percentage(row.count, |analyses|)
    {
      var i :| 0 <= i < |rows| && rows[i] == row;
      assert Entries(rows)[i] == ranked[i];
    }
  }

  /** `all_categories` ranks every primary and secondary mention the same way; a category
      mentioned several times in one record counts each time, so its percentage is not bounded
      by 100.0. */
  lemma CombinedRanking(analyses: seq<Analysis>)
    ensures IsRankingOf(Flatten(analyses, SceneCategories), Entries(SceneSummaryOf(analyses).allCategories))
    ensures forall row :: row in SceneSummaryOf(analyses).allCategories ==>
      |analyses| > 0 && row.percentage == Percentage(row.count, |analyses|)
  {
    var all := Flatten(analyses, SceneCategories);
    var ranked := MostCommon(Count(all));
    MostCommonOfCount(all);
    SharesRows(ranked, |analyses|);
    SharesPercent(ranked, |analyses|);
  }

  /** Each row's percentage is its count's share of `total`. */
  lemma SharesPercent(ranked: Tally, total: nat)
    requires total > 0 || ranked == []
    ensures forall row :: row in Shares(ranked, total) ==> total > 0 && row.percentage == Percentage(row.count, total)
  {
    var rows := Shares(ranked, total);
    forall row | row in rows ensures total > 0 && row.percentage == Percentage(row.count, total) {
      var i :| 0 <= i < |rows| && rows[i] == row;
    }
  }


  /** `dominant_scene_type` is the most frequent primary (first seen among equals), or
      `"mixed"` when no record names one. */
  lemma DominantSceneType(analyses: seq<Analysis>)
    ensures ModeOr(Tokens(analyses, PrimaryCategory), SceneSummaryOf(analyses).dominantSceneType, "mixed")
  {
    var primaries := Tokens(analyses, PrimaryCategory);
    var ranked := MostCommon(Count(primaries));
    MostCommonOfCount(primaries);
    SharesRows(ranked, |analyses|);
    if primaries != [] {
      ModeOfRanking(primaries, ranked);
      assert Entries(SceneSummaryOf(analyses).primaryCategories)[0] == ranked[0];
    } else {
      RankingSize(primaries, ranked);
      assert (set x | x in primaries) == {};
    }
  }

  /** `scene_diversity` is the number of distinct primaries, one per ranked row. */
  lemma SceneDiversity(analyses: seq<Analysis>)
    ensures SceneSummaryOf(analyses).sceneDiversity == |set x | x in Tokens(analyses, PrimaryCategory)|
    ensures SceneSummaryOf(analyses).sceneDiversity == |SceneSummaryOf(analyses).primaryCategories|
  {
    var primaries := Tokens(analyses, PrimaryCategory);
    MostCommonOfCount(primaries);
    RankingSize(primaries, MostCommon(Count(primaries)));
  }

  /** One record whose secondary repeats its primary: the combined share reaches 200.0. */
  lemma CombinedShareCanExceedWhole()
    ensures var a := Analysis(SceneBlock(Some("beach"), ["beach"]), map[], NoVisual, NoMood, []);
      SceneSummaryOf([a]).allCategories == [CategoryShare("beach", 2, 2000)]
  {
    var a := Analysis(SceneBlock(Some("beach"), ["beach"]), map[], NoVisual, NoMood, []);
    assert [a][..0] == [];
    assert Flatten([a], SceneCategories) == ["beach", "beach"];
    assert ["beach", "beach"][..1] == ["beach"];
    assert Count(["beach", "beach"]) == [Entry("beach", 2)];
    assert Percentage(2, 1) == 2000 by {
      assert (2 * 1000) as real / 1 as real == 2000.0;
    }
  }

  /** A record whose only content is a primary category. */
  function WithPrimary(category: string): Analysis {
    Analysis(SceneBlock(Some(category), []), map[], NoVisual, NoMood, [])
  }

  lemma TwoThenOneTokens(x: string, y: string)
    requires x != "" && y != ""
    ensures Tokens([WithPrimary(x), WithPrimary(x), WithPrimary(y)], PrimaryCategory) == [x, x, y]
  {
    var xs := [WithPrimary(x), WithPrimary(x), WithPrimary(y)];
    TokensStep(xs, 0, PrimaryCategory);
    TokensStep(xs, 1, PrimaryCategory);
    TokensStep(xs, 2, PrimaryCategory);
    assert xs[..0] == [] && xs[..3] == xs;
  }

  lemma TwoThenOneCount(x: string, y: string)
    requires x != y
    ensures MostCommon(Count([x, x, y])) == [Entry(x, 2), Entry(y, 1)]
  {
    CountSnoc([], x);
    CountSnoc([x], x);
    assert [] + [x] == [x] && [x] + [x] == [x, x];
    assert Count([x, x]) == [Entry(x, 2)];
    CountSnoc([x, x], y);
    assert [x, x] + [y] == [x, x, y];
    RankedPair(Entry(x, 2), Entry(y, 1));
  }

  lemma ThirdsPercentages()
    ensures Percentage(2, 3) == 667 && Percentage(1, 3) == 333
  {
    assert 666.0 <= (2 * 1000) as real / 3 as real < 667.0;
    assert 333.0 <= (1 * 1000) as real / 3 as real < 334.0;
  }

  /** Three records, two with primary `x` and then one with primary `y`. */
  lemma ThreePrimaries(x: string, y: string)
    requires x != y && x != "" && y != ""
    ensures var summary := SceneSummaryOf([WithPrimary(x), WithPrimary(x), WithPrimary(y)]);
      && summary.primaryCategories == [CategoryShare(x, 2, 667), CategoryShare(y, 1, 333)]
      && summary.dominantSceneType == x
      && summary.sceneDiversity == 2
  {
    var records := [WithPrimary(x), WithPrimary(x), WithPrimary(y)];
    TwoThenOneTokens(x, y);
    TwoThenOneCount(x, y);
    TwoThirdsOneThird(x, y);
    assert SceneSummaryOf(records).primaryCategories == Shares([Entry(x, 2), Entry(y, 1)], 3);
  }

  lemma TwoThirdsOneThird(x: string, y: string)
    ensures Shares([Entry(x, 2), Entry(y, 1)], 3) == [CategoryShare(x, 2, 667), CategoryShare(y, 1, 333)]
  {
    ThirdsPercentages();
  }
}
