/** `_aggregate_mood_atmosphere`: the mood and energy distributions with their
    winners, the runner-up moods, the most used tags and how consistent the mood is. */
module MoodReducer {
  import opened Wrappers
  import opened Seqs
  import opened Tally
  import opened Records
  import opened Rounding

  datatype MoodSummary = MoodSummary(
    moodDistribution: Tally,
    dominantMood: string,
    secondaryMoods: seq<string>,
    energyDistribution: Tally,
    overallEnergy: string,
    topAtmosphereTags: Tally,
    moodConsistency: real)

  function OverallMood(a: Analysis): Option<string> { a.mood.overallMood }
  function EnergyLevel(a: Analysis): Option<string> { a.mood.energyLevel }
  function DescriptiveTags(a: Analysis): seq<string> { a.mood.descriptiveTags }

  /** `[m for m, _ in moods.most_common(3)[1:]] if len(moods) > 1 else []`. */
  function SecondaryMoods(moods: Tally): seq<string> {
    if |moods| > 1 then Keys(Top(moods, 3)[1..]) else []
  }

  /** `moods.most_common(1)[0][1] / len(analyses) if moods else 0`, as an exact ratio. */
  function Consistency(moods: Tally, total: nat): real
    requires moods != [] ==> total > 0
  {
    if moods != [] then Ratio(MostCommon(moods)[0].count, total) else 0.0
  }

  /** The summary built from the finished counters and the collected tags. */
  function MoodSummaryFrom(moods: Tally, energyLevels: Tally, allTags: seq<string>, total: nat): MoodSummary
    requires moods != [] ==> total > 0
  {
    MoodSummary(
      moods,
      Winner(moods, "mixed"),
      SecondaryMoods(moods),
      energyLevels,
      Winner(energyLevels, "medium"),
      Top(Count(allTags), 10),
      Consistency(moods, total))
  }

  /** The mood summary of a list of analyses. */
  function MoodSummaryOf(analyses: seq<Analysis>): MoodSummary {
    var moods := Tokens(analyses, OverallMood);
    CountEmpty(moods);
    MoodSummaryFrom(Count(moods), Count(Tokens(analyses, EnergyLevel)), Flatten(analyses, DescriptiveTags), |analyses|)
  }

  method AggregateMoodAtmosphere(analyses: seq<Analysis>) returns (summary: MoodSummary)
    ensures summary == MoodSummaryOf(analyses)
  {
    var moods: Tally := [];
    var energyLevels: Tally := [];
    var allTags: seq<string> := [];
    for i := 0 to |analyses|
      invariant moods == Count(Tokens(analyses[..i], OverallMood))
      invariant energyLevels == Count(Tokens(analyses[..i], EnergyLevel))
      invariant allTags == Flatten(analyses[..i], DescriptiveTags)
    {
      moods := CountIfTruthy(moods, analyses, i, OverallMood);
      energyLevels := CountIfTruthy(energyLevels, analyses, i, EnergyLevel);
      FlattenStep(analyses, i, DescriptiveTags);
      allTags := allTags + analyses[i].mood.descriptiveTags;
    }
    assert analyses[..|analyses|] == analyses;
    CountSpec(Tokens(analyses, OverallMood));
    summary := MoodSummaryFrom(moods, energyLevels, allTags, |analyses|);
  }

  /** `dominant_mood` and `overall_energy` are the most frequent truthy values, or "mixed"
      and "medium" when none was given. */
  lemma MoodWinners(analyses: seq<Analysis>)
    ensures ModeOr(Tokens(analyses, OverallMood), MoodSummaryOf(analyses).dominantMood, "mixed")
    ensures ModeOr(Tokens(analyses, EnergyLevel), MoodSummaryOf(analyses).overallEnergy, "medium")
  {
    WinnerIsMode(Tokens(analyses, OverallMood), "mixed");
    WinnerIsMode(Tokens(analyses, EnergyLevel), "medium");
  }

  /** The runner-up moods of a ranking: its second and third keys (those there are). */
  lemma SecondaryOfRanking(r: Tally)
    requires |r| > 1
    ensures Keys(Take(r, 3)[1..]) == Keys(r)[1..if |r| < 3 then |r| else 3]
  {
    var n := if |r| < 3 then |r| else 3;
    assert Take(r, 3)[1..] == r[1..n];
    KeysSlice(r, 1, n);
  }

  /** A list without repeats does not repeat its head later on. */
  lemma HeadNotLater(ks: seq<string>, n: nat)
    requires NoDup(ks) && 1 <= n <= |ks|
    ensures ks[0] !in ks[1..n]
    ensures forall m :: m in ks[1..n] ==> m in ks
  {
    forall m | m in ks[1..n] ensures m != ks[0] && m in ks {
      var i :| 1 <= i < n && ks[i] == m;
    }
  }

  /** `secondary_moods` holds the second and third most frequent moods, in ranking order: at most two, never
      the dominant mood, each one given by some record, and none unless at least two distinct
      moods were given; with at least two, it holds one fewer than the distinct moods, up to two. */
  lemma SecondaryMoodsLaw(analyses: seq<Analysis>)
    ensures var summary := MoodSummaryOf(analyses);
      var distinct := |set m | m in Tokens(analyses, OverallMood)|;
      && |summary.secondaryMoods| <= 2
      && summary.dominantMood !in summary.secondaryMoods
      && (forall m :: m in summary.secondaryMoods ==> m in Tokens(analyses, OverallMood))
      && (distinct < 2 ==> summary.secondaryMoods == [])
      && (distinct >= 2 ==> |summary.secondaryMoods| == (if distinct < 3 then distinct else 3) - 1)
    ensures var xs := Tokens(analyses, OverallMood);
      var r := MostCommon(Count(xs));
      && IsRankingOf(xs, r)
      && (|r| > 1 ==> MoodSummaryOf(analyses).secondaryMoods == Keys(r)[1..if |r| < 3 then |r| else 3])
  {
    var xs := Tokens(analyses, OverallMood);
    var r := MostCommon(Count(xs));
    MostCommonOfCount(xs);
    RankingSize(xs, r);
    if |r| > 1 {
      SecondaryOfRanking(r);
      HeadNotLater(Keys(r), if |r| < 3 then |r| else 3);
    }
  }

  /** `top_atmosphere_tags` holds the ten most used tags (all when fewer are distinct) with
      their numbers of uses, and no tag left out is used more often than one kept. */
  lemma TopTags(analyses: seq<Analysis>)
    ensures var tags := Flatten(analyses, DescriptiveTags);
      var top := MoodSummaryOf(analyses).topAtmosphereTags;
      && |top| == (if 10 <= |set t | t in tags| then 10 else |set t | t in tags|)
      && IsSubsequence(top, MostCommon(Count(tags)))
      && top == MostCommon(Count(tags))[..|top|]
      && (forall t, i :: t in tags && t !in Keys(top) && 0 <= i < |top| ==> multiset(tags)[t] <= top[i].count)
  {
    TopOfCount(Flatten(analyses, DescriptiveTags), 10);
  }

  /** The consistency `c` of a counter of `xs` over `total` records is the share of the
      counter's winner `w`. */
  lemma {:induction false} ConsistencyShare(xs: seq<string>, total: nat, fallback: string, w: string, c: real)
    requires |xs| <= total && (xs != [] ==> total > 0)
    requires w == Winner(Count(xs), fallback) && c == Consistency(Count(xs), total)
    ensures 0.0 <= c <= 1.0
    ensures xs == [] ==> c == 0.0
    ensures xs != [] ==> c == Ratio(multiset(xs)[w], total)
  {
    CountSpec(xs);
    if xs != [] {
      WinnerCount(xs, fallback);
    }
  }

  /** `mood_consistency` is the share of records giving the dominant mood: within 0 and 1,
      and 0 when no record gives a mood. */
  lemma MoodConsistency(analyses: seq<Analysis>)
    ensures var summary := MoodSummaryOf(analyses);
      var moods := Tokens(analyses, OverallMood);
      && 0.0 <= summary.moodConsistency <= 1.0
      && (moods == [] ==> summary.moodConsistency == 0.0)
      && (moods != [] ==> summary.moodConsistency == Ratio(multiset(moods)[summary.dominantMood], |analyses|))
  {
    var summary := MoodSummaryOf(analyses);
    MoodFields(analyses);
    ConsistencyShare(Tokens(analyses, OverallMood), |analyses|, "mixed", summary.dominantMood, summary.moodConsistency);
  }

  /** Where the dominant mood and the consistency of a summary come from. */
  lemma MoodFields(analyses: seq<Analysis>)
    ensures |Tokens(analyses, OverallMood)| <= |analyses|
    ensures MoodSummaryOf(analyses).dominantMood == Winner(Count(Tokens(analyses, OverallMood)), "mixed")
    ensures MoodSummaryOf(analyses).moodConsistency == Consistency(Count(Tokens(analyses, OverallMood)), |analyses|)
  {
    CountSpec(Tokens(analyses, OverallMood));
  }
}
