/** `_aggregate_visual_features`: the colour palette and five categorical
    distributions, each with its most common value or a fixed fallback. */
module VisualReducer {
  import opened Wrappers
  import opened Seqs
  import opened Tally
  import opened Records

  /** A distribution (`dict(counter)`) with its most common value. */
  datatype Distribution = Distribution(distribution: Tally, winner: string)

  datatype VisualSummary = VisualSummary(
    topColors: Tally,
    uniqueColorsMentioned: nat,
    colorTemperature: Distribution,
    lighting: Distribution,
    setting: Distribution,
    timeOfDay: Distribution,
    weather: Distribution)

  function DominantColors(a: Analysis): seq<string> { a.visual.dominantColors }
  function ColorTemperature(a: Analysis): Option<string> { a.visual.colorTemperature }
  function LightingCondition(a: Analysis): Option<string> { a.visual.lightingCondition }
  function IndoorOutdoor(a: Analysis): Option<string> { a.visual.indoorOutdoor }
  function TimeOfDay(a: Analysis): Option<string> { a.visual.timeOfDay }
  function WeatherApparent(a: Analysis): Option<string> { a.visual.weatherApparent }

  /** A finished counter with its winner, or `fallback` when it is empty. */
  function DistributionOf(counter: Tally, fallback: string): Distribution {
    Distribution(counter, Winner(counter, fallback))
  }

  /** The summary built from the collected colours and the five counters. */
  function VisualSummaryFrom(allColors: seq<string>, temperatures: Tally, lightings: Tally,
                             settings: Tally, times: Tally, weathers: Tally): VisualSummary {
    var colorCounts := Count(allColors);
    VisualSummary(
      Top(colorCounts, 8),
      |colorCounts|,
      DistributionOf(temperatures, "mixed"),
      DistributionOf(lightings, "varied"),
      DistributionOf(settings, "mixed"),
      DistributionOf(times, "varied"),
      DistributionOf(weathers, "varied"))
  }

  /** The visual summary of a list of analyses. */
  function VisualSummaryOf(analyses: seq<Analysis>): VisualSummary {
    VisualSummaryFrom(
      Flatten(analyses, DominantColors),
      Count(Tokens(analyses, ColorTemperature)),
      Count(Tokens(analyses, LightingCondition)),
      Count(Tokens(analyses, IndoorOutdoor)),
      Count(Tokens(analyses, TimeOfDay)),
      Count(Tokens(analyses, WeatherApparent)))
  }

  method AggregateVisualFeatures(analyses: seq<Analysis>) returns (summary: VisualSummary)
    ensures summary == VisualSummaryOf(analyses)
  {
    var allColors: seq<string> := [];
    var colorTemperatures: Tally := [];
    var lightingConditions: Tally := [];
    var indoorOutdoor: Tally := [];
    var timesOfDay: Tally := [];
    var weather: Tally := [];
    for i := 0 to |analyses|
      invariant allColors == Flatten(analyses[..i], DominantColors)
      invariant colorTemperatures == Count(Tokens(analyses[..i], ColorTemperature))
      invariant lightingConditions == Count(Tokens(analyses[..i], LightingCondition))
      invariant indoorOutdoor == Count(Tokens(analyses[..i], IndoorOutdoor))
      invariant timesOfDay == Count(Tokens(analyses[..i], TimeOfDay))
      invariant weather == Count(Tokens(analyses[..i], WeatherApparent))
    {
      FlattenStep(analyses, i, DominantColors);
      allColors := allColors + analyses[i].visual.dominantColors;
      colorTemperatures := CountIfTruthy(colorTemperatures, analyses, i, ColorTemperature);
      lightingConditions := CountIfTruthy(lightingConditions, analyses, i, LightingCondition);
      indoorOutdoor := CountIfTruthy(indoorOutdoor, analyses, i, IndoorOutdoor);
      timesOfDay := CountIfTruthy(timesOfDay, analyses, i, TimeOfDay);
      weather := CountIfTruthy(weather, analyses, i, WeatherApparent);
    }
    assert analyses[..|analyses|] == analyses;
    summary := VisualSummaryFrom(allColors, colorTemperatures, lightingConditions, indoorOutdoor, timesOfDay, weather);
  }

  /** A distribution of the truthy values `xs` counts each of them by its occurrences, and
      its winner is their mode, or `fallback` when there is none. */
  lemma DistributionLaw(xs: seq<string>, fallback: string)
    ensures forall k :: CountOf(DistributionOf(Count(xs), fallback).distribution, k) == multiset(xs)[k]
    ensures ModeOr(xs, DistributionOf(Count(xs), fallback).winner, fallback)
  {
    CountSpec(xs);
    WinnerIsMode(xs, fallback);
  }

  /** Each single-winner field is the most frequent truthy value, or its fallback: colour
      temperature "mixed", lighting "varied", setting "mixed", time of day "varied", weather
      "varied". */
  lemma VisualWinners(analyses: seq<Analysis>)
    ensures ModeOr(Tokens(analyses, ColorTemperature), VisualSummaryOf(analyses).colorTemperature.winner, "mixed")
    ensures ModeOr(Tokens(analyses, LightingCondition), VisualSummaryOf(analyses).lighting.winner, "varied")
    ensures ModeOr(Tokens(analyses, IndoorOutdoor), VisualSummaryOf(analyses).setting.winner, "mixed")
    ensures ModeOr(Tokens(analyses, TimeOfDay), VisualSummaryOf(analyses).timeOfDay.winner, "varied")
    ensures ModeOr(Tokens(analyses, WeatherApparent), VisualSummaryOf(analyses).weather.winner, "varied")
  {
    DistributionLaw(Tokens(analyses, ColorTemperature), "mixed");
    DistributionLaw(Tokens(analyses, LightingCondition), "varied");
    DistributionLaw(Tokens(analyses, IndoorOutdoor), "mixed");
    DistributionLaw(Tokens(analyses, TimeOfDay), "varied");
    DistributionLaw(Tokens(analyses, WeatherApparent), "varied");
  }

  /** Each distribution counts the truthy values of its field by their occurrences. */
  lemma VisualDistributions(analyses: seq<Analysis>)
    ensures forall k :: CountOf(VisualSummaryOf(analyses).colorTemperature.distribution, k) == multiset(Tokens(analyses, ColorTemperature))[k]
    ensures forall k :: CountOf(VisualSummaryOf(analyses).lighting.distribution, k) == multiset(Tokens(analyses, LightingCondition))[k]
    ensures forall k :: CountOf(VisualSummaryOf(analyses).setting.distribution, k) == multiset(Tokens(analyses, IndoorOutdoor))[k]
    ensures forall k :: CountOf(VisualSummaryOf(analyses).timeOfDay.distribution, k) == multiset(Tokens(analyses, TimeOfDay))[k]
    ensures forall k :: CountOf(VisualSummaryOf(analyses).weather.distribution, k) == multiset(Tokens(analyses, WeatherApparent))[k]
  {
    DistributionLaw(Tokens(analyses, ColorTemperature), "mixed");
    DistributionLaw(Tokens(analyses, LightingCondition), "varied");
    DistributionLaw(Tokens(analyses, IndoorOutdoor), "mixed");
    DistributionLaw(Tokens(analyses, TimeOfDay), "varied");
    DistributionLaw(Tokens(analyses, WeatherApparent), "varied");
  }

  /** `top_colors` holds the eight most mentioned colours (all of them when fewer are
      distinct) with their numbers of mentions, in ranking order, and no colour left out is
      mentioned more often than one kept; `unique_colors_mentioned` is the number of
      distinct colours. */
  lemma ColorPalette(analyses: seq<Analysis>)
    ensures var colors := Flatten(analyses, DominantColors);
      var top := VisualSummaryOf(analyses).topColors;
      && |top| == (if 8 <= |set c | c in colors| then 8 else |set c | c in colors|)
      && IsSubsequence(top, MostCommon(Count(colors)))
      && top == MostCommon(Count(colors))[..|top|]
      && (forall c, i :: c in colors && c !in Keys(top) && 0 <= i < |top| ==> multiset(colors)[c] <= top[i].count)
      && VisualSummaryOf(analyses).uniqueColorsMentioned == |set c | c in colors|
  {
    var colors := Flatten(analyses, DominantColors);
    TopOfCount(colors, 8);
    MostCommonOfCount(colors);
    RankingSize(colors, MostCommon(Count(colors)));
  }
}
