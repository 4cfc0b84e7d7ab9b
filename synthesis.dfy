/** `_create_synthesis_prompt_data`: the handful of album facts later used to write
    image and caption prompts, read off the five summaries. */
module Synthesis {
  import opened Seqs
  import opened Tally
  import opened Records
  import opened SceneReducer
  import opened ElementReducer
  import opened VisualReducer
  import opened MoodReducer
  import opened NotableReducer

  datatype SynthesisPromptData = SynthesisPromptData(
    primarySceneType: string,
    secondarySceneTypes: seq<string>,
    dominantVisualElements: seq<string>,
    colorPalette: seq<string>,
    colorTemperature: string,
    lightingStyle: string,
    setting: string,
    timeOfDay: string,
    dominantMood: string,
    moodDescriptors: seq<string>,
    energyLevel: string,
    recurringNotableElements: seq<string>,
    hasPeople: bool)

  function Category(row: CategoryShare): string { row.category }

  /** The prompt data of the five summaries. Every summary always carries the keys read
      here, so none of the `.get(key, default)` defaults of `_create_synthesis_prompt_data`
      is ever taken. */
  function CreateSynthesisPromptData(scene: SceneSummary, element: ElementSummary, visual: VisualSummary,
                                     mood: MoodSummary, notable: NotableSummary): (d: SynthesisPromptData)
    // the runner-up scene types are the categories ranked second to fourth
    ensures |d.secondarySceneTypes| ==
              if |scene.primaryCategories| <= 1 then 0 else if |scene.primaryCategories| < 4 then |scene.primaryCategories| - 1 else 3
    ensures forall i :: 0 <= i < |d.secondarySceneTypes| ==>
              d.secondarySceneTypes[i] == scene.primaryCategories[i + 1].category
    // the palette is the first five colours of the ranked top colours
    ensures |d.colorPalette| == if |visual.topColors| < 5 then |visual.topColors| else 5
    ensures forall i :: 0 <= i < |d.colorPalette| ==> d.colorPalette[i] == visual.topColors[i].key
    // the descriptors are the runner-up moods followed by up to five top tags
    ensures |d.moodDescriptors| ==
              |mood.secondaryMoods| + if |mood.topAtmosphereTags| < 5 then |mood.topAtmosphereTags| else 5
    ensures d.moodDescriptors[..|mood.secondaryMoods|] == mood.secondaryMoods
    ensures forall i :: |mood.secondaryMoods| <= i < |d.moodDescriptors| ==>
              d.moodDescriptors[i] == mood.topAtmosphereTags[i - |mood.secondaryMoods|].key
    // at most the first ten recurring notable elements
    ensures |d.recurringNotableElements| ==
              if |notable.recurringElements| < 10 then |notable.recurringElements| else 10
    ensures d.recurringNotableElements == notable.recurringElements[..|d.recurringNotableElements|]
    // the single-valued fields are taken over unchanged
    ensures d.primarySceneType == scene.dominantSceneType
    ensures d.dominantVisualElements == element.dominantElements
    ensures d.colorTemperature == visual.colorTemperature.winner
    ensures d.lightingStyle == visual.lighting.winner
    ensures d.setting == visual.setting.winner
    ensures d.timeOfDay == visual.timeOfDay.winner
    ensures d.dominantMood == mood.dominantMood
    ensures d.energyLevel == mood.overallEnergy
    ensures d.hasPeople <==> element.peoplePresence.imagesWithPeople > 0
  {
    var tags := Keys(Take(mood.topAtmosphereTags, 5));
    SynthesisPromptData(
      scene.dominantSceneType,
      Map(Slice(scene.primaryCategories, 1, 4), Category),
      element.dominantElements,
      Keys(Take(visual.topColors, 5)),
      visual.colorTemperature.winner,
      visual.lighting.winner,
      visual.setting.winner,
      visual.timeOfDay.winner,
      mood.dominantMood,
      mood.secondaryMoods + tags,
      mood.overallEnergy,
      Take(notable.recurringElements, 10),
      element.peoplePresence.imagesWithPeople > 0)
  }

  /** Entries following the head of a list without repeats: themselves without repeats,
      never the head, all from the list. */
  lemma {:induction false} FollowersOfHead(ks: seq<string>, sec: seq<string>)
    requires NoDup(ks) && |sec| < |ks|
    requires forall i :: 0 <= i < |sec| ==> sec[i] == ks[i + 1]
    ensures NoDup(sec) && ks[0] !in sec
    ensures forall c :: c in sec ==> c in ks
  {
    forall i, j | 0 <= i < j < |sec| ensures sec[i] != sec[j] {
      assert ks[i + 1] != ks[j + 1];
    }
    forall c | c in sec ensures c != ks[0] && c in ks {
      var i :| 0 <= i < |sec| && sec[i] == c;
      assert ks[0] != ks[i + 1];
    }
  }

  /** The categories of the rows after the first of a ranking: distinct, never the first
      category, all among the ranked values. */
  lemma RunnersUp(xs: seq<string>, rows: seq<CategoryShare>, sec: seq<string>)
    requires IsRankingOf(xs, Entries(rows)) && |sec| < |rows|
    requires forall i :: 0 <= i < |sec| ==> sec[i] == rows[i + 1].category
    ensures NoDup(sec) && rows[0].category !in sec
    ensures forall c :: c in sec ==> c in xs
  {
    var ks := Keys(Entries(rows));
    assert forall i :: 0 <= i < |rows| ==> ks[i] == rows[i].category;
    FollowersOfHead(ks, sec);
  }

  /** `secondary_scene_types` are up to three distinct primary categories named by the
      records, none of them the primary scene type. */
  lemma PromptSceneTypes(analyses: seq<Analysis>, element: ElementSummary, visual: VisualSummary,
                         mood: MoodSummary, notable: NotableSummary)
    ensures var d := CreateSynthesisPromptData(SceneSummaryOf(analyses), element, visual, mood, notable);
      && |d.secondarySceneTypes| <= 3
      && NoDup(d.secondarySceneTypes)
      && d.primarySceneType !in d.secondarySceneTypes
      && (forall c :: c in d.secondarySceneTypes ==> c in Tokens(analyses, PrimaryCategory))
  {
    var scene := SceneSummaryOf(analyses);
    var d := CreateSynthesisPromptData(scene, element, visual, mood, notable);
    if scene.primaryCategories != [] {
      PrimaryRanking(analyses);
      RunnersUp(Tokens(analyses, PrimaryCategory), scene.primaryCategories, d.secondarySceneTypes);
    }
  }

  /** `color_palette` is the five most mentioned colours of the records (fewer when fewer
      are distinct), in ranking order. */
  lemma PromptPalette(analyses: seq<Analysis>, scene: SceneSummary, element: ElementSummary,
                      mood: MoodSummary, notable: NotableSummary)
    ensures CreateSynthesisPromptData(scene, element, VisualSummaryOf(analyses), mood, notable).colorPalette
         == Keys(Top(Count(Flatten(analyses, DominantColors)), 5))
  {
    var r := MostCommon(Count(Flatten(analyses, DominantColors)));
    var palette := CreateSynthesisPromptData(scene, element, VisualSummaryOf(analyses), mood, notable).colorPalette;
    assert Take(Take(r, 8), 5) == Take(r, 5);
  }

  /** `mood_descriptors` are the runner-up moods followed by the five most used tags. */
  lemma PromptMoodDescriptors(analyses: seq<Analysis>, scene: SceneSummary, element: ElementSummary,
                              visual: VisualSummary, notable: NotableSummary)
    ensures CreateSynthesisPromptData(scene, element, visual, MoodSummaryOf(analyses), notable).moodDescriptors
         == MoodSummaryOf(analyses).secondaryMoods + Keys(Top(Count(Flatten(analyses, DescriptiveTags)), 5))
  {
    var r := MostCommon(Count(Flatten(analyses, DescriptiveTags)));
    assert Take(Take(r, 10), 5) == Take(r, 5);
  }
}
