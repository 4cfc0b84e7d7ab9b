/** `aggregate_album_analysis`: keeps the successful analyses, runs the five
    reducers over them and derives the prompt data, or reports that nothing can be
    aggregated. */
module Aggregation {
  import opened Wrappers
  import opened Seqs
  import opened Tally
  import opened Records
  import opened SceneReducer
  import opened ElementReducer
  import opened VisualReducer
  import opened MoodReducer
  import opened NotableReducer
  import opened Synthesis

  datatype AlbumProfile = AlbumProfile(
    totalImagesAnalyzed: nat,
    sceneSummary: SceneSummary,
    elementSummary: ElementSummary,
    visualSummary: VisualSummary,
    moodSummary: MoodSummary,
    notableElements: NotableSummary,
    synthesisPromptData: SynthesisPromptData)

  const NoValidAnalyses := "No valid image analyses to aggregate"

  /** The record is kept: it succeeded and carries a non-empty analysis. */
  predicate IsValid(r: ImageResult) {
    r.success && r.analysis.Some?
  }

  /** `[a["analysis"] for a in image_analyses if a.get("success") and a.get("analysis")]`. */
  function ValidAnalyses(records: seq<ImageResult>): (valid: seq<Analysis>)
    ensures |valid| <= |records|
  {
    if records == [] then []
    else (if IsValid(records[0]) then [records[0].analysis.value] else []) + ValidAnalyses(records[1..])
  }

  /** The album profile, from the summaries of the valid analyses. */
  function AggregateAlbumAnalysis(records: seq<ImageResult>): (r: Result<AlbumProfile, string>)
    ensures r.Failure? <==> ValidAnalyses(records) == []
    ensures r.Failure? ==> r.error == NoValidAnalyses
    ensures r.Success? ==> r.value.totalImagesAnalyzed == |ValidAnalyses(records)| > 0
  {
    var valid := ValidAnalyses(records);
    if valid == [] then Failure(NoValidAnalyses)
    else
      var scene := SceneSummaryOf(valid);
      var element := ElementSummaryOf(valid);
      var visual := VisualSummaryOf(valid);
      var mood := MoodSummaryOf(valid);
      var notable := NotableSummaryOf(valid);
      Success(AlbumProfile(|valid|, scene, element, visual, mood, notable,
        CreateSynthesisPromptData(scene, element, visual, mood, notable)))
  }

  /** The same profile, computed by running the five reducers one after the other. */
  method AggregateAlbum(records: seq<ImageResult>) returns (result: Result<AlbumProfile, string>)
    ensures result == AggregateAlbumAnalysis(records)
  {
    var valid := ValidAnalyses(records);
    if valid == [] {
      return Failure(NoValidAnalyses);
    }
    var scene := AggregateSceneClassifications(valid);
    var element := AggregateSegmentedElements(valid);
    var visual := AggregateVisualFeatures(valid);
    var mood := AggregateMoodAtmosphere(valid);
    var notable := AggregateNotableElements(valid);
    result := Success(AlbumProfile(|valid|, scene, element, visual, mood, notable,
      CreateSynthesisPromptData(scene, element, visual, mood, notable)));
  }

  /** An analysis is kept exactly when some valid record carries it. */
  lemma {:induction false} ValidMembers(records: seq<ImageResult>)
    ensures forall a :: a in ValidAnalyses(records) <==>
      exists i :: 0 <= i < |records| && IsValid(records[i]) && records[i].analysis.value == a
  {
    if records != [] {
      ValidMembers(records[1..]);
      forall a ensures a in ValidAnalyses(records) <==>
        exists i :: 0 <= i < |records| && IsValid(records[i]) && records[i].analysis.value == a
      {
        if a in ValidAnalyses(records[1..]) {
          var i :| 0 <= i < |records[1..]| && IsValid(records[1..][i]) && records[1..][i].analysis.value == a;
          assert IsValid(records[i + 1]) && records[i + 1].analysis.value == a;
        }
        if exists i :: 0 <= i < |records| && IsValid(records[i]) && records[i].analysis.value == a {
          var i :| 0 <= i < |records| && IsValid(records[i]) && records[i].analysis.value == a;
          if i > 0 {
            assert IsValid(records[1..][i - 1]);
          }
        }
      }
    }
  }

  /** The number of records that are kept. */
  function ValidCount(records: seq<ImageResult>): nat {
    if records == [] then 0 else (if IsValid(records[0]) then 1 else 0) + ValidCount(records[1..])
  }

  lemma {:induction false} ValidLength(records: seq<ImageResult>)
    ensures |ValidAnalyses(records)| == ValidCount(records)
  {
    if records != [] {
      ValidLength(records[1..]);
    }
  }

  /** No analysis is kept exactly when no record is valid. */
  lemma NoneKept(records: seq<ImageResult>)
    ensures ValidAnalyses(records) == [] <==> forall i :: 0 <= i < |records| ==> !IsValid(records[i])
  {
    ValidMembers(records);
    if ValidAnalyses(records) != [] {
      assert ValidAnalyses(records)[0] in ValidAnalyses(records);
    }
  }

  /** Aggregation fails, with its fixed message, exactly when no record is kept. */
  lemma AggregateFails(records: seq<ImageResult>)
    ensures AggregateAlbumAnalysis(records).Failure? <==> forall i :: 0 <= i < |records| ==> !IsValid(records[i])
    ensures AggregateAlbumAnalysis(records).Failure? ==> AggregateAlbumAnalysis(records).error == NoValidAnalyses
  {
    NoneKept(records);
  }

  /** `total_images_analyzed` is the number of kept records: at least one, at most all. */
  lemma TotalImages(records: seq<ImageResult>)
    ensures AggregateAlbumAnalysis(records).Success? ==>
      && AggregateAlbumAnalysis(records).value.totalImagesAnalyzed == ValidCount(records)
      && 1 <= ValidCount(records) <= |records|
  {
    var valid := ValidAnalyses(records);
    ValidLength(records);
    assert AggregateAlbumAnalysis(records).Success? ==> AggregateAlbumAnalysis(records).value.totalImagesAnalyzed == |valid|;
  }

  /** `has_people` holds exactly when some kept record shows people with a non-zero count. */
  lemma HasPeople(records: seq<ImageResult>)
    ensures AggregateAlbumAnalysis(records).Success? ==>
      (AggregateAlbumAnalysis(records).value.synthesisPromptData.hasPeople <==>
        exists i :: 0 <= i < |records| && IsValid(records[i]) && CountsPeople(records[i].analysis.value))
  {
    var valid := ValidAnalyses(records);
    if valid != [] {
      PeoplePresenceLaw(valid);
      ValidMembers(records);
      if exists i :: 0 <= i < |records| && IsValid(records[i]) && CountsPeople(records[i].analysis.value) {
        var i :| 0 <= i < |records| && IsValid(records[i]) && CountsPeople(records[i].analysis.value);
        var a := records[i].analysis.value;
        assert a in valid;
        var k :| 0 <= k < |valid| && valid[k] == a;
      }
      if exists k :: 0 <= k < |valid| && CountsPeople(valid[k]) {
        var k :| 0 <= k < |valid| && CountsPeople(valid[k]);
        assert valid[k] in valid;
      }
    }
  }

  /** An analysis that reports nothing at all. */
  const Bare := Analysis(NoScene, map[], NoVisual, NoMood, [])

  /** Records that all failed, with or without a payload, cannot be aggregated. */
  lemma NothingSucceeded(a: Analysis)
    ensures AggregateAlbumAnalysis([ImageResult(false, Some(a)), ImageResult(false, None)]) == Failure(NoValidAnalyses)
  {
    var records := [ImageResult(false, Some(a)), ImageResult(false, None)];
    assert records[1..] == [ImageResult(false, None)] && records[1..][1..] == [];
    assert ValidAnalyses(records[1..][1..]) == [];
    assert ValidAnalyses(records[1..]) == [];
    assert ValidAnalyses(records) == [];
  }

  /** One successful record reporting no mood, no energy and no people: the album has no
      people, its mood is "mixed" and its energy "medium". */
  lemma BareAlbum()
    ensures var result := AggregateAlbumAnalysis([ImageResult(true, Some(Bare))]);
      && result.Success?
      && result.value.totalImagesAnalyzed == 1
      && !result.value.synthesisPromptData.hasPeople
      && result.value.synthesisPromptData.dominantMood == "mixed"
      && result.value.synthesisPromptData.energyLevel == "medium"
  {
    var records := [ImageResult(true, Some(Bare))];
    assert ValidAnalyses(records) == [Bare] by {
      assert records[1..] == [];
    }
    assert [Bare][..0] == [];
    assert Tokens([Bare], OverallMood) == [];
    assert Tokens([Bare], EnergyLevel) == [];
    assert PeopleImages([Bare]) == 0;
  }
}
