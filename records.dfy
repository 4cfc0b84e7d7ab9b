/** One image's analysis as the vision step delivers it. A block the analysis
    leaves out is the block with every field absent; a field left out is `None`
    or the empty sequence, as `dict.get(key, default)` reads it. */
module Records {
  import opened Wrappers
  import opened Tally

  /** A string field Python's truth test accepts: present and not empty. */
  predicate Truthy(f: Option<string>) {
    f.Some? && f.value != ""
  }

  datatype SceneBlock = SceneBlock(primaryCategory: Option<string>, secondaryCategories: seq<string>)

  /** One tracked element; `count` is only reported for people. */
  datatype ElementBlock = ElementBlock(present: bool, prominence: Option<real>, count: Option<int>)

  datatype VisualBlock = VisualBlock(
    dominantColors: seq<string>,
    colorTemperature: Option<string>,
    lightingCondition: Option<string>,
    indoorOutdoor: Option<string>,
    timeOfDay: Option<string>,
    weatherApparent: Option<string>)

  datatype MoodBlock = MoodBlock(overallMood: Option<string>, energyLevel: Option<string>, descriptiveTags: seq<string>)

  /** A block the analysis leaves out. */
  const NoScene := SceneBlock(None, [])
  const NoVisual := VisualBlock([], None, None, None, None, None)
  const NoMood := MoodBlock(None, None, [])

  /** The `analysis` payload of one image; `segments` maps element names to their blocks. */
  datatype Analysis = Analysis(
    scene: SceneBlock,
    segments: map<string, ElementBlock>,
    visual: VisualBlock,
    mood: MoodBlock,
    notable: seq<string>)

  /** One entry of the list handed to the aggregator. `analysis` is `None` when the payload
      is missing, null or an empty dictionary (all falsy in Python). */
  datatype ImageResult = ImageResult(success: bool, analysis: Option<Analysis>)

  /** `[f(a) for a in analyses if f(a)]` for an optional string field. */
  function Tokens(analyses: seq<Analysis>, field: Analysis -> Option<string>): (r: seq<string>)
    ensures |r| <= |analyses|
  {
    if analyses == [] then []
    else
      var last := analyses[|analyses| - 1];
      Tokens(analyses[..|analyses| - 1], field) + (if Truthy(field(last)) then [field(last).value] else [])
  }

  /** All entries of a list field, record after record (`all.extend(f(a))` in a loop). */
  function Flatten(analyses: seq<Analysis>, field: Analysis -> seq<string>): seq<string> {
    if analyses == [] then []
    else Flatten(analyses[..|analyses| - 1], field) + field(analyses[|analyses| - 1])
  }

  /** `Tokens` of one more record of the same list. */
  lemma TokensStep(analyses: seq<Analysis>, i: nat, field: Analysis -> Option<string>)
    requires i < |analyses|
    ensures Tokens(analyses[..i + 1], field)
         == Tokens(analyses[..i], field) + (if Truthy(field(analyses[i])) then [field(analyses[i]).value] else [])
  {
    assert analyses[..i + 1][..i] == analyses[..i];
  }

  /** `Flatten` of one more record of the same list. */
  lemma FlattenStep(analyses: seq<Analysis>, i: nat, field: Analysis -> seq<string>)
    requires i < |analyses|
    ensures Flatten(analyses[..i + 1], field) == Flatten(analyses[..i], field) + field(analyses[i])
  {
    assert analyses[..i + 1][..i] == analyses[..i];
  }

  /** The counter of a field over one more record: one `counter[x] += 1` when the field is truthy. */
  lemma CountTokensStep(analyses: seq<Analysis>, i: nat, field: Analysis -> Option<string>)
    requires i < |analyses|
    ensures Count(Tokens(analyses[..i + 1], field))
         == if Truthy(field(analyses[i])) then Add(Count(Tokens(analyses[..i], field)), field(analyses[i]).value)
            else Count(Tokens(analyses[..i], field))
  {
    TokensStep(analyses, i, field);
    var before := Tokens(analyses[..i], field);
    if Truthy(field(analyses[i])) {
      CountSnoc(before, field(analyses[i]).value);
    } else {
      assert before + [] == before;
    }
  }

  /** `if v := field(a): counter[v] += 1` for record `i`, continuing the counter of the
      records before it. */
  method CountIfTruthy(counter: Tally, analyses: seq<Analysis>, i: nat, field: Analysis -> Option<string>)
    returns (counter': Tally)
    requires i < |analyses| && counter == Count(Tokens(analyses[..i], field))
    ensures counter' == Count(Tokens(analyses[..i + 1], field))
  {
    CountTokensStep(analyses, i, field);
    var v := field(analyses[i]);
    if Truthy(v) {
      counter' := Add(counter, v.value);
    } else {
      counter' := counter;
    }
  }
}
