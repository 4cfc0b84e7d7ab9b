# Album aggregation, modelled in Dafny

This project models the album aggregation step of a backend that turns a batch of travel photos into one postcard.
`aggregate_album_analysis` receives one result per uploaded photo. It keeps the successful
ones that carry an analysis, or fails with "No valid image analyses to aggregate". Otherwise
it runs five reducers over the kept analyses:

- scene classifications;
- segmented elements;
- visual features;
- mood and atmosphere;
- notable elements.

It returns their summaries. From those summaries a projector derives the prompt data used later
to write image and caption prompts. Two small helpers of the web layer are modelled as well:
`allowed_file` and `get_image_format`, which decide which uploaded file names are accepted as
images and which format a name stands for.

Layout, one module per file:

- `wrappers.dfy` holds `Option` and `Result`.
- `seqs.dfy` holds sequence helpers: `Take`, `Slice`, `Map`, `Filter`, `IndexOf`,
  `IsSubsequence` and `NoDup`, with their lemmas.
- `ranking.dfy` holds a stable descending insertion sort on `(int, int)` keys, which is how
  `sorted(..., reverse=True)` and `Counter.most_common` order items.
- `tally.dfy` models Python's `Counter` on strings. It is a sequence of `(key, count)` entries
  in first-insertion order, with `c[k] += 1`, `Counter(xs)`, `most_common(n)`, the
  single-winner idiom `most_common(1)[0][0] if c else fallback`, and the `c >= 2` filter over
  `items()`.
- `rounding.dfy` models `round(x, d)` as round-half-to-even on the exact rational value.
- `records.dfy` holds the shape of one analysis and the running collections that the
  reducers' loops build.
- `scene.dfy`, `elements.dfy`, `visual.dfy`, `mood.dfy` and `notable.dfy` hold the five
  reducers. Each is a method with the source's loop, proved equal to a specification function
  `XxxSummaryOf`. Lemmas then state what the summary means.
- `synthesis.dfy` holds the projector `_create_synthesis_prompt_data`.
- `aggregation.dfy` holds the top-level `aggregate_album_analysis`.
- `upload.dfy` holds `ALLOWED_EXTENSIONS`, `allowed_file` and `get_image_format`.

Conventions of the model:

- **Percentages and rates** are integers in tenths of a percent: 50.0 % is 500.
- **`avg_prominence`** is in hundredths.
- **`avg_people_per_image`** is in tenths.
- **`mood_consistency`** is an exact real.
- **A Python dictionary produced by a `Counter`** (`mood_distribution`, the visual
  distributions) is a `Tally`. It keeps its items in first-insertion order.
- **Result rows** such as `{"color": c, "count": n}` are `Entry(c, n)`.
- **`{"category", "count", "percentage"}`** rows are `CategoryShare`.

## Model

| member | source | states |
|---|---|---|
| Aggregation.AggregateAlbum | backend/services/aggregation.py:17-68 | Running the five reducer loops over the kept analyses yields exactly the album profile (or the failure) that the specification function defines |
| Aggregation.AggregateAlbumAnalysis | backend/services/aggregation.py:17-68 | The result is the failure with the fixed message exactly when no analysis is kept; on success `total_images_analyzed` is the positive number of kept analyses |
| Aggregation.AggregateFails | backend/services/aggregation.py:28-37 | Aggregation fails exactly when no record is both successful and carrying an analysis, and the failure carries the fixed message |
| Aggregation.ValidMembers | backend/services/aggregation.py:28-31 | An analysis is kept exactly when some successful record carries it |
| Aggregation.ValidLength | backend/services/aggregation.py:28-31 | The number of kept analyses is the number of valid records |
| Aggregation.NoneKept | backend/services/aggregation.py:28-33 | Nothing is kept exactly when no record is valid |
| Aggregation.TotalImages | backend/services/aggregation.py:39 | On success `total_images_analyzed` is the number of valid records, between 1 and the number of records |
| Aggregation.HasPeople | backend/services/aggregation.py:315 | On success `has_people` holds exactly when some valid record shows people present with a non-zero count |
| Aggregation.NothingSucceeded | backend/services/aggregation.py:28-37 | Records that all failed, with or without a payload, give the failure |
| Aggregation.BareAlbum | backend/services/aggregation.py:17-68 | One successful record that reports nothing gives an album of one image, without people, with mood "mixed" and energy "medium" |
| SceneReducer.AggregateSceneClassifications | backend/services/aggregation.py:71-104 | The loop over the records builds the scene summary of the records |
| SceneReducer.TallyScene | backend/services/aggregation.py:77-84 | One record adds its truthy primary to both counters, then each secondary to the combined counter |
| SceneReducer.PrimaryRanking | backend/services/aggregation.py:89-92 | `primary_categories` lists each truthy primary once with its number of records; counts are descending, with ties in first-seen order; the counts sum to the number of records naming a primary |
| SceneReducer.PrimaryShares | backend/services/aggregation.py:89-92 | Every primary row has a count between 1 and the number of records, and a percentage that is that count's rounded share, within 0.0 and 100.0 |
| SceneReducer.CombinedRanking | backend/services/aggregation.py:94-97 | `all_categories` ranks every primary and secondary mention in the same way, each row with its count's rounded share |
| SceneReducer.DominantSceneType | backend/services/aggregation.py:102 | `dominant_scene_type` is the most frequent primary, the first seen among equals, or "mixed" when no record names one |
| SceneReducer.SceneDiversity | backend/services/aggregation.py:103 | `scene_diversity` is the number of distinct primaries, one per ranked row |
| SceneReducer.CombinedShareCanExceedWhole | backend/services/aggregation.py:83-97 | A secondary equal to its record's primary counts twice, so a combined percentage can reach 200.0 |
| SceneReducer.ThreePrimaries | backend/services/aggregation.py:71-104 | For primaries x, x, y the rows are (x, 2, 66.7) and (y, 1, 33.3), the dominant type is x and the diversity is 2 |
| ElementReducer.AggregateSegmentedElements | backend/services/aggregation.py:107-163 | The nested loops and the statistics loop build the element summary of a non-empty list of records |
| ElementReducer.TallyElements | backend/services/aggregation.py:119-130 | One pass of the inner loop adds one record to the presence and prominence dictionaries of every tracked element, and to the two people figures |
| ElementReducer.TallyElement | backend/services/aggregation.py:120-130 | One element of one record: when it is present, one more presence and its prominence (0 when missing); for people with a non-zero count, one more image and that count |
| ElementReducer.TrackedDistinct | backend/services/aggregation.py:114 | The seven tracked names are distinct |
| ElementReducer.StatsLaw | backend/services/aggregation.py:135-142 | There is one row per tracked element, in tracking order; its presence count is at most the number of records; its rate is the rounded share, within 0.0 and 100.0; its `avg_prominence` is the rounded mean prominence over the records showing it; an element never present has rate 0 and prominence 0 |
| ElementReducer.RankedNames | backend/services/aggregation.py:145-156 | `ranked_by_presence` is a permutation of the statistics rows and names every tracked element exactly once |
| ElementReducer.RankedOrder | backend/services/aggregation.py:145-149 | `ranked_by_presence` is descending by `(presence_count, avg_prominence)`, with equal keys in tracking order |
| ElementReducer.DominantAndRare | backend/services/aggregation.py:151-152 | The dominant and rare lists follow the ranking; an element is dominant exactly when its rate is at least 50.0 and rare exactly when its rate is above 0.0 and below 20.0; no element is both |
| ElementReducer.Thresholds | backend/services/aggregation.py:151-152 | An element present in exactly half the records is dominant; one present in exactly a fifth is not rare |
| ElementReducer.PeoplePresenceLaw | backend/services/aggregation.py:159-162 | `images_with_people` counts the records with people present and a non-zero count, never more than the people presences, and is positive exactly when such a record exists; the average is their rounded mean count, or 0 |
| ElementReducer.PeopleImagesPositive | backend/services/aggregation.py:126-130 | Some record counts people exactly when the people-image count is positive |
| VisualReducer.AggregateVisualFeatures | backend/services/aggregation.py:166-224 | The loop over the records builds the visual summary of the records |
| VisualReducer.DistributionLaw | backend/services/aggregation.py:204-223 | A distribution counts each truthy value by its occurrences; its winner is their mode, or the fallback when there is none |
| VisualReducer.VisualWinners | backend/services/aggregation.py:206-222 | Colour temperature, lighting, setting, time of day and weather are each the mode of their truthy values, or "mixed", "varied", "mixed", "varied" and "varied" respectively |
| VisualReducer.VisualDistributions | backend/services/aggregation.py:181-190 | Each of the five distributions counts the truthy values of its field |
| VisualReducer.ColorPalette | backend/services/aggregation.py:193-203 | `top_colors` is the first eight entries of the colour ranking (all of them when fewer), and no colour left out outnumbers a kept one; `unique_colors_mentioned` is the number of distinct colours |
| MoodReducer.AggregateMoodAtmosphere | backend/services/aggregation.py:227-254 | The loop over the records builds the mood summary of the records |
| MoodReducer.MoodWinners | backend/services/aggregation.py:248-251 | `dominant_mood` and `overall_energy` are the modes of the truthy moods and energies, or "mixed" and "medium" |
| MoodReducer.SecondaryMoodsLaw | backend/services/aggregation.py:249 | `secondary_moods` is the second and third keys (those there are) of the mood ranking `most_common()`, in ranking order, and empty with fewer than two distinct moods: so at most two moods, each given by some record, never the dominant one |
| MoodReducer.TopTags | backend/services/aggregation.py:252 | `top_atmosphere_tags` is the first ten entries of the tag ranking (all of them when fewer), and no tag left out outnumbers a kept one |
| MoodReducer.MoodConsistency | backend/services/aggregation.py:253 | `mood_consistency` is the dominant mood's number of records over the number of records, within 0 and 1, and 0 when no mood was given |
| MoodReducer.ConsistencyShare | backend/services/aggregation.py:253 | The consistency of a counter is its winner's occurrences over the total, within 0 and 1 |
| NotableReducer.AggregateNotableElements | backend/services/aggregation.py:257-272 | The loop collects every notable element, and the notable summary is built from them |
| NotableReducer.NotableRanking | backend/services/aggregation.py:266-270 | `all_notable_elements` is the first twenty entries of the element ranking (all of them when fewer), and no element left out outnumbers a kept one; `unique_notable_count` is the number of distinct elements |
| NotableReducer.RecurringElements | backend/services/aggregation.py:271 | `recurring_elements` holds exactly the elements mentioned at least twice, each once, in order of first mention |
| NotableReducer.SharedLighthouse | backend/services/aggregation.py:257-272 | Two records sharing "lighthouse" beside one other element each give recurring ["lighthouse"], 3 distinct elements, and the lighthouse ranked first |
| Synthesis.CreateSynthesisPromptData | backend/services/aggregation.py:275-316 | The secondary scene types are the categories of primary rows 2 to 4; the palette is the first five top colours; the descriptors are the secondary moods followed by up to five top tags; at most ten recurring elements; the single-valued fields are copied; `has_people` holds exactly when `images_with_people` is positive |
| Synthesis.PromptSceneTypes | backend/services/aggregation.py:288-290 | The secondary scene types are at most three distinct primaries given by the records, never the primary scene type |
| Synthesis.RunnersUp | backend/services/aggregation.py:288-290 | The categories after the head of a ranking are distinct, differ from the head and are among the ranked values |
| Synthesis.PromptPalette | backend/services/aggregation.py:294 | The colour palette is the five most mentioned colours of the records |
| Synthesis.PromptMoodDescriptors | backend/services/aggregation.py:297-298 | The mood descriptors are the secondary moods followed by the five most used tags of the records |
| Tally.CountSpec | backend/services/aggregation.py:193 | A counter built by counting has distinct keys and positive counts; it holds each value once, with its number of occurrences; its counts sum to the number of values |
| Tally.CountKeysFirstSeen | backend/services/aggregation.py:266 | A counter lists its keys in order of first occurrence |
| Tally.AddAll | backend/services/aggregation.py:83-84 | Adding each item in turn continues the counter of the values counted so far |
| Tally.MostCommonOfCount | backend/services/aggregation.py:91 | `most_common()` of a counter is the ranking of its values: each value once with its occurrences, counts descending, ties in order of first occurrence |
| Tally.WinnerIsMode | backend/services/aggregation.py:206 | `most_common(1)[0][0] if c else fallback` is the mode of the counted values, the first seen among equals, or the fallback |
| Tally.TopOfCount | backend/services/aggregation.py:194 | `most_common(n)` is the first `n` entries of the ranking (all of them when fewer), so ties at the cut keep the first seen, and no value left out outnumbers a kept one |
| Tally.RepeatedOfCount | backend/services/aggregation.py:271 | The keys with count at least 2 are exactly the values occurring twice or more, each once, in order of first occurrence |
| Tally.WinnerCount | backend/services/aggregation.py:253 | The winner's entry heads the ranking and carries its number of occurrences, between 1 and the number of values |
| Ranking.SortDescRanked | backend/services/aggregation.py:145-149 | The sort orders entries by descending key and keeps entries with equal keys in input order |
| Ranking.SortDescMapPermutes | backend/services/aggregation.py:145-149 | The sort permutes its input |
| Records.CountIfTruthy | backend/services/aggregation.py:236-239 | `if v := field: counter[v] += 1` continues the counter of the truthy values of the earlier records |
| Rounding.RoundHalfEven | backend/services/aggregation.py:90 | The rounded value is within one half of the exact value, and an exact tie goes to the even neighbour |
| Rounding.Percentage | backend/services/aggregation.py:140 | A count of at most the whole gives a rate within 0.0 and 100.0; a half gives exactly 50.0; a fifth gives exactly 20.0 |
| Rounding.Ratio | backend/services/aggregation.py:253 | A part's share of a whole times the whole is the part, and the share lies within 0 and 1 when the part is no larger than the whole |
| Upload.AllowedFile | backend/app.py:59-61 | An accepted name has a dot, and the text after its last dot is three or four characters long |
| Upload.ImageFormat | backend/app.py:64-69 | The format is "jpeg" exactly when the lower-cased extension is "jpg" or "jpeg"; otherwise it is the lower-cased extension |
| Upload.AllowedIff | backend/app.py:59-61 | A name is accepted exactly when the text after its last dot, lower-cased, is png, jpg, jpeg, gif or webp |
| Upload.SplitAtLastDot | backend/app.py:61 | The extension of `stem + "." + tail`, for a dot-free tail, is that tail |
| Upload.LastDot | backend/app.py:61 | The position found holds a dot, and no dot follows it |
| Upload.Lower | backend/app.py:61 | Lower-casing keeps the length and maps each character to its lower case |
| Upload.NoDotRejected | backend/app.py:61 | A name without a dot is refused |
| Upload.FormatOfAllowed | backend/app.py:64-69 | An accepted name has format png, jpeg, gif or webp; "jpg" reads as "jpeg" |
| Upload.UpperCaseJpeg | backend/app.py:59-69 | "name.JPG" is accepted, with format "jpeg" |
| Upload.InnerExtensionIgnored | backend/app.py:59-61 | "name.jpg.txt" is refused: only the last extension counts |
| Upload.TrailingDotRejected | backend/app.py:59-61 | "name." is refused: its extension is empty |

## Left out

- Rounding: Python rounds the binary floating-point value of `count / total * 100`, while the model rounds the exact rational half-to-even. The two can differ in the last digit when float error pushes a value across a rounding boundary.
- Rounding.Percentage: does not model the float evaluation order of `count / total * 100`; it takes the exact value `count * 1000 / total` in tenths.
- MoodReducer.MoodConsistency: `mood_consistency` is an exact real rather than a float.
- Upload.Lower: lower-cases ASCII letters only, where Python's `str.lower` is Unicode-aware. No non-ASCII character lower-cases into the letters of the five accepted extensions, so whether a name is accepted is unaffected. `get_image_format` can return a different string for an extension with non-ASCII capitals.
- Upload.ImageFormat: requires a dot in the name. Python raises `IndexError` without one. Both callers in `backend/app.py` call it only after `allowed_file` has accepted the name.
- ElementReducer.AggregateSegmentedElements: requires at least one record. Python divides by `len(analyses)` and raises `ZeroDivisionError` on an empty list. The aggregator never calls it on an empty list.
- ElementReducer.TallyElement: reads a missing prominence as 0. An explicit null prominence, which would raise `TypeError` in Python, is read the same way.
- Synthesis.CreateSynthesisPromptData: the `.get(key, default)` fallbacks of the projector ("travel scene", "adventurous", "natural", "outdoor", "daytime", and the empty lists) are not modelled. The five summaries always carry every key the projector reads, so these defaults are never taken.
- Dictionaries of the output: the per-element `element_stats` dictionary is a sequence of rows in tracking order. The `dict(counter)` distributions are counters in insertion order. Field names are camel-cased.
- Web layer: Flask routes, sessions, uploads, image handling with PIL, OpenAI calls, and the analysis and generation services are not part of this model. Only `ALLOWED_EXTENSIONS` (`backend/app.py:41`), `allowed_file` and `get_image_format` are modelled.
- Analysis payloads: malformed payloads (wrong types, a block that is not a dictionary) are not modelled. The model's datatypes admit only well-typed analyses.

Behaviour of the code that a reader may not expect:

- `recurring_elements` holds every element counted at least twice, in order of first mention. It is not limited to the top twenty, and it is not in frequency order.
- The combined scene percentages are not bounded by 100.0, because a secondary category equal to the record's primary counts twice. `SceneReducer.CombinedShareCanExceedWhole` shows this.
- `has_people` requires people present with a non-zero count, not only people present.
