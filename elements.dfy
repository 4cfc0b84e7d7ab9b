/** `_aggregate_segmented_elements`: presence, prominence and people statistics for
    a fixed list of element names, a ranking of them and a dominant/rare split. */
module ElementReducer {
  import opened Wrappers
  import opened Seqs
  import opened Ranking
  import opened Rounding
  import opened Records

  /** `elements_to_track`, in the order of the list. */
  const Tracked: seq<string> := ["sky", "buildings", "water", "people", "vegetation", "food_drinks", "vehicles_transit"]

  /** No name is tracked twice. */
  lemma TrackedDistinct()
    ensures NoDup(Tracked)
    ensures forall j :: 0 <= j < |Tracked| ==> Tracked[j] !in Tracked[..j]
  {
    assert Tracked[..0] == [];
    assert Tracked[..1] == ["sky"];
    assert Tracked[..2] == ["sky", "buildings"];
    assert Tracked[..3] == ["sky", "buildings", "water"];
    assert Tracked[..4] == ["sky", "buildings", "water", "people"];
    assert Tracked[..5] == ["sky", "buildings", "water", "people", "vegetation"];
    assert Tracked[..6] == ["sky", "buildings", "water", "people", "vegetation", "food_drinks"];
    forall i, j | 0 <= i < j < |Tracked| ensures Tracked[i] != Tracked[j] {
      assert Tracked[i] in Tracked[..j];
    }
  }

  /** `segments.get(element, {})`: a missing block reads as not present. */
  function Block(a: Analysis, element: string): ElementBlock {
    if element in a.segments then a.segments[element] else ElementBlock(false, None, None)
  }

  /** `elem_data.get("present")` is truthy. */
  predicate PresentIn(a: Analysis, element: string) {
    Block(a, element).present
  }

  /** `elem_data.get("prominence", 0)`. */
  function Prominence(a: Analysis, element: string): real {
    Block(a, element).prominence.GetOr(0.0)
  }

  /** `elem_data.get("count", 0)` of the people block. */
  function PeopleCount(a: Analysis): int {
    Block(a, "people").count.GetOr(0)
  }

  /** The record adds to the people figures: people present with a non-zero count. */
  predicate CountsPeople(a: Analysis) {
    PresentIn(a, "people") && PeopleCount(a) != 0
  }

  /** The number of records in which `element` is present; at most one per record. */
  function PresenceCount(analyses: seq<Analysis>, element: string): (n: nat)
    ensures n <= |analyses|
  {
    if analyses == [] then 0
    else
      PresenceCount(analyses[..|analyses| - 1], element)
        + (if PresentIn(analyses[|analyses| - 1], element) then 1 else 0)
  }

  /** The sum of the prominences of `element` over the records where it is present. */
  function ProminenceSum(analyses: seq<Analysis>, element: string): real {
    if analyses == [] then 0.0
    else
      var last := analyses[|analyses| - 1];
      ProminenceSum(analyses[..|analyses| - 1], element)
        + (if PresentIn(last, element) then Prominence(last, element) else 0.0)
  }

  /** `people_images`: the records that count people. */
  function PeopleImages(analyses: seq<Analysis>): (n: nat)
    ensures n <= PresenceCount(analyses, "people")
  {
    if analyses == [] then 0
    else PeopleImages(analyses[..|analyses| - 1]) + (if CountsPeople(analyses[|analyses| - 1]) then 1 else 0)
  }

  /** `people_count_total`: the sum of their counts. */
  function PeopleTotal(analyses: seq<Analysis>): int {
    if analyses == [] then 0
    else
      var last := analyses[|analyses| - 1];
      PeopleTotal(analyses[..|analyses| - 1]) + (if CountsPeople(last) then PeopleCount(last) else 0)
  }

  /** The four running figures after one more record. */
  lemma RecordStep(before: seq<Analysis>, a: Analysis)
    ensures forall e :: PresenceCount(before + [a], e) == PresenceCount(before, e) + (if PresentIn(a, e) then 1 else 0)
    ensures forall e :: ProminenceSum(before + [a], e) == ProminenceSum(before, e) + (if PresentIn(a, e) then Prominence(a, e) else 0.0)
    ensures PeopleImages(before + [a]) == PeopleImages(before) + (if CountsPeople(a) then 1 else 0)
    ensures PeopleTotal(before + [a]) == PeopleTotal(before) + (if CountsPeople(a) then PeopleCount(a) else 0)
  {
    assert (before + [a])[..|before|] == before;
  }

  /** `element_stats[element]`; rates in tenths of a percent, prominence in hundredths. */
  datatype ElementStats = ElementStats(element: string, presenceCount: nat, presenceRate: int, avgProminence: int)

  datatype PeoplePresence = PeoplePresence(imagesWithPeople: nat, avgPeoplePerImage: int)

  datatype ElementSummary = ElementSummary(
    elementStats: seq<ElementStats>,
    rankedByPresence: seq<ElementStats>,
    dominantElements: seq<string>,
    rareElements: seq<string>,
    peoplePresence: PeoplePresence)

  /** The statistics of one element over `total` records. */
  function StatsOf(element: string, presence: nat, prominenceSum: real, total: nat): ElementStats
    requires total > 0
  {
    ElementStats(element, presence, Percentage(presence, total),
      if presence > 0 then Hundredths(prominenceSum, presence) else 0)
  }

  /** `element_stats`, in tracking order. */
  function ElementStatsOf(analyses: seq<Analysis>): seq<ElementStats>
    requires |analyses| > 0
  {
    seq(|Tracked|, k requires 0 <= k < |Tracked| =>
      StatsOf(Tracked[k], PresenceCount(analyses, Tracked[k]), ProminenceSum(analyses, Tracked[k]), |analyses|))
  }

  /** The sort key `(presence_count, avg_prominence)`. */
  function PresenceKey(s: ElementStats): Key { (s.presenceCount, s.avgProminence) }

  function ElementName(s: ElementStats): string { s.element }

  /** `presence_rate >= 50`. */
  predicate IsDominant(s: ElementStats) { s.presenceRate >= 500 }

  /** `0 < presence_rate < 20`. */
  predicate IsRare(s: ElementStats) { 0 < s.presenceRate < 200 }

  /** The summary built from the statistics and the two people figures. */
  function ElementSummaryFrom(stats: seq<ElementStats>, peopleImages: nat, peopleTotal: int): ElementSummary {
    var ranked := SortDesc(stats, PresenceKey);
    ElementSummary(
      stats,
      ranked,
      Map(Filter(ranked, IsDominant), ElementName),
      Map(Filter(ranked, IsRare), ElementName),
      PeoplePresence(peopleImages, if peopleImages > 0 then Tenths(peopleTotal, peopleImages) else 0))
  }

  /** The element summary of a non-empty list of analyses. */
  function ElementSummaryOf(analyses: seq<Analysis>): ElementSummary
    requires |analyses| > 0
  {
    ElementSummaryFrom(ElementStatsOf(analyses), PeopleImages(analyses), PeopleTotal(analyses))
  }

  /** `d[k]` of a `defaultdict`: the stored value, or the default when `k` was never set. */
  function Lookup<V>(m: map<string, V>, k: string, default: V): V {
    if k in m then m[k] else default
  }

  /** The two dictionaries hold the presence count and prominence sum of every element of
      `names` over `before`, and nothing for other names. */
  ghost predicate Tallied(names: seq<string>, presence: map<string, nat>, sums: map<string, real>, before: seq<Analysis>) {
    && (forall e {:trigger Lookup(presence, e, 0)} ::
          Lookup(presence, e, 0) == (if e in names then PresenceCount(before, e) else 0))
    && (forall e {:trigger Lookup(sums, e, 0.0)} ::
          Lookup(sums, e, 0.0) == (if e in names then ProminenceSum(before, e) else 0.0))
  }

  /** Presence counts over `before`, plus record `a` for the names in `done`. */
  ghost predicate PresenceSoFar(names: seq<string>, presence: map<string, nat>, before: seq<Analysis>, a: Analysis, done: seq<string>) {
    forall e {:trigger Lookup(presence, e, 0)} :: Lookup(presence, e, 0) ==
      (if e in names then PresenceCount(before, e) + (if e in done && PresentIn(a, e) then 1 else 0) else 0)
  }

  /** Prominence sums over `before`, plus record `a` for the names in `done`. */
  ghost predicate SumsSoFar(names: seq<string>, sums: map<string, real>, before: seq<Analysis>, a: Analysis, done: seq<string>) {
    forall e {:trigger Lookup(sums, e, 0.0)} :: Lookup(sums, e, 0.0) ==
      (if e in names then ProminenceSum(before, e) + (if e in done && PresentIn(a, e) then Prominence(a, e) else 0.0) else 0.0)
  }

  /** The names handled after step `j` of the inner loop: those before, and `names[j]`,
      which was not among them. */
  lemma StepMembers(names: seq<string>, j: nat)
    requires NoDup(names) && j < |names|
    ensures forall e :: e in names[..j + 1] <==> e in names[..j] || e == names[j]
    ensures names[j] !in names[..j]
  {
    assert names[..j + 1] == names[..j] + [names[j]];
  }

  lemma PresenceNext(names: seq<string>, presence: map<string, nat>, before: seq<Analysis>, a: Analysis, j: nat)
    requires NoDup(names) && j < |names| && PresenceSoFar(names, presence, before, a, names[..j])
    ensures PresenceSoFar(names,
      if PresentIn(a, names[j]) then presence[names[j] := Lookup(presence, names[j], 0) + 1] else presence,
      before, a, names[..j + 1])
  {
    StepMembers(names, j);
    var element := names[j];
    var next := if PresentIn(a, element) then presence[element := Lookup(presence, element, 0) + 1] else presence;
    forall e ensures Lookup(next, e, 0) ==
      (if e in names then PresenceCount(before, e) + (if e in names[..j + 1] && PresentIn(a, e) then 1 else 0) else 0)
    {
      assert Lookup(presence, e, 0) ==
        (if e in names then PresenceCount(before, e) + (if e in names[..j] && PresentIn(a, e) then 1 else 0) else 0);
      if e == element {
        assert e in names;
      }
    }
  }

  lemma SumsNext(names: seq<string>, sums: map<string, real>, before: seq<Analysis>, a: Analysis, j: nat)
    requires NoDup(names) && j < |names| && SumsSoFar(names, sums, before, a, names[..j])
    ensures SumsSoFar(names,
      if PresentIn(a, names[j]) then sums[names[j] := Lookup(sums, names[j], 0.0) + Prominence(a, names[j])] else sums,
      before, a, names[..j + 1])
  {
    StepMembers(names, j);
    var element := names[j];
    var next := if PresentIn(a, element) then sums[element := Lookup(sums, element, 0.0) + Prominence(a, element)] else sums;
    forall e ensures Lookup(next, e, 0.0) ==
      (if e in names then ProminenceSum(before, e) + (if e in names[..j + 1] && PresentIn(a, e) then Prominence(a, e) else 0.0) else 0.0)
    {
      assert Lookup(sums, e, 0.0) ==
        (if e in names then ProminenceSum(before, e) + (if e in names[..j] && PresentIn(a, e) then Prominence(a, e) else 0.0) else 0.0);
      if e == element {
        assert e in names;
      }
    }
  }

  lemma TalliedStart(names: seq<string>, presence: map<string, nat>, sums: map<string, real>, before: seq<Analysis>, a: Analysis)
    requires Tallied(names, presence, sums, before)
    ensures PresenceSoFar(names, presence, before, a, []) && SumsSoFar(names, sums, before, a, [])
  {}

  lemma TalliedFinish(names: seq<string>, presence: map<string, nat>, sums: map<string, real>, before: seq<Analysis>, a: Analysis)
    requires PresenceSoFar(names, presence, before, a, names) && SumsSoFar(names, sums, before, a, names)
    ensures Tallied(names, presence, sums, before + [a])
  {
    RecordStep(before, a);
  }

  /** The body of the inner loop for one element of one record. */
  method TallyElement(presence: map<string, nat>, sums: map<string, real>, peopleTotal: int, peopleImages: nat,
                      a: Analysis, element: string)
    returns (presence': map<string, nat>, sums': map<string, real>, peopleTotal': int, peopleImages': nat)
    ensures presence' == if PresentIn(a, element) then presence[element := Lookup(presence, element, 0) + 1] else presence
    ensures sums' == if PresentIn(a, element) then sums[element := Lookup(sums, element, 0.0) + Prominence(a, element)] else sums
    ensures peopleImages' == peopleImages + (if element == "people" && CountsPeople(a) then 1 else 0)
    ensures peopleTotal' == peopleTotal + (if element == "people" && CountsPeople(a) then PeopleCount(a) else 0)
  {
    presence', sums', peopleTotal', peopleImages' := presence, sums, peopleTotal, peopleImages;
    var elemData := Block(a, element);
    if elemData.present {
      presence' := presence'[element := Lookup(presence', element, 0) + 1];
      var prominence := elemData.prominence.GetOr(0.0);
      sums' := sums'[element := Lookup(sums', element, 0.0) + prominence];
      if element == "people" {
        var count := elemData.count.GetOr(0);
        if count != 0 {
          peopleTotal' := peopleTotal' + count;
          peopleImages' := peopleImages' + 1;
        }
      }
    }
  }

  /** The inner loop for one record, over the tracked names: for each name present in it, one
      more presence and its prominence; for people with a non-zero count, one more image and
      that count. */
  method TallyElements(names: seq<string>, presence: map<string, nat>, sums: map<string, real>,
                       peopleTotal: int, peopleImages: nat, a: Analysis, ghost before: seq<Analysis>)
    returns (presence': map<string, nat>, sums': map<string, real>, peopleTotal': int, peopleImages': nat)
    requires NoDup(names) && "people" in names
    requires Tallied(names, presence, sums, before)
    requires peopleTotal == PeopleTotal(before) && peopleImages == PeopleImages(before)
    ensures Tallied(names, presence', sums', before + [a])
    ensures peopleTotal' == PeopleTotal(before + [a]) && peopleImages' == PeopleImages(before + [a])
  {
    TalliedStart(names, presence, sums, before, a);
    presence', sums', peopleTotal', peopleImages' := presence, sums, peopleTotal, peopleImages;
    for j := 0 to |names|
      invariant PresenceSoFar(names, presence', before, a, names[..j])
      invariant SumsSoFar(names, sums', before, a, names[..j])
      invariant peopleImages' == PeopleImages(before) + (if "people" in names[..j] && CountsPeople(a) then 1 else 0)
      invariant peopleTotal' == PeopleTotal(before) + (if "people" in names[..j] && CountsPeople(a) then PeopleCount(a) else 0)
    {
      PresenceNext(names, presence', before, a, j);
      SumsNext(names, sums', before, a, j);
      StepMembers(names, j);
      presence', sums', peopleTotal', peopleImages' := TallyElement(presence', sums', peopleTotal', peopleImages', a, names[j]);
    }
    assert names[..|names|] == names;
    TalliedFinish(names, presence', sums', before, a);
    RecordStep(before, a);
  }

  /** One more row of `element_stats`, read from the finished dictionaries. */
  lemma StatsNext(analyses: seq<Analysis>, presence: map<string, nat>, sums: map<string, real>, k: nat)
    requires |analyses| > 0 && k < |Tracked| && Tallied(Tracked, presence, sums, analyses)
    ensures ElementStatsOf(analyses)[..k + 1] == ElementStatsOf(analyses)[..k]
      + [StatsOf(Tracked[k], Lookup(presence, Tracked[k], 0), Lookup(sums, Tracked[k], 0.0), |analyses|)]
  {
    var stats := ElementStatsOf(analyses);
    assert stats[..k + 1] == stats[..k] + [stats[k]];
  }

  method AggregateSegmentedElements(analyses: seq<Analysis>) returns (summary: ElementSummary)
    requires |analyses| > 0
    ensures summary == ElementSummaryOf(analyses)
  {
    var elementPresence: map<string, nat> := map[];
    var elementProminenceSum: map<string, real> := map[];
    var peopleCountTotal := 0;
    var peopleImages := 0;
    TrackedDistinct();
    assert Tracked[3] == "people";
    for i := 0 to |analyses|
      invariant Tallied(Tracked, elementPresence, elementProminenceSum, analyses[..i])
      invariant peopleCountTotal == PeopleTotal(analyses[..i]) && peopleImages == PeopleImages(analyses[..i])
    {
      assert analyses[..i + 1] == analyses[..i] + [analyses[i]];
      elementPresence, elementProminenceSum, peopleCountTotal, peopleImages :=
        TallyElements(Tracked, elementPresence, elementProminenceSum, peopleCountTotal, peopleImages, analyses[i], analyses[..i]);
    }
    assert analyses[..|analyses|] == analyses;
    var total := |analyses|;
    var elementStats: seq<ElementStats> := [];
    for k := 0 to |Tracked|
      invariant elementStats == ElementStatsOf(analyses)[..k]
    {
      StatsNext(analyses, elementPresence, elementProminenceSum, k);
      var element := Tracked[k];
      var presence := Lookup(elementPresence, element, 0);
      elementStats := elementStats + [StatsOf(element, presence, Lookup(elementProminenceSum, element, 0.0), total)];
    }
    assert elementStats == ElementStatsOf(analyses);
    summary := ElementSummaryFrom(elementStats, peopleImages, peopleCountTotal);
  }

  /** Each tracked element has one row, in tracking order: its presence count is at most the
      number of records, its rate is that count as a percentage of the records (so within
      0.0 and 100.0), its average prominence is the rounded mean prominence over the records
      showing it, and an element never present has rate 0 and average prominence 0. */
  lemma StatsLaw(analyses: seq<Analysis>)
    requires |analyses| > 0
    ensures |ElementSummaryOf(analyses).elementStats| == |Tracked|
    ensures forall k :: 0 <= k < |Tracked| ==>
      var row := ElementSummaryOf(analyses).elementStats[k];
      && row.element == Tracked[k]
      && row.presenceCount == PresenceCount(analyses, Tracked[k]) <= |analyses|
      && row.presenceRate == Percentage(row.presenceCount, |analyses|)
      && 0 <= row.presenceRate <= 1000
      && (row.presenceCount == 0 ==> row.presenceRate == 0 && row.avgProminence == 0)
      && (row.presenceCount > 0 ==> row.avgProminence == Hundredths(ProminenceSum(analyses, Tracked[k]), row.presenceCount))
  {
    var stats := ElementStatsOf(analyses);
    forall k | 0 <= k < |Tracked| ensures stats[k].presenceCount == 0 ==> stats[k].presenceRate == 0 {
      if stats[k].presenceCount == 0 {
        assert (0 * 1000) as real / |analyses| as real == 0.0;
      }
    }
  }

  /** Rows named after the tracked elements, one each, in tracking order. */
  ghost predicate RowsNamed(stats: seq<ElementStats>) {
    Map(stats, ElementName) == Tracked
  }

  lemma StatsNamed(analyses: seq<Analysis>)
    requires |analyses| > 0
    ensures RowsNamed(ElementStatsOf(analyses))
  {
    var stats := ElementStatsOf(analyses);
    assert Map(stats, ElementName) == Tracked;
  }

  /** Rows with distinct names are distinct, a row's position is its name's position, and
      the row of a tracked name is the one at its position. */
  lemma NamedRows(stats: seq<ElementStats>)
    requires RowsNamed(stats)
    ensures NoDup(stats)
    ensures forall s :: s in stats ==> IndexOf(stats, s) == IndexOf(Tracked, s.element)
    ensures forall s, k :: s in stats && 0 <= k < |Tracked| && s.element == Tracked[k] ==> s == stats[k]
  {
    TrackedDistinct();
    assert forall k :: 0 <= k < |stats| ==> stats[k].element == Tracked[k];
    forall s | s in stats ensures IndexOf(stats, s) == IndexOf(Tracked, s.element) {
      var n := IndexOf(stats, s);
      assert Tracked[n] == s.element;
    }
  }

  /** `ranked_by_presence` lists each tracked element exactly once, with its own row. */
  lemma RankedNames(analyses: seq<Analysis>)
    requires |analyses| > 0
    ensures multiset(ElementSummaryOf(analyses).rankedByPresence) == multiset(ElementSummaryOf(analyses).elementStats)
    ensures multiset(Map(ElementSummaryOf(analyses).rankedByPresence, ElementName)) == multiset(Tracked)
    ensures NoDup(Map(ElementSummaryOf(analyses).rankedByPresence, ElementName))
  {
    var stats := ElementStatsOf(analyses);
    StatsNamed(analyses);
    RankingPermutes(stats);
  }

  lemma RankingPermutes(stats: seq<ElementStats>)
    requires RowsNamed(stats)
    ensures multiset(Map(SortDesc(stats, PresenceKey), ElementName)) == multiset(Tracked)
    ensures NoDup(Map(SortDesc(stats, PresenceKey), ElementName))
  {
    SortDescMapPermutes(stats, PresenceKey, ElementName);
    TrackedDistinct();
    PermutationNoDup(Tracked, Map(SortDesc(stats, PresenceKey), ElementName));
  }

  /** `ranked_by_presence` is ordered by descending `(presence_count, avg_prominence)`, rows
      with equal keys in tracking order. */
  lemma RankedOrder(analyses: seq<Analysis>)
    requires |analyses| > 0
    ensures forall i, j :: 0 <= i < j < |ElementSummaryOf(analyses).rankedByPresence| ==>
      var r := ElementSummaryOf(analyses).rankedByPresence;
      Above(PresenceKey(r[i]), PresenceKey(r[j])) ||
      (PresenceKey(r[i]) == PresenceKey(r[j]) && IndexOf(Tracked, r[i].element) < IndexOf(Tracked, r[j].element))
  {
    StatsNamed(analyses);
    RankingOrder(ElementStatsOf(analyses));
  }

  lemma RankingOrder(stats: seq<ElementStats>)
    requires RowsNamed(stats)
    ensures forall i, j :: 0 <= i < j < |SortDesc(stats, PresenceKey)| ==>
      var r := SortDesc(stats, PresenceKey);
      Above(PresenceKey(r[i]), PresenceKey(r[j])) ||
      (PresenceKey(r[i]) == PresenceKey(r[j]) && IndexOf(Tracked, r[i].element) < IndexOf(Tracked, r[j].element))
  {
    var r := SortDesc(stats, PresenceKey);
    assert NoDup(stats) by { NamedRows(stats); }
    SortDescRanked(stats, PresenceKey);
    forall i, j | 0 <= i < j < |r|
      ensures Above(PresenceKey(r[i]), PresenceKey(r[j])) ||
        (PresenceKey(r[i]) == PresenceKey(r[j]) && IndexOf(Tracked, r[i].element) < IndexOf(Tracked, r[j].element))
    {
      assert r[i] in multiset(stats) && r[j] in multiset(stats);
      RowOrder(stats, r[i], r[j]);
    }
  }

  /** Among named rows, preceding in the rows is preceding in tracking order. */
  lemma RowOrder(stats: seq<ElementStats>, x: ElementStats, y: ElementStats)
    requires RowsNamed(stats) && x in stats && y in stats && Precedes(stats, PresenceKey, x, y)
    ensures Above(PresenceKey(x), PresenceKey(y)) ||
      (PresenceKey(x) == PresenceKey(y) && IndexOf(Tracked, x.element) < IndexOf(Tracked, y.element))
  {
    NamedRows(stats);
  }

  /** The names picked out of a list of rows by a predicate. */
  lemma SelectedNames(rows: seq<ElementStats>, p: ElementStats -> bool)
    ensures forall e :: e in Map(Filter(rows, p), ElementName) <==> exists s :: s in rows && p(s) && s.element == e
  {
    var picked := Filter(rows, p);
    forall e | e in Map(picked, ElementName) ensures exists s :: s in rows && p(s) && s.element == e {
      var i :| 0 <= i < |picked| && Map(picked, ElementName)[i] == e;
      assert picked[i] in rows && p(picked[i]);
    }
    forall e | exists s :: s in rows && p(s) && s.element == e ensures e in Map(picked, ElementName) {
      var s :| s in rows && p(s) && s.element == e;
      var i :| 0 <= i < |rows| && rows[i] == s;
      var k :| 0 <= k < |picked| && picked[k] == s;
      assert Map(picked, ElementName)[k] == e;
    }
  }

  /** The names a ranking of named rows picks by `p` are the tracked names whose row satisfies `p`. */
  lemma PickedFromRanking(stats: seq<ElementStats>, p: ElementStats -> bool)
    requires RowsNamed(stats)
    ensures IsSubsequence(Map(Filter(SortDesc(stats, PresenceKey), p), ElementName), Map(SortDesc(stats, PresenceKey), ElementName))
    ensures forall k :: 0 <= k < |Tracked| ==>
      (Tracked[k] in Map(Filter(SortDesc(stats, PresenceKey), p), ElementName) <==> p(stats[k]))
  {
    var ranked := SortDesc(stats, PresenceKey);
    FilterIsSubsequence(ranked, p);
    MapSubsequence(Filter(ranked, p), ranked, ElementName);
    SelectedNames(ranked, p);
    NamedRows(stats);
    assert forall s :: s in ranked <==> s in stats by {
      assert forall s :: s in ranked <==> s in multiset(ranked);
      assert forall s :: s in stats <==> s in multiset(stats);
    }
    forall k | 0 <= k < |Tracked|
      ensures Tracked[k] in Map(Filter(ranked, p), ElementName) <==> p(stats[k])
    {
      assert stats[k] in stats;
      assert stats[k].element == Map(stats, ElementName)[k];
    }
  }

  /** No name is picked both as dominant and as rare. */
  lemma SplitDisjoint(stats: seq<ElementStats>)
    requires RowsNamed(stats)
    ensures forall e :: e in Map(Filter(SortDesc(stats, PresenceKey), IsDominant), ElementName) ==>
      e !in Map(Filter(SortDesc(stats, PresenceKey), IsRare), ElementName)
  {
    var names := Map(SortDesc(stats, PresenceKey), ElementName);
    var dominant := Map(Filter(SortDesc(stats, PresenceKey), IsDominant), ElementName);
    PickedFromRanking(stats, IsDominant);
    PickedFromRanking(stats, IsRare);
    SubsequenceMembers(dominant, names);
    RankingPermutes(stats);
    forall e | e in dominant
      ensures e !in Map(Filter(SortDesc(stats, PresenceKey), IsRare), ElementName)
    {
      assert e in multiset(names);
      assert e in Tracked;
      var k := IndexOf(Tracked, e);
      assert Tracked[k] == e;
    }
  }

  /** `dominant_elements` (rate at least 50.0) and `rare_elements` (rate above 0.0 and below
      20.0) are subsequences of the ranking; an element is in one exactly when its rate meets
      that condition, so no element is in both. */
  lemma DominantAndRare(analyses: seq<Analysis>)
    requires |analyses| > 0
    ensures var summary := ElementSummaryOf(analyses);
      && IsSubsequence(summary.dominantElements, Map(summary.rankedByPresence, ElementName))
      && IsSubsequence(summary.rareElements, Map(summary.rankedByPresence, ElementName))
    ensures forall k :: 0 <= k < |Tracked| ==>
      && (Tracked[k] in ElementSummaryOf(analyses).dominantElements <==> ElementSummaryOf(analyses).elementStats[k].presenceRate >= 500)
      && (Tracked[k] in ElementSummaryOf(analyses).rareElements <==> 0 < ElementSummaryOf(analyses).elementStats[k].presenceRate < 200)
    ensures forall e :: e in ElementSummaryOf(analyses).dominantElements ==> e !in ElementSummaryOf(analyses).rareElements
  {
    var stats := ElementStatsOf(analyses);
    StatsNamed(analyses);
    PickedFromRanking(stats, IsDominant);
    PickedFromRanking(stats, IsRare);
    SplitDisjoint(stats);
  }

  /** A rate of exactly 50.0 is dominant; a rate of exactly 20.0 is not rare. */
  lemma Thresholds(analyses: seq<Analysis>)
    requires |analyses| > 0
    ensures forall k :: 0 <= k < |Tracked| && 2 * PresenceCount(analyses, Tracked[k]) == |analyses| ==>
      Tracked[k] in ElementSummaryOf(analyses).dominantElements
    ensures forall k :: 0 <= k < |Tracked| && 5 * PresenceCount(analyses, Tracked[k]) == |analyses| ==>
      Tracked[k] !in ElementSummaryOf(analyses).rareElements
  {
    StatsLaw(analyses);
    DominantAndRare(analyses);
  }

  /** Some record counts people exactly when `people_images` is positive. */
  lemma {:induction false} PeopleImagesPositive(analyses: seq<Analysis>)
    ensures PeopleImages(analyses) > 0 <==> exists i :: 0 <= i < |analyses| && CountsPeople(analyses[i])
  {
    if analyses != [] {
      var front := analyses[..|analyses| - 1];
      PeopleImagesPositive(front);
      if exists i :: 0 <= i < |front| && CountsPeople(front[i]) {
        var i :| 0 <= i < |front| && CountsPeople(front[i]);
        assert analyses[i] == front[i];
      }
      if exists i :: 0 <= i < |analyses| && CountsPeople(analyses[i]) {
        var i :| 0 <= i < |analyses| && CountsPeople(analyses[i]);
        if i < |front| {
          assert front[i] == analyses[i];
        }
      }
    }
  }

  /** `people_presence`: the number of records with people present and a non-zero count
      (positive exactly when there is such a record, and never more than the records where
      people are present), and their average count, 0 when there is none. */
  lemma PeoplePresenceLaw(analyses: seq<Analysis>)
    requires |analyses| > 0
    ensures var people := ElementSummaryOf(analyses).peoplePresence;
      && people.imagesWithPeople == PeopleImages(analyses) <= PresenceCount(analyses, "people")
      && (people.imagesWithPeople > 0 <==> exists i :: 0 <= i < |analyses| && CountsPeople(analyses[i]))
      && (people.imagesWithPeople == 0 ==> people.avgPeoplePerImage == 0)
      && (people.imagesWithPeople > 0 ==> people.avgPeoplePerImage == Tenths(PeopleTotal(analyses), people.imagesWithPeople))
  {
    PeopleImagesPositive(analyses);
  }
}
