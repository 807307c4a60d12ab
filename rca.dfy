/**
 * The root-cause-analysis panel: two recipe selects, an explicit Compare
 * action, a metric chart and the pre-computed analysis text for the pair.
 */
module Rca {
  import opened Wrappers
  import opened Dataset
  import opened Series
  import opened Sections

  /** `recipe1 && recipe2 && recipe1 !== recipe2` */
  predicate CanCompare(recipe1: string, recipe2: string)
    ensures CanCompare(recipe1, recipe2) <==> |{recipe1, recipe2} - {""}| == 2
  {
    recipe1 != "" && recipe2 != "" && recipe1 != recipe2
  }

  /** The metrics offered: the keys of recipe1's metadata once both recipes have metadata. */
  function AvailableMetadata(ds: MetadataDataset, recipe1: string, recipe2: string): (r: seq<string>)
    ensures r != [] ==> recipe1 != "" && recipe2 != "" && recipe1 in ds.metadata && recipe2 in ds.metadata
    ensures recipe1 != "" && recipe2 != "" && recipe1 in ds.metadata && recipe2 in ds.metadata ==>
      r == Keys(ds.metadata[recipe1])
  {
    if recipe1 != "" && recipe2 != "" && recipe1 in ds.metadata && recipe2 in ds.metadata then
      Keys(ds.metadata[recipe1])
    else []
  }

  const NoAnalysis := "No analysis available for this recipe combination."

  function PairKey(a: string, b: string): string {
    a + "_vs_" + b
  }

  /** JavaScript truthiness of `analysis[key]`: present and not the empty string. */
  predicate HasText(analysis: map<string, string>, key: string)
    ensures !HasText(analysis, key) <==> key !in analysis || analysis[key] == ""
  {
    key in analysis && analysis[key] != ""
  }

  /** `getAnalysisText()` */
  function AnalysisText(ds: MetadataDataset, recipe1: string, recipe2: string): (r: string)
    ensures r == "" <==> recipe1 == "" || recipe2 == ""
    ensures r != "" && r != NoAnalysis ==>
      || (HasText(ds.analysis, PairKey(recipe1, recipe2)) && r == ds.analysis[PairKey(recipe1, recipe2)])
      || (HasText(ds.analysis, PairKey(recipe2, recipe1)) && r == ds.analysis[PairKey(recipe2, recipe1)])
  {
    if recipe1 == "" || recipe2 == "" then ""
    else
      var key := PairKey(recipe1, recipe2);
      var reverseKey := PairKey(recipe2, recipe1);
      if HasText(ds.analysis, key) then ds.analysis[key]
      else if HasText(ds.analysis, reverseKey) then ds.analysis[reverseKey]
      else NoAnalysis
  }

  /** The text stored under the selection order wins; the reverse order is found when only it is stored. */
  lemma AnalysisLookupOrder(ds: MetadataDataset, recipe1: string, recipe2: string)
    requires recipe1 != "" && recipe2 != ""
    ensures HasText(ds.analysis, PairKey(recipe1, recipe2)) ==>
      AnalysisText(ds, recipe1, recipe2) == ds.analysis[PairKey(recipe1, recipe2)]
    ensures !HasText(ds.analysis, PairKey(recipe1, recipe2)) && HasText(ds.analysis, PairKey(recipe2, recipe1)) ==>
      AnalysisText(ds, recipe1, recipe2) == ds.analysis[PairKey(recipe2, recipe1)]
    ensures !HasText(ds.analysis, PairKey(recipe1, recipe2)) && !HasText(ds.analysis, PairKey(recipe2, recipe1)) ==>
      AnalysisText(ds, recipe1, recipe2) == NoAnalysis
  {
  }

  /** Swapping the selects shows the same text unless both orders hold different non-empty texts. */
  lemma AnalysisSwap(ds: MetadataDataset, recipe1: string, recipe2: string)
    requires !HasText(ds.analysis, PairKey(recipe1, recipe2)) || !HasText(ds.analysis, PairKey(recipe2, recipe1))
    ensures AnalysisText(ds, recipe1, recipe2) == AnalysisText(ds, recipe2, recipe1)
  {
  }

  /** `getChartData()`: needs a metric and both ids; a missing series is empty. */
  function MetricChart(ds: MetadataDataset, recipe1: string, recipe2: string, metric: string): (r: Option<LineChart>)
    ensures r.None? <==> metric == "" || recipe1 == "" || recipe2 == ""
    ensures r.Some? ==>
      && r.value.first == SeriesOf(ds, recipe1, metric)
      && r.value.second == SeriesOf(ds, recipe2, metric)
      && |r.value.labels| == Max(|r.value.first|, |r.value.second|)
    ensures r.Some? ==> forall i :: 0 <= i < |r.value.labels| ==> r.value.labels[i] == TimeLabel(i)
  {
    if metric == "" || recipe1 == "" || recipe2 == "" then None
    else Some(TwoSeriesChart(SeriesOf(ds, recipe1, metric), SeriesOf(ds, recipe2, metric)))
  }

  // ---- panel state ----

  class RcaPanel {
    var data: MetadataDataset
    var loading: bool
    var recipe1: string
    var recipe2: string
    var selectedMetadata: string
    var comments: string
    var showComparison: bool
    var chartCollapsed: bool
    var analysisCollapsed: bool

    function Cards(): Sections
      reads this
    {
      Sections(chartCollapsed, analysisCollapsed)
    }

    /** At most one card open, and a comparison is only ever shown for a comparable pair. */
    ghost predicate Valid()
      reads this
    {
      Exclusive(Cards()) && (showComparison ==> CanCompare(recipe1, recipe2))
    }

    constructor ()
      ensures Valid()
      ensures data == Empty && loading && recipe1 == "" && recipe2 == "" && selectedMetadata == ""
      ensures comments == "" && !showComparison && Cards() == Initial
    {
      data := Empty;
      loading := true;
      recipe1, recipe2, selectedMetadata, comments := "", "", "", "";
      showComparison := false;
      chartCollapsed, analysisCollapsed := false, true;
    }

    /** The end of the mount-time fetch: the document on success, the empty dataset kept on failure. */
    method LoadFinished(fetched: Option<MetadataDataset>)
      requires Valid()
      modifies this
      ensures Valid() && !loading
      ensures data == if fetched.Some? then fetched.value else old(data)
      ensures recipe1 == old(recipe1) && recipe2 == old(recipe2) && selectedMetadata == old(selectedMetadata)
      ensures comments == old(comments) && showComparison == old(showComparison) && Cards() == old(Cards())
    {
      if fetched.Some? {
        data := fetched.value;
      }
      loading := false;
    }

    /** The first select (placeholder or a listed recipe); any new selection hides the comparison until Compare is pressed again. */
    method SelectRecipe1(id: string)
      requires Valid() && !loading && (id == "" || id in data.recipes)
      modifies this
      ensures Valid()
      ensures recipe1 == id && !showComparison
      ensures data == old(data) && loading == old(loading) && recipe2 == old(recipe2)
      ensures selectedMetadata == old(selectedMetadata) && comments == old(comments) && Cards() == old(Cards())
    {
      recipe1 := id;
      showComparison := false;
    }

    /** The second select (placeholder or a listed recipe other than recipe1); any new selection hides the comparison until Compare is pressed again. */
    method SelectRecipe2(id: string)
      requires Valid() && !loading && (id == "" || (id in data.recipes && id != recipe1))
      modifies this
      ensures Valid()
      ensures recipe2 == id && !showComparison
      ensures data == old(data) && loading == old(loading) && recipe1 == old(recipe1)
      ensures selectedMetadata == old(selectedMetadata) && comments == old(comments) && Cards() == old(Cards())
    {
      recipe2 := id;
      showComparison := false;
    }

    /** The Compare button, offered only for a comparable pair. */
    method Compare()
      requires Valid() && !loading && CanCompare(recipe1, recipe2)
      modifies this
      ensures Valid() && showComparison
      ensures var available := AvailableMetadata(data, recipe1, recipe2);
              selectedMetadata == if old(selectedMetadata) == "" && |available| > 0 then available[0] else old(selectedMetadata)
      ensures data == old(data) && loading == old(loading) && recipe1 == old(recipe1) && recipe2 == old(recipe2)
      ensures comments == old(comments) && Cards() == old(Cards())
    {
      showComparison := true;
      var available := AvailableMetadata(data, recipe1, recipe2);
      if selectedMetadata == "" && |available| > 0 {
        selectedMetadata := available[0];
      }
    }

    /** The metric select inside the open chart card, whose options are the available metrics. */
    method SelectMetadata(metric: string)
      requires Valid() && !loading && showComparison && !chartCollapsed
      requires metric in AvailableMetadata(data, recipe1, recipe2)
      modifies this
      ensures Valid() && selectedMetadata == metric
      ensures data == old(data) && loading == old(loading) && recipe1 == old(recipe1) && recipe2 == old(recipe2)
      ensures comments == old(comments) && showComparison == old(showComparison) && Cards() == old(Cards())
    {
      selectedMetadata := metric;
    }

    /** The comments box inside the open analysis card. */
    method EditComments(text: string)
      requires Valid() && !loading && showComparison && !analysisCollapsed
      modifies this
      ensures Valid() && comments == text
      ensures data == old(data) && loading == old(loading) && recipe1 == old(recipe1) && recipe2 == old(recipe2)
      ensures selectedMetadata == old(selectedMetadata) && showComparison == old(showComparison) && Cards() == old(Cards())
    {
      comments := text;
    }

    method ClickChartHeader()
      requires Valid() && !loading && showComparison
      modifies this
      ensures Valid()
      ensures Cards() == ClickFirst(old(Cards()))
      ensures data == old(data) && loading == old(loading) && recipe1 == old(recipe1) && recipe2 == old(recipe2)
      ensures selectedMetadata == old(selectedMetadata) && comments == old(comments) && showComparison == old(showComparison)
    {
      if chartCollapsed {
        chartCollapsed := false;
        analysisCollapsed := true;
      } else {
        chartCollapsed := true;
      }
    }

    method ClickAnalysisHeader()
      requires Valid() && !loading && showComparison
      modifies this
      ensures Valid()
      ensures Cards() == ClickSecond(old(Cards()))
      ensures data == old(data) && loading == old(loading) && recipe1 == old(recipe1) && recipe2 == old(recipe2)
      ensures selectedMetadata == old(selectedMetadata) && comments == old(comments) && showComparison == old(showComparison)
    {
      if analysisCollapsed {
        analysisCollapsed := false;
        chartCollapsed := true;
      } else {
        analysisCollapsed := true;
      }
    }
  }
}
