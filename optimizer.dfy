/**
 * The process-optimization panel: two recipe selects, a trends chart of the
 * `optimized_value` series, contribution pies and a narrative naming the
 * better recipe.
 */
module Optimizer {
  import opened Wrappers
  import Text
  import opened Dataset
  import opened Series
  import opened Sections

  /** `recipe1 && recipe2 && recipe1 !== recipe2` */
  predicate CanOptimize(recipe1: string, recipe2: string)
    ensures CanOptimize(recipe1, recipe2) <==> |{recipe1, recipe2} - {""}| == 2
  {
    recipe1 != "" && recipe2 != "" && recipe1 != recipe2
  }

  // ---- contribution pies ----

  /** `key.charAt(0).toUpperCase() + key.slice(1).replace('_', ' ')` */
  function FactorLabel(key: string): (r: string)
    ensures |r| == |key|
    ensures key != [] ==> r[0] == Text.UpperChar(key[0])
  {
    if key == [] then [] else [Text.UpperChar(key[0])] + Text.ReplaceFirst(key[1..], '_', ' ')
  }

  /** Past the first character, the label is the key with its first underscore, and only that one, made a space. */
  lemma FactorLabelSpaces(key: string)
    requires key != []
    ensures forall k :: 1 <= k < |key| ==>
      FactorLabel(key)[k] == if k - 1 == Text.FirstIndex(key[1..], '_') then ' ' else key[k]
  {
    var tail := key[1..];
    var rest := Text.ReplaceFirst(tail, '_', ' ');
    var first := Text.FirstIndex(tail, '_');
    Text.ReplaceFirstAt(tail, '_', ' ');
    assert FactorLabel(key)[1..] == rest;
    forall k | 1 <= k < |key| ensures FactorLabel(key)[k] == if k - 1 == first then ' ' else key[k] {
      assert FactorLabel(key)[k] == rest[k - 1];
    }
  }

  const SliceColors: seq<string> := [
    "rgba(70, 95, 255, 0.8)", "rgba(18, 183, 106, 0.8)", "rgba(247, 144, 9, 0.8)", "rgba(240, 68, 56, 0.8)"]
  const SliceBorders: seq<string> := [
    "rgba(70, 95, 255, 1)", "rgba(18, 183, 106, 1)", "rgba(247, 144, 9, 1)", "rgba(240, 68, 56, 1)"]

  datatype PieChart = PieChart(labels: seq<string>, values: seq<real>, colors: seq<string>, borders: seq<string>)

  function Min(a: nat, b: nat): nat {
    if a <= b then a else b
  }

  /** `getPieChartData(recipeId)` */
  function PieChartData(ds: MetadataDataset, recipe: string): (r: Option<PieChart>)
    ensures r.None? <==> recipe == "" || ContributionOf(ds, recipe).None?
    ensures r.Some? ==>
      var factors := ContributionOf(ds, recipe).value;
      && |r.value.labels| == |r.value.values| == |factors|
      && (forall i :: 0 <= i < |factors| ==>
            r.value.labels[i] == FactorLabel(factors[i].0) && r.value.values[i] == factors[i].1)
      && |r.value.colors| == |r.value.borders| == Min(4, |factors|)
  {
    if recipe == "" then None
    else match ContributionOf(ds, recipe)
      case None => None
      case Some(factors) =>
        var n := |factors|;
        Some(PieChart(
          seq(n, i requires 0 <= i < n => FactorLabel(factors[i].0)),
          seq(n, i requires 0 <= i < n => factors[i].1),
          SliceColors[..Min(4, n)],
          SliceBorders[..Min(4, n)]))
  }

  // ---- trends chart ----

  /** `getChartData()`: built as soon as both ids are non-empty, even when they are equal. */
  function TrendsChart(ds: MetadataDataset, recipe1: string, recipe2: string): (r: Option<LineChart>)
    ensures r.None? <==> recipe1 == "" || recipe2 == ""
    ensures r.Some? ==>
      && r.value.first == SeriesOf(ds, recipe1, OptimizedValue)
      && r.value.second == SeriesOf(ds, recipe2, OptimizedValue)
      && |r.value.labels| == Max(|r.value.first|, |r.value.second|)
    ensures r.Some? ==> forall i :: 0 <= i < |r.value.labels| ==> r.value.labels[i] == TimeLabel(i)
  {
    if recipe1 == "" || recipe2 == "" then None
    else Some(TwoSeriesChart(SeriesOf(ds, recipe1, OptimizedValue), SeriesOf(ds, recipe2, OptimizedValue)))
  }

  // ---- narrative ----

  function Sum(s: seq<real>): real {
    if s == [] then 0.0 else Sum(s[..|s| - 1]) + s[|s| - 1]
  }

  /** `reduce((a, b) => a + b, 0) / length`; None stands for the NaN of an empty series. */
  function Average(s: seq<real>): (r: Option<real>)
    ensures r.None? <==> s == []
    ensures r.Some? ==> r.value * |s| as real == Sum(s)
  {
    if s == [] then None else Some(Sum(s) / |s| as real)
  }

  /** JavaScript's `a > b` on averages: false as soon as either is NaN. */
  predicate Exceeds(a: Option<real>, b: Option<real>)
    ensures a.None? || b.None? ==> !Exceeds(a, b)
    ensures Exceeds(a, b) ==> a.value != b.value
  {
    a.Some? && b.Some? && a.value > b.value
  }

  /** The recipe names the narrative interpolates: the better one, the one to improve, the steadier one. */
  datatype Narrative = NoNarrative | Findings(better: string, weaker: string, steadier: string)

  /** `getOptimizationAnalysis()`, down to the recipe names it reports (the numbers are left out). */
  function OptimizationAnalysis(ds: MetadataDataset, recipe1: string, recipe2: string): (r: Narrative)
    ensures r == NoNarrative <==> !CanOptimize(recipe1, recipe2)
    ensures r.Findings? ==>
      var avg1 := Average(SeriesOf(ds, recipe1, OptimizedValue));
      var avg2 := Average(SeriesOf(ds, recipe2, OptimizedValue));
      && (r.better == recipe1 <==> Exceeds(avg1, avg2))
      && (r.better == recipe2 <==> !Exceeds(avg1, avg2))
      && {r.better, r.weaker} == {recipe1, recipe2}
      && r.steadier == r.better
  {
    if !CanOptimize(recipe1, recipe2) then NoNarrative
    else
      var avg1 := Average(SeriesOf(ds, recipe1, OptimizedValue));
      var avg2 := Average(SeriesOf(ds, recipe2, OptimizedValue));
      var better := if Exceeds(avg1, avg2) then recipe1 else recipe2;
      var weaker := if Exceeds(avg1, avg2) then recipe2 else recipe1;
      Findings(better, weaker, if Exceeds(avg1, avg2) then recipe1 else recipe2)
  }

  /** A tie, or an empty series on either side, reports recipe2 as the better one. */
  lemma TieReportsSecond(ds: MetadataDataset, recipe1: string, recipe2: string)
    requires CanOptimize(recipe1, recipe2)
    requires var avg1 := Average(SeriesOf(ds, recipe1, OptimizedValue));
             var avg2 := Average(SeriesOf(ds, recipe2, OptimizedValue));
             avg1.None? || avg2.None? || avg1.value == avg2.value
    ensures OptimizationAnalysis(ds, recipe1, recipe2).better == recipe2
  {
  }

  /** With two non-empty series, recipe1 is reported better exactly when its mean is strictly greater. */
  lemma RecipeOneWinsIffGreater(ds: MetadataDataset, recipe1: string, recipe2: string)
    requires CanOptimize(recipe1, recipe2)
    requires SeriesOf(ds, recipe1, OptimizedValue) != [] && SeriesOf(ds, recipe2, OptimizedValue) != []
    ensures var s1 := SeriesOf(ds, recipe1, OptimizedValue);
            var s2 := SeriesOf(ds, recipe2, OptimizedValue);
            OptimizationAnalysis(ds, recipe1, recipe2).better == recipe1 <==>
              Sum(s1) / |s1| as real > Sum(s2) / |s2| as real
  {
  }

  /** When the averages differ, the better recipe does not depend on which select holds which recipe. */
  lemma BetterIsOrderFree(ds: MetadataDataset, recipe1: string, recipe2: string)
    requires CanOptimize(recipe1, recipe2)
    requires var avg1 := Average(SeriesOf(ds, recipe1, OptimizedValue));
             var avg2 := Average(SeriesOf(ds, recipe2, OptimizedValue));
             avg1.Some? && avg2.Some? && avg1.value != avg2.value
    ensures OptimizationAnalysis(ds, recipe1, recipe2).better == OptimizationAnalysis(ds, recipe2, recipe1).better
  {
  }

  // ---- panel state ----

  class OptimizerPanel {
    var data: MetadataDataset
    var loading: bool
    var recipe1: string
    var recipe2: string
    var trendsCollapsed: bool
    var analysisCollapsed: bool

    function Cards(): Sections
      reads this
    {
      Sections(trendsCollapsed, analysisCollapsed)
    }

    ghost predicate Valid()
      reads this
    {
      Exclusive(Cards())
    }

    constructor ()
      ensures Valid()
      ensures data == Empty && loading && recipe1 == "" && recipe2 == ""
      ensures Cards() == Initial
    {
      data := Empty;
      loading := true;
      recipe1, recipe2 := "", "";
      trendsCollapsed, analysisCollapsed := false, true;
    }

    /** The end of the mount-time fetch: the document on success, the empty dataset kept on failure. */
    method LoadFinished(fetched: Option<MetadataDataset>)
      requires Valid()
      modifies this
      ensures Valid() && !loading
      ensures data == if fetched.Some? then fetched.value else old(data)
      ensures recipe1 == old(recipe1) && recipe2 == old(recipe2) && Cards() == old(Cards())
    {
      if fetched.Some? {
        data := fetched.value;
      }
      loading := false;
    }

    /** The first select: the placeholder or any listed recipe. */
    method SelectRecipe1(id: string)
      requires Valid() && !loading && (id == "" || id in data.recipes)
      modifies this
      ensures Valid()
      ensures recipe1 == id
      ensures data == old(data) && loading == old(loading) && recipe2 == old(recipe2) && Cards() == old(Cards())
    {
      recipe1 := id;
    }

    /** The second select: the placeholder or a listed recipe other than recipe1, whose option is disabled. */
    method SelectRecipe2(id: string)
      requires Valid() && !loading && (id == "" || (id in data.recipes && id != recipe1))
      modifies this
      ensures Valid()
      ensures recipe2 == id
      ensures data == old(data) && loading == old(loading) && recipe1 == old(recipe1) && Cards() == old(Cards())
    {
      recipe2 := id;
    }

    /** The trends header, rendered only while the two selections can be compared. */
    method ClickTrendsHeader()
      requires Valid() && !loading && CanOptimize(recipe1, recipe2)
      modifies this
      ensures Valid()
      ensures Cards() == ClickFirst(old(Cards()))
      ensures data == old(data) && loading == old(loading) && recipe1 == old(recipe1) && recipe2 == old(recipe2)
    {
      if trendsCollapsed {
        trendsCollapsed := false;
        analysisCollapsed := true;
      } else {
        trendsCollapsed := true;
      }
    }

    /** The analysis header, rendered only while the two selections can be compared. */
    method ClickAnalysisHeader()
      requires Valid() && !loading && CanOptimize(recipe1, recipe2)
      modifies this
      ensures Valid()
      ensures Cards() == ClickSecond(old(Cards()))
      ensures data == old(data) && loading == old(loading) && recipe1 == old(recipe1) && recipe2 == old(recipe2)
    {
      if analysisCollapsed {
        analysisCollapsed := false;
        trendsCollapsed := true;
      } else {
        analysisCollapsed := true;
      }
    }
  }
}
