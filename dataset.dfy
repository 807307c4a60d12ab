/**
 * The recipe-metadata document both comparison panels load: the recipe list,
 * per-recipe metadata and the pre-computed analysis texts.
 */
module Dataset {
  import opened Wrappers

  /** A value under a key of a recipe's metadata object. */
  datatype Value =
    | Series(timeseries: seq<real>)            // `{ timeseries: [...] }`
    | Factors(shares: seq<(string, real)>)     // `optimization_contribution`: factor name to percentage, in key order

  /** A recipe's metadata object, its keys in document order. */
  type RecipeMetadata = seq<(string, Value)>

  datatype MetadataDataset = MetadataDataset(
    recipes: seq<string>,
    metadata: map<string, RecipeMetadata>,
    analysis: map<string, string>)

  /** The state a panel starts with, and keeps when the load fails. */
  const Empty := MetadataDataset([], map[], map[])

  const OptimizedValue := "optimized_value"
  const OptimizationContribution := "optimization_contribution"

  /** `Object.keys` of a metadata object. */
  function Keys(md: RecipeMetadata): (r: seq<string>)
    ensures |r| == |md|
    ensures forall i :: 0 <= i < |md| ==> r[i] == md[i].0
  {
    seq(|md|, i requires 0 <= i < |md| => md[i].0)
  }

  /** No entry before index i has the key. */
  predicate FirstWith(md: RecipeMetadata, key: string, i: nat)
    requires i <= |md|
  {
    forall j :: 0 <= j < i ==> md[j].0 != key
  }

  /** `md[key]`: the value of the first entry with that key. */
  function Get(md: RecipeMetadata, key: string): (r: Option<Value>)
    ensures r.Some? <==> key in Keys(md)
    ensures r.Some? ==> exists i :: 0 <= i < |md| && md[i] == (key, r.value) && FirstWith(md, key, i)
  {
    if md == [] then None
    else if md[0].0 == key then Some(md[0].1)
    else Get(md[1..], key)
  }

  /** `metadata[recipe]?.[metric]?.timeseries || []`: a missing recipe, metric or series reads as empty. */
  function SeriesOf(ds: MetadataDataset, recipe: string, metric: string): (r: seq<real>)
    ensures recipe !in ds.metadata ==> r == []
    ensures r != [] ==> recipe in ds.metadata && Get(ds.metadata[recipe], metric) == Some(Series(r))
    ensures recipe in ds.metadata && Get(ds.metadata[recipe], metric).Some? && Get(ds.metadata[recipe], metric).value.Series? ==>
      r == Get(ds.metadata[recipe], metric).value.timeseries
  {
    if recipe in ds.metadata then
      match Get(ds.metadata[recipe], metric)
      case Some(Series(ts)) => ts
      case _ => []
    else []
  }

  /** `metadata[recipe]?.optimization_contribution`, when it is a factor table. */
  function ContributionOf(ds: MetadataDataset, recipe: string): (r: Option<seq<(string, real)>>)
    ensures r.Some? <==>
      recipe in ds.metadata && Get(ds.metadata[recipe], OptimizationContribution).Some? &&
      Get(ds.metadata[recipe], OptimizationContribution).value.Factors?
    ensures r.Some? ==> Get(ds.metadata[recipe], OptimizationContribution) == Some(Factors(r.value))
  {
    if recipe in ds.metadata then
      match Get(ds.metadata[recipe], OptimizationContribution)
      case Some(Factors(f)) => Some(f)
      case _ => None
    else None
  }
}
