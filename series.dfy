/**
 * The two-series line chart both comparison panels draw: one label per time
 * point, `T1..Tn`, for the longer of the two series, with each series handed
 * to the chart as it is.
 */
module Series {
  import Text

  /** The label of the time point at 0-based index `i`: `T${i + 1}`. */
  function TimeLabel(i: nat): (r: string)
    ensures |r| >= 2 && r[0] == 'T' && r[1] != '0'
    ensures forall k :: 1 <= k < |r| ==> '0' <= r[k] <= '9'
    ensures Text.ParseDecimal(r[1..]) == i + 1
  {
    Text.DecimalRoundTrip(i + 1);
    var r := "T" + Text.Decimal(i + 1);
    assert r[1..] == Text.Decimal(i + 1);
    r
  }

  /** `Array.from({ length: n }, (_, i) => `T${i + 1}`)` */
  function TimeLabels(n: nat): (r: seq<string>)
    ensures |r| == n
    ensures forall i :: 0 <= i < n ==> r[i] == TimeLabel(i)
  {
    seq(n, i requires 0 <= i < n => TimeLabel(i))
  }

  /** No two time points share a label. */
  lemma TimeLabelsDistinct(n: nat, i: nat, j: nat)
    requires i < j < n
    ensures TimeLabels(n)[i] != TimeLabels(n)[j]
  {
    Text.DecimalInjective(i + 1, j + 1);
    assert TimeLabel(i)[1..] == Text.Decimal(i + 1);
    assert TimeLabel(j)[1..] == Text.Decimal(j + 1);
  }

  /** Line-chart data: the shared labels and the two datasets' values. */
  datatype LineChart = LineChart(labels: seq<string>, first: seq<real>, second: seq<real>)

  function Max(a: nat, b: nat): nat {
    if a >= b then a else b
  }

  function TwoSeriesChart(first: seq<real>, second: seq<real>): (r: LineChart)
    // every point of either series has a label, and every label has a point in some series
    ensures |first| <= |r.labels| && |second| <= |r.labels|
    ensures |r.labels| == |first| || |r.labels| == |second|
    ensures forall i :: 0 <= i < |r.labels| ==> r.labels[i] == TimeLabel(i)
    // neither series is truncated, padded or altered
    ensures r.first == first && r.second == second
  {
    LineChart(TimeLabels(Max(|first|, |second|)), first, second)
  }
}
