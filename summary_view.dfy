/**
 * The summary page's view model: the three KPI cards and the regional
 * donut chart, built from the `/kpis/summary` and `/kpis/happiness-by-region`
 * payloads.
 */
module SummaryView {
  import opened Wrappers
  import opened Rounding
  import opened ScoreColor
  import opened RegionGrouping

  /** A numeric field of a JSON payload: missing, `null`, or a number. */
  datatype Field = Absent | Null | Num(x: real)

  /** The `/kpis/summary` payload. */
  datatype KpiPayload = KpiPayload(happiness: Field, gdp: Field, social: Field)

  /** What a KPI card shows: the placeholder `"-"`, or a number with two decimals. */
  datatype KpiText = Dash | Fixed2(value: real)

  datatype Kpis = Kpis(happiness: KpiText, gdp: KpiText, social: KpiText)

  /** The cards before any payload has arrived. */
  const InitialKpis := Kpis(Dash, Dash, Dash)

  /** JavaScript truthiness of a field: a number other than zero. */
  predicate Truthy(f: Field) {
    f.Num? && f.x != 0.0
  }

  /** `field ? Number(field).toFixed(2) : "-"`. */
  function FormatKpi(f: Field): (t: KpiText)
    ensures t == Dash <==> !Truthy(f)
    ensures t.Fixed2? ==> t.value == Round2(f.x) && -0.005 <= t.value - f.x <= 0.005
  {
    if Truthy(f) then Fixed2(Round2(f.x)) else Dash
  }

  /**
   * The cards show their initial placeholders again exactly when no field
   * of the payload is truthy.
   */
  lemma PlaceholdersIffFalsy(p: KpiPayload)
    ensures SummaryKpis(p) == InitialKpis <==>
              !Truthy(p.happiness) && !Truthy(p.gdp) && !Truthy(p.social)
  {
  }

  /** The KPI cards after a summary payload: each field formatted on its own. */
  function SummaryKpis(p: KpiPayload): (k: Kpis)
    ensures k.happiness == Dash <==> !Truthy(p.happiness)
    ensures k.gdp == Dash <==> !Truthy(p.gdp)
    ensures k.social == Dash <==> !Truthy(p.social)
    ensures Truthy(p.happiness) ==> k.happiness == Fixed2(Round2(p.happiness.x))
    ensures Truthy(p.gdp) ==> k.gdp == Fixed2(Round2(p.gdp.x))
    ensures Truthy(p.social) ==> k.social == Fixed2(Round2(p.social.x))
  {
    Kpis(FormatKpi(p.happiness), FormatKpi(p.gdp), FormatKpi(p.social))
  }

  /** The donut chart's data: region names, averages and one colour per slice. */
  datatype DonutChart = DonutChart(labels: seq<string>, data: seq<real>, backgroundColor: seq<string>)

  /**
   * The donut built from a `/kpis/happiness-by-region` payload: the grouped
   * averages, each slice coloured by the score classifier.
   */
  method BuildDonut(labels: seq<string>, values: seq<real>) returns (chart: DonutChart)
    requires |labels| <= |values|
    ensures chart.labels == GroupOrder(labels)
    ensures |chart.data| == |chart.labels| == |chart.backgroundColor| <= 6
    ensures forall k :: 0 <= k < |chart.labels| ==>
              Reaches(Regions(labels), chart.labels[k]) &&
              chart.data[k] == Round2(Average(Regions(labels), values, chart.labels[k])) &&
              chart.backgroundColor[k] == ColorByScore(Some(chart.data[k]))
  {
    var newLabels, newValues := GroupAndTranslate(labels, values);
    GroupOrderBounds(labels);
    var dynamicColors := DonutColors(newValues);
    chart := DonutChart(newLabels, newValues, dynamicColors);
  }
}
