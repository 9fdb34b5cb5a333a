/**
 * The chart view: from the dataset rows, the X and Y column names and the
 * chart type, either the "Ready to Visualize" placeholder or a heading, a
 * single Plotly trace and its layout. Rendering itself is Plotly's business.
 */
module GraphViewer {
  import opened Wrappers
  import opened Json

  datatype Marker = Marker(size: Option<nat>, color: string, opacity: real)

  datatype Line = Line(color: string, width: nat)

  /** One Plotly trace; `None` stands for a property left `undefined`. */
  datatype Trace = Trace(
    kind: string,
    x: seq<Option<Json>>,
    y: seq<Option<Json>>,
    mode: Option<string>,
    marker: Marker,
    line: Line)

  datatype Font = Font(size: Option<nat>, color: string)

  datatype AxisLayout = AxisLayout(title: string, gridColor: string, lineColor: string)

  datatype Margin = Margin(top: nat, right: nat, bottom: nat, left: nat)

  datatype Layout = Layout(
    title: string,
    titleFont: Font,
    xaxis: AxisLayout,
    yaxis: AxisLayout,
    plotBgColor: string,
    paperBgColor: string,
    font: Font,
    margin: Margin,
    showLegend: bool)

  /** What the component shows. */
  datatype View = Placeholder | Chart(heading: string, plotData: seq<Trace>, layout: Layout)

  const ScatterColor := "#3b82f6"
  const OtherMarkerColor := "#10b981"
  const TextColor := "#374151"

  /** JavaScript truthiness of an optional column name: null, undefined and "" are falsy. */
  predicate Truthy(name: Option<string>)
  {
    name.Some? && name.value != ""
  }

  /** `row[key]`: the member's value for an object row, `undefined` otherwise. */
  function Field(row: Json, key: string): Option<Json>
  {
    if row.JObject? then Lookup(row.members, key) else None
  }

  /** `rows.map((d) => d[key])`. */
  function Project(rows: seq<Json>, key: string): seq<Option<Json>>
  {
    if rows == [] then [] else [Field(rows[0], key)] + Project(rows[1..], key)
  }

  /** The projection keeps every row, in order: position k holds row k's value. */
  lemma {:induction false} ProjectAt(rows: seq<Json>, key: string)
    ensures |Project(rows, key)| == |rows|
    ensures forall k :: 0 <= k < |rows| ==> Project(rows, key)[k] == Field(rows[k], key)
  {
    if rows != [] {
      ProjectAt(rows[1..], key);
    }
  }

  /** ASCII upper-casing of one character. */
  function UpperChar(c: char): char
  {
    if 'a' <= c <= 'z' then (c as int - 'a' as int + 'A' as int) as char else c
  }

  /** `graphType.charAt(0).toUpperCase() + graphType.slice(1) + " Chart"`. */
  function ChartTitle(graphType: string): (r: string)
    ensures |r| == |graphType| + |" Chart"|
    ensures graphType != [] ==> r[0] == UpperChar(graphType[0]) && r[1..] == graphType[1..] + " Chart"
    ensures graphType == [] ==> r == " Chart"
  {
    var head := if graphType == [] then [] else [UpperChar(graphType[0])];
    var tail := if graphType == [] then [] else graphType[1..];
    head + tail + " Chart"
  }

  /** The titles the three chart types of the selector produce. */
  lemma ChartTitlesOfSelector()
    ensures ChartTitle("scatter") == "Scatter Chart"
    ensures ChartTitle("bar") == "Bar Chart"
    ensures ChartTitle("line") == "Line Chart"
  {
  }

  /** The single trace: projected x/y and chart-type-dependent styling. */
  function MakeTrace(rows: seq<Json>, xAxis: string, yAxis: string, graphType: string): (t: Trace)
    ensures t.kind == graphType
    ensures t.mode.Some? <==> graphType == "scatter"
    ensures t.mode.Some? ==> t.mode.value == "markers"
    ensures t.marker.size.Some? <==> graphType == "scatter"
    ensures t.marker.size.Some? ==> t.marker.size.value == 8
    ensures t.marker.color == (if graphType == "scatter" then ScatterColor else OtherMarkerColor)
    ensures t.line == Line(ScatterColor, 3)
    ensures |t.x| == |t.y| == |rows|
    ensures forall k :: 0 <= k < |rows| ==> t.x[k] == Field(rows[k], xAxis) && t.y[k] == Field(rows[k], yAxis)
  {
    ProjectAt(rows, xAxis);
    ProjectAt(rows, yAxis);
    var scatter := graphType == "scatter";
    Trace(
      graphType,
      Project(rows, xAxis),
      Project(rows, yAxis),
      if scatter then Some("markers") else None,
      Marker(if scatter then Some(8) else None, if scatter then ScatterColor else OtherMarkerColor, 0.8),
      Line(ScatterColor, 3))
  }

  /** The layout: title from the chart type, axis titles from the bound columns, no legend. */
  function MakeLayout(xAxis: string, yAxis: string, graphType: string): (l: Layout)
    ensures l.title == ChartTitle(graphType)
    ensures l.xaxis.title == xAxis && l.yaxis.title == yAxis
    ensures !l.showLegend
  {
    Layout(
      ChartTitle(graphType),
      Font(Some(18), TextColor),
      AxisLayout(xAxis, "#f3f4f6", "#e5e7eb"),
      AxisLayout(yAxis, "#f3f4f6", "#e5e7eb"),
      "#ffffff",
      "#ffffff",
      Font(None, TextColor),
      Margin(60, 30, 60, 60),
      false)
  }

  /** The component: the placeholder unless both axes are bound, otherwise one trace and its layout. */
  function Render(rows: seq<Json>, xAxis: Option<string>, yAxis: Option<string>, graphType: string): (v: View)
    ensures v.Placeholder? <==> !Truthy(xAxis) || !Truthy(yAxis)
    ensures v.Chart? ==> |v.plotData| == 1 && v.plotData[0].kind == graphType
    ensures v.Chart? ==> v.heading == xAxis.value + " vs " + yAxis.value
    ensures v.Chart? ==> v.layout.xaxis.title == xAxis.value && v.layout.yaxis.title == yAxis.value
    ensures v.Chart? ==> !v.layout.showLegend
    ensures v.Chart? ==> v.plotData == [MakeTrace(rows, xAxis.value, yAxis.value, graphType)]
    ensures v.Chart? ==> v.layout == MakeLayout(xAxis.value, yAxis.value, graphType)
  {
    if !Truthy(xAxis) || !Truthy(yAxis) then Placeholder
    else
      Chart(
        xAxis.value + " vs " + yAxis.value,
        [MakeTrace(rows, xAxis.value, yAxis.value, graphType)],
        MakeLayout(xAxis.value, yAxis.value, graphType))
  }
}
