/** The home dashboard: the scroll offset that centres a selected day, the points
    of the headline graph, the sign badge of a metric's change, the per-metric data
    generator (with its random draws passed in), and the selection and refresh of
    the displayed metric. */
module HomeScreen {
  import opened Options
  import opened Format

  // ---------------------------------------------------------------------------
  // Day strip

  /** Width of one day item (40) plus its right margin (12). */
  const ItemWidth := 52

  /** `scrollToSelectedDate`: `Math.max(0, index * 52 - screenWidth / 2 + 52 / 2)`. */
  function ScrollOffset(index: nat, screenWidth: real): (x: real)
    ensures x >= 0.0
    ensures x > 0.0 ==> x + screenWidth / 2.0 == (index * ItemWidth) as real + ItemWidth as real / 2.0
    ensures x == 0.0 ==> (index * ItemWidth) as real + ItemWidth as real / 2.0 <= screenWidth / 2.0
  {
    var offset := (index * ItemWidth) as real - screenWidth / 2.0 + ItemWidth as real / 2.0;
    if 0.0 < offset then offset else 0.0
  }

  /** A later day never scrolls the strip less far than an earlier one. */
  lemma ScrollOffsetMonotone(i: nat, j: nat, screenWidth: real)
    requires i <= j
    ensures ScrollOffset(i, screenWidth) <= ScrollOffset(j, screenWidth)
  {
    assert i * ItemWidth <= j * ItemWidth;
  }

  // ---------------------------------------------------------------------------
  // Headline graph

  /** The fixed x-axis labels; a ninth value or later has none (`undefined`). */
  const HourLabels: seq<string> := ["8AM", "10", "12", "2PM", "4", "6", "8", "10"]

  datatype Point = Point(value: real, caption: Option<string>)

  /** `updateGraphData`'s `map`: one point per value, labelled by position. */
  function GraphPoints(values: seq<real>): (points: seq<Point>)
    ensures |points| == |values|
    ensures forall i :: 0 <= i < |points| ==> (points[i].caption.Some? <==> i < |HourLabels|)
    ensures forall i :: 0 <= i < |points| && i < |HourLabels| ==> points[i].caption == Some(HourLabels[i])
  {
    if values == [] then []
    else
      var i := |values| - 1;
      var caption := if i < |HourLabels| then Some(HourLabels[i]) else None;
      GraphPoints(values[..i]) + [Point(values[i], caption)]
  }

  /** The values a graph plots. */
  function PlottedValues(points: seq<Point>): seq<real> {
    seq(|points|, i requires 0 <= i < |points| => points[i].value)
  }

  /** The graph plots exactly the given values, in the given order. */
  lemma {:induction false} GraphPointsKeepValues(values: seq<real>)
    ensures PlottedValues(GraphPoints(values)) == values
  {
    if values != [] {
      var init := values[..|values| - 1];
      GraphPointsKeepValues(init);
      assert forall i :: 0 <= i < |init| ==> GraphPoints(values)[i] == GraphPoints(init)[i];
    }
  }

  /** Eight values get every one of the eight labels. */
  lemma EightPointsAllLabelled(values: seq<real>)
    requires |values| == |HourLabels|
    ensures forall i :: 0 <= i < |values| ==> GraphPoints(values)[i].caption == Some(HourLabels[i])
  {
  }

  // ---------------------------------------------------------------------------
  // Change badge

  datatype Badge = Badge(positive: bool, magnitude: real)

  /** `StatItem`: `isPositive = change >= 0`, and the text shows `Math.abs(change)`. */
  function ChangeBadge(change: real): (b: Badge)
    ensures b.positive <==> change >= 0.0
    ensures b.magnitude >= 0.0
    ensures b.magnitude == change || b.magnitude == -change
  {
    Badge(change >= 0.0, if change < 0.0 then -change else change)
  }

  /** The badge loses nothing: sign and magnitude give back the change. */
  lemma BadgeReconstructsChange(change: real)
    ensures var b := ChangeBadge(change); change == (if b.positive then b.magnitude else -b.magnitude)
  {
  }

  /** Arrow colour of the badge. */
  function BadgeColor(b: Badge): (color: string)
    ensures color == "#00C853" <==> b.positive
  {
    if b.positive then "#00C853" else "#FF1744"
  }

  // ---------------------------------------------------------------------------
  // Metric data generator; `Math.random()` draws are inputs

  /** Each draw lies in [0, 1), as `Math.random()` returns. */
  predicate UnitDraws(draws: seq<real>) {
    forall k :: 0 <= k < |draws| ==> 0.0 <= draws[k] < 1.0
  }

  /** A metric's headline text. The currency and fixed-decimal formats come from
      `Intl.NumberFormat` and `toFixed` and are kept symbolic. */
  datatype MetricValue =
    | Text(text: string)
    | Euros(amount: int)
    | Fixed(x: real, digits: nat, suffix: string)

  datatype MetricData = MetricData(value: MetricValue, graphData: seq<real>)

  /** The metrics the generator knows, in `updateAllMetricsData`'s order. */
  const KnownMetrics: seq<string> :=
    ["Revenue", "Average Cart", "Conversation Rate", "Number of Sessions", "Session Time", "Bounce Rate"]

  /** Number of values per graph. */
  const GraphLength := 8

  lemma MulBelow(r: real, m: real)
    requires 0.0 <= r < 1.0 && 0.0 < m
    ensures 0.0 <= r * m < m
  {
    assert (1.0 - r) * m > 0.0;
  }

  /** `Math.floor(Math.random() * ceiling)` lies in [0, ceiling). */
  lemma FloorBelow(r: real, ceiling: int)
    requires 0.0 <= r < 1.0 && 0 < ceiling
    ensures 0 <= (r * ceiling as real).Floor < ceiling
  {
    MulBelow(r, ceiling as real);
  }

  /** `base + Math.floor(Math.random() * ceiling)` for each draw. */
  function FloorDraws(draws: seq<real>, ceiling: int, base: int): (vs: seq<real>)
    requires UnitDraws(draws) && 0 < ceiling
    ensures |vs| == |draws|
    ensures forall i :: 0 <= i < |vs| ==> base as real <= vs[i] < (base + ceiling) as real
  {
    if draws == [] then []
    else
      var k := (draws[0] * ceiling as real).Floor;
      FloorBelow(draws[0], ceiling);
      [(base + k) as real] + FloorDraws(draws[1..], ceiling, base)
  }

  /** `Math.round`, stated for an input known to lie between two whole numbers. */
  lemma RoundBetween(x: real, lo: int, hi: int)
    requires lo as real <= x <= hi as real
    ensures lo <= Round(x) <= hi
  {
  }

  /** `parseFloat((Math.random() * 3 + 1).toFixed(1))` for each draw; `toFixed`
      rounds half up here. */
  function ConversionGraph(draws: seq<real>): (vs: seq<real>)
    requires UnitDraws(draws)
    ensures |vs| == |draws|
    ensures forall i :: 0 <= i < |vs| ==> 1.0 <= vs[i] <= 4.0
  {
    if draws == [] then []
    else
      var x := draws[0] * 3.0 + 1.0;
      RoundBetween(x * 10.0, 10, 40);
      [Round(x * 10.0) as real / 10.0] + ConversionGraph(draws[1..])
  }

  /** `parseFloat((Math.random() * 2).toFixed(2))` for each draw. */
  function BounceGraph(draws: seq<real>): (vs: seq<real>)
    requires UnitDraws(draws)
    ensures |vs| == |draws|
    ensures forall i :: 0 <= i < |vs| ==> 0.0 <= vs[i] <= 2.0
  {
    if draws == [] then []
    else
      var x := draws[0] * 2.0;
      RoundBetween(x * 100.0, 0, 200);
      [Round(x * 100.0) as real / 100.0] + BounceGraph(draws[1..])
  }

  /** 'Revenue': an amount in [1 000 000, 4 000 000) euros and eight values below
      80 % of it. */
  function RevenueData(draws: seq<real>): (d: MetricData)
    requires |draws| >= 1 + GraphLength && UnitDraws(draws)
    ensures d.value.Euros? && 1000000 <= d.value.amount < 4000000
    ensures |d.graphData| == GraphLength
    ensures forall i :: 0 <= i < GraphLength ==> 0.0 <= d.graphData[i] < d.value.amount as real * 0.8
  {
    FloorBelow(draws[0], 3000000);
    var revenue := (draws[0] * 3000000.0).Floor + 1000000;
    var ceiling := revenue as real * 0.8;
    MetricData(Euros(revenue), RevenueGraph(draws[1..1 + GraphLength], ceiling))
  }

  lemma FloorUnder(y: real, ceiling: real)
    requires 0.0 <= y < ceiling
    ensures 0.0 <= y.Floor as real < ceiling
  {
  }

  /** `Math.floor(Math.random() * (revenue * 0.8))` for each draw; the ceiling is
      not a whole number in general. */
  function RevenueGraph(draws: seq<real>, ceiling: real): (vs: seq<real>)
    requires UnitDraws(draws) && 0.0 < ceiling
    ensures |vs| == |draws|
    ensures forall i :: 0 <= i < |vs| ==> 0.0 <= vs[i] < ceiling
  {
    if draws == [] then []
    else
      var y := draws[0] * ceiling;
      MulBelow(draws[0], ceiling);
      FloorUnder(y, ceiling);
      [y.Floor as real] + RevenueGraph(draws[1..], ceiling)
  }

  /** 'Average Cart': `avgCart` in [500, 2000), shown as `${avgCart}€`, and eight
      values in [0, avgCart). */
  function AverageCartData(draws: seq<real>): (d: MetricData)
    requires |draws| >= 1 + GraphLength && UnitDraws(draws)
    ensures d.value.Text? && |d.value.text| > 1 && d.value.text[|d.value.text| - 1] == '€'
    ensures var digits := d.value.text[..|d.value.text| - 1];
            AllDigits(digits) && 500 <= ParseNat(digits) < 2000
    ensures |d.graphData| == GraphLength
    ensures forall i :: 0 <= i < GraphLength ==>
              0.0 <= d.graphData[i] < ParseNat(d.value.text[..|d.value.text| - 1]) as real
  {
    FloorBelow(draws[0], 1500);
    var avgCart := (draws[0] * 1500.0).Floor + 500;
    ParseNatToString(avgCart);
    assert (NatToString(avgCart) + "€")[..|NatToString(avgCart)|] == NatToString(avgCart);
    MetricData(Text(NatToString(avgCart) + "€"), FloorDraws(draws[1..1 + GraphLength], avgCart, 0))
  }

  /** 'Conversation Rate': `(r * 3 + 1).toFixed(1)` followed by '%', and eight
      values in [1, 4]. */
  function ConversationRateData(draws: seq<real>): (d: MetricData)
    requires |draws| >= 1 + GraphLength && UnitDraws(draws)
    ensures d.value.Fixed? && 1.0 <= d.value.x < 4.0 && d.value.digits == 1 && d.value.suffix == "%"
    ensures |d.graphData| == GraphLength
    ensures forall i :: 0 <= i < GraphLength ==> 1.0 <= d.graphData[i] <= 4.0
  {
    MetricData(Fixed(draws[0] * 3.0 + 1.0, 1, "%"), ConversionGraph(draws[1..1 + GraphLength]))
  }

  /** 'Number of Sessions': `sessions` in [200, 1200) and eight values below it. */
  function SessionsData(draws: seq<real>): (d: MetricData)
    requires |draws| >= 1 + GraphLength && UnitDraws(draws)
    ensures d.value.Text? && AllDigits(d.value.text) && 200 <= ParseNat(d.value.text) < 1200
    ensures |d.graphData| == GraphLength
    ensures forall i :: 0 <= i < GraphLength ==> 0.0 <= d.graphData[i] < ParseNat(d.value.text) as real
  {
    FloorBelow(draws[0], 1000);
    var sessions := (draws[0] * 1000.0).Floor + 200;
    ParseNatToString(sessions);
    MetricData(Text(NatToString(sessions)), FloorDraws(draws[1..1 + GraphLength], sessions, 0))
  }

  /** 'Session Time': `${minutes}min ${seconds}s` with minutes in [2, 10) and
      seconds in [0, 60); every value is a whole number of seconds within that
      same minute. */
  function SessionTimeData(draws: seq<real>): (d: MetricData)
    requires |draws| >= 2 + GraphLength && UnitDraws(draws)
    ensures d.value.Text?
    ensures |d.graphData| == GraphLength
    ensures forall i :: 0 <= i < GraphLength ==> 120.0 <= d.graphData[i] < 600.0
    ensures forall i, j :: 0 <= i < GraphLength && 0 <= j < GraphLength ==> d.graphData[i] - d.graphData[j] < 60.0
  {
    FloorBelow(draws[0], 8);
    FloorBelow(draws[1], 60);
    var minutes := (draws[0] * 8.0).Floor + 2;
    var seconds := (draws[1] * 60.0).Floor;
    MetricData(Text(NatToString(minutes) + "min " + NatToString(seconds) + "s"),
               FloorDraws(draws[2..2 + GraphLength], 60, minutes * 60))
  }

  /** 'Bounce Rate': `(r * 2).toFixed(2)` followed by '%', and eight values in [0, 2]. */
  function BounceRateData(draws: seq<real>): (d: MetricData)
    requires |draws| >= 1 + GraphLength && UnitDraws(draws)
    ensures d.value.Fixed? && 0.0 <= d.value.x < 2.0 && d.value.digits == 2 && d.value.suffix == "%"
    ensures |d.graphData| == GraphLength
    ensures forall i :: 0 <= i < GraphLength ==> 0.0 <= d.graphData[i] <= 2.0
  {
    MetricData(Fixed(draws[0] * 2.0, 2, "%"), BounceGraph(draws[1..1 + GraphLength]))
  }

  /** `generateMetricData`: every metric gets eight non-negative values; an unknown
      one gets the text '0' and eight zeros. */
  function GenerateMetricData(metric: string, draws: seq<real>): (d: MetricData)
    requires |draws| >= 2 + GraphLength && UnitDraws(draws)
    ensures |d.graphData| == GraphLength
    ensures forall i :: 0 <= i < GraphLength ==> 0.0 <= d.graphData[i]
    ensures metric !in KnownMetrics ==> d.value == Text("0") && forall i :: 0 <= i < GraphLength ==> d.graphData[i] == 0.0
    ensures metric in KnownMetrics ==> d.value != Text("0")
  {
    if metric == "Revenue" then RevenueData(draws)
    else if metric == "Average Cart" then AverageCartData(draws)
    else if metric == "Conversation Rate" then ConversationRateData(draws)
    else if metric == "Number of Sessions" then
      var d := SessionsData(draws);
      assert ParseNat("0") == 0;
      d
    else if metric == "Session Time" then
      var d := SessionTimeData(draws);
      assert d.value.text[|d.value.text| - 1] == 's';
      d
    else if metric == "Bounce Rate" then BounceRateData(draws)
    else MetricData(Text("0"), seq(GraphLength, _ => 0.0))
  }

  // ---------------------------------------------------------------------------
  // Dashboard state

  /** One entry of `metricsData`; `change` is the parsed `toFixed(1)` text. */
  datatype MetricEntry = MetricEntry(caption: string, currentValue: MetricValue, graphData: seq<real>, change: real)

  /** The component's metric state: `selectedMetric`, `metricsData`, the plotted
      `revenueData` and the headline `currentRevenue`. */
  datatype Dashboard = Dashboard(
    selectedMetric: string,
    metricsData: map<string, MetricEntry>,
    revenueData: seq<Point>,
    currentRevenue: MetricValue)

  const InitialRevenue: seq<real> := [20000.0, 45000.0, 28000.0, 80000.0, 99000.0, 43000.0, 50000.0, 60000.0]

  /** The state before the first refresh: 'Revenue' selected, no metric data, and
      eight unlabelled placeholder points. */
  function InitialDashboard(): (d: Dashboard)
    ensures d.selectedMetric == "Revenue" && d.metricsData == map[]
    ensures PlottedValues(d.revenueData) == InitialRevenue
    ensures forall i :: 0 <= i < |d.revenueData| ==> d.revenueData[i].caption.None?
  {
    var points := seq(|InitialRevenue|, i requires 0 <= i < |InitialRevenue| => Point(InitialRevenue[i], None));
    Dashboard("Revenue", map[], points, Text("3 001 264€"))
  }

  /** `updateGraphData(metric, data)`: plot that metric's values and show its value. */
  function UpdateGraphData(d: Dashboard, metric: string, data: map<string, MetricEntry>): (r: Dashboard)
    requires metric in data
    ensures PlottedValues(r.revenueData) == data[metric].graphData
    ensures r.currentRevenue == data[metric].currentValue
    ensures r.selectedMetric == d.selectedMetric && r.metricsData == d.metricsData
  {
    GraphPointsKeepValues(data[metric].graphData);
    d.(revenueData := GraphPoints(data[metric].graphData), currentRevenue := data[metric].currentValue)
  }

  /** `handleMetricSelect`: only a metric listed from `metricsData` can be tapped. */
  function SelectMetric(d: Dashboard, metric: string): (r: Dashboard)
    requires metric in d.metricsData
    ensures r.selectedMetric == metric && r.metricsData == d.metricsData
    ensures PlottedValues(r.revenueData) == d.metricsData[metric].graphData
    ensures r.currentRevenue == d.metricsData[metric].currentValue
  {
    UpdateGraphData(d.(selectedMetric := metric), metric, d.metricsData)
  }

  /** Selecting the metric already shown changes nothing that is displayed. */
  lemma SelectMetricIdempotent(d: Dashboard, metric: string)
    requires metric in d.metricsData
    ensures SelectMetric(SelectMetric(d, metric), metric) == SelectMetric(d, metric)
  {
  }

  /** One metric's entry: its generated data and a change in [-20, 20] rounded to
      tenths. */
  function MetricEntryFor(metric: string, draws: seq<real>, changeDraw: real): (e: MetricEntry)
    requires |draws| >= 2 + GraphLength && UnitDraws(draws) && 0.0 <= changeDraw < 1.0
    ensures e.caption == metric && |e.graphData| == GraphLength
    ensures e.currentValue == GenerateMetricData(metric, draws).value
    ensures e.graphData == GenerateMetricData(metric, draws).graphData
    ensures -20.0 <= e.change <= 20.0
  {
    var data := GenerateMetricData(metric, draws);
    var x := changeDraw * 40.0 - 20.0;
    RoundBetween(x * 10.0, -200, 200);
    MetricEntry(metric, data.value, data.graphData, Round(x * 10.0) as real / 10.0)
  }

  lemma KnownMetricsDistinct()
    ensures forall i, j :: 0 <= i < j < |KnownMetrics| ==> KnownMetrics[i] != KnownMetrics[j]
  {
    assert |KnownMetrics[0]| == 7 && |KnownMetrics[1]| == 12 && |KnownMetrics[2]| == 17;
    assert |KnownMetrics[3]| == 18 && |KnownMetrics[4]| == 12 && |KnownMetrics[5]| == 11;
    assert KnownMetrics[1][0] != KnownMetrics[4][0];
  }

  /** Draws for the six metrics: a data stream and a change draw per metric. */
  predicate RefreshDraws(draws: seq<seq<real>>, changeDraws: seq<real>) {
    |draws| == |KnownMetrics| && |changeDraws| == |KnownMetrics| && UnitDraws(changeDraws)
    && forall k :: 0 <= k < |draws| ==> |draws[k]| >= 2 + GraphLength && UnitDraws(draws[k])
  }

  /** The `forEach` of `updateAllMetricsData`: an entry for each known metric. */
  method CollectMetrics(draws: seq<seq<real>>, changeDraws: seq<real>) returns (data: map<string, MetricEntry>)
    requires RefreshDraws(draws, changeDraws)
    ensures forall m :: m in data <==> m in KnownMetrics
    ensures forall k :: 0 <= k < |KnownMetrics| ==>
      data[KnownMetrics[k]] == MetricEntryFor(KnownMetrics[k], draws[k], changeDraws[k])
  {
    KnownMetricsDistinct();
    data := map[];
    for k := 0 to |KnownMetrics|
      invariant forall m :: m in data <==> m in KnownMetrics[..k]
      invariant forall j :: 0 <= j < k ==>
        KnownMetrics[j] in data && data[KnownMetrics[j]] == MetricEntryFor(KnownMetrics[j], draws[j], changeDraws[j])
    {
      data := data[KnownMetrics[k] := MetricEntryFor(KnownMetrics[k], draws[k], changeDraws[k])];
      assert KnownMetrics[..k + 1] == KnownMetrics[..k] + [KnownMetrics[k]];
    }
    assert KnownMetrics[..|KnownMetrics|] == KnownMetrics;
  }

  /** `updateAllMetricsData`'s state change once the entries are collected: the new
      entries replace the old ones and the selected metric is redrawn from them. */
  function Refresh(d: Dashboard, data: map<string, MetricEntry>): (r: Dashboard)
    requires d.selectedMetric in data
    ensures r.selectedMetric == d.selectedMetric && r.metricsData == data
    ensures PlottedValues(r.revenueData) == data[d.selectedMetric].graphData
    ensures r.currentRevenue == data[d.selectedMetric].currentValue
  {
    UpdateGraphData(d.(metricsData := data), d.selectedMetric, data)
  }

  /** After a refresh from known metrics, the graph shows eight points and each
      carries its hour label. */
  lemma RefreshedGraphFullyLabelled(d: Dashboard, draws: seq<seq<real>>, changeDraws: seq<real>, data: map<string, MetricEntry>)
    requires RefreshDraws(draws, changeDraws)
    requires forall k :: 0 <= k < |KnownMetrics| ==>
      KnownMetrics[k] in data && data[KnownMetrics[k]] == MetricEntryFor(KnownMetrics[k], draws[k], changeDraws[k])
    requires d.selectedMetric in KnownMetrics
    ensures d.selectedMetric in data
    ensures |Refresh(d, data).revenueData| == GraphLength
    ensures forall i :: 0 <= i < GraphLength ==> Refresh(d, data).revenueData[i].caption == Some(HourLabels[i])
  {
    var k :| 0 <= k < |KnownMetrics| && KnownMetrics[k] == d.selectedMetric;
    EightPointsAllLabelled(data[d.selectedMetric].graphData);
  }
}
