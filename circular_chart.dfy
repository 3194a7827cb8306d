/** The donut chart component: a running start angle walks the segments, each
    segment gets a span proportional to its share of the total, a large-arc flag
    and a label, and a white hole is painted over the centre when the inner radius
    is positive. Angles are degrees, 0 at twelve o'clock, clockwise. The cosine and
    sine end points of each arc are left abstract: a wedge's path is given by the
    quantities it is drawn from. */
module CircularChart {
  import opened Options
  import opened Format

  /** One input slice: its value, its colour and an optional label. */
  datatype Segment = Segment(value: real, color: string, caption: Option<string>)

  /** The `M center L start A radius radius 0 flag 1 end Z` wedge path. */
  datatype WedgePath = WedgePath(center: real, radius: real, startAngle: real, endAngle: real, largeArcFlag: int)

  /** One computed segment, as pushed onto `segments`. */
  datatype Wedge = Wedge(path: WedgePath, color: string, startAngle: real, endAngle: real,
                         percentage: real, caption: string)

  /** The two half-circle arcs of radius `radius` painted white over the centre. */
  datatype HolePath = HolePath(center: real, radius: real)

  /** A label drawn at the mid-angle, on the circle of radius `radius`. */
  datatype LabelMark = LabelMark(text: string, midAngle: real, radius: real)

  /** The radii and the centre the component derives from its props. */
  datatype Layout = Layout(radius: real, center: real, innerRadius: real, labelRadius: real)

  datatype Chart = Chart(layout: Layout, wedges: seq<Wedge>, hole: Option<HolePath>,
                         labels: seq<Option<LabelMark>>)

  /** `data.reduce((sum, segment) => sum + segment.value, 0)`, folded from the left. */
  function Total(data: seq<Segment>): real
  {
    if data == [] then 0.0 else Total(data[..|data| - 1]) + data[|data| - 1].value
  }

  predicate NonNegative(data: seq<Segment>) {
    forall i :: 0 <= i < |data| ==> data[i].value >= 0.0
  }

  /** Reference definition of where the i-th segment starts: the share of the total
      held by the segments before it, as a fraction of the full turn. */
  function StartAngle(data: seq<Segment>, i: nat): real
    requires i <= |data| && Total(data) > 0.0
  {
    Total(data[..i]) / Total(data) * 360.0
  }

  function Percentage(data: seq<Segment>, i: nat): real
    requires i < |data| && Total(data) > 0.0
  {
    data[i].value / Total(data)
  }

  function LargeArcFlag(angle: real): (flag: int)
    ensures flag == 0 || flag == 1
    ensures flag == 1 <==> angle > 180.0
  {
    if angle > 180.0 then 1 else 0
  }

  /** `segment.caption || `${Math.round(percentage * 100)}%``: an absent or empty label
      falls back to the rounded percentage. The displayed label is never empty. */
  function LabelText(caption: Option<string>, percentage: real): (text: string)
    ensures text != ""
    ensures caption.Some? && caption.value != "" ==> text == caption.value
    ensures caption.None? || caption.value == "" ==> text == PercentText(Round(percentage * 100.0))
  {
    if caption.Some? && caption.value != "" then caption.value else PercentText(Round(percentage * 100.0))
  }

  /** Reference definition of the i-th computed segment. */
  function SegmentAt(data: seq<Segment>, radius: real, center: real, i: nat): Wedge
    requires i < |data| && Total(data) > 0.0
  {
    var start := StartAngle(data, i);
    var end := StartAngle(data, i + 1);
    var percentage := Percentage(data, i);
    Wedge(WedgePath(center, radius, start, end, LargeArcFlag(percentage * 360.0)),
          data[i].color, start, end, percentage, LabelText(data[i].caption, percentage))
  }

  lemma TotalSnoc(data: seq<Segment>, i: nat)
    requires i < |data|
    ensures Total(data[..i + 1]) == Total(data[..i]) + data[i].value
  {
    assert data[..i + 1][..i] == data[..i];
  }

  /** One step of the running start angle: the next start is this start plus this span. */
  lemma StartAngleStep(data: seq<Segment>, i: nat)
    requires i < |data| && Total(data) > 0.0
    ensures StartAngle(data, i + 1) == StartAngle(data, i) + Percentage(data, i) * 360.0
  {
    TotalSnoc(data, i);
    var t := Total(data);
    assert (Total(data[..i]) + data[i].value) / t == Total(data[..i]) / t + data[i].value / t;
  }

  /** The segment loop: one wedge per input segment, in input order, each starting
      where the previous one ended. */
  method ComputeSegments(data: seq<Segment>, radius: real, center: real) returns (segments: seq<Wedge>)
    requires data == [] || Total(data) > 0.0
    ensures |segments| == |data|
    ensures forall i :: 0 <= i < |data| ==> segments[i] == SegmentAt(data, radius, center, i)
  {
    var total := Total(data);
    segments := [];
    var startAngle := 0.0;
    assert data[..0] == [];
    for i := 0 to |data|
      invariant |segments| == i
      invariant data != [] ==> startAngle == StartAngle(data, i)
      invariant forall k :: 0 <= k < i ==> segments[k] == SegmentAt(data, radius, center, k)
    {
      var segment := data[i];
      var percentage := segment.value / total;
      var angle := percentage * 360.0;
      var endAngle := startAngle + angle;
      StartAngleStep(data, i);
      var largeArcFlag := if angle > 180.0 then 1 else 0;
      segments := segments + [Wedge(WedgePath(center, radius, startAngle, endAngle, largeArcFlag),
                                    segment.color, startAngle, endAngle, percentage,
                                    LabelText(segment.caption, percentage))];
      startAngle := endAngle;
    }
  }

  /** The first segment starts at 0 and the last one ends at 360. */
  lemma SpansCoverFullTurn(data: seq<Segment>, radius: real, center: real)
    requires |data| > 0 && Total(data) > 0.0
    ensures SegmentAt(data, radius, center, 0).startAngle == 0.0
    ensures SegmentAt(data, radius, center, |data| - 1).endAngle == 360.0
  {
    assert data[..0] == [];
    assert data[..|data|] == data;
    WholeTurn(Total(data));
  }

  lemma WholeTurn(t: real)
    requires t > 0.0
    ensures t / t * 360.0 == 360.0
  {
  }

  /** Every segment starts where its predecessor ends, and its span is its share
      of the total times 360; the large-arc flag is set iff that span exceeds 180. */
  lemma SegmentGeometry(data: seq<Segment>, radius: real, center: real, i: nat)
    requires i < |data| && Total(data) > 0.0
    ensures i + 1 < |data| ==> SegmentAt(data, radius, center, i).endAngle == SegmentAt(data, radius, center, i + 1).startAngle
    ensures SegmentAt(data, radius, center, i).endAngle - SegmentAt(data, radius, center, i).startAngle
            == data[i].value / Total(data) * 360.0
    ensures SegmentAt(data, radius, center, i).path.largeArcFlag == 1
            <==> SegmentAt(data, radius, center, i).endAngle - SegmentAt(data, radius, center, i).startAngle > 180.0
    ensures SegmentAt(data, radius, center, i).color == data[i].color
  {
    StartAngleStep(data, i);
  }

  lemma {:induction false} TotalNonNegative(data: seq<Segment>)
    requires NonNegative(data)
    ensures Total(data) >= 0.0
  {
    if data != [] {
      TotalNonNegative(data[..|data| - 1]);
    }
  }

  /** With non-negative values the prefix sums never decrease. */
  lemma {:induction false} PrefixTotalMonotone(data: seq<Segment>, i: nat, j: nat)
    requires NonNegative(data) && i <= j <= |data|
    ensures Total(data[..i]) <= Total(data[..j])
    decreases j - i
  {
    if i < j {
      PrefixTotalMonotone(data, i, j - 1);
      TotalSnoc(data, j - 1);
    }
  }

  /** No overlaps: with non-negative values, a segment ends no later than any later
      segment starts, so the spans lie side by side in input order. */
  lemma SpansInOrder(data: seq<Segment>, radius: real, center: real, i: nat, j: nat)
    requires NonNegative(data) && Total(data) > 0.0 && i < j < |data|
    ensures SegmentAt(data, radius, center, i).startAngle <= SegmentAt(data, radius, center, i).endAngle
    ensures SegmentAt(data, radius, center, i).endAngle <= SegmentAt(data, radius, center, j).startAngle
  {
    PrefixTotalMonotone(data, i, i + 1);
    PrefixTotalMonotone(data, i + 1, j);
    var t := Total(data);
    DivideMonotone(Total(data[..i]), Total(data[..i + 1]), t);
    DivideMonotone(Total(data[..i + 1]), Total(data[..j]), t);
  }

  lemma DivideMonotone(a: real, b: real, t: real)
    requires a <= b && t > 0.0
    ensures a / t * 360.0 <= b / t * 360.0
  {
    assert b / t - a / t == (b - a) / t;
    assert (b - a) / t * t == b - a;
  }

  /** No gaps: every angle of the full turn falls inside some segment's span. */
  lemma CoveringSegment(data: seq<Segment>, radius: real, center: real, angle: real) returns (i: nat)
    requires Total(data) > 0.0 && 0.0 <= angle < 360.0
    ensures i < |data|
    ensures SegmentAt(data, radius, center, i).startAngle <= angle < SegmentAt(data, radius, center, i).endAngle
  {
    assert data[..0] == [];
    assert data[..|data|] == data;
    i := CoveringBelow(data, radius, center, angle, |data|);
  }

  lemma {:induction false} CoveringBelow(data: seq<Segment>, radius: real, center: real, angle: real, k: nat) returns (i: nat)
    requires Total(data) > 0.0 && 0.0 <= angle && k <= |data|
    requires StartAngle(data, 0) == 0.0 && angle < StartAngle(data, k)
    ensures i < k
    ensures SegmentAt(data, radius, center, i).startAngle <= angle < SegmentAt(data, radius, center, i).endAngle
    decreases k
  {
    if StartAngle(data, k - 1) <= angle {
      i := k - 1;
    } else {
      i := CoveringBelow(data, radius, center, angle, k - 1);
    }
  }

  /** The props-derived radii: the stroked outer edge reaches the bounding box, the
      centre is its middle, an absent inner radius defaults to 0.6 times the size,
      and labels sit midway between the inner and the outer radius. */
  function ChartLayout(size: real, strokeWidth: real, innerRadius: Option<real>): (l: Layout)
    ensures 2.0 * l.radius + strokeWidth == size
    ensures 2.0 * l.center == size
    ensures l.innerRadius == if innerRadius.Some? then innerRadius.value else 0.6 * size
    ensures l.labelRadius - l.innerRadius == l.radius - l.labelRadius
  {
    var radius := (size - strokeWidth) / 2.0;
    var inner := if innerRadius.Some? then innerRadius.value else size * 0.6;
    Layout(radius, size / 2.0, inner, (radius + inner) / 2.0)
  }

  /** With the default inner radius the white hole is wider than the outer radius,
      so it covers every wedge: the callers always pass an inner radius. */
  lemma DefaultHoleCoversWedges(size: real, strokeWidth: real)
    requires size > 0.0 && strokeWidth >= 0.0
    ensures ChartLayout(size, strokeWidth, None).innerRadius > ChartLayout(size, strokeWidth, None).radius
  {
  }

  /** The hole is painted iff the inner radius is positive, with that radius. */
  function Hole(layout: Layout): (h: Option<HolePath>)
    ensures h.Some? <==> layout.innerRadius > 0.0
    ensures h.Some? ==> h.value.radius == layout.innerRadius && h.value.center == layout.center
  {
    if layout.innerRadius > 0.0 then Some(HolePath(layout.center, layout.innerRadius)) else None
  }

  predicate LabelVisible(w: Wedge) {
    w.percentage > 0.05
  }

  /** `showLabels && segments.map(...)`: nothing at all when labels are off;
      otherwise one entry per segment, a label only above a 5% share, placed at the
      mid-angle on the label circle. */
  function LabelMarks(wedges: seq<Wedge>, showLabels: bool, labelRadius: real): (marks: seq<Option<LabelMark>>)
    ensures |marks| == if showLabels then |wedges| else 0
    ensures forall i :: 0 <= i < |marks| ==> (marks[i].Some? <==> wedges[i].percentage > 0.05)
    ensures forall i :: 0 <= i < |marks| && marks[i].Some? ==>
              && marks[i].value.text == wedges[i].caption
              && marks[i].value.radius == labelRadius
              && marks[i].value.midAngle - wedges[i].startAngle == wedges[i].endAngle - marks[i].value.midAngle
  {
    if !showLabels then []
    else
      seq(|wedges|, i requires 0 <= i < |wedges| =>
        if LabelVisible(wedges[i])
        then Some(LabelMark(wedges[i].caption, (wedges[i].startAngle + wedges[i].endAngle) / 2.0, labelRadius))
        else None)
  }

  /** The whole component: layout, wedges, hole and labels. An absent `showLabels`
      takes its default, `true`, as an absent `innerRadius` takes `size * 0.6`. */
  method Render(data: seq<Segment>, size: real, strokeWidth: real, innerRadius: Option<real>,
                showLabels: Option<bool>)
    returns (chart: Chart)
    requires data == [] || Total(data) > 0.0
    ensures chart.layout == ChartLayout(size, strokeWidth, innerRadius)
    ensures |chart.wedges| == |data|
    ensures forall i :: 0 <= i < |data| ==>
              chart.wedges[i] == SegmentAt(data, chart.layout.radius, chart.layout.center, i)
    ensures chart.hole == Hole(chart.layout)
    ensures chart.labels == LabelMarks(chart.wedges, showLabels != Some(false), chart.layout.labelRadius)
    ensures showLabels.None? ==> |chart.labels| == |data|
  {
    var layout := ChartLayout(size, strokeWidth, innerRadius);
    var wedges := ComputeSegments(data, layout.radius, layout.center);
    var labelsOn := showLabels != Some(false);
    chart := Chart(layout, wedges, Hole(layout), LabelMarks(wedges, labelsOn, layout.labelRadius));
  }

  /** How many segments of a prefix have a share above 5% of `total`. */
  function VisibleCount(data: seq<Segment>, total: real): nat
    requires total > 0.0
  {
    if data == [] then 0
    else VisibleCount(data[..|data| - 1], total) + (if data[|data| - 1].value / total > 0.05 then 1 else 0)
  }

  lemma {:induction false} VisibleCountBound(data: seq<Segment>, total: real)
    requires NonNegative(data) && total > 0.0
    ensures Total(data) >= VisibleCount(data, total) as real * (total / 20.0)
    ensures VisibleCount(data, total) > 0 ==> Total(data) > VisibleCount(data, total) as real * (total / 20.0)
  {
    if data != [] {
      var last := data[|data| - 1];
      VisibleCountBound(data[..|data| - 1], total);
      if last.value / total > 0.05 {
        assert last.value > total / 20.0;
      }
    }
  }

  lemma FewerThanTwenty(t: real, c: nat)
    requires t > 0.0 && (c > 0 ==> t > c as real * (t / 20.0))
    ensures c < 20
  {
  }

  /** How many entries of a label list are drawn. */
  function LabelCount(marks: seq<Option<LabelMark>>): nat
  {
    if marks == [] then 0
    else LabelCount(marks[..|marks| - 1]) + (if marks[|marks| - 1].Some? then 1 else 0)
  }

  /** With labels on, the labels drawn are exactly the segments counted as visible. */
  lemma {:induction false} LabelCountIsVisibleCount(data: seq<Segment>, total: real, wedges: seq<Wedge>, labelRadius: real)
    requires total > 0.0 && |wedges| == |data|
    requires forall i :: 0 <= i < |data| ==> wedges[i].percentage == data[i].value / total
    ensures LabelCount(LabelMarks(wedges, true, labelRadius)) == VisibleCount(data, total)
  {
    if data != [] {
      var n := |data| - 1;
      var marks := LabelMarks(wedges, true, labelRadius);
      LabelCountIsVisibleCount(data[..n], total, wedges[..n], labelRadius);
      assert marks[..n] == LabelMarks(wedges[..n], true, labelRadius);
    }
  }

  /** Each computed wedge records its segment's share of the total. */
  lemma WedgeShares(data: seq<Segment>, radius: real, center: real, wedges: seq<Wedge>)
    requires Total(data) > 0.0 && |wedges| == |data|
    requires forall i :: 0 <= i < |data| ==> wedges[i] == SegmentAt(data, radius, center, i)
    ensures forall i :: 0 <= i < |data| ==> wedges[i].percentage == data[i].value / Total(data)
  {
  }

  /** With non-negative values fewer than twenty segments hold more than 5% each. */
  lemma VisibleAtMostNineteen(data: seq<Segment>)
    requires NonNegative(data) && Total(data) > 0.0
    ensures VisibleCount(data, Total(data)) <= 19
  {
    var t, c := Total(data), VisibleCount(data, Total(data));
    VisibleCountBound(data, t);
    FewerThanTwenty(t, c);
  }

  /** The 5% threshold keeps the chart from crowding: with non-negative values at
      most 19 labels are ever drawn on the computed wedges. */
  lemma {:induction false} AtMostNineteenLabels(data: seq<Segment>, radius: real, center: real, wedges: seq<Wedge>,
                                                showLabels: bool, labelRadius: real)
    requires NonNegative(data) && Total(data) > 0.0
    requires |wedges| == |data|
    requires forall i :: 0 <= i < |data| ==> wedges[i] == SegmentAt(data, radius, center, i)
    ensures LabelCount(LabelMarks(wedges, showLabels, labelRadius)) <= 19
  {
    if showLabels {
      WedgeShares(data, radius, center, wedges);
      LabelCountIsVisibleCount(data, Total(data), wedges, labelRadius);
      VisibleAtMostNineteen(data);
    }
  }
}
