# app-for-execs: a Dafny model of the dashboard screens

This project models the logic of the executive dashboard app, a React Native
application:

- **The donut chart component** (`CircularChart`). A running start angle walks the
  segments. Each segment gets a span equal to its share of the total times 360
  degrees, plus a large-arc flag and a label. A label is drawn only above a 5% share.
  A white hole is painted over the centre when the inner radius is positive.
- **The journey-analysis drill-down** (`JourneyAnalysis`):
  - Pressing a segment focuses it: that segment grows to 80% and the others shrink
    to 5%. The error segment, index 3, instead gets a fixed 5/5/5/85 split.
  - Pressing the focused segment restores the default 40/30/20/10 split.
  - The change is animated frame by frame by interpolating between the old and the
    new values.
  - The screen's state (`data`, `selectedIndex`, `showDetailCard` and the animation
    refs) is a class whose methods are the screen's handlers.
- **The onboarding wizard** (`Onboarding`):
  - The mounted step keeps a list of selected rows. A tap toggles a row: it is
    removed when present and appended when absent.
  - The Next/Terminer button is enabled only while something is selected.
  - Back and Next move between the two steps, and the header follows the step.
    Only the current step's component is mounted, so a step change starts the new
    step's selection empty and the earlier selection is lost.
- **The side menu** (`BurgerMenu`):
  - A fixed chat history is filtered, ignoring case, by the search text. A
    conversation is kept when the text occurs in its title or its tag.
  - A "No conversations found" message and a clear button depend on the search.
  - The panel slides to an on-screen or an off-screen offset.
- **The home dashboard helpers** (`HomeScreen`):
  - the scroll offset that centres a selected day;
  - the labelled points of the headline graph;
  - the sign badge of a metric's change;
  - the per-metric data generator, with its `Math.random()` draws passed in as
    inputs;
  - the selection and the refresh of the displayed metric.

`Format` holds `Math.round` and the decimal rendering used by the `${n}%` labels,
with a parse-back round trip. `Options` holds the `Option` type.

Numbers are modelled as mathematical reals and integers. Angles are degrees
clockwise from twelve o'clock.

Three facts about the chart's code shape the model:

- The chart divides by the total without a guard, so `ComputeSegments` and
  `Render` require a positive total whenever there is at least one segment.
- An inner radius at or beyond the outer radius is never clamped.
- The default inner radius, `size * 0.6`, is larger than the outer radius,
  `(size - strokeWidth) / 2`. The hole then paints over every wedge
  (`DefaultHoleCoversWedges`). Every caller in the app passes an inner radius.

## Model

| member | source | states |
|---|---|---|
| Format.Round | app/screens/JourneyAnalysis.tsx:374 | `Math.round` gives the whole number within half a unit of its input (ties go up). |
| Format.NatToString | app/components/CircularChart.tsx:63 | The decimal text of a natural number is non-empty, all digits, and has no leading zero. |
| Format.IntToString | app/components/CircularChart.tsx:63 | The text of an integer is non-empty and starts with '-' exactly when the number is negative. |
| Format.PercentText | app/components/CircularChart.tsx:63 | A `${n}%` label is at least two characters long and ends in '%'. |
| Format.ParseNatToString | app/components/CircularChart.tsx:63 | Reading the digits of a number's text gives back the number. |
| Format.ParseIntToString | app/components/CircularChart.tsx:63 | Reading an integer's text gives back the integer, sign included. |
| Format.PercentTextInjective | app/components/CircularChart.tsx:63 | Different rounded percentages never show the same label. |
| CircularChart.LargeArcFlag | app/components/CircularChart.tsx:47-48 | The flag is 0 or 1, and it is 1 exactly when the span exceeds 180 degrees. |
| CircularChart.LabelText | app/components/CircularChart.tsx:63 | A non-empty label is used as given. An absent or empty label falls back to the rounded percentage followed by '%'. The result is never empty. |
| CircularChart.TotalSnoc | app/components/CircularChart.tsx:28 | Adding the next segment to a prefix adds its value to the prefix's total. |
| CircularChart.StartAngleStep | app/components/CircularChart.tsx:35-37 | The running start angle advances by exactly the segment's share of the total times 360. |
| CircularChart.ComputeSegments | app/components/CircularChart.tsx:30-67 | The loop pushes one wedge per input segment, in order. The i-th wedge equals the closed-form segment built from the i-th prefix's share of the total. |
| CircularChart.SpansCoverFullTurn | app/components/CircularChart.tsx:32-37 | The first wedge starts at 0 degrees and the last one ends at exactly 360 degrees. |
| CircularChart.SegmentGeometry | app/components/CircularChart.tsx:35-62 | Each wedge ends where the next one starts. Its span is its value over the total times 360. Its large-arc flag is set exactly when the span exceeds 180. It keeps its input colour. |
| CircularChart.TotalNonNegative | app/components/CircularChart.tsx:28 | With non-negative values the total is non-negative. |
| CircularChart.PrefixTotalMonotone | app/components/CircularChart.tsx:28 | With non-negative values the running sums never decrease. |
| CircularChart.SpansInOrder | app/components/CircularChart.tsx:32-66 | With non-negative values no span is reversed and no two spans overlap: a wedge ends no later than any later wedge starts. |
| CircularChart.CoveringSegment | app/components/CircularChart.tsx:32-66 | The spans leave no gaps: every angle in [0, 360) lies in some wedge's span. |
| CircularChart.CoveringBelow | app/components/CircularChart.tsx:32-66 | An angle below the start of wedge k lies in the span of some wedge before k. |
| CircularChart.ChartLayout | app/components/CircularChart.tsx:19-27 | The stroked outer edge fills the box and the centre is its middle. An absent inner radius defaults to 0.6 times the size. The label circle lies midway between the inner and the outer radius (line 96). |
| CircularChart.DefaultHoleCoversWedges | app/components/CircularChart.tsx:23-26 | With the default inner radius, the hole's radius exceeds the outer radius. |
| CircularChart.Hole | app/components/CircularChart.tsx:69-91 | The white hole is painted exactly when the inner radius is positive. It has that radius and the chart's centre. |
| CircularChart.LabelMarks | app/components/CircularChart.tsx:93-114 | With labels off nothing is drawn. Otherwise each segment gets an entry, and a label exactly when its share exceeds 5%. The label shows the segment's text on the label circle, at the mid-angle of its span. |
| CircularChart.Render | app/components/CircularChart.tsx:19-118 | The component's output is the layout, the loop's wedges, the hole and the label marks, each as specified above. An omitted `showLabels` takes its default `true` (line 24), so every segment gets a label entry. |
| CircularChart.VisibleCountBound | app/components/CircularChart.tsx:100 | Each labelled segment holds more than a twentieth of the total, so the labelled segments together exceed their count times a twentieth of the total. |
| CircularChart.LabelCountIsVisibleCount | app/components/CircularChart.tsx:93-114 | With labels on, the number of labels `LabelMarks` draws equals the number of segments whose share exceeds 5%. |
| CircularChart.WedgeShares | app/components/CircularChart.tsx:34-35 | Each computed wedge records its segment's value over the total. |
| CircularChart.VisibleAtMostNineteen | app/components/CircularChart.tsx:100 | With non-negative values fewer than twenty segments hold more than 5% of the total each. |
| CircularChart.AtMostNineteenLabels | app/components/CircularChart.tsx:93-114 | With non-negative values, at most 19 labels are drawn on the wedges the loop computes, whatever the label settings. |
| JourneyAnalysis.ErrorFocusDataShape | app/screens/JourneyAnalysis.tsx:311-316 | The error split focuses only segment 3 and gives it 85, the others 5. It keeps the initial colours and its captions show the values. |
| JourneyAnalysis.Expanded | app/screens/JourneyAnalysis.tsx:296-337 | After a drill-down exactly the pressed segment is focused. It holds 80, or 85 for the error segment, and the others hold 5. The captions show the values. Colours are kept (the error split uses the initial colours). |
| JourneyAnalysis.Collapsed | app/screens/JourneyAnalysis.tsx:338-357 | After a collapse no segment is focused, the values are 40/30/20/10, the captions show them, and colours are kept. |
| JourneyAnalysis.Target | app/screens/JourneyAnalysis.tsx:288-358 | The final data of a press: the drill-down split when the pressed segment is not focused, the default split otherwise. Exactly the pressed segment is focused after an expansion, none after a collapse. Captions match the values. |
| JourneyAnalysis.LerpBetween | app/screens/JourneyAnalysis.tsx:369 | For a progress in [0, 1], `start + (end - start) * progress` lies between start and end. |
| JourneyAnalysis.Interpolate | app/screens/JourneyAnalysis.tsx:366-377 | An animation frame keeps the colours and shows each rounded value as its caption. Only the pressed segment may be focused, as in the target. |
| JourneyAnalysis.InterpolateBetween | app/screens/JourneyAnalysis.tsx:366-369 | For a progress in [0, 1], every frame value lies between the segment's start value and its target value. |
| JourneyAnalysis.InterpolateAtStart | app/screens/JourneyAnalysis.tsx:366-374 | At progress 0 a frame shows the current values and captions. |
| JourneyAnalysis.InterpolateAtEnd | app/screens/JourneyAnalysis.tsx:364-399 | At progress 1 the frame is exactly the final data that the completion callback installs. |
| JourneyAnalysis.InitialDataWellFormed | app/screens/JourneyAnalysis.tsx:67-74 | The initial data has the four colours, no focused segment, and captions matching the values. |
| JourneyAnalysis.TargetWellFormed | app/screens/JourneyAnalysis.tsx:296-358 | Every target keeps that shape, and `selectedIndex` as set by the handler names exactly its focused segment. |
| JourneyAnalysis.PressTwiceRestores | app/screens/JourneyAnalysis.tsx:288-357 | From a chart with no focused segment, pressing the same segment twice gives back the initial data exactly. |
| JourneyAnalysis.JourneyScreen.constructor | app/screens/JourneyAnalysis.tsx:67-74 | The screen starts with the initial data, no selection, no detail card and no animation. |
| JourneyAnalysis.JourneyScreen.SegmentAnimation | app/screens/JourneyAnalysis.tsx:277-399 | A pending animation is stopped and its target applied. The new target is computed from the data at the press, and `selectedIndex` becomes the pressed index on expansion and null on collapse. The screen invariant is kept. |
| JourneyAnalysis.JourneyScreen.Frame | app/screens/JourneyAnalysis.tsx:364-382 | A listener frame sets both `data` and the animated-data ref to the interpolation at the spring's progress. Nothing else changes. |
| JourneyAnalysis.JourneyScreen.FinishAnimation | app/screens/JourneyAnalysis.tsx:393-399 | The completion callback sets `data` to exactly the target list. |
| JourneyAnalysis.JourneyScreen.ErrorCardPress | app/screens/JourneyAnalysis.tsx:137-215 | Showing the card drills into the error segment. Hiding it collapses that segment only when it is focused, and otherwise leaves the chart unchanged. When it animates, the pending animation's target becomes the data and `selectedIndex` names the segment exactly when it expands. The card ends up shown. |
| JourneyAnalysis.JourneyScreen.DetailCardHidden | app/screens/JourneyAnalysis.tsx:270-272 | The hide animation's callback hides the card and changes nothing else. |
| JourneyAnalysis.JourneyScreen.Press | app/screens/JourneyAnalysis.tsx:403-421 | Segment 3 goes through the error-card handler. Every other segment is animated directly and the card is left as it was. Whenever an animation starts, its target is computed from the pressed data, `selectedIndex` names the pressed segment exactly when it expands, and the stopped animation's target becomes the data. |
| Onboarding.Without | app/screens/OnboardingScreen.tsx:33 | The filter keeps every entry except the removed index and is never longer than the list. |
| Onboarding.Toggled | app/screens/OnboardingScreen.tsx:30-38 | After a toggle the index is selected exactly when it was not selected before. No other index changes. |
| Onboarding.ToggleAbsentAppends | app/screens/OnboardingScreen.tsx:34-36 | Toggling an unselected index appends it at the end. |
| Onboarding.ToggleRemovesInPlace | app/screens/OnboardingScreen.tsx:32-33 | Toggling a selected index removes exactly that entry and keeps the others in order. |
| Onboarding.ToggleTwiceRestores | app/screens/OnboardingScreen.tsx:30-38 | Toggling the same unselected index twice gives back the original list. |
| Onboarding.ToggleKeepsNoDuplicates | app/screens/OnboardingScreen.tsx:30-38 | A toggle never introduces a duplicate. |
| Onboarding.ToggleEmpties | app/screens/OnboardingScreen.tsx:30-38 | A toggle empties the selection, and so disables the button, exactly when the toggled index was the only one selected. |
| Onboarding.Selection.constructor | app/screens/OnboardingScreen.tsx:9 | A step starts with nothing selected (also line 100). |
| Onboarding.Selection.Toggle | app/screens/OnboardingScreen.tsx:30-38 | A tap replaces the selection with its toggle and keeps it free of duplicates (also lines 111-119). |
| Onboarding.Selection.NextEnabled | app/screens/OnboardingScreen.tsx:84-90 | The Next button is enabled exactly when the selection is not empty (also lines 179-187 for Terminer). |
| Onboarding.HeaderTitle | app/screens/OnboardingScreen.tsx:217 | The title is "Create your dashboard" exactly on step 0, and "Select your referents" on step 1. |
| Onboarding.StepIndicator | app/screens/OnboardingScreen.tsx:237 | The indicator ends in "/2". |
| Onboarding.StepIndicatorInjective | app/screens/OnboardingScreen.tsx:237 | Different steps never show the same indicator. |
| Onboarding.Wizard.constructor | app/screens/OnboardingScreen.tsx:196-247 | The wizard starts on step 0, with the dashboard step mounted and nothing selected. |
| Onboarding.Wizard.Back | app/screens/OnboardingScreen.tsx:198-204 | Back from step 1 returns to step 0 and mounts a fresh, empty selection (lines 9, 243-247). Back from step 0 leaves the wizard and keeps the selection. |
| Onboarding.Wizard.NextStep | app/screens/OnboardingScreen.tsx:206-210 | Next from step 0 moves to step 1 and mounts a fresh, empty selection (lines 100, 243-247). On step 1 it does nothing. |
| Onboarding.StepChangeDisablesNext | app/screens/OnboardingScreen.tsx:243-247 | Right after moving to step 1 the Terminer button is disabled, since the new step's selection is empty. |
| BurgerMenu.SlideTarget | app/components/BurgerMenu.tsx:25-31 | The panel slides to 0 when visible. Otherwise it moves to -300, entirely off the left edge of the screen for a width of 280. |
| BurgerMenu.LowerChar | app/components/BurgerMenu.tsx:41 | Upper-case ASCII letters map to lower case, every other character is kept, and no upper-case letter remains. |
| BurgerMenu.ToLower | app/components/BurgerMenu.tsx:40-43 | Lowering keeps the length and lowers each character. |
| BurgerMenu.ToLowerIdempotent | app/components/BurgerMenu.tsx:41 | Lowering twice is the same as lowering once. |
| BurgerMenu.Includes | app/components/BurgerMenu.tsx:41-42 | The empty text is included in every string, and an included text is never longer than the string. |
| BurgerMenu.IncludesAt | app/components/BurgerMenu.tsx:41-42 | `includes` holds exactly when the text occurs at some position of the string. |
| BurgerMenu.IncludesPrefix | app/components/BurgerMenu.tsx:41-42 | A string that includes a text includes every prefix of it. |
| BurgerMenu.Filtered | app/components/BurgerMenu.tsx:40-43 | A conversation is listed exactly when its lowered title or tag contains the lowered search text. |
| BurgerMenu.FilteredIsSubsequence | app/components/BurgerMenu.tsx:40-43 | The listed conversations keep their history order. |
| BurgerMenu.EmptySearchKeepsAll | app/components/BurgerMenu.tsx:40-43 | An empty search lists the whole history. |
| BurgerMenu.FilterIgnoresCase | app/components/BurgerMenu.tsx:40-43 | Two search texts that lower to the same text list the same conversations. |
| BurgerMenu.MatchesPrefix | app/components/BurgerMenu.tsx:40-43 | A conversation matching a search text matches every prefix of it. |
| BurgerMenu.TypingNarrows | app/components/BurgerMenu.tsx:40-43 | Typing more characters only removes conversations from the list. It never adds or reorders any. |
| BurgerMenu.NoResults | app/components/BurgerMenu.tsx:91-94 | "No conversations found" shows exactly when no conversation matches the search. |
| BurgerMenu.ClearVisible | app/components/BurgerMenu.tsx:80-87 | The clear button shows exactly while the search text is not empty. |
| BurgerMenu.ClearPressed | app/components/BurgerMenu.tsx:80-83 | Pressing clear empties the text and hides the button. The whole history is listed again. |
| BurgerMenu.IconColor | app/components/BurgerMenu.tsx:69 | The search icon is black exactly while the input has focus. |
| HomeScreen.ScrollOffset | app/screens/HomeScreen.tsx:164-173 | The offset is never negative. When positive, it puts the centre of the selected day at the centre of the screen. When zero, that centre lies in the screen's left half. |
| HomeScreen.ScrollOffsetMonotone | app/screens/HomeScreen.tsx:167-171 | A later day never scrolls the strip less far than an earlier one. |
| HomeScreen.GraphPoints | app/screens/HomeScreen.tsx:226-229 | One point per value. The i-th point carries the i-th hour label exactly when i is below 8. |
| HomeScreen.GraphPointsKeepValues | app/screens/HomeScreen.tsx:226-229 | The graph plots exactly the given values, in the given order. |
| HomeScreen.EightPointsAllLabelled | app/screens/HomeScreen.tsx:228 | Eight values receive the eight hour labels in order. |
| HomeScreen.ChangeBadge | app/screens/HomeScreen.tsx:91-126 | The badge is positive exactly when the change is at least 0, and it shows the magnitude of the change. |
| HomeScreen.BadgeReconstructsChange | app/screens/HomeScreen.tsx:92-125 | The badge's sign and magnitude give back the change. |
| HomeScreen.BadgeColor | app/screens/HomeScreen.tsx:113-123 | The badge is green exactly when it is positive. |
| HomeScreen.FloorDraws | app/screens/HomeScreen.tsx:56 | `base + Math.floor(random * ceiling)` yields one value per draw, each in [base, base + ceiling). |
| HomeScreen.RevenueGraph | app/screens/HomeScreen.tsx:50 | Each revenue graph value lies in [0, 80% of the revenue). |
| HomeScreen.ConversionGraph | app/screens/HomeScreen.tsx:62 | Each conversation-rate graph value lies in [1, 4]. |
| HomeScreen.BounceGraph | app/screens/HomeScreen.tsx:81 | Each bounce-rate graph value lies in [0, 2]. |
| HomeScreen.RevenueData | app/screens/HomeScreen.tsx:46-51 | Revenue is an amount in [1 000 000, 4 000 000) euros with eight values below 80% of it. |
| HomeScreen.AverageCartData | app/screens/HomeScreen.tsx:52-57 | The average cart is a digit text followed by '€', reading back as a number in [500, 2000). The eight values lie in [0, that number). |
| HomeScreen.ConversationRateData | app/screens/HomeScreen.tsx:58-63 | The conversation rate is the unrounded draw x in [1, 4), to be printed with one decimal and followed by '%'. The eight values lie in [1, 4]. |
| HomeScreen.SessionsData | app/screens/HomeScreen.tsx:64-69 | The session count is a digit text reading back as a number in [200, 1200). The eight values lie in [0, that number). |
| HomeScreen.SessionTimeData | app/screens/HomeScreen.tsx:70-76 | The session time has eight values in [120, 600) seconds, and any two of them differ by less than 60 seconds. |
| HomeScreen.BounceRateData | app/screens/HomeScreen.tsx:77-82 | The bounce rate is the unrounded draw x in [0, 2), to be printed with two decimals and followed by '%'. The eight values lie in [0, 2]. |
| HomeScreen.GenerateMetricData | app/screens/HomeScreen.tsx:44-89 | Every metric yields eight non-negative values. An unknown metric yields the text '0' and eight zeros. A known one never yields '0'. |
| HomeScreen.InitialDashboard | app/screens/HomeScreen.tsx:146-158 | The dashboard starts with 'Revenue' selected and no metric data. The graph shows the eight placeholder values, unlabelled. |
| HomeScreen.UpdateGraphData | app/screens/HomeScreen.tsx:225-232 | The graph plots the metric's values and the headline shows its current value. Selection and data are unchanged. |
| HomeScreen.SelectMetric | app/screens/HomeScreen.tsx:189-192 | Selecting a metric makes it the selection and displays its values and its current value. |
| HomeScreen.SelectMetricIdempotent | app/screens/HomeScreen.tsx:189-192 | Selecting the same metric again changes nothing. |
| HomeScreen.MetricEntryFor | app/screens/HomeScreen.tsx:210-217 | A metric's entry carries its name, its generated value and eight values, and a change in [-20, 20]. |
| HomeScreen.KnownMetricsDistinct | app/screens/HomeScreen.tsx:200-207 | The six refreshed metric names are pairwise different. |
| HomeScreen.CollectMetrics | app/screens/HomeScreen.tsx:209-218 | The loop leaves exactly one entry for each of the six metrics, each generated from that metric's draws. |
| HomeScreen.Refresh | app/screens/HomeScreen.tsx:199-223 | A refresh replaces the metric data and redraws the selected metric from the new entries. |
| HomeScreen.RefreshedGraphFullyLabelled | app/screens/HomeScreen.tsx:199-232 | After a refresh the graph has eight points, each carrying its hour label. |

## Left out

- Trigonometry and SVG path text. The cosine/sine end points of arcs and labels and the path strings (app/components/CircularChart.tsx:39-55, 70-74, 95-98) are floating-point output. A wedge is given by its centre, radius, angles and flag, and a label by its mid-angle and radius.
- Animation timelines. `Animated.timing`/`spring`, easing, opacity, scale and translate values and the outer rings' opacity are all left out. A spring frame is a `Frame(progress)` call with the spring's progress as an input.
- `JourneyScreen.ErrorCardPress`: the `measure` call that positions the card before this handler runs is I/O, and the model calls the handler directly.
- React batching. State updates are modelled as immediate assignments. This is why `ErrorCardPress` sets `showDetailCard` before starting the segment animation: React applies both updates after the handler returns, so the order does not matter.
- `JourneyScreen.SegmentAnimation`: stopping a running spring invokes its completion callback in React Native, so the stopped animation's target becomes the data. The new animation still starts from the data read at the press, as the handler's copy does. React Native's new spring also reports a first frame at progress 0 straight away, and that frame's data is the one React keeps. The model matches this when a `Frame(0.0)` call follows, since `InterpolateAtStart` shows that this frame has the values and captions of the data read at the press.
- Other parts of the journey screen: the outer and outermost rings' data, the card list and the page buttons only feed views.
- Binary floating point. Numbers are exact reals. The model therefore does not capture rounding drift: the accumulated end angle of the last wedge can be 359.99999999999994 rather than 360, and `Math.round(percentage * 100)` can round 14.499999999999998 down where the exact share would give 15.
- `JourneyAnalysis.InterpolateBetween`: covers a progress in [0, 1] only. The drill-down spring (friction 7, tension 40, no overshoot clamping) is underdamped. Its progress overshoots 1 by a few percent, so the frames shown near the end pass beyond the target value before settling on it.
- `HomeScreen.ConversationRateData`, `HomeScreen.BounceRateData`: bound the unrounded figure. The printed text can reach the upper end: `(3.97).toFixed(1)` shows "4.0" and `(1.999).toFixed(2)` shows "2.00".
- Random and locale data. `Math.random()` draws are inputs in [0, 1). The euro amount (`Intl.NumberFormat`) and the `toFixed` texts are kept symbolic (`Euros`, `Fixed`). `toFixed` followed by `parseFloat` is modelled as rounding half up on exact reals, without binary floating point. `toFixed` rounds a negative tie away from zero (`(-0.25).toFixed(1)` is "-0.3"), where the model gives -0.2. Only the [-20, 20] bound of the change is stated, and it holds either way.
- `CollectMetrics`: each metric's draws and its change draw are separate inputs, rather than positions in one interleaved random stream.
- The date strip's calendar and dates. Month days come from date-fns, with `isToday`, `format` and the `selectedDay`/`currentDate` dates, and `handleDateChange` calls a setter the file does not define. The offset takes the day index and the screen width as inputs.
- `toLowerCase` lowers ASCII letters only. Other Unicode case mappings are not modelled.
- Navigation and rendering: `router.push` (the Back result `leave` stands for it), font loading, the Ask Sense button, styles, and the menu overlay's `onClose` callbacks, which belong to the parent.
- `CircularChart.ComputeSegments`: requires a positive total when there is at least one segment, because the code divides by the total without a guard. An empty chart is allowed and gives no wedges. Zero-valued segments are allowed and give empty spans. `CircularChart.Render` has the same requirement.
- `HomeScreen.SelectMetric`: requires the metric to have an entry, since only listed entries can be tapped and the code dereferences it unguarded. `HomeScreen.Refresh` likewise requires the selected metric to be among the new entries.
- `BurgerMenu.ClearPressed`: requires the clear button to be visible, since it is only rendered for a non-empty text.
- `HomeScreen.SessionTimeData` states the range of its values but not the digits of its `${minutes}min ${seconds}s` text.
- `Onboarding.StepIndicator` states the "/2" suffix. That distinct steps show distinct texts is the separate lemma `StepIndicatorInjective`.
- The chosen metric names on the onboarding step feed no logic and are not modelled.
