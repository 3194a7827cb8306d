/** The journey-analysis screen's inner donut: pressing a segment drills down on it
    (the pressed segment grows to 80%, the others shrink to 5%; the error segment,
    index 3, gets the special 5/5/5/85 split), pressing a focused segment restores
    the default 40/30/20/10 split. The change is animated by interpolating between
    the current and the target values; the spring's timing is left abstract, each
    frame being a call with the spring's current progress. */
module JourneyAnalysis {
  import opened Options
  import opened Format

  /** One segment of the screen's chart data. */
  datatype ChartData = ChartData(value: real, color: string, caption: string, focused: bool)

  const DefaultValues: seq<int> := [40, 30, 20, 10]
  const InitialColors: seq<string> := ["#78F5B2", "#E97C64", "#F2C55E", "#000000"]

  /** The segment that stands for technical errors and drives the detail card. */
  const ErrorIndex: nat := 3

  const InitialData: seq<ChartData> := [
    ChartData(40.0, "#78F5B2", "40%", false),
    ChartData(30.0, "#E97C64", "30%", false),
    ChartData(20.0, "#F2C55E", "20%", false),
    ChartData(10.0, "#000000", "10%", false)
  ]

  /** The literal target used when the error segment is drilled into. */
  const ErrorFocusData: seq<ChartData> := [
    ChartData(5.0, "#78F5B2", "5%", false),
    ChartData(5.0, "#E97C64", "5%", false),
    ChartData(5.0, "#F2C55E", "5%", false),
    ChartData(85.0, "#000000", "85%", true)
  ]

  predicate HasInitialColors(d: seq<ChartData>) {
    |d| == 4 && forall i :: 0 <= i < 4 ==> d[i].color == InitialColors[i]
  }

  predicate AtMostOneFocused(d: seq<ChartData>) {
    forall i, j :: 0 <= i < |d| && 0 <= j < |d| && d[i].focused && d[j].focused ==> i == j
  }

  /** Every caption shows its value rounded, followed by '%'. */
  predicate CaptionsMatchValues(d: seq<ChartData>) {
    forall i :: 0 <= i < |d| ==> d[i].caption == PercentText(Round(d[i].value))
  }

  /** The shape every chart-data list of the screen keeps. */
  predicate WellFormed(d: seq<ChartData>) {
    HasInitialColors(d) && AtMostOneFocused(d) && CaptionsMatchValues(d)
  }

  /** `selectedIndex` names exactly the focused segment, or none is focused. */
  predicate Agrees(selected: Option<nat>, d: seq<ChartData>) {
    forall i :: 0 <= i < |d| ==> (d[i].focused <==> selected == Some(i))
  }

  /** `const expanding = !selectedItem.focused` */
  predicate Expanding(current: seq<ChartData>, index: nat)
    requires index < |current|
  {
    !current[index].focused
  }

  lemma PercentLiterals()
    ensures PercentText(5) == "5%" && PercentText(80) == "80%" && PercentText(85) == "85%"
    ensures PercentText(40) == "40%" && PercentText(30) == "30%"
    ensures PercentText(20) == "20%" && PercentText(10) == "10%"
  {
    assert NatToString(8) == "8" && NatToString(4) == "4" && NatToString(3) == "3";
    assert NatToString(2) == "2" && NatToString(1) == "1" && NatToString(5) == "5";
    assert DigitChar(0) == '0' && DigitChar(5) == '5';
  }

  lemma RoundWhole(n: int)
    ensures Round(n as real) == n
  {
  }

  lemma ErrorFocusDataShape()
    ensures |ErrorFocusData| == 4 && CaptionsMatchValues(ErrorFocusData)
    ensures forall i :: 0 <= i < 4 ==> (ErrorFocusData[i].focused <==> i == ErrorIndex)
    ensures forall i :: 0 <= i < 4 ==> ErrorFocusData[i].value == if i != ErrorIndex then 5.0 else 85.0
    ensures forall i :: 0 <= i < 4 ==> ErrorFocusData[i].color == InitialColors[i]
  {
    PercentLiterals();
    RoundWhole(5);
    RoundWhole(85);
  }

  /** The drill-down split. */
  function Expanded(current: seq<ChartData>, index: nat): (r: seq<ChartData>)
    requires |current| == 4 && index < 4
    ensures |r| == 4 && CaptionsMatchValues(r)
    ensures forall i :: 0 <= i < 4 ==> (r[i].focused <==> i == index)
    ensures forall i :: 0 <= i < 4 ==> r[i].value == if i != index then 5.0 else if index == ErrorIndex then 85.0 else 80.0
    ensures index == ErrorIndex ==> forall i :: 0 <= i < 4 ==> r[i].color == InitialColors[i]
    ensures index != ErrorIndex ==> forall i :: 0 <= i < 4 ==> r[i].color == current[i].color
  {
    if index == ErrorIndex then
      ErrorFocusDataShape();
      ErrorFocusData
    else
      PercentLiterals();
      RoundWhole(5);
      RoundWhole(80);
      seq(4, i requires 0 <= i < 4 =>
        if i == index then current[i].(value := 80.0, focused := true, caption := "80%")
        else current[i].(value := 5.0, focused := false, caption := "5%"))
  }

  /** The default split. */
  function Collapsed(current: seq<ChartData>): (r: seq<ChartData>)
    requires |current| == 4
    ensures |r| == 4 && CaptionsMatchValues(r)
    ensures forall i :: 0 <= i < 4 ==> !r[i].focused && r[i].color == current[i].color
    ensures forall i :: 0 <= i < 4 ==> r[i].value == DefaultValues[i] as real
  {
    var r := seq(4, i requires 0 <= i < 4 =>
      current[i].(value := DefaultValues[i] as real, focused := false, caption := PercentText(DefaultValues[i])));
    assert forall i :: 0 <= i < 4 ==> Round(r[i].value) == DefaultValues[i] by {
      forall i | 0 <= i < 4 {
        RoundWhole(DefaultValues[i]);
      }
    }
    r
  }

  /** The final data of a press on `index`: the drill-down split when the segment is
      not focused, the default split otherwise. Exactly the pressed segment is
      focused after an expansion and none after a collapse; the captions show the
      values; colours are kept. */
  function Target(current: seq<ChartData>, index: nat): (r: seq<ChartData>)
    requires |current| == 4 && index < 4
    ensures |r| == 4
    ensures forall i :: 0 <= i < 4 ==> (r[i].focused <==> Expanding(current, index) && i == index)
    ensures Expanding(current, index) ==>
              forall i :: 0 <= i < 4 ==> r[i].value == if i != index then 5.0 else if index == ErrorIndex then 85.0 else 80.0
    ensures !Expanding(current, index) ==> forall i :: 0 <= i < 4 ==> r[i].value == DefaultValues[i] as real
    ensures CaptionsMatchValues(r)
    ensures index == ErrorIndex && Expanding(current, index) ==> forall i :: 0 <= i < 4 ==> r[i].color == InitialColors[i]
    ensures index != ErrorIndex || !Expanding(current, index) ==> forall i :: 0 <= i < 4 ==> r[i].color == current[i].color
  {
    if Expanding(current, index) then Expanded(current, index) else Collapsed(current)
  }

  lemma MulNonNegative(a: real, b: real)
    requires a >= 0.0 && b >= 0.0
    ensures a * b >= 0.0
  {
  }

  /** `start + (end - start) * progress` lies between start and end for a progress in [0, 1]. */
  lemma LerpBetween(start: real, end: real, progress: real, v: real)
    requires 0.0 <= progress <= 1.0 && v == start + (end - start) * progress
    ensures start <= v <= end || end <= v <= start
  {
    if start <= end {
      MulNonNegative(end - start, progress);
      MulNonNegative(end - start, 1.0 - progress);
      assert (end - start) * (1.0 - progress) == (end - start) - (end - start) * progress;
    } else {
      MulNonNegative(start - end, progress);
      MulNonNegative(start - end, 1.0 - progress);
      assert (start - end) * progress == -((end - start) * progress);
      assert (start - end) * (1.0 - progress) == (start - end) - (start - end) * progress;
    }
  }

  /** One animation frame: `start + (end - start) * progress` for every segment, the
      caption showing the rounded value, and only the pressed segment allowed to be
      focused. */
  function Interpolate(current: seq<ChartData>, target: seq<ChartData>, index: nat, progress: real): (r: seq<ChartData>)
    requires |current| == |target|
    ensures |r| == |current|
    ensures forall i :: 0 <= i < |r| ==> r[i].color == current[i].color
    ensures CaptionsMatchValues(r)
    ensures forall i :: 0 <= i < |r| ==> (r[i].focused <==> i == index && target[i].focused)
  {
    seq(|current|, i requires 0 <= i < |current| =>
      var v := current[i].value + (target[i].value - current[i].value) * progress;
      current[i].(value := v, caption := PercentText(Round(v)), focused := if i == index then target[i].focused else false))
  }

  /** For a progress in [0, 1] every frame value lies between the start and the target value. */
  lemma InterpolateBetween(current: seq<ChartData>, target: seq<ChartData>, index: nat, progress: real)
    requires |current| == |target| && 0.0 <= progress <= 1.0
    ensures forall i :: 0 <= i < |current| ==>
              var v := Interpolate(current, target, index, progress)[i].value;
              current[i].value <= v <= target[i].value || target[i].value <= v <= current[i].value
  {
    var r := Interpolate(current, target, index, progress);
    forall i | 0 <= i < |current|
      ensures current[i].value <= r[i].value <= target[i].value || target[i].value <= r[i].value <= current[i].value
    {
      LerpBetween(current[i].value, target[i].value, progress, r[i].value);
    }
  }

  /** The animation starts from the current values. */
  lemma InterpolateAtStart(current: seq<ChartData>, target: seq<ChartData>, index: nat)
    requires |current| == |target| && CaptionsMatchValues(current)
    ensures forall i :: 0 <= i < |current| ==>
              Interpolate(current, target, index, 0.0)[i].value == current[i].value
              && Interpolate(current, target, index, 0.0)[i].caption == current[i].caption
  {
  }

  /** The last frame is the final data: at progress 1 the interpolation is exactly
      the target that the completion callback installs. */
  lemma InterpolateAtEnd(current: seq<ChartData>, index: nat)
    requires HasInitialColors(current) && index < 4
    ensures Interpolate(current, Target(current, index), index, 1.0) == Target(current, index)
  {
    var t := Target(current, index);
    var r := Interpolate(current, t, index, 1.0);
    forall i | 0 <= i < 4
      ensures r[i] == t[i]
    {
      assert r[i].value == t[i].value;
    }
  }

  lemma InitialDataWellFormed()
    ensures WellFormed(InitialData) && Agrees(None, InitialData)
  {
    PercentLiterals();
    assert Round(40.0) == 40 && Round(30.0) == 30 && Round(20.0) == 20 && Round(10.0) == 10;
  }

  lemma TargetWellFormed(current: seq<ChartData>, index: nat)
    requires HasInitialColors(current) && index < 4
    ensures WellFormed(Target(current, index))
    ensures Agrees(if Expanding(current, index) then Some(index) else None, Target(current, index))
  {
  }

  /** The drill-down round trip: from a chart with no focused segment, pressing the
      same segment twice brings back the initial data (values, captions, focus). */
  lemma {:induction false} PressTwiceRestores(current: seq<ChartData>, index: nat)
    requires HasInitialColors(current) && index < 4
    requires forall i :: 0 <= i < 4 ==> !current[i].focused
    ensures Target(Target(current, index), index) == InitialData
  {
    var once := Target(current, index);
    var twice := Target(once, index);
    PercentLiterals();
    forall i | 0 <= i < 4
      ensures twice[i] == InitialData[i]
    {
    }
  }

  /** An animation whose completion callback has not run yet. */
  datatype Animation = Animation(from: seq<ChartData>, target: seq<ChartData>, index: nat)

  /** The screen's state: `data`, `selectedIndex`, `showDetailCard`, and the refs
      `animationRef.current` (the pending animation) and `animatedDataRef.current`. */
  class JourneyScreen {
    var data: seq<ChartData>
    var selectedIndex: Option<nat>
    var showDetailCard: bool
    var animation: Option<Animation>
    var animatedData: seq<ChartData>

    /** The chart keeps four well-formed segments; `selectedIndex` agrees with the
        focus of the data once settled, and with the pending target while animating. */
    ghost predicate Valid()
      reads this`data, this`selectedIndex, this`animation
    {
      && WellFormed(data)
      && (animation.None? ==> Agrees(selectedIndex, data))
      && (animation.Some? ==>
            var a := animation.value;
            HasInitialColors(a.from) && a.index < 4 && a.target == Target(a.from, a.index)
            && WellFormed(a.target) && Agrees(selectedIndex, a.target))
    }

    constructor ()
      ensures Valid()
      ensures data == InitialData && animatedData == InitialData
      ensures selectedIndex == None && !showDetailCard && animation == None
    {
      data := InitialData;
      selectedIndex := None;
      showDetailCard := false;
      animation := None;
      animatedData := InitialData;
      InitialDataWellFormed();
    }

    /** `handleSegmentAnimation(index)`: stopping a pending animation runs its
        completion callback (its target becomes the data), then the new target is
        computed from the data as it was when the press happened. */
    method SegmentAnimation(index: nat)
      requires Valid() && index < 4
      modifies this
      ensures Valid()
      ensures selectedIndex == if Expanding(old(data), index) then Some(index) else None
      ensures animation == Some(Animation(old(data), Target(old(data), index), index))
      ensures data == if old(animation).Some? then old(animation).value.target else old(data)
      ensures showDetailCard == old(showDetailCard) && animatedData == old(animatedData)
    {
      var current := data;
      if animation.Some? {
        data := animation.value.target;
        animation := None;
      }
      var target := Target(current, index);
      TargetWellFormed(current, index);
      if Expanding(current, index) {
        selectedIndex := Some(index);
      } else {
        selectedIndex := None;
      }
      animation := Some(Animation(current, target, index));
    }

    /** The animation listener: one frame at the spring's current progress. */
    method Frame(progress: real)
      requires Valid() && animation.Some?
      modifies this
      ensures Valid()
      ensures data == Interpolate(old(animation).value.from, old(animation).value.target, old(animation).value.index, progress)
      ensures animatedData == data
      ensures selectedIndex == old(selectedIndex) && animation == old(animation) && showDetailCard == old(showDetailCard)
    {
      var a := animation.value;
      data := Interpolate(a.from, a.target, a.index, progress);
      animatedData := data;
    }

    /** The completion callback: the final data is exactly the target list. */
    method FinishAnimation()
      requires Valid() && animation.Some?
      modifies this
      ensures Valid()
      ensures data == old(animation).value.target && animation == None
      ensures selectedIndex == old(selectedIndex) && showDetailCard == old(showDetailCard)
      ensures animatedData == old(animatedData)
    {
      data := animation.value.target;
      animation := None;
    }

    /** `handleErrorCardPress`: showing the detail card drills into the error segment;
        hiding it collapses that segment only when it is focused. The card stays
        shown until the hide animation completes. */
    method ErrorCardPress()
      requires Valid()
      modifies this
      ensures Valid()
      ensures showDetailCard
      ensures (!old(showDetailCard) || old(data)[ErrorIndex].focused) ==>
                && animation == Some(Animation(old(data), Target(old(data), ErrorIndex), ErrorIndex))
                && selectedIndex == (if Expanding(old(data), ErrorIndex) then Some(ErrorIndex) else None)
                && data == (if old(animation).Some? then old(animation).value.target else old(data))
      ensures old(showDetailCard) && !old(data)[ErrorIndex].focused ==>
                data == old(data) && selectedIndex == old(selectedIndex) && animation == old(animation)
      ensures animatedData == old(animatedData)
    {
      if !showDetailCard {
        // React applies both state updates after the handler returns, so setting
        // the flag before starting the animation changes nothing.
        showDetailCard := true;
        SegmentAnimation(ErrorIndex);
      } else if data[ErrorIndex].focused {
        SegmentAnimation(ErrorIndex);
      }
    }

    /** The hide animation's completion callback. */
    method DetailCardHidden()
      requires Valid()
      modifies this
      ensures Valid()
      ensures !showDetailCard
      ensures data == old(data) && selectedIndex == old(selectedIndex) && animation == old(animation)
      ensures animatedData == old(animatedData)
    {
      showDetailCard := false;
    }

    /** `handlePress`: the error segment goes through the detail-card handler, every
        other segment is animated directly. */
    method Press(index: nat)
      requires Valid() && index < 4
      modifies this
      ensures Valid()
      ensures index != ErrorIndex ==> showDetailCard == old(showDetailCard)
      ensures index == ErrorIndex ==> showDetailCard
      ensures index != ErrorIndex || !old(showDetailCard) || old(data)[index].focused ==>
                && animation == Some(Animation(old(data), Target(old(data), index), index))
                && selectedIndex == (if Expanding(old(data), index) then Some(index) else None)
                && data == (if old(animation).Some? then old(animation).value.target else old(data))
      ensures index == ErrorIndex && old(showDetailCard) && !old(data)[index].focused ==>
                data == old(data) && selectedIndex == old(selectedIndex) && animation == old(animation)
      ensures animatedData == old(animatedData)
    {
      if index == ErrorIndex {
        ErrorCardPress();
      } else {
        SegmentAnimation(index);
      }
    }
  }
}
