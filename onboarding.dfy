/** The two-step onboarding wizard: each step keeps a list of selected row indices
    that a tap toggles (removed when present, appended when absent), its Next or
    Terminer button is enabled only while something is selected, and the header
    follows the current step. */
module Onboarding {
  import opened Format

  /** `prev.filter(item => item !== x)` */
  function Without(s: seq<int>, x: int): (r: seq<int>)
    ensures |r| <= |s|
    ensures forall y :: y in r <==> y in s && y != x
  {
    if s == [] then [] else (if s[0] == x then [] else [s[0]]) + Without(s[1..], x)
  }

  predicate NoDuplicates(s: seq<int>) {
    forall i, j :: 0 <= i < j < |s| ==> s[i] != s[j]
  }

  /** `toggleItem` / `toggleReferent`: the index leaves the selection when it is in
      it and joins it otherwise; no other index changes membership. */
  function Toggled(prev: seq<int>, index: int): (r: seq<int>)
    ensures index in r <==> index !in prev
    ensures forall y :: y != index ==> (y in r <==> y in prev)
  {
    if index in prev then Without(prev, index) else prev + [index]
  }

  lemma {:induction false} WithoutAbsent(s: seq<int>, x: int)
    requires x !in s
    ensures Without(s, x) == s
  {
    if s != [] {
      WithoutAbsent(s[1..], x);
      assert [s[0]] + s[1..] == s;
    }
  }

  lemma {:induction false} WithoutConcat(a: seq<int>, b: seq<int>, x: int)
    ensures Without(a + b, x) == Without(a, x) + Without(b, x)
  {
    if a != [] {
      WithoutConcat(a[1..], b, x);
      assert (a + b)[1..] == a[1..] + b;
    } else {
      assert a + b == b;
    }
  }

  /** Toggling an absent index appends it at the end. */
  lemma ToggleAbsentAppends(prev: seq<int>, index: int)
    requires index !in prev
    ensures Toggled(prev, index) == prev + [index]
    ensures |Toggled(prev, index)| == |prev| + 1
  {
  }

  /** Toggling a present index of a duplicate-free selection removes exactly that
      entry and keeps the others in their original order. */
  lemma {:induction false} ToggleRemovesInPlace(prev: seq<int>, k: nat)
    requires NoDuplicates(prev) && k < |prev|
    ensures Toggled(prev, prev[k]) == prev[..k] + prev[k + 1..]
  {
    var x := prev[k];
    if k == 0 {
      assert x !in prev[1..];
      WithoutAbsent(prev[1..], x);
    } else {
      assert prev[1..][k - 1] == x;
      ToggleRemovesInPlace(prev[1..], k - 1);
      assert prev[1..][..k - 1] + prev[1..][k..] == prev[1..k] + prev[k + 1..];
      assert [prev[0]] + prev[1..k] == prev[..k];
    }
  }

  /** Toggling the same initially absent index twice gives back the exact list. */
  lemma ToggleTwiceRestores(prev: seq<int>, index: int)
    requires index !in prev
    ensures Toggled(Toggled(prev, index), index) == prev
  {
    WithoutConcat(prev, [index], index);
    WithoutAbsent(prev, index);
    assert Without([index], index) == [];
  }

  /** Toggling never creates a duplicate entry. */
  lemma ToggleKeepsNoDuplicates(prev: seq<int>, index: int)
    requires NoDuplicates(prev)
    ensures NoDuplicates(Toggled(prev, index))
  {
    if index in prev {
      var k :| 0 <= k < |prev| && prev[k] == index;
      ToggleRemovesInPlace(prev, k);
      var r := prev[..k] + prev[k + 1..];
      forall i, j | 0 <= i < j < |r|
        ensures r[i] != r[j]
      {
        var i' := if i < k then i else i + 1;
        var j' := if j < k then j else j + 1;
        assert r[i] == prev[i'] && r[j] == prev[j'];
      }
    }
  }

  /** With a duplicate-free selection, a toggle empties it (and so disables the
      button) exactly when the toggled index was the only one selected. */
  lemma ToggleEmpties(prev: seq<int>, index: int)
    requires NoDuplicates(prev)
    ensures Toggled(prev, index) == [] <==> prev == [index]
  {
    if index in prev {
      var k :| 0 <= k < |prev| && prev[k] == index;
      ToggleRemovesInPlace(prev, k);
      if |prev| == 1 {
        assert prev == [prev[0]];
      }
    }
  }

  /** One step's selection list: `selectedItems` or `selectedReferents`. */
  class Selection {
    var selected: seq<int>

    ghost predicate Valid()
      reads this
    {
      NoDuplicates(selected)
    }

    constructor ()
      ensures Valid() && selected == []
    {
      selected := [];
    }

    /** A tap on row `index`. */
    method Toggle(index: int)
      requires Valid()
      modifies this
      ensures Valid()
      ensures selected == Toggled(old(selected), index)
    {
      ToggleKeepsNoDuplicates(selected, index);
      selected := Toggled(selected, index);
    }

    /** The Next / Terminer button is enabled iff some row is selected. */
    function NextEnabled(): (enabled: bool)
      reads this
      ensures enabled <==> selected != []
    {
      |selected| != 0
    }
  }

  /** The header title of each step. */
  function HeaderTitle(step: nat): (title: string)
    ensures title == "Create your dashboard" <==> step == 0
    ensures step != 0 ==> title == "Select your referents"
  {
    if step == 0 then "Create your dashboard" else "Select your referents"
  }

  /** The `${currentStep + 1}/2` indicator. */
  function StepIndicator(step: nat): (text: string)
    ensures |text| > 2 && text[|text| - 2..] == "/2"
  {
    NatToString(step + 1) + "/2"
  }

  /** Different steps never show the same indicator. */
  lemma StepIndicatorInjective(a: nat, b: nat)
    requires StepIndicator(a) == StepIndicator(b)
    ensures a == b
  {
    var sa, sb := NatToString(a + 1), NatToString(b + 1);
    assert sa == StepIndicator(a)[..|StepIndicator(a)| - 2];
    assert sb == StepIndicator(b)[..|StepIndicator(b)| - 2];
    ParseNatToString(a + 1);
    ParseNatToString(b + 1);
  }

  /** `currentStep`: 0 for the dashboard choice, 1 for the referents. Only the
      current step's component is mounted, so `current` is that step's selection;
      changing step mounts the other component, whose selection starts empty. */
  class Wizard {
    var step: nat
    var current: Selection

    ghost predicate Valid()
      reads this, current
    {
      step <= 1 && current.Valid()
    }

    constructor ()
      ensures Valid() && step == 0
      ensures fresh(current) && current.selected == []
    {
      step := 0;
      current := new Selection();
    }

    /** `handleBack`: step 1 returns to step 0, whose selection starts over; from
        step 0 the wizard is left and nothing changes. */
    method Back() returns (leave: bool)
      requires Valid()
      modifies this
      ensures Valid()
      ensures old(step) == 1 ==> step == 0 && !leave && fresh(current) && current.selected == []
      ensures old(step) == 0 ==> step == 0 && leave && current == old(current)
    {
      if step == 1 {
        step := 0;
        current := new Selection();
        leave := false;
      } else {
        leave := true;
      }
    }

    /** `handleNextStep`: step 0 moves to step 1, whose selection starts empty; at
        step 1 nothing happens. */
    method NextStep()
      requires Valid()
      modifies this
      ensures Valid()
      ensures old(step) == 0 ==> step == 1 && fresh(current) && current.selected == []
      ensures old(step) == 1 ==> step == 1 && current == old(current)
    {
      if step == 0 {
        step := 1;
        current := new Selection();
      }
    }
  }

  /** A step change always disables the Next / Terminer button until a row is
      tapped again. */
  method StepChangeDisablesNext(w: Wizard)
    requires w.Valid() && w.step == 0
    modifies w
    ensures w.step == 1 && !w.current.NextEnabled()
  {
    w.NextStep();
  }
}
