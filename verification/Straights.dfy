/** Straight detection over a list of card values (Poker/src/hand.rs, check_straight). */
module Straights {
  import opened Options
  import opened Sorting
  import opened Cards

  function AceHighs(values: seq<nat>): (r: seq<nat>)
    ensures |r| == |values| && forall i :: 0 <= i < |values| ==> r[i] == AceHigh(values[i])
  {
    seq(|values|, i requires 0 <= i < |values| => AceHigh(values[i]))
  }

  /** The distinct values with the ace high, descending. */
  function Ladder(sorted: seq<nat>): (ladder: seq<nat>)
    ensures StrictlyDescending(ladder)
  {
    SortFalls(AceHighs(sorted));
    DedupDescending(Sort(AceHighs(sorted), Ident));
    Dedup(Sort(AceHighs(sorted), Ident))
  }

  /** The top of the first five-element window, from position i on, that spans exactly four. */
  function FirstRun(ladder: seq<nat>, i: nat): Option<nat>
    requires StrictlyDescending(ladder)
    decreases |ladder| - i
  {
    if |ladder| < i + 5 then None
    else if ladder[i] - ladder[i + 4] == 4 then Some(ladder[i])
    else FirstRun(ladder, i + 1)
  }

  function StraightTop(values: seq<nat>): Option<nat> {
    var sorted := Sort(values, Ident);
    if sorted == WHEEL then Some(5) else FirstRun(Ladder(sorted), 0)
  }

  /** The window loop of the program; the subtraction stays within the naturals. */
  method CheckStraight(values: seq<nat>) returns (top: Option<nat>)
    ensures top == StraightTop(values)
  {
    var sorted := Sort(values, Ident);
    if sorted == WHEEL {
      return Some(5);
    }
    var unique := Ladder(sorted);
    var i := 0;
    while i + 4 < |unique|
      invariant FirstRun(unique, i) == FirstRun(unique, 0)
    {
      var span: nat := unique[i] - unique[i + 4];
      if span == 4 {
        return Some(unique[i]);
      }
      i := i + 1;
    }
    top := None;
  }

  // ----- meaning -----

  /** Some card counts as `v`, the ace counting 14. */
  ghost predicate Holds(values: seq<nat>, v: nat) {
    exists i :: 0 <= i < |values| && AceHigh(values[i]) == v
  }

  /** The five consecutive values ending in `top` are all present. */
  ghost predicate Run(values: seq<nat>, top: nat) {
    && top >= 4
    && Holds(values, top) && Holds(values, top - 1) && Holds(values, top - 2)
    && Holds(values, top - 3) && Holds(values, top - 4)
  }

  const WHEEL: seq<nat> := [5, 4, 3, 2, 1]

  /** Exactly the five cards ace to five. */
  ghost predicate Wheel(values: seq<nat>) {
    multiset(values) == multiset(WHEEL)
  }

  ghost predicate StraightTo(values: seq<nat>, top: nat) {
    if Wheel(values) then top == 5
    else Run(values, top) && forall higher: nat :: higher > top ==> !Run(values, higher)
  }

  lemma LadderMeaning(sorted: seq<nat>)
    ensures forall v :: v in Ladder(sorted) <==> Holds(sorted, v)
  {
    var a := AceHighs(sorted);
    SortMembers(a, Ident);
    DedupKeepsMembers(Sort(a, Ident));
    forall v ensures v in Ladder(sorted) <==> Holds(sorted, v) {
      if v in a {
        var i :| 0 <= i < |a| && a[i] == v;
        assert AceHigh(sorted[i]) == v;
      }
      if Holds(sorted, v) {
        var i :| 0 <= i < |sorted| && AceHigh(sorted[i]) == v;
        assert a[i] == v;
      }
    }
  }

  lemma HoldsOfPermutation(a: seq<nat>, b: seq<nat>, v: nat)
    requires multiset(a) == multiset(b)
    ensures Holds(a, v) ==> Holds(b, v)
  {
    if Holds(a, v) {
      var i :| 0 <= i < |a| && AceHigh(a[i]) == v;
      assert a[i] in multiset(b);
      var j :| 0 <= j < |b| && b[j] == a[i];
    }
  }

  ghost predicate Window(u: seq<nat>, k: nat) {
    k + 4 < |u| && u[k] == u[k + 4] + 4
  }

  /** In a strictly descending ladder, five values in a row sit in one window and conversely. */
  lemma WindowIsRun(u: seq<nat>, i: nat)
    requires StrictlyDescending(u) && i + 4 < |u|
    ensures u[i] - u[i + 4] >= 4
    ensures u[i] - u[i + 4] == 4 ==> u[i + 1] == u[i] - 1 && u[i + 2] == u[i] - 2 && u[i + 3] == u[i] - 3
  {
    assert u[i] > u[i + 1] > u[i + 2] > u[i + 3] > u[i + 4];
  }

  lemma RunIsWindow(u: seq<nat>, top: nat)
    requires StrictlyDescending(u) && top >= 4
    requires top in u && top - 1 in u && top - 2 in u && top - 3 in u && top - 4 in u
    ensures exists i: nat :: Window(u, i) && u[i] == top
  {
    var i :| 0 <= i < |u| && u[i] == top;
    NextRung(u, i);
    NextRung(u, i + 1);
    NextRung(u, i + 2);
    NextRung(u, i + 3);
    assert Window(u, i);
  }

  lemma NextRung(u: seq<nat>, i: nat)
    requires StrictlyDescending(u) && i < |u| && u[i] > 0 && u[i] - 1 in u
    ensures i + 1 < |u| && u[i + 1] == u[i] - 1
  {
    var j :| 0 <= j < |u| && u[j] == u[i] - 1;
    assert j > i;
    assert i + 1 < |u| && u[i + 1] < u[i];
  }

  ghost predicate FirstWindow(u: seq<nat>, i: nat, top: nat) {
    exists k: nat :: i <= k && Window(u, k) && u[k] == top && (forall j: nat :: i <= j < k ==> !Window(u, j))
  }

  lemma {:induction false} FirstRunMeaning(u: seq<nat>, i: nat)
    requires StrictlyDescending(u)
    ensures FirstRun(u, i).None? ==> forall j: nat :: i <= j ==> !Window(u, j)
    ensures FirstRun(u, i).Some? ==> FirstWindow(u, i, FirstRun(u, i).value)
    decreases |u| - i
  {
    if i + 4 < |u| && !Window(u, i) {
      FirstRunMeaning(u, i + 1);
      if FirstRun(u, i).Some? {
        var top := FirstRun(u, i).value;
        var k: nat :| i + 1 <= k && Window(u, k) && u[k] == top && (forall j: nat :: i + 1 <= j < k ==> !Window(u, j));
        assert i <= k && Window(u, k);
      }
    }
  }

  lemma WheelSorted(values: seq<nat>)
    ensures Wheel(values) <==> Sort(values, Ident) == WHEEL
  {
    assert Descending(WHEEL, Ident);
    SortsTo(values, WHEEL);
  }

  lemma LadderHolds(values: seq<nat>, v: nat)
    ensures v in Ladder(Sort(values, Ident)) <==> Holds(values, v)
  {
    var s := Sort(values, Ident);
    SortSorted(values, Ident);
    LadderMeaning(s);
    HoldsOfPermutation(values, s, v);
    HoldsOfPermutation(s, values, v);
  }

  /** A run of the values is exactly a window of the ladder. */
  lemma RunOnLadder(values: seq<nat>, top: nat)
    ensures var u := Ladder(Sort(values, Ident));
      Run(values, top) <==> exists i: nat :: Window(u, i) && u[i] == top
  {
    var s := Sort(values, Ident);
    var u := Ladder(s);
    LadderHolds(values, top);
    if top >= 4 {
      LadderHolds(values, top - 1);
      LadderHolds(values, top - 2);
      LadderHolds(values, top - 3);
      LadderHolds(values, top - 4);
    }
    if Run(values, top) {
      RunIsWindow(u, top);
    }
    if i: nat :| Window(u, i) && u[i] == top {
      WindowIsRun(u, i);
      assert u[i] in u && u[i + 1] in u && u[i + 2] in u && u[i + 3] in u && u[i + 4] in u;
    }
  }

  /**
   The result is 5 for exactly the wheel, otherwise the highest top of five consecutive
   values, and None when there is neither.
   */
  lemma StraightTopMeaning(values: seq<nat>)
    ensures forall top: nat :: StraightTop(values) == Some(top) <==> StraightTo(values, top)
    ensures StraightTop(values) == None <==> !Wheel(values) && forall top: nat :: !Run(values, top)
  {
    WheelSorted(values);
    if !Wheel(values) {
      FirstRunMeaning(Ladder(Sort(values, Ident)), 0);
      forall top: nat ensures StraightTop(values) == Some(top) <==> StraightTo(values, top) {
        HighestRun(values, top);
      }
      forall top: nat | StraightTop(values) == None ensures !Run(values, top) {
        RunOnLadder(values, top);
      }
      if StraightTop(values).Some? {
        HighestRun(values, StraightTop(values).value);
      }
    }
  }

  /** The first window of the ladder is the highest run. */
  lemma HighestRun(values: seq<nat>, top: nat)
    requires !Wheel(values)
    ensures FirstRun(Ladder(Sort(values, Ident)), 0) == Some(top) <==> StraightTo(values, top)
  {
    var u := Ladder(Sort(values, Ident));
    FirstRunMeaning(u, 0);
    RunOnLadder(values, top);
    if FirstRun(u, 0) == Some(top) {
      forall higher: nat | higher > top ensures !Run(values, higher) {
        RunOnLadder(values, higher);
      }
    } else if Run(values, top) {
      var higher := FirstRun(u, 0).value;
      RunOnLadder(values, higher);
      assert higher > top;
    }
  }

  lemma StraightForgetsOrder(a: seq<nat>, b: seq<nat>)
    requires multiset(a) == multiset(b)
    ensures StraightTop(a) == StraightTop(b)
  {
    SortForgetsOrder(a, b, Ident);
  }
}
