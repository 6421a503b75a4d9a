/**
 How a pot is divided at showdown. The program sweeps the distinct stakes upwards and gives each
 layer to the best hand that reaches it. Hand ranks enter only through a comparison `cmp`.
 */
module SidePots {
  import opened Options
  import opened Sums
  import opened Orders
  import opened Sorting

  /** What the showdown knows of one seat. */
  datatype Entry<+R> = Entry(id: nat, bet: nat, folded: bool, rank: R)

  // ----- the sweep, as the program performs it -----

  function BetOf<R>(e: Entry<R>): nat { e.bet }

  function PositiveBets<R>(es: seq<Entry<R>>): seq<nat> {
    if es == [] then []
    else if es[0].bet > 0 then [es[0].bet] + PositiveBets(es[1..])
    else PositiveBets(es[1..])
  }

  lemma {:induction false} PositiveBetsMembers<R>(es: seq<Entry<R>>)
    ensures forall x :: x in PositiveBets(es) <==> x > 0 && exists i :: 0 <= i < |es| && es[i].bet == x
  {
    if es != [] {
      PositiveBetsMembers(es[1..]);
      forall x ensures x in PositiveBets(es) <==> x > 0 && exists i :: 0 <= i < |es| && es[i].bet == x {
        if i :| 0 <= i < |es| && es[i].bet == x {
          assert i == 0 || es[1..][i - 1].bet == x;
        }
        if i :| 0 <= i < |es[1..]| && es[1..][i].bet == x {
          assert es[i + 1].bet == x;
        }
      }
    }
  }

  lemma LevelsAscend<R>(es: seq<Entry<R>>)
    ensures var levels := Dedup(Sort(PositiveBets(es), Opposite));
      && StrictlyAscending(levels)
      && forall x :: x in levels <==> x > 0 && exists i :: 0 <= i < |es| && es[i].bet == x
  {
    var s := Sort(PositiveBets(es), Opposite);
    SortSorted(PositiveBets(es), Opposite);
    SortMembers(PositiveBets(es), Opposite);
    forall i, j | 0 <= i < j < |s| ensures s[i] <= s[j] {
      assert Opposite(s[i]) >= Opposite(s[j]);
    }
    DedupAscending(s);
    DedupKeepsMembers(s);
    PositiveBetsMembers(es);
  }

  /** The distinct positive stakes, ascending. */
  function Levels<R>(es: seq<Entry<R>>): (levels: seq<nat>)
    ensures StrictlyAscending(levels)
    ensures forall x :: x in levels <==> x > 0 && exists i :: 0 <= i < |es| && es[i].bet == x
  {
    LevelsAscend(es);
    Dedup(Sort(PositiveBets(es), Opposite))
  }

  /** How many entries staked at least `level`. */
  function Contributors<R>(es: seq<Entry<R>>, level: nat): nat {
    if es == [] then 0 else (if es[0].bet >= level then 1 else 0) + Contributors(es[1..], level)
  }

  /** One layer's pot: `height` chips from every contributor. */
  function LayerPot<R>(es: seq<Entry<R>>, level: nat, height: nat): nat {
    if es == [] then 0 else (if es[0].bet >= level then height else 0) + LayerPot(es[1..], level, height)
  }

  lemma {:induction false} LayerPotIsProduct<R>(es: seq<Entry<R>>, level: nat, height: nat)
    ensures LayerPot(es, level, height) == height * Contributors(es, level)
  {
    if es != [] {
      LayerPotIsProduct(es[1..], level, height);
      var c := Contributors(es[1..], level);
      assert height * (1 + c) == height + height * c;
    }
  }

  predicate Eligible<R>(e: Entry<R>, level: nat) {
    !e.folded && e.bet >= level
  }

  /** The last maximum among the eligible entries before position n. */
  function WinnerBefore<R>(es: seq<Entry<R>>, n: nat, level: nat, cmp: (R, R) -> Ordering): (w: Option<nat>)
    requires n <= |es|
    ensures w.Some? ==> w.value < n && Eligible(es[w.value], level)
  {
    if n == 0 then None else
      var best := WinnerBefore(es, n - 1, level, cmp);
      if !Eligible(es[n - 1], level) then best
      else if best.Some? && cmp(es[best.value].rank, es[n - 1].rank) == Greater then best
      else Some(n - 1)
  }

  function WinnerAt<R>(es: seq<Entry<R>>, level: nat, cmp: (R, R) -> Ordering): (w: Option<nat>)
    ensures w.Some? ==> w.value < |es| && Eligible(es[w.value], level)
  {
    WinnerBefore(es, |es|, level, cmp)
  }

  function Zeros(n: nat): (z: seq<nat>)
    ensures |z| == n && forall i :: 0 <= i < n ==> z[i] == 0
  {
    seq(n, i => 0)
  }

  function Credited(credit: seq<nat>, w: nat, amount: nat): (credit': seq<nat>)
    requires w < |credit|
    ensures |credit'| == |credit|
  {
    credit[w := credit[w] + amount]
  }

  /** What each entry is credited while the remaining `levels` are swept. */
  function Sweep<R>(es: seq<Entry<R>>, levels: seq<nat>, previous: nat, cmp: (R, R) -> Ordering): (credit: seq<nat>)
    requires StrictlyAscending(levels)
    requires levels != [] ==> previous < levels[0]
    ensures |credit| == |es|
  {
    if levels == [] then Zeros(|es|) else
      var pot := LayerPot(es, levels[0], levels[0] - previous);
      var rest := Sweep(es, levels[1..], levels[0], cmp);
      match WinnerAt(es, levels[0], cmp)
      case None => rest
      case Some(w) => Credited(rest, w, pot)
  }

  /** What each entry is credited by the whole sweep. */
  function Swept<R>(es: seq<Entry<R>>, cmp: (R, R) -> Ordering): (credit: seq<nat>)
    ensures |credit| == |es|
  {
    var levels := Levels(es);
    assert levels != [] ==> levels[0] in levels;
    Sweep(es, levels, 0, cmp)
  }

  /** The whole pay-out: the sweep, then whatever is left to the best unfolded entry. */
  function Payouts<R>(es: seq<Entry<R>>, pot: nat, cmp: (R, R) -> Ordering): (credit: seq<nat>)
    ensures |credit| == |es|
  {
    var swept := Swept(es, cmp);
    var paid := Total(swept);
    if paid < pot then
      match WinnerAt(es, 0, cmp)
      case None => swept
      case Some(w) => Credited(swept, w, pot - paid)
    else swept
  }

  // ----- the simple form -----

  function Capped<R>(cap: nat): Entry<R> -> nat {
    (e: Entry<R>) => if e.bet <= cap then e.bet else cap
  }

  /** The sum over all entries j of min(x, bet_j). */
  function Reach<R>(es: seq<Entry<R>>, x: nat): nat {
    SumSeq(es, Capped<R>(x))
  }

  /** Entry `a` takes a layer from entry `b`: a better hand, or an equal one later in iteration order. */
  predicate Beats<R>(es: seq<Entry<R>>, a: nat, b: nat, cmp: (R, R) -> Ordering)
    requires a < |es| && b < |es|
  {
    !es[a].folded
    && (cmp(es[a].rank, es[b].rank) == Greater || (cmp(es[a].rank, es[b].rank) == Equal && a > b))
  }

  /** The largest stake among the first n entries that beat entry i. */
  function CoverBefore<R>(es: seq<Entry<R>>, n: nat, i: nat, cmp: (R, R) -> Ordering): (c: nat)
    requires n <= |es| && i < |es|
    ensures forall j :: 0 <= j < n && Beats(es, j, i, cmp) ==> es[j].bet <= c
    ensures c == 0 || exists j :: 0 <= j < n && Beats(es, j, i, cmp) && es[j].bet == c
  {
    if n == 0 then 0 else
      var c := CoverBefore(es, n - 1, i, cmp);
      if Beats(es, n - 1, i, cmp) && es[n - 1].bet > c then es[n - 1].bet else c
  }

  function Cover<R>(es: seq<Entry<R>>, i: nat, cmp: (R, R) -> Ordering): (c: nat)
    requires i < |es|
  {
    CoverBefore(es, |es|, i, cmp)
  }

  /** What entry i is due above the level `floor`. */
  function ShareAbove<R>(es: seq<Entry<R>>, i: nat, floor: nat, cmp: (R, R) -> Ordering): int
    requires i < |es|
  {
    var base := if Cover(es, i, cmp) > floor then Cover(es, i, cmp) else floor;
    if es[i].folded || es[i].bet <= base then 0 else Reach(es, es[i].bet) - Reach(es, base)
  }

  /** Entry i's due: from every seat j, the part of bet_j between the best hand that covers i and i's own stake. */
  function Share<R>(es: seq<Entry<R>>, i: nat, cmp: (R, R) -> Ordering): int
    requires i < |es|
  {
    ShareAbove(es, i, 0, cmp)
  }

  // ----- why the two agree -----

  lemma {:induction false} LayerIsReach<R>(es: seq<Entry<R>>, low: nat, high: nat)
    requires low <= high
    requires forall i :: 0 <= i < |es| ==> es[i].bet <= low || es[i].bet >= high
    ensures Reach(es, high) - Reach(es, low) == LayerPot(es, high, high - low)
  {
    if es != [] {
      LayerIsReach(es[1..], low, high);
    }
  }

  lemma {:induction false} WinnerBeforeMeaning<R(!new)>(es: seq<Entry<R>>, n: nat, level: nat, cmp: (R, R) -> Ordering)
    requires TotalPreorder(cmp) && n <= |es|
    ensures var w := WinnerBefore(es, n, level, cmp);
      if w.None? then forall j :: 0 <= j < n ==> !Eligible(es[j], level)
      else forall j :: 0 <= j < n && j != w.value && Eligible(es[j], level) ==> Beats(es, w.value, j, cmp)
  {
    if n > 0 {
      WinnerBeforeMeaning(es, n - 1, level, cmp);
    }
  }

  /** Of two different entries that have not folded exactly one beats the other. */
  lemma BeatsIsStrict<R(!new)>(es: seq<Entry<R>>, a: nat, b: nat, cmp: (R, R) -> Ordering)
    requires TotalPreorder(cmp) && a < |es| && b < |es| && a != b
    requires !es[a].folded && !es[b].folded
    ensures Beats(es, a, b, cmp) <==> !Beats(es, b, a, cmp)
  {
    assert cmp(es[b].rank, es[a].rank) == cmp(es[a].rank, es[b].rank).Flip();
  }

  /** An entry wins a layer exactly when it reaches it and no better hand does. */
  lemma WinnerIff<R(!new)>(es: seq<Entry<R>>, level: nat, i: nat, cmp: (R, R) -> Ordering)
    requires TotalPreorder(cmp) && i < |es| && level > 0
    ensures WinnerAt(es, level, cmp) == Some(i) <==> Eligible(es[i], level) && Cover(es, i, cmp) < level
  {
    WinnerBeforeMeaning(es, |es|, level, cmp);
    var w := WinnerAt(es, level, cmp);
    if w == Some(i) {
      if Cover(es, i, cmp) >= level {
        var j :| 0 <= j < |es| && Beats(es, j, i, cmp) && es[j].bet == Cover(es, i, cmp);
        assert j == i || Beats(es, i, j, cmp);
        if j != i { BeatsIsStrict(es, i, j, cmp); }
        assert false;
      }
    }
  }

  /** The part of a list of levels still to be swept above `previous`. */
  ghost predicate LevelsAbove<R>(es: seq<Entry<R>>, levels: seq<nat>, previous: nat) {
    && StrictlyAscending(levels)
    && (levels != [] ==> previous < levels[0])
    && (forall k :: 0 <= k < |levels| ==> exists i :: 0 <= i < |es| && es[i].bet == levels[k])
    && (forall i :: 0 <= i < |es| ==> es[i].bet <= previous || es[i].bet in levels)
  }

  lemma LevelsAboveTail<R>(es: seq<Entry<R>>, levels: seq<nat>, previous: nat)
    requires LevelsAbove(es, levels, previous) && levels != []
    ensures LevelsAbove(es, levels[1..], levels[0])
    ensures forall i :: 0 <= i < |es| ==> es[i].bet <= previous || es[i].bet >= levels[0]
  {
    assert levels == [levels[0]] + levels[1..];
    forall k | 0 <= k < |levels[1..]| ensures exists i :: 0 <= i < |es| && es[i].bet == levels[1..][k] {
      assert levels[1..][k] == levels[k + 1];
    }
    forall i | 0 <= i < |es| ensures es[i].bet <= previous || es[i].bet >= levels[0] {
      if es[i].bet in levels {
        var k :| 0 <= k < |levels| && levels[k] == es[i].bet;
      }
    }
  }

  /** A layer goes, whole, to the entry whose due starts there; every other due is unmoved. */
  lemma ShareStep<R(!new)>(es: seq<Entry<R>>, i: nat, low: nat, high: nat, cmp: (R, R) -> Ordering)
    requires TotalPreorder(cmp) && i < |es| && low < high
    requires forall j :: 0 <= j < |es| ==> es[j].bet <= low || es[j].bet >= high
    ensures ShareAbove(es, i, low, cmp) ==
      ShareAbove(es, i, high, cmp) + (if WinnerAt(es, high, cmp) == Some(i) then LayerPot(es, high, high - low) else 0)
  {
    WinnerIff(es, high, i, cmp);
    LayerIsReach(es, low, high);
    var c := Cover(es, i, cmp);
    assert c <= low || c >= high;
  }

  lemma NothingAbove<R(!new)>(es: seq<Entry<R>>, levels: seq<nat>, previous: nat, i: nat, cmp: (R, R) -> Ordering)
    requires i < |es| && LevelsAbove(es, levels, previous)
    ensures StrictlyAscending(levels) && (levels != [] ==> previous < levels[0])
    ensures levels == [] ==> ShareAbove(es, i, previous, cmp) == 0
  {
  }

  lemma {:induction false} SweepIsShareAbove<R(!new)>(es: seq<Entry<R>>, levels: seq<nat>, previous: nat, i: nat,
                                                      cmp: (R, R) -> Ordering)
    requires TotalPreorder(cmp) && i < |es| && LevelsAbove(es, levels, previous)
    ensures Sweep(es, levels, previous, cmp)[i] == ShareAbove(es, i, previous, cmp)
  {
    hide ShareAbove, LayerPot, WinnerAt, LevelsAbove;
    NothingAbove(es, levels, previous, i, cmp);
    if levels != [] {
      LevelsAboveTail(es, levels, previous);
      SweepIsShareAbove(es, levels[1..], levels[0], i, cmp);
      ShareStep(es, i, previous, levels[0], cmp);
    }
  }

  lemma AllLevels<R>(es: seq<Entry<R>>)
    ensures LevelsAbove(es, Levels(es), 0)
  {
    var ls := Levels(es);
    forall k | 0 <= k < |ls| ensures exists i :: 0 <= i < |es| && es[i].bet == ls[k] {
      assert ls[k] in ls;
    }
    assert ls != [] ==> ls[0] in ls;
  }

  /** Side-pot exactness: the sweep credits every entry with precisely its share. */
  lemma SweepIsShare<R(!new)>(es: seq<Entry<R>>, i: nat, cmp: (R, R) -> Ordering)
    requires TotalPreorder(cmp) && i < |es|
    ensures Swept(es, cmp)[i] == Share(es, i, cmp)
  {
    AllLevels(es);
    SweepIsShareAbove(es, Levels(es), 0, i, cmp);
  }

  lemma {:induction false} ReachZero<R>(es: seq<Entry<R>>)
    ensures Reach(es, 0) == 0
  {
    if es != [] { ReachZero(es[1..]); }
  }

  lemma {:induction false} ReachMonotonic<R>(es: seq<Entry<R>>, x: nat, y: nat)
    requires x <= y
    ensures Reach(es, x) <= Reach(es, y)
  {
    if es != [] { ReachMonotonic(es[1..], x, y); }
  }

  lemma {:induction false} ReachBelowStakes<R>(es: seq<Entry<R>>, x: nat)
    ensures Reach(es, x) <= SumSeq(es, BetOf<R>)
    ensures (forall i :: 0 <= i < |es| ==> es[i].bet <= x) ==> Reach(es, x) == SumSeq(es, BetOf<R>)
  {
    if es != [] {
      ReachBelowStakes(es[1..], x);
    }
  }

  /**
   The best hand at the table takes min(own stake, bet_j) from every seat j, and
   nobody takes more than that for their own stake.
   */
  lemma BestHandTakesItsReach<R(!new)>(es: seq<Entry<R>>, i: nat, cmp: (R, R) -> Ordering)
    requires TotalPreorder(cmp) && i < |es|
    ensures 0 <= Swept(es, cmp)[i] <= Reach(es, es[i].bet)
    ensures !es[i].folded && (forall j :: 0 <= j < |es| && j != i ==> !Beats(es, j, i, cmp)) ==>
      Swept(es, cmp)[i] == Reach(es, es[i].bet)
  {
    SweepIsShare(es, i, cmp);
    ReachZero(es);
    ReachMonotonic(es, Cover(es, i, cmp), es[i].bet + Cover(es, i, cmp));
    assert cmp(es[i].rank, es[i].rank) == Equal;
  }

  // ----- conservation -----

  lemma {:induction false} SumSeqUpdate(s: seq<nat>, w: nat, v: nat)
    requires w < |s|
    ensures Total(s[w := v]) == Total(s) - s[w] + v
  {
    if w == 0 {
      assert s[w := v][1..] == s[1..];
    } else {
      assert s[w := v][1..] == s[1..][w - 1 := v];
      SumSeqUpdate(s[1..], w - 1, v);
    }
  }

  lemma SumCredited(credit: seq<nat>, w: nat, amount: nat)
    requires w < |credit|
    ensures Total(Credited(credit, w, amount)) == Total(credit) + amount
  {
    hide Total;
    SumSeqUpdate(credit, w, credit[w] + amount);
  }

  lemma {:induction false} SumZeros(n: nat)
    ensures Total(Zeros(n)) == 0
  {
    if n > 0 {
      assert Zeros(n)[1..] == Zeros(n - 1);
      SumZeros(n - 1);
    }
  }

  function HighestLive<R>(es: seq<Entry<R>>): (h: nat)
    ensures forall i :: 0 <= i < |es| && !es[i].folded ==> es[i].bet <= h
    ensures h == 0 || exists i :: 0 <= i < |es| && !es[i].folded && es[i].bet == h
  {
    if es == [] then 0 else
      var h := HighestLive(es[1..]);
      assert forall i :: 1 <= i < |es| ==> es[i] == es[1..][i - 1];
      assert h == 0 || exists i :: 0 <= i < |es[1..]| && !es[1..][i].folded && es[1..][i].bet == h;
      assert h == 0 || exists i :: 0 <= i < |es| && !es[i].folded && es[i].bet == h by {
        if h != 0 {
          var i :| 0 <= i < |es[1..]| && !es[1..][i].folded && es[1..][i].bet == h;
          assert es[i + 1] == es[1..][i];
        }
      }
      if !es[0].folded && es[0].bet > h then es[0].bet else h
  }

  lemma {:induction false} WinnerBeforeExists<R>(es: seq<Entry<R>>, n: nat, level: nat, cmp: (R, R) -> Ordering)
    requires n <= |es|
    ensures WinnerBefore(es, n, level, cmp).Some? <==> exists j :: 0 <= j < n && Eligible(es[j], level)
  {
    if n > 0 {
      WinnerBeforeExists(es, n - 1, level, cmp);
    }
  }

  /** A layer has a taker exactly when it does not lie above every stake still in the hand. */
  lemma WinnerIffLive<R>(es: seq<Entry<R>>, level: nat, cmp: (R, R) -> Ordering)
    requires level > 0
    ensures WinnerAt(es, level, cmp).Some? <==> HighestLive(es) >= level
  {
    WinnerBeforeExists(es, |es|, level, cmp);
    if HighestLive(es) >= level {
      var i :| 0 <= i < |es| && !es[i].folded && es[i].bet == HighestLive(es);
      assert Eligible(es[i], level);
    }
  }

  /** One layer adds its whole pot to the credit, or nothing when no unfolded hand reaches it. */
  lemma SweepStep<R>(es: seq<Entry<R>>, levels: seq<nat>, previous: nat, cmp: (R, R) -> Ordering)
    requires StrictlyAscending(levels) && levels != [] && previous < levels[0]
    ensures Total(Sweep(es, levels, previous, cmp)) == Total(Sweep(es, levels[1..], levels[0], cmp))
      + (if WinnerAt(es, levels[0], cmp).Some? then LayerPot(es, levels[0], levels[0] - previous) else 0)
  {
    var rest := Sweep(es, levels[1..], levels[0], cmp);
    match WinnerAt(es, levels[0], cmp)
    case None =>
    case Some(w) => SumCredited(rest, w, LayerPot(es, levels[0], levels[0] - previous));
  }

  lemma HighestLiveBetween<R>(es: seq<Entry<R>>, low: nat, high: nat)
    requires forall i :: 0 <= i < |es| ==> es[i].bet <= low || es[i].bet >= high
    ensures HighestLive(es) <= low || HighestLive(es) >= high
  {
  }

  /** The sweep pays out the layers up to the highest stake still in the hand, and nothing else. */
  lemma {:induction false} SweepTotal<R>(es: seq<Entry<R>>, levels: seq<nat>, previous: nat, cmp: (R, R) -> Ordering)
    requires LevelsAbove(es, levels, previous)
    ensures var h := HighestLive(es);
      Total(Sweep(es, levels, previous, cmp)) == (if h <= previous then 0 else Reach(es, h) - Reach(es, previous))
  {
    if levels == [] {
      SumZeros(|es|);
    } else {
      LevelsAboveTail(es, levels, previous);
      SweepTotal(es, levels[1..], levels[0], cmp);
      LayerIsReach(es, previous, levels[0]);
      WinnerIffLive(es, levels[0], cmp);
      SweepStep(es, levels, previous, cmp);
      HighestLiveBetween(es, previous, levels[0]);
    }
  }

  /** Layer-cake identity: with nobody folded at the top the layers are exactly the seated stakes. */
  lemma SweepPaid<R>(es: seq<Entry<R>>, cmp: (R, R) -> Ordering)
    ensures Total(Swept(es, cmp)) == Reach(es, HighestLive(es))
    ensures Total(Swept(es, cmp)) <= SumSeq(es, BetOf<R>)
    ensures (forall i :: 0 <= i < |es| ==> es[i].bet <= HighestLive(es)) ==>
      Total(Swept(es, cmp)) == SumSeq(es, BetOf<R>)
  {
    AllLevels(es);
    SweepTotal(es, Levels(es), 0, cmp);
    ReachZero(es);
    ReachBelowStakes(es, HighestLive(es));
  }

  /** The pots of all layers, whether somebody takes them or not. */
  function LayerPots<R>(es: seq<Entry<R>>, levels: seq<nat>, previous: nat): nat
    requires StrictlyAscending(levels)
    requires levels != [] ==> previous < levels[0]
  {
    if levels == [] then 0 else LayerPot(es, levels[0], levels[0] - previous) + LayerPots(es, levels[1..], levels[0])
  }

  lemma {:induction false} LayerPotsAbove<R>(es: seq<Entry<R>>, levels: seq<nat>, previous: nat)
    requires LevelsAbove(es, levels, previous)
    ensures LayerPots(es, levels, previous) + Reach(es, previous) == SumSeq(es, BetOf<R>)
  {
    if levels == [] {
      ReachBelowStakes(es, previous);
    } else {
      LevelsAboveTail(es, levels, previous);
      LayerIsReach(es, previous, levels[0]);
      LayerPotsAbove(es, levels[1..], levels[0]);
    }
  }

  /** The layers, stacked, are exactly the seated stakes. */
  lemma LayerCake<R>(es: seq<Entry<R>>)
    ensures LevelsAbove(es, Levels(es), 0) && LayerPots(es, Levels(es), 0) == SumSeq(es, BetOf<R>)
  {
    AllLevels(es);
    LayerPotsAbove(es, Levels(es), 0);
    ReachZero(es);
  }

  lemma SomebodyLeads<R>(es: seq<Entry<R>>, i: nat, cmp: (R, R) -> Ordering)
    requires i < |es| && !es[i].folded
    ensures WinnerAt(es, 0, cmp).Some?
  {
    WinnerBeforeExists(es, |es|, 0, cmp);
    assert Eligible(es[i], 0);
  }

  lemma PayoutsReachPot<R>(es: seq<Entry<R>>, pot: nat, cmp: (R, R) -> Ordering)
    requires Total(Swept(es, cmp)) <= pot
    requires WinnerAt(es, 0, cmp).Some?
    ensures Total(Payouts(es, pot, cmp)) == pot
  {
    var swept := Swept(es, cmp);
    if Total(swept) < pot {
      SumCredited(swept, WinnerAt(es, 0, cmp).value, pot - Total(swept));
    }
  }

  /** The total credited is the pot, whenever the pot holds the seated stakes and somebody has not folded. */
  lemma PayoutsConserve<R>(es: seq<Entry<R>>, pot: nat, i: nat, cmp: (R, R) -> Ordering)
    requires SumSeq(es, BetOf<R>) <= pot
    requires i < |es| && !es[i].folded
    ensures Total(Payouts(es, pot, cmp)) == pot
  {
    SweepPaid(es, cmp);
    SomebodyLeads(es, i, cmp);
    PayoutsReachPot(es, pot, cmp);
  }
}
