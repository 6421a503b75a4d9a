/** What holds in every state a table can reach, from the empty table on. */
module Runs {
  import opened Sums
  import opened Games
  import opened Protocol
  import opened Driver
  import opened Conservation
  import opened Betting
  import opened Dealing
  import opened Endings
  import opened Limits
  import opened MapOrder
  import opened Outsiders
  import opened Turns
  import Cards

  /**
   Rings and markers in order, the pot funded, the betting level, everybody holding the right number of cards, no
   card in play twice, and newcomers without cards or stake.
   */
  ghost predicate Sound(s: State) {
    WellFormed(s) && Funded(s) && Level(s) && Portions(s) && SingleCopies(s) && BareOutsiders(s)
  }

  lemma EmptySound(kind: Kind)
    ensures Sound(EmptyTable(kind)) && Chips(EmptyTable(kind)) == 0
  {
    SumZero(EmptyTable(kind).seats, StakeOf);
    SumZero(EmptyTable(kind).seats, WalletOf);
  }

  lemma SoundStep(s: State, c: Command)
    requires Sound(s) && Legal(s, c)
    ensures Sound(Step(s, c).state)
  {
    hide Step, Level, Portions, Funded, Chips, Flow, Legal, SingleCopies, BareOutsiders;
    StepWellFormed(s, c);
    StepChips(s, c);
    StepLevel(s, c);
    StepPortions(s, c);
    StepSingle(s, c);
    StepOutsiders(s, c);
  }

  lemma {:induction false} RunSound(s: State, run: seq<Command>)
    requires Sound(s) && LegalRun(s, run)
    ensures Sound(Run(s, run))
    decreases |run|
  {
    hide Step, Level, Portions, Funded, Chips, Flow, Legal, SingleCopies, BareOutsiders;
    if run != [] {
      SoundStep(s, run[0]);
      RunSound(Step(s, run[0]).state, run[1..]);
    }
  }

  /** Every reachable table is sound, and holds exactly the chips its players brought and did not take away. */
  lemma EveryRun(kind: Kind, run: seq<Command>)
    requires WellFormed(EmptyTable(kind)) && LegalRun(EmptyTable(kind), run)
    ensures var t := Run(EmptyTable(kind), run); Sound(t) && Chips(t) == TotalFlow(EmptyTable(kind), run)
  {
    hide Run, Chips, Portions, Level, Funded, TotalFlow, SingleCopies, BareOutsiders;
    EmptySound(kind);
    RunSound(EmptyTable(kind), run);
    RunChips(EmptyTable(kind), run);
  }

  /** In every hand that can be reached no face shows twice, neither in one hand nor across two. */
  lemma ReachableCardsDiffer(kind: Kind, run: seq<Command>, a: nat, b: nat, i: nat, j: nat)
    requires WellFormed(EmptyTable(kind)) && LegalRun(EmptyTable(kind), run)
    ensures var t := Run(EmptyTable(kind), run);
      && t.active != [] && a in t.seats && b in t.seats && (a != b || i != j)
      && i < |t.seats[a].hand| && j < |t.seats[b].hand|
      ==> Cards.Face(t.seats[a].hand[i]) != Cards.Face(t.seats[b].hand[j])
  {
    hide Run, Chips, Portions, Level, Funded, SingleCopies, BareOutsiders;
    EveryRun(kind, run);
    var t := Run(EmptyTable(kind), run);
    if t.active == [] || a !in t.seats || b !in t.seats || i >= |t.seats[a].hand| || j >= |t.seats[b].hand| { return; }
    if a != b {
      HandsDisjoint(t, a, b, i, j);
    } else if i < j {
      HandsDistinct(t, a, i, j);
    } else if j < i {
      HandsDistinct(t, a, j, i);
    }
  }

  /**
   The result of a command that meets a reachable running hand depends on the order of the player map exactly when the
   command leads to a showdown at which two players without a card tie.
   */
  lemma ReachableOrderIff(kind: Kind, run: seq<Command>, id: nat, action: Action, order: seq<nat>, order': seq<nat>)
    requires WellFormed(EmptyTable(kind)) && LegalRun(EmptyTable(kind), run)
    requires var t := Run(EmptyTable(kind), run);
      t.active != [] && Enumerates(order, t.seats.Keys) && Enumerates(order', t.seats.Keys - {id})
    ensures var t := Run(EmptyTable(kind), run); var c := Act(id, action, order, order');
      (forall other :: Enumerates(other, t.seats.Keys) ==>
         RunAction(t, id, action, other, order') == RunAction(t, id, action, order, order'))
      <==> (ShownDown(t, c).Some? ==> !BareTie(ShownDown(t, c).value))
  {
    hide Run, RunAction, ShownDown, BareTie, Portions, Level, Funded, Chips, Enumerates, SingleCopies, BareOutsiders;
    EveryRun(kind, run);
    var t := Run(EmptyTable(kind), run);
    CommandOrderIff(t, id, action, order, order');
    ShownDownSingle(t, Act(id, action, order, order'));
    if ShownDown(t, Act(id, action, order, order')).Some? {
      RunningContestedIff(ShownDown(t, Act(id, action, order, order')).value);
    }
  }

  /** In Stud, and in Hold'em with at most one newcomer, it never does. */
  lemma ReachableForgetsOrder(kind: Kind, run: seq<Command>, id: nat, action: Action,
                              order: seq<nat>, other: seq<nat>, order': seq<nat>)
    requires WellFormed(EmptyTable(kind)) && LegalRun(EmptyTable(kind), run)
    requires var t := Run(EmptyTable(kind), run);
      && Enumerates(order, t.seats.Keys) && Enumerates(other, t.seats.Keys) && Enumerates(order', t.seats.Keys - {id})
    ensures var t := Run(EmptyTable(kind), run);
      && t.active != [] && t.game.kind != FiveCardDraw
      && (t.game.kind == TexasHoldem ==> !TwoOutside(t))
      ==> RunAction(t, id, action, order, order') == RunAction(t, id, action, other, order')
  {
    hide Run, RunAction, ShownDown, BareTie, Portions, Level, Funded, Chips, TwoOutside, Enumerates, SingleCopies;
    hide BareOutsiders;
    EveryRun(kind, run);
    var t := Run(EmptyTable(kind), run);
    if t.active == [] || t.game.kind == FiveCardDraw || (t.game.kind == TexasHoldem && TwoOutside(t)) { return; }
    FullHandsDoNotTie(t, Act(id, action, order, order'));
    ReachableOrderIff(kind, run, id, action, order, order');
  }

  /** Every raise of the run reaches the table bet it meets. */
  ghost predicate FullRaises(s: State, run: seq<Command>)
    requires WellFormed(s) && LegalRun(s, run)
    decreases |run|
  {
    run == [] || (FullRaise(s, run[0]) && (StepWellFormed(s, run[0]); FullRaises(Step(s, run[0]).state, run[1..])))
  }

  /** Then the table bet bounds every stake throughout, and no command is ever refused for falling below zero. */
  lemma {:induction false} FullRaisesCapped(s: State, run: seq<Command>, c: Command)
    requires WellFormed(s) && Funded(s) && CappedInHand(s) && LegalRun(s, run)
    ensures FullRaises(s, run) ==>
      && CappedInHand(Run(s, run))
      && (Legal(Run(s, run), c) && FullRaise(Run(s, run), c) ==> Step(Run(s, run), c).outcome != Rejected(Underflow))
    decreases |run|
  {
    hide Step, CappedInHand, Funded, Chips, Flow, Legal, FullRaise;
    if run == [] {
      if Legal(s, c) && FullRaise(s, c) { StepCapped(s, c); }
    } else if FullRaise(s, run[0]) {
      StepWellFormed(s, run[0]);
      StepChips(s, run[0]);
      StepCapped(s, run[0]);
      FullRaisesCapped(Step(s, run[0]).state, run[1..], c);
    }
  }

  // ----- turns over a run -----

  lemma {:induction false} RunInTurn(s: State, r: Rota, run: seq<Command>)
    requires Sound(s) && InTurn(s, r) && LegalRun(s, run)
    ensures InTurn(Run(s, run), RotaOver(s, r, run))
    decreases |run|
  {
    hide Step, Follow, InTurn, Level, Portions, Funded, Chips, Flow, Legal, SingleCopies, BareOutsiders;
    if run != [] {
      StepWellFormed(s, run[0]);
      StepInTurn(s, r, run[0]);
      SoundStep(s, run[0]);
      RunInTurn(Step(s, run[0]).state, Follow(s, r, run[0]), run[1..]);
    }
  }

  /**
   On every reachable table: when a round closes, some player who can bet has had no turn in it exactly when the player
   to whom the turn would pass has had none, and only if the table bet is still the one the round opened with.
   */
  lemma ReachablePassedOverIff(kind: Kind, run: seq<Command>, c: Command)
    requires WellFormed(EmptyTable(kind)) && LegalRun(EmptyTable(kind), run)
    requires var t := Run(EmptyTable(kind), run); Legal(t, c) && Advances(t, c)
    ensures var t := Run(EmptyTable(kind), run); var r := RotaOver(EmptyTable(kind), NO_ROUND, run);
      var p := Advancing(t, c);
      && Coherent(t) && Coherent(p)
      && (Closes(p) ==>
            && NextUp(t).Some?
            && (Waiting(p, ActedBy(t, r, c)) <==> NextUp(t).value !in r.acted)
            && (Waiting(p, ActedBy(t, r, c)) ==> p.bet == r.level))
  {
    hide Run, RotaOver, Advances, Advancing, ActedBy, Closes, Waiting, NextUp, InTurn, Coherent;
    hide Level, Portions, Funded, Chips, SingleCopies, BareOutsiders;
    EveryRun(kind, run);
    EmptySound(kind);
    NoHandInTurn(EmptyTable(kind), NO_ROUND);
    RunInTurn(EmptyTable(kind), NO_ROUND, run);
    var t, r := Run(EmptyTable(kind), run), RotaOver(EmptyTable(kind), NO_ROUND, run);
    PassedOverIff(t, r, c);
    RaisedPassesNobody(t, r, c);
  }
}
