/** The table bet against the seated stakes, and the 64-bit range of every amount. */
module Limits {
  import opened Options
  import opened Sums
  import opened Cards
  import opened Games
  import opened SidePots
  import opened Protocol
  import opened Rings
  import opened Driver
  import opened Conservation
  import Betting
  import HandRanks
  import Evaluation

  /** No seated stake exceeds the table bet. */
  ghost predicate Capped(s: State) {
    forall id :: id in s.seats ==> s.seats[id].bet <= s.bet
  }

  /** Some seated stake equals the table bet. */
  ghost predicate Reached(s: State) {
    s.bet == 0 || exists id :: id in s.seats && s.seats[id].bet == s.bet
  }

  /** The raise brings its player's stake at least to the table bet. */
  predicate ReachesBet(s: State, id: nat, amount: nat) {
    id in s.seats ==> s.seats[id].bet + amount >= s.bet
  }

  /**
   An accepted raise keeps the table bet at the maximum of the stakes exactly when it reaches every other
   stake; for a table bet held by somebody else that is the same as reaching the table bet.
   */
  lemma RaiseCappedIff(s: State, id: nat, amount: nat)
    requires Capped(s) && Raise(s, id, amount).outcome == Accepted
    ensures Capped(Raise(s, id, amount).state) <==>
      forall x :: x in s.seats && x != id ==> s.seats[x].bet <= s.seats[id].bet + amount
    ensures ReachesBet(s, id, amount) ==> Capped(Raise(s, id, amount).state)
    ensures (exists x :: x in s.seats && x != id && s.seats[x].bet == s.bet) ==>
      (Capped(Raise(s, id, amount).state) <==> ReachesBet(s, id, amount))
    ensures Reached(Raise(s, id, amount).state)
  {
    var t := Raise(s, id, amount).state;
    assert t.seats[id].bet == t.bet;
    assert forall x :: x in s.seats && x != id ==> t.seats[x] == s.seats[x];
  }

  /** A check falls below zero exactly for a player whose stake is above the table bet. */
  lemma CheckUnderflowIff(s: State, id: nat)
    requires id in s.seats
    ensures Check(s, id) == Reject(s, Underflow) <==> s.seats[id].bet > s.bet
    ensures Capped(s) ==> Check(s, id).outcome != Rejected(Underflow)
  {
  }

  const U64: nat := 0x1_0000_0000_0000_0000

  /**
   In a build whose subtraction wraps instead of panicking, the wrapped difference is more than any wallet can
   hold, so the check is refused as unaffordable and no chip moves either way.
   */
  lemma WrappedCheckIsUnpayable(s: State, id: nat)
    requires id in s.seats && s.seats[id].bet > s.bet
    requires Funded(s) && Chips(s) < U64
    ensures s.seats[id].wallet < (s.bet - s.seats[id].bet + U64) % U64
  {
    SumAtLeast(s.seats, id, WalletOf);
    SumAtLeast(s.seats, id, StakeOf);
  }

  // ----- the cap through every step -----

  ghost predicate CappedInHand(s: State) { s.active != [] ==> Capped(s) }

  lemma CappedSame(s: State, t: State)
    requires Capped(s) && t.bet == s.bet
    requires forall id :: id in t.seats ==> id in s.seats && t.seats[id].bet == s.seats[id].bet
    ensures Capped(t)
  {
  }

  lemma AdvanceCapped(s: State, order: seq<nat>)
    requires WellFormed(s) && CappedInHand(s) && Enumerates(order, s.seats.Keys)
    ensures CappedInHand(AdvanceTurn(s, order))
  {
    hide RoundAction, FinishRounds;
    if s.active != [] {
      var k := NextBetting(s, 1);
      if k == |s.active| {
        FinishSeated(s, order, 20);
      } else {
        NextTurnSeated(s, k);
        var next := s.(active := Rotate(s.active, k), turn := Some(s.active[k]), game := NextRound(s.game));
        RoundFrame(next, order);
        RoundSeated(next, order);
      }
    }
  }

  lemma FoldCapped(s: State, id: nat, order: seq<nat>)
    requires WellFormed(s) && CappedInHand(s) && Enumerates(order, s.seats.Keys)
    ensures CappedInHand(Fold(s, id, order).state)
  {
    hide EndGame;
    if id in s.active {
      FoldSeated(s, id, order);
    }
  }

  /** What keeps the cap: every accepted raise of the step reaches the table bet. */
  ghost predicate FullRaise(s: State, c: Command) {
    c.Act? && c.action.RaiseAction? && c.action.amount.Some? ==> ReachesBet(s, c.id, c.action.amount.value)
  }

  lemma PlayCapped(s: State, id: nat, action: Action, order: seq<nat>)
    requires WellFormed(s) && CappedInHand(s) && s.turn == Some(id) && Enumerates(order, s.seats.Keys)
    requires action.RaiseAction? && action.amount.Some? ==> ReachesBet(s, id, action.amount.value)
    ensures CappedInHand(Play(s, id, action, order).state)
  {
    hide Fold, ReplaceCards;
    if DrawRound(s.game) {
      ReplaceCapped(s, id, action);
    } else if action.FoldAction? {
      FoldCapped(s, id, order);
    }
  }

  lemma ReplaceCapped(s: State, id: nat, action: Action)
    requires CappedInHand(s)
    ensures CappedInHand(Replace(s, id, action).state)
  {
    if id in s.seats && action.ReplaceAction? && action.cards.Some? {
      ReplaceFrame(s.game, s.seats[id], action.cards.value);
    }
  }

  lemma RemoveCapped(s: State, id: nat, order: seq<nat>, order': seq<nat>)
    requires WellFormed(s) && CappedInHand(s) && id in s.seats
    requires Enumerates(order, s.seats.Keys) && Enumerates(order', s.seats.Keys - {id})
    ensures CappedInHand(RemovePlayer(s, id, order, order').state)
  {
    hide Fold, RemovePlayer;
    FoldCapped(s, id, order);
    Betting.RemoveFields(s, id, order, order');
  }

  lemma {:induction false} CheckEachCapped(s: State, ids: seq<nat>)
    requires Capped(s)
    ensures Capped(CheckEach(s, ids))
    decreases |ids|
  {
    if ids != [] { CheckEachCapped(Check(s, ids[0]).state, ids[1..]); }
  }

  lemma StartCapped(s: State, order: seq<nat>, deck: seq<Card>)
    requires WellFormed(s) && Funded(s) && s.active == [] && |s.seats| >= 2 && Enumerates(order, s.seats.Keys)
    ensures Capped(StartGame(s, order, deck))
  {
    hide OpenRound, DealtIn, CheckEach;
    var d := DealtIn(s, order, deck);
    DealtInSeating(s, order, deck);
    forall id | id in d.seats ensures d.seats[id].bet == 0 {
      SumAtLeast(s.seats, id, StakeOf);
    }
    var v := Raise(d, d.active[0], BLIND).state;
    assert Capped(v);
    CheckEachCapped(v, d.active);
    var u := Posted(d);
    assert Capped(u);
    OpenRoundFrame(u.game, u.seats, u.active);
    CappedSame(u, StartGame(s, order, deck));
  }

  /**
   While a hand runs and every raise reaches the table bet, the table bet bounds every stake, so no check of
   the run ever falls below zero.
   */
  lemma StepCapped(s: State, c: Command)
    requires WellFormed(s) && Funded(s) && CappedInHand(s) && Legal(s, c) && FullRaise(s, c)
    ensures CappedInHand(Step(s, c).state)
    ensures Step(s, c).outcome != Rejected(Underflow)
  {
    hide RemovePlayer, AdvanceTurn, StartGame, AddPlayer;
    match c
    case Join(id, wallet, folded) => AddCapped(s, id, wallet, folded);
    case Act(id, action, order, order') => ActCapped(s, id, action, order, order');
    case Start(order, deck) => if |s.seats| >= 2 && s.turn.None? { StartCapped(s, order, deck); }
    case Expire(order, order') =>
      var id := s.turn.value;
      assert s.active[0] == id;
      RemoveCapped(s, id, order, order');
      LeaveWellFormed(s, id, order, order');
      var t := RemovePlayer(s, id, order, order').state;
      RemoveSeated(s, id, order, order');
      if t.turn.Some? { AdvanceCapped(t, order'); }
  }

  lemma AddCapped(s: State, id: nat, wallet: nat, folded: bool)
    requires WellFormed(s) && CappedInHand(s)
    ensures CappedInHand(AddPlayer(s, id, wallet, folded).state)
    ensures AddPlayer(s, id, wallet, folded).outcome != Rejected(Underflow)
  {
  }

  lemma ActCapped(s: State, id: nat, action: Action, order: seq<nat>, order': seq<nat>)
    requires WellFormed(s) && Funded(s) && CappedInHand(s)
    requires Enumerates(order, s.seats.Keys) && Enumerates(order', s.seats.Keys - {id})
    requires action.RaiseAction? && action.amount.Some? ==> ReachesBet(s, id, action.amount.value)
    ensures var r := RunAction(s, id, action, order, order'); CappedInHand(r.state) && r.outcome != Rejected(Underflow)
  {
    hide AdvanceTurn, Play, RemovePlayer;
    if action.Leave? {
      if id in s.seats { RemoveCapped(s, id, order, order'); }
      RemoveOutcome(s, id, order, order');
    } else if !action.Update? && !action.KeepPlayingAction? && s.turn == Some(id) {
      PlayCapped(s, id, action, order);
      PlayOutcome(s, id, action, order);
      PlayWellFormed(s, id, action, order);
      AdvanceCapped(Play(s, id, action, order).state, order);
    }
  }

  lemma RemoveOutcome(s: State, id: nat, order: seq<nat>, order': seq<nat>)
    requires Enumerates(order, s.seats.Keys) && Enumerates(order', s.seats.Keys - {id})
    ensures RemovePlayer(s, id, order, order').outcome != Rejected(Underflow)
    ensures id !in s.seats ==> RemovePlayer(s, id, order, order').state == s
  {
  }

  lemma PlayOutcome(s: State, id: nat, action: Action, order: seq<nat>)
    requires WellFormed(s) && CappedInHand(s) && s.turn == Some(id) && Enumerates(order, s.seats.Keys)
    ensures Play(s, id, action, order).outcome != Rejected(Underflow)
  {
    hide EndGame;
    if DrawRound(s.game) && id in s.seats && action.ReplaceAction? && action.cards.Some? {
      ReplaceRefusals(s.game, s.seats[id], action.cards.value);
    }
  }

  lemma ReplaceRefusals(g: Game, p: Seat, discard: seq<Card>)
    ensures ReplaceCards(g, p, discard) != Refused(Underflow)
  {
  }

  // ----- the table bet is somebody's stake -----

  ghost predicate ReachedInHand(s: State) { s.active != [] ==> Reached(s) }

  lemma ReachedSame(s: State, t: State)
    requires Reached(s) && t.bet == s.bet
    requires forall id :: id in s.seats ==> id in t.seats && t.seats[id].bet == s.seats[id].bet
    ensures Reached(t)
  {
    if s.bet != 0 {
      var id :| id in s.seats && s.seats[id].bet == s.bet;
      assert id in t.seats && t.seats[id].bet == t.bet;
    }
  }

  lemma AdvanceReached(s: State, order: seq<nat>)
    requires WellFormed(s) && ReachedInHand(s) && Enumerates(order, s.seats.Keys)
    ensures ReachedInHand(AdvanceTurn(s, order))
  {
    hide RoundAction, FinishRounds, Reached;
    if s.active != [] {
      var k := NextBetting(s, 1);
      if k == |s.active| {
        FinishSeated(s, order, 20);
      } else {
        NextTurnSeated(s, k);
        var t := s.(active := Rotate(s.active, k), turn := Some(s.active[k]));
        var next := t.(game := NextRound(s.game));
        ReachedSame(s, t);
        RoundFrame(next, order);
        RoundSeated(next, order);
        var r := RoundAction(next, order);
        if r.goesOn { ReachedSame(s, r.state); }
      }
    }
  }

  lemma PlayReached(s: State, id: nat, action: Action, order: seq<nat>)
    requires WellFormed(s) && ReachedInHand(s) && s.turn == Some(id) && Enumerates(order, s.seats.Keys)
    ensures ReachedInHand(Play(s, id, action, order).state)
  {
    hide EndGame, Fold, ReplaceCards;
    if DrawRound(s.game) {
      if action.ReplaceAction? && action.cards.Some? {
        ReplaceFrame(s.game, s.seats[id], action.cards.value);
      }
      ReachedSame(s, Replace(s, id, action).state);
    } else {
      match action
      case RaiseAction(amount) => if amount.Some? { RaiseReached(s, id, amount.value); }
      case AllInAction => AllInReached(s, id);
      case CheckAction => CheckReached(s, id);
      case FoldAction => FoldReached(s, id, order);
      case _ =>
    }
  }

  lemma RaiseReached(s: State, id: nat, amount: nat)
    requires Reached(s)
    ensures Reached(Raise(s, id, amount).state)
  {
    var t := Raise(s, id, amount).state;
    if t.bet != s.bet {
      assert t.seats[id].bet == t.bet;
    } else if t.seats != s.seats {
      assert id in t.seats && t.seats[id].bet == t.bet;
    }
  }

  lemma AllInReached(s: State, id: nat)
    requires Reached(s)
    ensures Reached(AllIn(s, id).state)
  {
    var t := AllIn(s, id).state;
    if s.bet != 0 {
      var x :| x in s.seats && s.seats[x].bet == s.bet;
      assert t.bet == s.bet ==> x == id || t.seats[x].bet == t.bet;
    }
    assert t.bet != s.bet ==> t.seats[id].bet == t.bet;
  }

  lemma CheckReached(s: State, id: nat)
    requires Reached(s)
    ensures Reached(Check(s, id).state)
  {
    var t := Check(s, id).state;
    if s.bet != 0 {
      var x :| x in s.seats && s.seats[x].bet == s.bet;
      assert t.seats[x].bet == t.bet;
    }
  }

  lemma FoldReached(s: State, id: nat, order: seq<nat>)
    requires WellFormed(s) && ReachedInHand(s) && id in s.active && Enumerates(order, s.seats.Keys)
    ensures ReachedInHand(Fold(s, id, order).state)
  {
    hide EndGame;
    FoldSeated(s, id, order);
    var t := Withdraw(s, IndexOf(s.active, id));
    ReachedSame(s, t);
  }

  /** Until somebody leaves, the table bet is not only a bound: somebody has staked it. */
  lemma StepReached(s: State, c: Command)
    requires WellFormed(s) && ReachedInHand(s) && Legal(s, c) && !c.Expire? && !(c.Act? && c.action.Leave?)
    ensures ReachedInHand(Step(s, c).state)
  {
    hide AdvanceTurn, StartGame, Play, Reached;
    match c
    case Join(id, wallet, folded) => if s.active != [] { ReachedSame(s, AddPlayer(s, id, wallet, folded).state); }
    case Act(id, action, order, order') =>
      if !action.Update? && !action.KeepPlayingAction? && s.turn == Some(id) {
        PlayReached(s, id, action, order);
        PlayWellFormed(s, id, action, order);
        AdvanceReached(Play(s, id, action, order).state, order);
      } else if s.active != [] {
        ReachedSame(s, KeepPlaying(s, id).state);
      }
    case Start(order, deck) => if |s.seats| >= 2 && s.turn.None? { StartReached(s, order, deck); }
  }

  lemma {:induction false} CheckEachReached(s: State, ids: seq<nat>)
    requires Reached(s)
    ensures Reached(CheckEach(s, ids))
    decreases |ids|
  {
    if ids != [] {
      CheckReached(s, ids[0]);
      CheckEachReached(Check(s, ids[0]).state, ids[1..]);
    }
  }

  lemma StartReached(s: State, order: seq<nat>, deck: seq<Card>)
    requires WellFormed(s) && s.active == [] && |s.seats| >= 2 && Enumerates(order, s.seats.Keys)
    ensures Reached(StartGame(s, order, deck))
  {
    hide OpenRound, DealtIn, Posted, Reached, Turning, Enumerates;
    var d := DealtIn(s, order, deck);
    DealtInSeating(s, order, deck);
    PostedReached(d);
    var u := Posted(d);
    OpenRoundFrame(u.game, u.seats, u.active);
    ReachedSame(u, StartGame(s, order, deck));
  }

  lemma PostedReached(d: State)
    requires ReadyToPost(d) && d.bet == 0
    ensures Reached(Posted(d))
  {
    hide CheckEach, Raise, Seating, Turning;
    RaiseReached(d, d.active[0], BLIND);
    var v := Raise(d, d.active[0], BLIND).state;
    CheckEachReached(v, d.active);
  }

  /** When a player leaves a running hand, the table bet stays somebody's stake exactly if another has staked it. */
  lemma RemoveReachedIff(s: State, id: nat, order: seq<nat>, order': seq<nat>)
    requires WellFormed(s) && id in s.seats
    requires Enumerates(order, s.seats.Keys) && Enumerates(order', s.seats.Keys - {id})
    ensures var t := RemovePlayer(s, id, order, order').state;
      t.active != [] ==>
        (Reached(t) <==> s.bet == 0 || exists x :: x in s.seats && x != id && s.seats[x].bet == s.bet)
  {
    hide EndGame, Rebuild, Fold;
    Betting.RemoveFields(s, id, order, order');
    FoldStakes(s, id, order);
    var t := RemovePlayer(s, id, order, order').state;
    if t.active == [] { return; }
    if x :| x in s.seats && x != id && s.seats[x].bet == s.bet {
      assert x in t.seats && t.seats[x].bet == t.bet;
    }
  }

  lemma FoldStakes(s: State, id: nat, order: seq<nat>)
    requires WellFormed(s) && id in s.seats && Enumerates(order, s.seats.Keys)
    ensures var t := Fold(s, id, order).state;
      t.active != [] ==> t.bet == s.bet && forall x :: x in s.seats ==> t.seats[x].bet == s.seats[x].bet
  {
    hide EndGame;
    if id in s.active { FoldSeated(s, id, order); }
  }

  // ----- 64-bit amounts -----

  /** If all chips together fit in 64 bits, so does every wallet, stake, pot, and every sum a bet can form. */
  lemma AmountsFit(s: State, id: nat)
    requires Funded(s) && Chips(s) < U64 && id in s.seats
    ensures s.seats[id].wallet + s.pot < U64 && s.seats[id].wallet + s.seats[id].bet < U64
  {
    SumAtLeast(s.seats, id, WalletOf);
    SumAtLeast(s.seats, id, StakeOf);
  }

  /** Nor does any product, running total or credit of the pay-out overflow. */
  lemma PayoutFits(s: State, order: seq<nat>, level: nat, previous: nat, i: nat)
    requires Funded(s) && Chips(s) < U64 && Enumerates(order, s.seats.Keys) && i < |order|
    requires previous <= level
    requires exists j :: 0 <= j < |order| && s.seats[order[j]].bet == level
    requires forall j :: 0 <= j < |order| ==> s.seats[order[j]].bet <= previous || s.seats[order[j]].bet >= level
    ensures var es := Entries(s, order);
      && (level - previous) * Contributors(es, level) < U64
      && Total(Swept(es, HandRanks.Compare)) <= s.pot < U64
      && s.seats[order[i]].wallet + Payouts(es, s.pot, HandRanks.Compare)[i] < U64
  {
    hide Evaluation.Evaluate, WinnerAt, Swept, Payouts, Contributors, LayerPot, Reach, Total;
    var es := Entries(s, order);
    EntriesStakes(s, order);
    LayerPotIsProduct(es, level, level - previous);
    LayerIsReach(es, previous, level);
    ReachBelowStakes(es, level);
    SweepPaid(es, HandRanks.Compare);
    SumAtLeast(s.seats, order[i], WalletOf);
    CreditBelowPot(es, s.pot, i);
  }

  lemma {:induction false} TotalAtLeast(s: seq<nat>, i: nat)
    requires i < |s|
    ensures s[i] <= Total(s)
  {
    if i > 0 { TotalAtLeast(s[1..], i - 1); }
  }

  lemma CreditBelowPot(es: seq<Entry<HandRanks.HandRank>>, pot: nat, i: nat)
    requires i < |es| && SumSeq(es, BetOf<HandRanks.HandRank>) <= pot
    ensures Payouts(es, pot, HandRanks.Compare)[i] <= pot
  {
    hide WinnerAt, Swept;
    var swept := Swept(es, HandRanks.Compare);
    SweepPaid(es, HandRanks.Compare);
    TotalAtLeast(swept, i);
    var credit := Payouts(es, pot, HandRanks.Compare);
    if credit != swept {
      PayoutsReachPot(es, pot, HandRanks.Compare);
      TotalAtLeast(credit, i);
    }
  }
}
