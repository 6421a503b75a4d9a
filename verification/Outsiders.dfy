/** Players who sit at a running hand without being in it. */
module Outsiders {
  import opened Options
  import opened Sums
  import opened Games
  import opened Protocol
  import opened Rings
  import opened Driver
  import Betting
  import Cards

  /** Seated and not folded, but not in the active ring: somebody who joined while the hand was running. */
  predicate Outside(s: State, id: nat) {
    id in s.seats && !s.seats[id].folded && id !in s.active
  }

  /** While a hand runs, whoever joined since the deal holds no cards and has staked nothing. */
  ghost predicate BareOutsiders(s: State) {
    s.active != [] ==> forall id :: Outside(s, id) ==> s.seats[id].hand == [] && s.seats[id].bet == 0
  }

  /** Every outsider of the later state was one before, with the same cards and stake. */
  ghost predicate NoNewOutsiders(s: State, t: State) {
    t.active != [] ==>
      && s.active != []
      && forall id :: Outside(t, id) ==>
           Outside(s, id) && t.seats[id].hand == s.seats[id].hand && t.seats[id].bet == s.seats[id].bet
  }

  lemma BareKept(s: State, t: State)
    requires BareOutsiders(s) && NoNewOutsiders(s, t)
    ensures BareOutsiders(t)
  {
  }

  lemma RoundOutsiders(s: State, order: seq<nat>)
    requires Seated(s) && s.active != [] && Enumerates(order, s.seats.Keys)
    ensures NoNewOutsiders(s, RoundAction(s, order).state)
  {
    hide OpenRound, EndGame;
    OpenRoundFrame(s.game, s.seats, s.active);
    RoundSeated(s, order);
  }

  lemma AdvanceOutsiders(s: State, order: seq<nat>)
    requires WellFormed(s) && BareOutsiders(s) && Enumerates(order, s.seats.Keys)
    ensures BareOutsiders(AdvanceTurn(s, order))
  {
    hide RoundAction, FinishRounds, Rotate;
    if s.active != [] {
      var k := NextBetting(s, 1);
      if k == |s.active| {
        FinishSeated(s, order, 20);
      } else {
        NextTurnSeated(s, k);
        RotateKeeps(s.active, k);
        var t := s.(active := Rotate(s.active, k), turn := Some(s.active[k]));
        BareKept(s, t);
        var next := t.(game := NextRound(s.game));
        RoundOutsiders(next, order);
        BareKept(next, RoundAction(next, order).state);
      }
    }
  }

  lemma FoldOutsiders(s: State, id: nat, order: seq<nat>)
    requires WellFormed(s) && Enumerates(order, s.seats.Keys) && id in s.active
    ensures NoNewOutsiders(s, Fold(s, id, order).state)
  {
    hide EndGame, Unlink;
    FoldSeated(s, id, order);
  }

  lemma PlayOutsiders(s: State, id: nat, action: Action, order: seq<nat>)
    requires WellFormed(s) && BareOutsiders(s) && s.turn == Some(id) && Enumerates(order, s.seats.Keys)
    ensures BareOutsiders(Play(s, id, action, order).state)
  {
    hide Fold, ReplaceCards, Seating, Distinct;
    assert s.active[0] == id && id in s.active;
    if !DrawRound(s.game) && action.FoldAction? {
      FoldOutsiders(s, id, order);
    } else if DrawRound(s.game) && action.ReplaceAction? && action.cards.Some? {
      ReplaceFrame(s.game, s.seats[id], action.cards.value);
    }
    BareKept(s, Play(s, id, action, order).state);
  }

  lemma RemoveOutsiders(s: State, id: nat, order: seq<nat>, order': seq<nat>)
    requires WellFormed(s) && BareOutsiders(s)
    requires Enumerates(order, s.seats.Keys) && Enumerates(order', s.seats.Keys - {id})
    ensures BareOutsiders(RemovePlayer(s, id, order, order').state)
  {
    hide Fold, RemovePlayer;
    if id !in s.seats {
      Betting.MissingLeaver(s, id, order, order');
      return;
    }
    Betting.RemoveFields(s, id, order, order');
    RemoveSeated(s, id, order, order');
    if id in s.active { FoldOutsiders(s, id, order); } else { AsideOutsiders(s, id, order); }
    BareKept(s, RemovePlayer(s, id, order, order').state);
  }

  lemma AsideOutsiders(s: State, id: nat, order: seq<nat>)
    requires WellFormed(s) && Enumerates(order, s.seats.Keys) && id in s.seats && id !in s.active
    ensures NoNewOutsiders(s, Fold(s, id, order).state)
  {
  }

  /** A hand starts without outsiders. */
  lemma StartOutsiders(s: State, order: seq<nat>, deck: seq<Cards.Card>)
    requires WellFormed(s) && s.active == [] && |s.seats| >= 2 && Enumerates(order, s.seats.Keys)
    ensures forall id :: !Outside(StartGame(s, order, deck), id)
  {
    hide OpenRound, Posted, DealtIn, Seating, Turning, Enumerates, Rotate;
    var d := DealtIn(s, order, deck);
    DealtInSeating(s, order, deck);
    PostedFrame(d);
    PostedSeated(d);
    var u := Posted(d);
    RotateKeeps(d.active, if |d.active| > 0 then 1 else 0);
    OpenRoundFrame(u.game, u.seats, u.active);
  }

  lemma NobodyOutside(t: State)
    requires forall id :: !Outside(t, id)
    ensures BareOutsiders(t)
  {
  }

  lemma AddOutsiders(s: State, id: nat, wallet: nat, folded: bool)
    requires WellFormed(s) && BareOutsiders(s)
    ensures BareOutsiders(AddPlayer(s, id, wallet, folded).state)
  {
    hide InsertAt, IndexOf, Seating, Turning;
    AddSeated(s, id, wallet, folded);
  }

  lemma ActOutsiders(s: State, id: nat, action: Action, order: seq<nat>, order': seq<nat>)
    requires WellFormed(s) && BareOutsiders(s)
    requires Enumerates(order, s.seats.Keys) && Enumerates(order', s.seats.Keys - {id})
    ensures BareOutsiders(RunAction(s, id, action, order, order').state)
  {
    hide RemovePlayer, AdvanceTurn, Play;
    if action.Leave? {
      RemoveOutsiders(s, id, order, order');
    } else if !action.Update? && !action.KeepPlayingAction? && s.turn == Some(id) {
      PlayOutsiders(s, id, action, order);
      PlayWellFormed(s, id, action, order);
      AdvanceOutsiders(Play(s, id, action, order).state, order);
    }
  }

  /** Whoever sits outside a running hand holds no cards and has no stake, after any command. */
  lemma StepOutsiders(s: State, c: Command)
    requires WellFormed(s) && BareOutsiders(s) && Legal(s, c)
    ensures BareOutsiders(Step(s, c).state)
  {
    hide RemovePlayer, AdvanceTurn, StartGame, AddPlayer, RunAction, BareOutsiders;
    match c
    case Join(id, wallet, folded) => AddOutsiders(s, id, wallet, folded);
    case Act(id, action, order, order') => ActOutsiders(s, id, action, order, order');
    case Start(order, deck) =>
      if |s.seats| >= 2 && s.turn.None? {
        StartOutsiders(s, order, deck);
        NobodyOutside(StartGame(s, order, deck));
      }
    case Expire(order, order') =>
      var id := s.turn.value;
      assert s.active[0] == id;
      RemoveOutsiders(s, id, order, order');
      LeaveWellFormed(s, id, order, order');
      var t := RemovePlayer(s, id, order, order').state;
      RemoveSeated(s, id, order, order');
      if t.turn.Some? { AdvanceOutsiders(t, order'); }
  }
}
