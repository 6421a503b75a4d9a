/** Client commands, the monitor's steps, and runs of them (Server/src/web.rs, Server/src/lib.rs). */
module Driver {
  import opened Options
  import opened Sums
  import opened Cards
  import opened Games
  import opened Protocol
  import opened Rings
  import Evaluation

  ghost predicate WellFormed(s: State) {
    Seated(s) && (s.active != [] ==> s.game.round <= LastRound(s.game.kind))
  }

  /** A command by a player: leaving and reading are open to all, the rest only to the player on turn. */
  function RunAction(s: State, id: nat, action: Action, order: seq<nat>, order': seq<nat>): Reply
    requires WellFormed(s)
    requires Enumerates(order, s.seats.Keys) && Enumerates(order', s.seats.Keys - {id})
  {
    if action.Leave? then RemovePlayer(s, id, order, order')
    else if action.Update? then (if id in s.seats then Accept(s) else Reject(s, PlayerNotFound))
    else if action.KeepPlayingAction? then KeepPlaying(s, id)
    else if s.turn != Some(id) then Reject(s, NotYourTurn)
    else
      PlaySeated(s, id, action, order);
      var r := Play(s, id, action, order);
      if r.outcome == Accepted then Accept(AdvanceTurn(r.state, order)) else r
  }

  /** The monitor removes a player whose time is up, then passes the turn on if the hand is still running. */
  function ExpireTurn(s: State, order: seq<nat>, order': seq<nat>): State
    requires WellFormed(s) && s.turn.Some?
    requires Enumerates(order, s.seats.Keys) && Enumerates(order', s.seats.Keys - {s.turn.value})
  {
    RemoveSeated(s, s.turn.value, order, order');
    var t := RemovePlayer(s, s.turn.value, order, order').state;
    if t.turn.Some? then AdvanceTurn(t, order') else t
  }

  datatype Command =
    | Join(id: nat, wallet: nat, folded: bool)
    | Act(id: nat, action: Action, order: seq<nat>, order': seq<nat>)
    | Start(order: seq<nat>, deck: seq<Card>)
    | Expire(order: seq<nat>, order': seq<nat>)

  /** What holds of the parameters that stand for map iteration and shuffling. */
  ghost predicate Legal(s: State, c: Command) {
    match c
    case Join(_, _, _) => true
    case Act(id, _, order, order') => Enumerates(order, s.seats.Keys) && Enumerates(order', s.seats.Keys - {id})
    case Start(order, deck) => Enumerates(order, s.seats.Keys) && multiset(deck) == multiset(NewDeck())
    case Expire(order, order') =>
      s.turn.Some? && Enumerates(order, s.seats.Keys) && Enumerates(order', s.seats.Keys - {s.turn.value})
  }

  ghost function Step(s: State, c: Command): Reply
    requires WellFormed(s) && Legal(s, c)
  {
    match c
    case Join(id, wallet, folded) => AddPlayer(s, id, wallet, folded)
    case Act(id, action, order, order') => RunAction(s, id, action, order, order')
    case Start(order, deck) => if |s.seats| >= 2 && s.turn.None? then Accept(StartGame(s, order, deck)) else Accept(s)
    case Expire(order, order') => Accept(ExpireTurn(s, order, order'))
  }

  // ----- commands that pass the turn on -----

  /** An accepted command of the player on turn passes the turn on, and so does an expiry. */
  ghost predicate Advances(s: State, c: Command)
    requires WellFormed(s) && Legal(s, c)
  {
    match c
    case Act(id, action, order, _) =>
      && !action.Leave? && !action.Update? && !action.KeepPlayingAction?
      && s.turn == Some(id) && Play(s, id, action, order).outcome == Accepted
    case Expire(_, _) => true
    case _ => false
  }

  /** The state from which such a command advances the turn. */
  ghost function Advancing(s: State, c: Command): State
    requires WellFormed(s) && Legal(s, c) && Advances(s, c)
  {
    match c
    case Act(id, action, order, _) => Play(s, id, action, order).state
    case Expire(order, order') => RemovePlayer(s, s.turn.value, order, order').state
  }

  /** The order of the player map that the advance meets. */
  function AdvanceOrder(c: Command): seq<nat> {
    match c
    case Act(_, _, order, _) => order
    case Expire(_, order') => order'
    case _ => []
  }

  lemma PlayKeepsRound(s: State, id: nat, action: Action, order: seq<nat>)
    requires Enumerates(order, s.seats.Keys)
    ensures var t := Play(s, id, action, order).state; t.game.kind == s.game.kind && t.game.round == s.game.round
  {
    hide Evaluation.Evaluate;
    if DrawRound(s.game) && id in s.seats && action.ReplaceAction? && action.cards.Some? {
      ReplaceFrame(s.game, s.seats[id], action.cards.value);
    }
  }

  lemma RunActionWellFormed(s: State, id: nat, action: Action, order: seq<nat>, order': seq<nat>)
    requires WellFormed(s)
    requires Enumerates(order, s.seats.Keys) && Enumerates(order', s.seats.Keys - {id})
    ensures WellFormed(RunAction(s, id, action, order, order').state)
  {
    hide Play, AdvanceTurn, RemovePlayer;
    if action.Leave? {
      LeaveWellFormed(s, id, order, order');
    } else if s.turn == Some(id) {
      PlayWellFormed(s, id, action, order);
    }
  }

  lemma LeaveWellFormed(s: State, id: nat, order: seq<nat>, order': seq<nat>)
    requires WellFormed(s)
    requires Enumerates(order, s.seats.Keys) && Enumerates(order', s.seats.Keys - {id})
    ensures WellFormed(RemovePlayer(s, id, order, order').state)
  {
    hide Fold, Rebuild;
    if id in s.seats {
      RemoveSeated(s, id, order, order');
      RemoveKeepsRound(s, id, order, order');
    }
  }

  lemma PlayWellFormed(s: State, id: nat, action: Action, order: seq<nat>)
    requires WellFormed(s) && s.turn == Some(id) && Enumerates(order, s.seats.Keys)
    ensures var t := Play(s, id, action, order).state; WellFormed(t) && WellFormed(AdvanceTurn(t, order))
  {
    hide Play, AdvanceTurn;
    PlaySeated(s, id, action, order);
    PlayKeepsRound(s, id, action, order);
    var t := Play(s, id, action, order).state;
    assert t.game.round <= LastRound(t.game.kind);
    AdvanceSeated(t, order);
  }

  lemma RemoveKeepsRound(s: State, id: nat, order: seq<nat>, order': seq<nat>)
    requires id in s.seats
    requires Enumerates(order, s.seats.Keys) && Enumerates(order', s.seats.Keys - {id})
    ensures RemovePlayer(s, id, order, order').state.game == s.game
  {
  }

  /** Every step keeps the table well formed: both rings, their markers, and the round within bounds. */
  lemma StepWellFormed(s: State, c: Command)
    requires WellFormed(s) && Legal(s, c)
    ensures WellFormed(Step(s, c).state)
  {
    hide RunAction, RemovePlayer, AdvanceTurn, StartGame, AddPlayer;
    match c
    case Join(id, wallet, folded) =>
      AddSeated(s, id, wallet, folded);
      AddKeepsGame(s, id, wallet, folded);
    case Act(id, action, order, order') => RunActionWellFormed(s, id, action, order, order');
    case Start(order, deck) =>
      if |s.seats| >= 2 && s.turn.None? { StartWellFormed(s, order, deck); }
    case Expire(order, order') =>
      RemoveSeated(s, s.turn.value, order, order');
      RemoveKeepsRound(s, s.turn.value, order, order');
      var t := RemovePlayer(s, s.turn.value, order, order').state;
      if t.turn.Some? { AdvanceSeated(t, order'); }
  }

  /** Such a command is its own effect followed by the advance. */
  lemma AdvancingStep(s: State, c: Command)
    requires WellFormed(s) && Legal(s, c) && Advances(s, c)
    ensures var p := Advancing(s, c);
      && WellFormed(p) && Enumerates(AdvanceOrder(c), p.seats.Keys) && Coherent(p)
      && p.game.kind == s.game.kind && p.game.round == s.game.round
      && Step(s, c).state == AdvanceTurn(p, AdvanceOrder(c))
  {
    hide Play, RemovePlayer, RoundAction, FinishRounds, NextBetting, LapComplete, OthersMatched, Enumerates, Distinct;
    match c
    case Act(id, action, order, order') =>
      PlayWellFormed(s, id, action, order);
      PlayKeepsRound(s, id, action, order);
      SeatedCoherent(Play(s, id, action, order).state);
    case Expire(order, order') =>
      RemoveSeated(s, s.turn.value, order, order');
      LeaveWellFormed(s, s.turn.value, order, order');
      RemoveKeepsRound(s, s.turn.value, order, order');
      SeatedCoherent(RemovePlayer(s, s.turn.value, order, order').state);
  }

  lemma StartWellFormed(s: State, order: seq<nat>, deck: seq<Card>)
    requires WellFormed(s) && |s.seats| >= 2 && s.turn.None? && Enumerates(order, s.seats.Keys)
    ensures WellFormed(StartGame(s, order, deck))
  {
    hide StartGame;
    StartSeated(s, order, deck);
  }

  lemma AddKeepsGame(s: State, id: nat, wallet: nat, folded: bool)
    ensures AddPlayer(s, id, wallet, folded).state.game == s.game
  {
  }

  function EmptyTable(kind: Kind): State {
    State(map[], [], [], None, None, None, None, 0, 0, Game(kind, 0, [], []), None, {})
  }

  // ----- runs -----

  /** Every command of the run is legal in the state it meets. */
  ghost predicate LegalRun(s: State, run: seq<Command>)
    requires WellFormed(s)
    decreases |run|
  {
    run == [] || (Legal(s, run[0]) && (StepWellFormed(s, run[0]); LegalRun(Step(s, run[0]).state, run[1..])))
  }

  ghost function Run(s: State, run: seq<Command>): (t: State)
    requires WellFormed(s) && LegalRun(s, run)
    ensures WellFormed(t)
    decreases |run|
  {
    if run == [] then s else
      StepWellFormed(s, run[0]);
      Run(Step(s, run[0]).state, run[1..])
  }
}
