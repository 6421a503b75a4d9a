/** How a hand ends: the showdown to which a command leads, and the cards that are shown at it. */
module Endings {
  import opened Options
  import opened Sums
  import opened Cards
  import opened Games
  import opened Protocol
  import opened Rings
  import opened Driver
  import opened Betting
  import opened Dealing

  // ----- playing the remaining rounds out -----

  /** The state with what opening the round deals. */
  function Opened(s: State): (t: State)
    requires forall i :: 0 <= i < |s.active| ==> s.active[i] in s.seats
    ensures t.active == s.active && t.seats.Keys == s.seats.Keys
  {
    var r := OpenRound(s.game, s.seats, s.active);
    s.(game := r.game, seats := r.seats)
  }

  /** The state in which the hand is shown down when the remaining rounds are played out. */
  function PlayedOut(s: State): (t: State)
    requires forall i :: 0 <= i < |s.active| ==> s.active[i] in s.seats
    ensures t.active == s.active && t.seats.Keys == s.seats.Keys
    decreases if s.game.round <= LastRound(s.game.kind) then LastRound(s.game.kind) - s.game.round + 1 else 0
  {
    if s.game.round > LastRound(s.game.kind) then s else
      var next := s.(game := NextRound(s.game));
      if next.game.round > LastRound(s.game.kind) then next else
        OpenRoundFrame(next.game, next.seats, next.active);
        PlayedOut(Opened(next))
  }

  lemma RoundIsOpening(s: State, order: seq<nat>)
    requires Enumerates(order, s.seats.Keys) && Coherent(s)
    ensures var r := RoundAction(s, order);
      if s.game.round > LastRound(s.game.kind) then r == RoundStep(EndGame(s, order), false)
      else r == RoundStep(Opened(s), true)
  {
    hide EndGame, DealAround, DealCommunity;
  }

  /** Playing the rounds out is dealing them, then showing down. */
  lemma {:induction false} FinishIsShowdown(s: State, order: seq<nat>, steps: nat)
    requires Seated(s) && s.active != [] && Enumerates(order, s.seats.Keys)
    requires s.game.round <= LastRound(s.game.kind) < s.game.round + steps
    ensures FinishRounds(s, order, steps) == EndGame(PlayedOut(s), order)
    decreases steps
  {
    hide RoundAction, FinishRounds, EndGame, Opened, Enumerates, Distinct;
    var next := s.(game := NextRound(s.game));
    FinishUnfold(s, order, steps);
    SeatedCoherent(s);
    RoundIsOpening(next, order);
    RoundSeated(next, order);
    if next.game.round <= LastRound(s.game.kind) {
      FinishIsShowdown(Opened(next), order, steps - 1);
    }
  }

  /** Chips, stakes and rings stay while the rounds are played out, and no card is made or lost. */
  lemma {:induction false} PlayedOutFrame(s: State, f: nat)
    requires Coherent(s)
    ensures var t := PlayedOut(s);
      && t == s.(game := t.game, seats := t.seats) && t.game.kind == s.game.kind
      && (forall x :: x in s.seats ==> t.seats[x] == s.seats[x].(hand := t.seats[x].hand))
      && (forall x :: x in s.seats && x !in s.active ==> t.seats[x] == s.seats[x])
      && Held(t, f) == Held(s, f)
      && (s.game.round <= LastRound(s.game.kind) ==> t.game.round == LastRound(s.game.kind) + 1)
    decreases if s.game.round <= LastRound(s.game.kind) then LastRound(s.game.kind) - s.game.round + 1 else 0
  {
    hide OpenRound, Held;
    if s.game.round <= LastRound(s.game.kind) {
      var next := s.(game := NextRound(s.game));
      NextRoundHeld(s, f);
      if next.game.round <= LastRound(s.game.kind) {
        OpenRoundFrame(next.game, next.seats, next.active);
        OpenedKeepsCards(next, f);
        PlayedOutFrame(Opened(next), f);
      }
    }
  }

  lemma OpenedKeepsCards(s: State, f: nat)
    requires Coherent(s)
    ensures Held(Opened(s), f) == Held(s, f)
  {
    hide OpenRound;
    OpenRoundHeld(s.game, s.seats, s.active, f);
  }

  lemma OpenedSeated(s: State)
    requires Seated(s) && s.active != []
    ensures Seated(Opened(s)) && Opened(s).game.kind == s.game.kind && Opened(s).game.round == s.game.round
  {
    hide OpenRound;
    OpenRoundFrame(s.game, s.seats, s.active);
  }

  /** And no deal comes up short: whoever is shown down holds what the last round prescribes. */
  lemma {:induction false} PlayedOutPortions(s: State)
    requires Seated(s) && s.active != [] && Portions(s) && s.game.round <= LastRound(s.game.kind)
    ensures var t := PlayedOut(s); var g := t.game.(round := LastRound(t.game.kind));
      Portions(t.(game := g))
    decreases LastRound(s.game.kind) - s.game.round
  {
    hide Opened, Portions, ReadyToDeal, Seated;
    var next := s.(game := NextRound(s.game));
    if next.game.round <= LastRound(s.game.kind) {
      NextRoundReady(s);
      NextSeated(s);
      OpenRoundPortions(next);
      OpenedSeated(next);
      OpenedIs(next);
      PlayedOutPortions(Opened(next));
    } else {
      assert next.game.(round := LastRound(s.game.kind)) == s.game;
      assert next.(game := s.game) == s;
    }
  }

  lemma NextSeated(s: State)
    requires Seated(s)
    ensures Seated(s.(game := NextRound(s.game)))
  {
  }

  lemma OpenedIs(s: State)
    requires forall i :: 0 <= i < |s.active| ==> s.active[i] in s.seats
    ensures Opened(s) == s.(game := OpenRound(s.game, s.seats, s.active).game,
                            seats := OpenRound(s.game, s.seats, s.active).seats)
  {
    hide OpenRound;
  }

  // ----- the showdown a command leads to -----

  /** The showdown to which the advance of the turn leads, if it leads to one. */
  function PassingShown(p: State): Option<State>
    requires Coherent(p)
  {
    if p.active == [] then None
    else if NextBetting(p, 1) == |p.active| then Some(PlayedOut(p))
    else if Closes(p) && p.game.round >= LastRound(p.game.kind) then
      var k := NextBetting(p, 1);
      Some(p.(active := Rotate(p.active, k), turn := Some(p.active[k]), game := NextRound(p.game)))
    else None
  }

  /** The command takes one of the last two players out of the hand. */
  ghost predicate LastTwo(s: State, c: Command)
    requires WellFormed(s) && Legal(s, c)
  {
    |s.active| == 2 &&
    match c
    case Act(id, action, _, _) =>
      id in s.active && (action.Leave? || (action.FoldAction? && s.turn == Some(id) && !DrawRound(s.game)))
    case Expire(_, _) => true
    case _ => false
  }

  /** Whom such a command takes out. */
  function Goer(s: State, c: Command): nat {
    if c.Act? then c.id else if s.turn.Some? then s.turn.value else 0
  }

  /** The state that is shown down when the command ends the hand; the order of the player map plays no part in it. */
  ghost function ShownDown(s: State, c: Command): Option<State>
    requires WellFormed(s) && Legal(s, c)
  {
    if LastTwo(s, c) then
      OnePlace(s, c);
      Some(Withdraw(s, IndexOf(s.active, Goer(s, c))))
    else if Advances(s, c) then
      AdvancingStep(s, c);
      PassingShown(Advancing(s, c))
    else None
  }

  lemma OnePlace(s: State, c: Command)
    requires WellFormed(s) && Legal(s, c) && LastTwo(s, c)
    ensures var k := IndexOf(s.active, Goer(s, c)); k < |s.active| && s.active[k] in s.seats && Goer(s, c) in s.active
  {
    hide Seating, Enumerates;
  }

  lemma AdvanceShows(p: State, order: seq<nat>)
    requires WellFormed(p) && Enumerates(order, p.seats.Keys)
    ensures Coherent(p)
    ensures var u := PassingShown(p); var t := AdvanceTurn(p, order);
      && (u.Some? ==> u.value.seats.Keys == p.seats.Keys && t == EndGame(u.value, order))
      && (p.active != [] ==> (t.active == [] <==> u.Some?))
      && (u.None? ==> forall other :: Enumerates(other, p.seats.Keys) ==> AdvanceTurn(p, other) == t)
  {
    hide RoundAction, FinishRounds, EndGame, PlayedOut, Opened, Rotate, LapComplete, OthersMatched;
    hide Enumerates, Distinct;
    SeatedCoherent(p);
    if p.active != [] {
      var k := NextBetting(p, 1);
      if k == |p.active| {
        FinishIsShowdown(p, order, 20);
        FinishSeated(p, order, 20);
      } else {
        NextTurnSeated(p, k);
        var next := p.(active := Rotate(p.active, k), turn := Some(p.active[k]), game := NextRound(p.game));
        SeatedCoherent(next);
        RoundSeated(next, order);
        RoundIsOpening(next, order);
        forall other | Enumerates(other, p.seats.Keys) && PassingShown(p).None?
          ensures AdvanceTurn(p, other) == AdvanceTurn(p, order)
        {
          RoundIsOpening(next, other);
        }
      }
    }
  }

  /** The state after a command that ends the hand: the showdown, and for a leaver the departure. */
  ghost predicate EndsWith(t: State, u: State, s: State, c: Command)
    requires WellFormed(s) && Legal(s, c) && u.seats.Keys == s.seats.Keys
  {
    match c
    case Act(id, action, order, order') =>
      t == if action.Leave? then Rebuild(LeftTable(EndGame(u, order), id), order') else EndGame(u, order)
    case Expire(order, order') =>
      t == Rebuild(LeftTable(EndGame(u, order), s.turn.value), order')
    case _ => false
  }

  lemma LeaveShows(s: State, id: nat, order: seq<nat>, order': seq<nat>)
    requires WellFormed(s) && id in s.active && |s.active| == 2
    requires Enumerates(order, s.seats.Keys) && Enumerates(order', s.seats.Keys - {id})
    ensures IndexOf(s.active, id) < |s.active| && id in s.seats
    ensures RemovePlayer(s, id, order, order').state
         == Rebuild(LeftTable(EndGame(Withdraw(s, IndexOf(s.active, id)), order), id), order')
  {
    hide EndGame, Withdraw, Rebuild, Seating, Enumerates;
  }

  lemma FoldShows(s: State, id: nat, order: seq<nat>)
    requires WellFormed(s) && id in s.active && |s.active| == 2 && Enumerates(order, s.seats.Keys)
    ensures IndexOf(s.active, id) < |s.active| && id in s.seats
    ensures Fold(s, id, order) == Accept(EndGame(Withdraw(s, IndexOf(s.active, id)), order))
  {
    hide EndGame, Withdraw, Seating, Enumerates;
  }

  lemma LastTwoEnds(s: State, c: Command)
    requires WellFormed(s) && Legal(s, c) && LastTwo(s, c)
    ensures Step(s, c).state.active == [] && ShownDown(s, c).Some?
    ensures ShownDown(s, c).value.seats.Keys == s.seats.Keys
    ensures EndsWith(Step(s, c).state, ShownDown(s, c).value, s, c)
  {
    hide Advances, AdvanceTurn, EndGame, Withdraw, Rebuild, RemovePlayer, LeftTable, Seating, Enumerates;
    OnePlace(s, c);
    StepWellFormed(s, c);
    FoldSeated(s, Goer(s, c), c.order);
    if c.Act? && !c.action.Leave? {
      FoldShows(s, c.id, c.order);
      PlayWellFormed(s, c.id, c.action, c.order);
      NoHandStays(Fold(s, c.id, c.order).state, c.order);
    } else {
      var id := Goer(s, c);
      LeaveShows(s, id, c.order, c.order');
      RemoveSeated(s, id, c.order, c.order');
    }
  }

  /** A command ends a running hand exactly when it leads to a showdown, and then the result is that showdown. */
  lemma StepShowsDown(s: State, c: Command)
    requires WellFormed(s) && Legal(s, c) && s.active != []
    ensures var t, u := Step(s, c).state, ShownDown(s, c);
      && (t.active == [] <==> u.Some?)
      && (u.Some? && LastTwo(s, c) ==> u.value.seats.Keys == s.seats.Keys && EndsWith(t, u.value, s, c))
      && (u.Some? && !LastTwo(s, c) ==>
            && Advances(s, c) && u.value.seats.Keys == Advancing(s, c).seats.Keys
            && Enumerates(AdvanceOrder(c), u.value.seats.Keys) && t == EndGame(u.value, AdvanceOrder(c)))
  {
    hide Step, Advances, Advancing, AdvanceTurn, EndGame, PassingShown, LastTwo, EndsWith, Seating, Enumerates;
    if LastTwo(s, c) {
      LastTwoEnds(s, c);
    } else if Advances(s, c) {
      AdvancingStep(s, c);
      AdvancingRuns(s, c);
      AdvanceShows(Advancing(s, c), AdvanceOrder(c));
    } else {
      GoesOn(s, c);
    }
  }

  lemma AdvancingRuns(s: State, c: Command)
    requires WellFormed(s) && Legal(s, c) && Advances(s, c) && !LastTwo(s, c) && s.active != []
    ensures Advancing(s, c).active != []
  {
    hide EndGame, Withdraw, RemovePlayer, ReplaceCards, Seating, Enumerates;
    assert s.active[0] in s.active;
    match c
    case Act(id, action, order, order') =>
      if action.FoldAction? && !DrawRound(s.game) { FoldSeated(s, id, order); }
    case Expire(order, order') =>
      FoldSeated(s, s.turn.value, order);
      RemoveSeated(s, s.turn.value, order, order');
  }

  lemma GoesOn(s: State, c: Command)
    requires WellFormed(s) && Legal(s, c) && !Advances(s, c) && !LastTwo(s, c) && s.active != []
    ensures Step(s, c).state.active != []
  {
    hide EndGame, Withdraw, RemovePlayer, ReplaceCards, AdvanceTurn, AddPlayer, Seating, Enumerates;
    match c
    case Join(id, wallet, folded) => AddSeated(s, id, wallet, folded);
    case Act(id, action, order, order') =>
      if action.Leave? { LeaveGoesOn(s, id, order, order'); }
    case _ =>
  }

  lemma LeaveGoesOn(s: State, id: nat, order: seq<nat>, order': seq<nat>)
    requires WellFormed(s) && s.active != [] && (|s.active| > 2 || id !in s.active)
    requires Enumerates(order, s.seats.Keys) && Enumerates(order', s.seats.Keys - {id})
    ensures RemovePlayer(s, id, order, order').state.active != []
  {
    hide Fold, RemovePlayer, Seating, Enumerates;
    if id in s.seats {
      RemoveSeated(s, id, order, order');
      LeaverIsOut(s, id, order);
      if id in s.active { FoldSeated(s, id, order); }
    } else {
      MissingLeaver(s, id, order, order');
    }
  }

  // ----- the cards shown -----

  lemma AdvancingCards(s: State, c: Command, f: nat)
    requires WellFormed(s) && Legal(s, c) && Advances(s, c) && Portions(s) && Advancing(s, c).active != []
    ensures Portions(Advancing(s, c)) && Held(Advancing(s, c), f) <= Held(s, f)
  {
    hide Play, RemovePlayer, Portions, Held, Copies, Seating, Enumerates;
    match c
    case Act(id, action, order, order') =>
      PlayPortions(s, id, action, order);
      PlayHeld(s, id, action, order, f);
    case Expire(order, order') =>
      assert s.active[0] == s.turn.value;
      RemovePortions(s, s.turn.value, order, order');
      RemoveHeld(s, s.turn.value, order, order', f);
  }

  /** What a player shows down who has not been left alone by folds. */
  predicate FullHand(s: State, id: nat) {
    id in s.seats &&
    match s.game.kind
    case FiveCardDraw => true
    case SevenCardStud => |s.seats[id].hand| == 7 && UpCount(s.seats[id].hand) == 4
    case TexasHoldem => |s.seats[id].hand| == 2 && |s.game.community| == 5
  }

  lemma PassingCards(p: State)
    requires WellFormed(p) && Portions(p) && p.active != []
    ensures Coherent(p)
    ensures var u := PassingShown(p); u.Some? ==>
      && |u.value.active| == |p.active| && (forall x :: x in u.value.active <==> x in p.active)
      && (forall x :: x in p.seats ==>
            x in u.value.seats && u.value.seats[x] == p.seats[x].(hand := u.value.seats[x].hand))
      && u.value.pot == p.pot && (forall x :: x in p.active ==> FullHand(u.value, x))
      && (forall f :: Held(u.value, f) == Held(p, f))
  {
    hide PlayedOut, Rotate, LapComplete, OthersMatched, Held, UpCount;
    SeatedCoherent(p);
    var k := NextBetting(p, 1);
    var u := PassingShown(p);
    if u.Some? {
      forall x | x in p.active ensures x in p.seats {
      }
      if k == |p.active| {
        PlayedOutPortions(p);
        PlayedOutFrame(p, 0);
        forall f ensures Held(PlayedOut(p), f) == Held(p, f) {
          PlayedOutFrame(p, f);
        }
      } else {
        RotateKeeps(p.active, k);
        forall f ensures Held(u.value, f) == Held(p, f) {
          HeldSame(p, u.value.(game := p.game), f);
          NextRoundHeld(u.value.(game := p.game), f);
        }
      }
    }
  }

  /**
   When a command other than the last fold or leave ends a hand, the players still in it show down with their stakes as
   they were, each with seven cards in Stud, and with two beside a board of five in Hold'em; no face is there twice.
   */
  lemma ShownDownCards(s: State, c: Command)
    requires WellFormed(s) && Portions(s) && SingleCopies(s) && Legal(s, c) && s.active != []
    ensures ShownDown(s, c).Some? && !LastTwo(s, c) ==>
      && Advances(s, c)
      && var p, u := Advancing(s, c), ShownDown(s, c).value;
         && |u.active| == |p.active| >= 2 && (forall x :: x in u.active <==> x in p.active)
         && (forall x :: x in p.seats ==> x in u.seats && u.seats[x] == p.seats[x].(hand := u.seats[x].hand))
         && u.pot == p.pot && (forall x :: x in u.active ==> FullHand(u, x))
         && SingleCopies(u)
  {
    hide Advances, Advancing, LastTwo, PassingShown, Portions, Held, FullHand, Seating;
    if ShownDown(s, c).Some? && !LastTwo(s, c) {
      AdvancingStep(s, c);
      AdvancingRuns(s, c);
      AdvancingCards(s, c, 0);
      PassingCards(Advancing(s, c));
      forall f ensures Held(ShownDown(s, c).value, f) <= 1 {
        AdvancingCards(s, c, f);
        assert Held(s, f) <= 1;
      }
    }
  }
}
