/** What each command does to the table, in amounts and positions. */
module Commands {
  import opened Options
  import opened Sums
  import opened Cards
  import opened Games
  import opened Protocol
  import opened Rings
  import opened Driver
  import opened Betting
  import opened Conservation
  import opened Turns
  import Endings
  import Evaluation
  import HandRanks
  import Showdowns
  import SidePots

  /** Nobody but player id has another seat than before. */
  ghost predicate OnlySeat(s: State, t: State, id: nat) {
    t.seats.Keys == s.seats.Keys && forall x :: x in s.seats && x != id ==> t.seats[x] == s.seats[x]
  }

  /** Rings, turn, head, blind, game and showdown are as before. */
  predicate OnlyStakes(s: State, t: State) {
    && t.full == s.full && t.active == s.active && t.turn == s.turn && t.head == s.head && t.blind == s.blind
    && t.game == s.game && t.showdown == s.showdown && t.staying == s.staying
  }

  /** The player has moved an amount from wallet to stake and pot. */
  ghost predicate Staked(s: State, t: State, id: nat, amount: nat) {
    && id in s.seats && OnlySeat(s, t, id) && OnlyStakes(s, t) && amount <= s.seats[id].wallet
    && t.seats[id].wallet == s.seats[id].wallet - amount && t.seats[id].bet == s.seats[id].bet + amount
    && t.seats[id].folded == s.seats[id].folded && t.seats[id].hand == s.seats[id].hand && t.pot == s.pot + amount
  }

  // ----- betting -----

  /** A raise moves the amount, and makes the new stake the table bet, whether it is higher or lower. */
  lemma RaiseCommand(s: State, id: nat, amount: nat, order: seq<nat>)
    requires WellFormed(s) && s.turn == Some(id) && Enumerates(order, s.seats.Keys)
    requires s.game.kind != FiveCardDraw || s.game.round != 1
    ensures id in s.seats
    ensures var r := Play(s, id, RaiseAction(Some(amount)), order);
      && (r.outcome == Accepted <==> 0 < amount <= s.seats[id].wallet)
      && (r.outcome == Accepted ==>
            && Staked(s, r.state, id, amount)
            && r.state.bet == s.seats[id].bet + amount && r.state.bettor == Some(id))
      && (amount == 0 ==> r.outcome == Rejected(ZeroRaise) && r.state == s)
      && (amount > s.seats[id].wallet ==>
            r.outcome == Rejected(InsufficientFunds) && r.state == s.(bettor := Some(id)))
  {
    hide Seating, Enumerates;
    OnTurn(s, id);
  }

  /** All in moves the whole wallet; only a stake above the table bet moves table bet and bettor. */
  lemma AllInCommand(s: State, id: nat, order: seq<nat>)
    requires WellFormed(s) && s.turn == Some(id) && Enumerates(order, s.seats.Keys)
    requires s.game.kind != FiveCardDraw || s.game.round != 1
    ensures id in s.seats
    ensures var r := Play(s, id, AllInAction, order); var w := s.seats[id].wallet; var stake := s.seats[id].bet + w;
      && (w == 0 ==> r.outcome == Rejected(AlreadyAllIn) && r.state == s)
      && (w > 0 ==>
            && r.outcome == Accepted && Staked(s, r.state, id, w) && r.state.seats[id].wallet == 0
            && r.state.bet == (if stake > s.bet then stake else s.bet)
            && r.state.bettor == (if stake > s.bet then Some(id) else s.bettor))
  {
    hide Seating, Enumerates;
    OnTurn(s, id);
  }

  /** A check moves what is missing to the table bet; a stake above it and a short wallet are refused. */
  lemma CheckCommand(s: State, id: nat, order: seq<nat>)
    requires WellFormed(s) && s.turn == Some(id) && Enumerates(order, s.seats.Keys)
    requires s.game.kind != FiveCardDraw || s.game.round != 1
    ensures id in s.seats
    ensures var r := Play(s, id, CheckAction, order); var stake := s.seats[id].bet;
      && (stake > s.bet ==> r.outcome == Rejected(Underflow) && r.state == s)
      && (stake + s.seats[id].wallet < s.bet ==> r.outcome == Rejected(InsufficientFunds) && r.state == s)
      && (stake <= s.bet <= stake + s.seats[id].wallet ==>
            && r.outcome == Accepted && Staked(s, r.state, id, s.bet - stake)
            && r.state.bet == s.bet && r.state.bettor == s.bettor)
  {
    hide Seating, Enumerates;
    OnTurn(s, id);
  }

  /** Where a marker points once player id, with these neighbours in the ring, is out of the hand. */
  predicate MovedFrom(before: Option<nat>, after: Option<nat>, id: nat, to: nat) {
    after == if before == Some(id) then Some(to) else before
  }

  /**
   Player k of the ring is out: the others keep their order, and the turn of a leaver passes back. The mark of the
   bettor and the blind go to the predecessor, the head to the successor.
   */
  ghost predicate OutOfRing(s: State, t: State, k: nat)
    requires k < |s.active| && |s.active| >= 2
  {
    var id, n := s.active[k], |s.active|;
    var prev, next := s.active[if k == 0 then n - 1 else k - 1], s.active[if k == n - 1 then 0 else k + 1];
    && |t.active| == n - 1
    && (k == 0 ==> t.active[0] == s.active[n - 1] && forall i :: 1 <= i < n - 1 ==> t.active[i] == s.active[i])
    && (k > 0 ==> forall i :: 0 <= i < n - 1 ==> t.active[i] == s.active[if i < k then i else i + 1])
    && MovedFrom(s.turn, t.turn, id, prev) && MovedFrom(s.bettor, t.bettor, id, prev)
    && MovedFrom(s.blind, t.blind, id, prev) && MovedFrom(s.head, t.head, id, next)
    && t.game == s.game && t.pot == s.pot && t.bet == s.bet && t.showdown == s.showdown && t.staying == s.staying
  }

  lemma WithdrawnFromRing(s: State, k: nat)
    requires InHand(s) && |s.active| >= 2 && k < |s.active|
    ensures s.active[k] in s.seats && OutOfRing(s, Withdraw(s, k), k)
  {
    hide Unlink, Seating;
    UnlinkPlaces(s.active, k);
  }

  lemma UnlinkPlaces(ring: seq<nat>, k: nat)
    requires k < |ring| && |ring| >= 2
    ensures var r, n := Unlink(ring, k), |ring|;
      && |r| == n - 1
      && (k == 0 ==> r[0] == ring[n - 1] && forall i :: 1 <= i < n - 1 ==> r[i] == ring[i])
      && (k > 0 ==> forall i :: 0 <= i < n - 1 ==> r[i] == ring[if i < k then i else i + 1])
  {
  }

  /** A fold among three or more folds the seat and moves the markers; no chip moves. */
  lemma FoldCommand(s: State, id: nat, order: seq<nat>)
    requires WellFormed(s) && s.turn == Some(id) && Enumerates(order, s.seats.Keys)
    requires s.game.kind != FiveCardDraw || s.game.round != 1
    ensures id in s.seats && s.active != [] && s.active[0] == id
    ensures var r := Play(s, id, FoldAction, order);
      && r.outcome == Accepted
      && (|s.active| > 2 ==>
            && OutOfRing(s, r.state, 0) && OnlySeat(s, r.state, id) && r.state.full == s.full
            && r.state.seats[id] == s.seats[id].(folded := true))
  {
    hide EndGame, Withdraw, OutOfRing, Seating, Enumerates;
    OnTurn(s, id);
    IndexOfAt(s.active, 0);
    FoldIsPlay(s, id, order);
    if |s.active| > 2 {
      WithdrawnFromRing(s, 0);
      WithdrawnSeat(s, 0);
    }
  }

  lemma WithdrawnSeat(s: State, k: nat)
    requires InHand(s) && k < |s.active|
    ensures s.active[k] in s.seats
    ensures var t, id := Withdraw(s, k), s.active[k];
      OnlySeat(s, t, id) && t.full == s.full && t.seats[id] == s.seats[id].(folded := true)
  {
    hide Unlink;
  }

  // ----- cards -----

  /** In the draw round every command but a replacement is refused; a replacement touches one hand and the deck. */
  lemma DrawCommand(s: State, id: nat, action: Action, order: seq<nat>)
    requires WellFormed(s) && s.turn == Some(id) && Enumerates(order, s.seats.Keys)
    requires s.game.kind == FiveCardDraw && s.game.round == 1
    ensures id in s.seats
    ensures var r := Play(s, id, action, order);
      && (r.outcome != Accepted ==> r.state == s)
      && (!action.ReplaceAction? ==> r.outcome == Rejected(ReplaceCardsExpected))
      && (action.ReplaceAction? && action.cards.None? ==> r.outcome == Rejected(InvalidCard))
      && (action.ReplaceAction? && action.cards.Some? ==>
            var hand, discard := s.seats[id].hand, action.cards.value;
            && (r.outcome == Accepted <==>
                  && |discard| <= 4 && multiset(discard) <= multiset(hand)
                  && (|discard| == 4 ==> AceStaysFirst(hand, discard)))
            && (r.outcome == Accepted ==>
                  && OnlySeat(s, r.state, id)
                  && r.state.seats[id] == s.seats[id].(hand := r.state.seats[id].hand)
                  && r.state == s.(seats := r.state.seats, game := s.game.(deck := r.state.game.deck))
                  && 0 <= |hand| - |discard| <= |r.state.seats[id].hand|
                  && r.state.game.deck + r.state.seats[id].hand[|hand| - |discard|..] == s.game.deck))
  {
    hide ReplaceCards, AceStaysFirst, Seating, Enumerates;
    OnTurn(s, id);
    if action.ReplaceAction? && action.cards.Some? {
      ReplaceAcceptedIff(s.game, s.seats[id], action.cards.value);
      ReplacedHand(s.game, s.seats[id], action.cards.value);
    }
  }

  // ----- refusals, and commands that leave the hand alone -----

  /** Off turn only leaving, reading and confirming are open; other texts are refused on turn as well. */
  lemma RefusedCommand(s: State, id: nat, action: Action, order: seq<nat>, order': seq<nat>)
    requires WellFormed(s) && Enumerates(order, s.seats.Keys) && Enumerates(order', s.seats.Keys - {id})
    ensures var r := RunAction(s, id, action, order, order');
      && (!action.Leave? && !action.Update? && !action.KeepPlayingAction? && s.turn != Some(id) ==>
            r == Reply(s, Rejected(NotYourTurn)))
      && (s.turn == Some(id) && (s.game.kind != FiveCardDraw || s.game.round != 1) ==>
            && (action.UnknownAction? || action.ReplaceAction? ==> r == Reply(s, Rejected(InvalidCommand)))
            && (action == RaiseAction(None) ==> r == Reply(s, Rejected(InvalidAmount))))
      && (s.turn == Some(id) && !action.Leave? && !action.Update? && !action.KeepPlayingAction? ==>
            var p := Play(s, id, action, order);
            r.outcome == p.outcome && (p.outcome != Accepted ==> r.state == p.state))
      && (action.Update? ==> r == Reply(s, if id in s.seats then Accepted else Rejected(PlayerNotFound)))
      && (action.KeepPlayingAction? ==>
            if s.showdown.None? then r == Reply(s, Rejected(NoShowdown))
            else if id !in s.seats then r == Reply(s, Rejected(PlayerNotFound))
            else r == Reply(s.(staying := s.staying + {id}), Accepted))
  {
    hide AdvanceTurn, RemovePlayer, Seating, Enumerates;
  }

  // ----- coming and going -----

  /** A newcomer sits down between the head and whoever was before the head; the sixth is refused. */
  lemma JoinCommand(s: State, id: nat, wallet: nat, folded: bool)
    requires WellFormed(s)
    ensures var r := AddPlayer(s, id, wallet, folded); var t := r.state;
      && (id in s.seats ==> r == Reply(s, Accepted))
      && (id !in s.seats && |s.seats| >= 5 ==> r == Reply(s, Rejected(TableFull)))
      && (id !in s.seats && |s.seats| < 5 ==>
            && r.outcome == Accepted && OnlyStakesAnd(s, t) && t.bet == s.bet && t.pot == s.pot && t.bettor == s.bettor
            && t.seats == s.seats[id := Seat(wallet, 0, folded, [])]
            && (s.seats == map[] ==> t.full == [id] && t.head == Some(id) && t.blind == Some(id))
            && (s.seats != map[] ==>
                  && t.head == s.head && t.blind == s.blind && |t.full| == |s.full| + 1
                  && exists j :: 0 <= j < |s.full| && s.full[j] == s.head.value && t.full[j] == id
                       && (forall i :: 0 <= i < j ==> t.full[i] == s.full[i])
                       && forall i :: j <= i < |s.full| ==> t.full[i + 1] == s.full[i]))
  {
    hide Enumerates, InHand, Turning, InsertAt;
    if s.seats == map[] { assert s.seats.Keys == {}; } else { assert s.head.Some? by { HeadSits(s); } }
    if id !in s.seats && |s.seats| < 5 && s.head.Some? {
      HeadPosition(s);
      Inserted(s.full, IndexOf(s.full, s.head.value), id);
    }
  }

  lemma Inserted(ring: seq<nat>, j: nat, id: nat)
    requires j < |ring|
    ensures var r := InsertAt(ring, j, id);
      && |r| == |ring| + 1 && r[j] == id
      && (forall i :: 0 <= i < j ==> r[i] == ring[i]) && forall i :: j <= i < |ring| ==> r[i + 1] == ring[i]
  {
  }

  lemma HeadSits(s: State)
    requires Seating(s) && s.seats != map[]
    ensures s.head.Some?
  {
    var x :| x in s.seats;
    assert x in s.seats.Keys;
  }

  predicate OnlyStakesAnd(s: State, t: State) {
    && t.active == s.active && t.turn == s.turn && t.game == s.game && t.showdown == s.showdown
    && t.staying == s.staying
  }

  /** A leave from a ring of three or more: the leaver's seat goes, the others' stay as they were. */
  lemma LeaveCommand(s: State, k: nat, order: seq<nat>, order': seq<nat>)
    requires WellFormed(s) && |s.active| > 2 && k < |s.active|
    requires Enumerates(order, s.seats.Keys) && Enumerates(order', s.seats.Keys - {s.active[k]})
    ensures var id := s.active[k]; var r := RunAction(s, id, Leave, order, order');
      && r.outcome == Accepted && OutOfRing(s, r.state, k) && r.state.full == order'
      && r.state.seats == s.seats - {id}
  {
    hide EndGame, Withdraw, OutOfRing, Enumerates;
    var id := s.active[k];
    IndexOfAt(s.active, k);
    WithdrawnFromRing(s, k);
    WithdrawnSeat(s, k);
    WithdrawnMarkers(s, k);
    var t := Withdraw(s, k);
    assert t.seats - {id} == s.seats - {id};
    Listed(order', s.seats.Keys - {id}, s.active[Before(k, |s.active|)]);
    assert RemovePlayer(s, id, order, order').state
        == LeftTable(t, id).(full := order');
    SameRing(s, t, LeftTable(t, id).(full := order'), k);
  }

  lemma Listed(order: seq<nat>, ids: set<nat>, x: nat)
    requires Enumerates(order, ids) && x in ids
    ensures x in order && order != []
  {
  }

  lemma WithdrawnMarkers(s: State, k: nat)
    requires Seated(s) && |s.active| > 2 && k < |s.active|
    ensures var t, id := Withdraw(s, k), s.active[k];
      && t.head.Some? && t.head.value in s.seats && t.head != Some(id)
      && t.blind.Some? && t.blind.value in s.seats && t.blind != Some(id)
      && s.active[Before(k, |s.active|)] in s.seats && s.active[Before(k, |s.active|)] != id
  {
    hide Unlink, Enumerates;
    assert s.active[k] in s.seats.Keys;
  }

  lemma SameRing(s: State, t: State, u: State, k: nat)
    requires k < |s.active| && |s.active| >= 2 && OutOfRing(s, t, k)
    requires u.active == t.active && u.turn == t.turn && u.bettor == t.bettor && u.blind == t.blind && u.head == t.head
    requires u.game == t.game && u.pot == t.pot && u.bet == t.bet && u.showdown == t.showdown && u.staying == t.staying
    ensures OutOfRing(s, u, k)
  {
  }

  /** When one of the last two folds or leaves, the other is shown down alone, the markers moved as in any fold. */
  lemma LastTwoCommand(s: State, c: Command)
    requires WellFormed(s) && Legal(s, c) && Endings.LastTwo(s, c)
    ensures |s.active| == 2 && (c.Act? || c.Expire?) && s.active != []
    ensures var u := Endings.ShownDown(s, c); var id := if c.Act? then c.id else s.active[0];
      && u.Some? && u.value.seats.Keys == s.seats.Keys && id in s.seats
      && OnlySeat(s, u.value, id) && u.value.seats[id] == s.seats[id].(folded := true) && u.value.full == s.full
      && OutOfRing(s, u.value, if id == s.active[0] then 0 else 1)
      && Endings.EndsWith(Step(s, c).state, u.value, s, c)
  {
    hide Withdraw, OutOfRing, Step, Advances, Endings.EndsWith, Seating, Enumerates;
    Endings.OnePlace(s, c);
    Endings.LastTwoEnds(s, c);
    var k := IndexOf(s.active, Endings.Goer(s, c));
    WithdrawnFromRing(s, k);
    WithdrawnSeat(s, k);
  }

  /** The last player to leave takes the table's chips and marks with him: nothing is left but the game. */
  lemma LastSeatLeaves(s: State, id: nat, order: seq<nat>, order': seq<nat>)
    requires WellFormed(s) && s.seats.Keys == {id}
    requires Enumerates(order, s.seats.Keys) && Enumerates(order', s.seats.Keys - {id})
    ensures var r := RunAction(s, id, Leave, order, order');
      r == Reply(State(map[], [], [], None, None, None, None, 0, 0, s.game, None, {}), Accepted)
  {
    hide EndGame, Withdraw;
    if s.active != [] { TwoSit(s); }
    EnumerationSize(order', s.seats.Keys - {id});
    assert StepAside(s, id).seats - {id} == map[];
  }

  lemma TwoSit(s: State)
    requires InHand(s) && |s.active| >= 2
    ensures s.active[0] in s.seats && s.active[1] in s.seats && s.active[0] != s.active[1]
  {
  }

  /** A leave by somebody who is not in the hand: a leaving head or blind hands over to the first of the new ring. */
  lemma BystanderLeaves(s: State, id: nat, order: seq<nat>, order': seq<nat>)
    requires WellFormed(s) && id in s.seats && id !in s.active && |s.seats| >= 2
    requires Enumerates(order, s.seats.Keys) && Enumerates(order', s.seats.Keys - {id})
    ensures var r := RunAction(s, id, Leave, order, order'); var t := r.state;
      && r.outcome == Accepted && order' != [] && t.seats == s.seats - {id} && t.full == order'
      && OnlyStakesAnd(s, t) && t.bettor == s.bettor && t.bet == s.bet && t.pot == s.pot
      && t.head == (if s.head == Some(id) then Some(order'[0]) else s.head)
      && t.blind == (if s.blind == Some(id) then t.head else s.blind)
  {
    hide EndGame, Withdraw, Enumerates;
    Sizes(s, id, order');
    assert IndexOf(s.active, id) == |s.active|;
    var t := StepAside(s, id);
    assert t.seats - {id} == s.seats - {id};
    assert s.bettor != Some(id) && s.turn != Some(id) by { NotMarked(s, id); }
  }

  lemma NotMarked(s: State, id: nat)
    requires Turning(s) && id !in s.active
    ensures s.bettor != Some(id) && s.turn != Some(id)
  {
  }

  lemma Sizes(s: State, id: nat, order': seq<nat>)
    requires id in s.seats && |s.seats| >= 2 && Enumerates(order', s.seats.Keys - {id})
    ensures order' != []
  {
    SmallerSet(s.seats.Keys, id);
    EnumerationSize(order', s.seats.Keys - {id});
    assert |s.seats| == |s.seats.Keys|;
  }

  // ----- the turn -----

  /** The turn has gone to the next player of the ring who can bet, and the ring is read from there. */
  ghost predicate TurnOn(p: State, t: State)
    requires Coherent(p)
  {
    var n := |p.active|;
    exists k :: 1 <= k < n
      && !p.seats[p.active[k]].folded && p.seats[p.active[k]].wallet > 0
      && (forall i :: 1 <= i < k ==> p.seats[p.active[i]].folded || p.seats[p.active[i]].wallet == 0)
      && t.turn == Some(p.active[k]) && |t.active| == n
      && forall i :: 0 <= i < n ==> t.active[i] == p.active[if k + i < n then k + i else k + i - n]
  }

  lemma RotatedOn(p: State, t: State, k: nat)
    requires Coherent(p) && 1 <= k < |p.active| && k == NextBetting(p, 1)
    requires t.active == Rotate(p.active, k) && t.turn == Some(p.active[k])
    ensures TurnOn(p, t)
  {
    var n := |p.active|;
    forall i | 0 <= i < n ensures t.active[i] == p.active[if k + i < n then k + i else k + i - n] {
      RotateIndex(p.active, k, i);
    }
  }

  /** Chips, stakes and markers other than the turn are as before; hands and deck may have changed with the round. */
  ghost predicate OnlyTurn(p: State, t: State) {
    && t.seats.Keys == p.seats.Keys
    && (forall x :: x in p.seats ==> t.seats[x] == p.seats[x].(hand := t.seats[x].hand))
    && t == p.(active := t.active, turn := t.turn, seats := t.seats, game := t.game)
    && (t.game.round == p.game.round ==> t.seats == p.seats && t.game == p.game)
    && (t.game.round == p.game.round || t.game.round == p.game.round + 1)
  }

  /** While the hand goes on, the advance moves no chip and no marker but the turn, which goes to the next to bet. */
  lemma TurnPasses(p: State, order: seq<nat>)
    requires WellFormed(p) && p.active != [] && Enumerates(order, p.seats.Keys)
    ensures Coherent(p)
    ensures var t := AdvanceTurn(p, order); t.active != [] ==> TurnOn(p, t) && OnlyTurn(p, t)
  {
    hide RoundAction, FinishRounds, TurnOn, OnlyTurn, Rotate, LapComplete, OthersMatched;
    SeatedCoherent(p);
    var k := NextBetting(p, 1);
    if k == |p.active| {
      FinishSeated(p, order, 20);
    } else {
      NextTurnSeated(p, k);
      var t := p.(active := Rotate(p.active, k), turn := Some(p.active[k]));
      RotatedOn(p, t, k);
      StaysAside(p, t);
      RoundAside(p, t, order);
      if RoundAction(t.(game := NextRound(p.game)), order).goesOn {
        RotatedOn(p, RoundAction(t.(game := NextRound(p.game)), order).state, k);
      }
    }
  }

  lemma StaysAside(p: State, t: State)
    requires t == p.(active := t.active, turn := t.turn)
    ensures OnlyTurn(p, t)
  {
  }

  lemma RoundAside(p: State, t: State, order: seq<nat>)
    requires Seated(t) && t.active != [] && Enumerates(order, p.seats.Keys)
    requires t == p.(active := t.active, turn := t.turn)
    ensures Coherent(t)
    ensures var r := RoundAction(t.(game := NextRound(p.game)), order);
      && (r.goesOn ==> OnlyTurn(p, r.state) && r.state.active == t.active && r.state.turn == t.turn)
      && (!r.goesOn ==> r.state.active == [])
  {
    hide RoundAction, Distinct;
    SeatedCoherent(t);
    var next := t.(game := NextRound(p.game));
    RoundSeated(next, order);
    RoundFrame(next, order);
  }

  // ----- the showdown -----

  /** With nobody left in there is no showdown. */
  lemma NobodyShows(s: State, order: seq<nat>)
    requires Enumerates(order, s.seats.Keys) && forall x :: x in s.seats ==> s.seats[x].folded
    ensures EndGame(s, order) == s
  {
    hide Evaluation.Evaluate, SidePots.WinnerAt, SidePots.Payouts, HandRanks.Compare, Entries, SettledSeats;
    Showdowns.WinnerBeats(s, order);
  }

  /** Everybody gets credit or nothing, and is out of the hand without stake and cards. */
  lemma SeatsSettled(seats: map<nat, Seat>, order: seq<nat>, credit: seq<nat>)
    requires Enumerates(order, seats.Keys) && |credit| == |order|
    ensures forall x :: x in seats ==>
      var p := SettledSeats(seats, order, credit)[x];
      IndexOf(order, x) < |credit| && p == Seat(seats[x].wallet + credit[IndexOf(order, x)], 0, true, [])
  {
  }

  /** Player `next` sits behind player id in the ring, which closes at its end. */
  ghost predicate Follows(ring: seq<nat>, id: nat, next: nat) {
    exists j :: 0 <= j < |ring| && ring[j] == id && next == ring[if j + 1 < |ring| then j + 1 else 0]
  }

  /** The blind moves on by one seat of the full ring. */
  lemma BlindMoves(s: State)
    requires Seating(s) && s.seats.Keys != {}
    ensures s.blind.Some? && NextIn(s.full, s.blind.value).Some?
    ensures Follows(s.full, s.blind.value, NextIn(s.full, s.blind.value).value)
  {
    assert s.blind.value in s.seats.Keys && s.blind.value in s.full;
    var j := IndexOf(s.full, s.blind.value);
    assert s.full[j] == s.blind.value;
  }

  /** After a showdown the winner is head, the blind has moved on by one seat, and nobody is in a hand. */
  lemma ShowdownLeaves(s: State, order: seq<nat>)
    requires Seating(s) && Enumerates(order, s.seats.Keys) && exists x :: x in s.seats && !s.seats[x].folded
    ensures var t := EndGame(s, order);
      && t.showdown.Some? && t.showdown.value in s.seats && !s.seats[t.showdown.value].folded
      && t.head == t.showdown && t.active == [] && t.turn == None && t.bettor == None && t.pot == 0
      && t.staying == {} && t.full == s.full && t.game == s.game && t.bet == s.bet
      && s.blind.Some? && t.blind.Some? && Follows(s.full, s.blind.value, t.blind.value)
      && forall x :: x in s.seats ==>
           && t.seats[x].wallet >= s.seats[x].wallet
           && t.seats[x].bet == 0 && t.seats[x].folded && t.seats[x].hand == []
  {
    hide Evaluation.Evaluate, SidePots.WinnerAt, SidePots.Payouts, HandRanks.Compare, Entries, SettledSeats, NextIn;
    hide Seating, Distinct, Follows;
    var x :| x in s.seats && !s.seats[x].folded;
    assert x in s.seats.Keys;
    Showdowns.WinnerBeats(s, order);
    BlindMoves(s);
    SeatsSettled(s.seats, order, SidePots.Payouts(Entries(s, order), s.pot, HandRanks.Compare));
  }

  // ----- the start of a hand -----

  function AntePaid(p: Seat, amount: nat, asked: bool): Seat {
    if asked && p.bet == 0 && p.wallet >= amount then p.(wallet := p.wallet - amount, bet := amount) else p
  }

  /** Going round for the antes, everybody who has not staked the table bet and can pay it does. */
  lemma {:induction false} AntesTaken(v: State, ids: seq<nat>)
    requires forall x :: x in v.seats ==> v.seats[x].bet == 0 || v.seats[x].bet == v.bet
    ensures var t := CheckEach(v, ids);
      forall x :: x in v.seats ==> t.seats[x] == AntePaid(v.seats[x], v.bet, x in ids)
    decreases |ids|
  {
    if ids != [] {
      var v' := Check(v, ids[0]).state;
      AntesTaken(v', ids[1..]);
      assert forall x :: x in ids <==> x == ids[0] || x in ids[1..];
    }
  }

  /** What player x holds and has staked after the blind and the antes. */
  predicate Opened(before: Seat, after: Seat, blind: bool, ante: bool, paid: bool) {
    && !after.folded
    && if paid && (blind || ante) && before.wallet >= 50
       then after.wallet == before.wallet - 50 && after.bet == 50
       else after.wallet == before.wallet && after.bet == 0
  }

  lemma PostedStakes(d: State)
    requires ReadyToPost(d) && d.bet == 0 && forall x :: x in d.seats ==> d.seats[x].bet == 0 && !d.seats[x].folded
    ensures d.blind.Some? && d.blind.value in d.seats
    ensures var u, b := Posted(d), d.blind.value; var paid := d.seats[b].wallet >= 50;
      && u.bet == (if paid then 50 else 0)
      && forall x :: x in d.seats ==> Opened(d.seats[x], u.seats[x], x == b, d.game.kind != TexasHoldem, paid)
  {
    hide CheckEach, Seating;
    assert d.active[0] in d.active;
    var v := Raise(d, d.active[0], BLIND).state;
    AntesTaken(v, d.active);
    CheckEachFrame(v, d.active);
  }

  /** The ring of a new hand: the order of the map read from the blind, or from behind it where there is no ante. */
  ghost predicate RingFrom(ring: seq<nat>, order: seq<nat>, first: nat, skip: nat)
    requires skip <= 1
  {
    exists b :: 0 <= b < |order| && order[b] == first && |ring| == |order|
      && forall i :: 0 <= i < |order| ==>
           ring[i] == order[if b + skip + i < |order| then b + skip + i else b + skip + i - |order|]
  }

  lemma RingRead(order: seq<nat>, b: nat)
    requires b < |order|
    ensures RingFrom(Rotate(order, b), order, order[b], 0)
    ensures |order| > 1 ==> RingFrom(Rotate(Rotate(order, b), 1), order, order[b], 1)
  {
    hide Rotate;
    RotatePlaces(order, b);
    if |order| > 1 { RotatePlaces(Rotate(order, b), 1); }
  }

  lemma RotatePlaces(ring: seq<nat>, k: nat)
    requires k <= |ring|
    ensures |Rotate(ring, k)| == |ring|
    ensures forall i :: 0 <= i < |ring| ==> Rotate(ring, k)[i] == ring[if k + i < |ring| then k + i else k + i - |ring|]
  {
  }

  lemma DealtInRing(s: State, order: seq<nat>, deck: seq<Card>)
    requires WellFormed(s) && s.active == [] && |s.seats| >= 2 && Enumerates(order, s.seats.Keys)
    ensures s.blind.Some? && s.head.Some?
    ensures var d := DealtIn(s, order, deck);
      && d.full == order && d.head == s.head && d.blind == s.blind && d.showdown == None && d.staying == {}
      && RingFrom(d.active, order, s.blind.value, 0)
      && (|d.active| > 1 ==> RingFrom(Rotate(d.active, 1), order, s.blind.value, 1))
  {
    hide Rotate, RingFrom;
    StartSeatedBlind(s);
    Listed(order, s.seats.Keys, s.blind.value);
    RingRead(order, IndexOf(order, s.blind.value));
    DealtInIs(s, order, deck);
  }

  lemma DealtInIs(s: State, order: seq<nat>, deck: seq<Card>)
    requires Seating(s) && |s.seats| >= 2 && Enumerates(order, s.seats.Keys)
    ensures s.blind.Some? && s.blind.value in s.seats && s.head.Some? && IndexOf(order, s.blind.value) < |order|
    ensures var d := DealtIn(s, order, deck);
      && d.full == order && d.head == s.head && d.blind == s.blind && d.showdown == None && d.staying == {}
      && d.active == Rotate(order, IndexOf(order, s.blind.value)) && |d.active| == |order|
  {
    hide FreshSeats, Distinct;
    StartSeatedBlind(s);
    Listed(order, s.seats.Keys, s.blind.value);
  }

  /** How the seats, the table bet and the ring stand when a hand has started. */
  ghost predicate StartsWith(s: State, t: State, order: seq<nat>, b: nat)
    requires b in s.seats
  {
    var paid := s.seats[b].wallet >= 50;
    && t.seats.Keys == s.seats.Keys && t.full == order && t.head == s.head && t.blind == s.blind
    && t.bettor == Some(b) && t.active != [] && t.turn == Some(t.active[0])
    && t.showdown == None && t.staying == {}
    && RingFrom(t.active, order, b, if s.game.kind == TexasHoldem then 1 else 0)
    && t.bet == (if paid then 50 else 0)
    && forall x :: x in s.seats ==> Opened(s.seats[x], t.seats[x], x == b, s.game.kind != TexasHoldem, paid)
  }

  /** A hand starts with everybody in it, the blind's 50 and in the ante games everybody's, who can pay. */
  lemma StartCommand(s: State, order: seq<nat>, deck: seq<Card>)
    requires WellFormed(s) && Funded(s) && s.active == [] && |s.seats| >= 2 && Enumerates(order, s.seats.Keys)
    ensures s.blind.Some? && s.blind.value in s.seats
    ensures StartsWith(s, StartGame(s, order, deck), order, s.blind.value)
  {
    hide OpenRound, DealtIn, Posted, Rotate, RingFrom, StartsWith, Distinct, Seating, InHand, Turning, Funded, Opened;
    hide FreshSeats, ReadyToPost;
    StartSeatedBlind(s);
    DealtInSeating(s, order, deck);
    PostedStart(s, order, deck);
    var d := DealtIn(s, order, deck);
    PostedSeated(d);
    var u := Posted(d);
    OpenRoundFrame(u.game, u.seats, u.active);
    DealtStart(s, u, StartGame(s, order, deck), order, s.blind.value);
  }

  lemma DealtStart(s: State, u: State, t: State, order: seq<nat>, b: nat)
    requires b in s.seats && StartsWith(s, u, order, b) && t == u.(game := t.game, seats := t.seats)
    requires t.seats.Keys == u.seats.Keys
    requires forall x :: x in u.seats ==> t.seats[x] == u.seats[x].(hand := t.seats[x].hand)
    ensures StartsWith(s, t, order, b)
  {
    hide RingFrom;
  }

  lemma PostedStart(s: State, order: seq<nat>, deck: seq<Card>)
    requires WellFormed(s) && Funded(s) && s.active == [] && |s.seats| >= 2 && Enumerates(order, s.seats.Keys)
    ensures s.blind.Some? && s.blind.value in s.seats && DealtIn(s, order, deck).blind.Some?
    ensures StartsWith(s, Posted(DealtIn(s, order, deck)), order, s.blind.value)
  {
    hide DealtIn, Posted, Rotate, RingFrom, Enumerates, Seating, InHand, Turning, Funded, Opened;
    StartSeatedBlind(s);
    DealtInRing(s, order, deck);
    var d := DealtIn(s, order, deck);
    DealtInSeating(s, order, deck);
    forall x | x in s.seats ensures s.seats[x].bet == 0 {
      NoStakes(s, x);
    }
    PostedStakes(d);
    PostedFrame(d);
    PostedSeated(d);
    ReadHere(Posted(d));
    var b := s.blind.value;
    forall x | x in s.seats
      ensures Opened(s.seats[x], Posted(d).seats[x], x == b, s.game.kind != TexasHoldem, s.seats[b].wallet >= 50)
    {
      FreshOpened(s.seats[x], Posted(d).seats[x], x == b, s.game.kind != TexasHoldem, s.seats[b].wallet >= 50);
    }
  }

  lemma FreshOpened(p: Seat, q: Seat, blind: bool, ante: bool, paid: bool)
    requires Opened(p.(folded := false, hand := []), q, blind, ante, paid)
    ensures Opened(p, q, blind, ante, paid)
  {
  }

  lemma ReadHere(u: State)
    requires Seated(u) && |u.active| >= 2
    ensures u.turn == Some(u.active[0])
  {
  }

  lemma StartSeatedBlind(s: State)
    requires Seating(s) && |s.seats| >= 2
    ensures s.blind.Some? && s.blind.value in s.seats
  {
    assert |s.seats| == |s.seats.Keys|;
  }

  /** No hand starts with fewer than two players or while one is running. */
  lemma StartWaits(s: State, order: seq<nat>, deck: seq<Card>)
    requires WellFormed(s) && Legal(s, Start(order, deck))
    ensures |s.seats| < 2 || s.active != [] ==> Step(s, Start(order, deck)) == Reply(s, Accepted)
    ensures |s.seats| >= 2 && s.active == [] ==> Step(s, Start(order, deck)).state == StartGame(s, order, deck)
  {
    hide StartGame, Seating, Enumerates;
  }

  /** A turn that expires takes its player out of the ring, and then advances from the predecessor. */
  lemma ExpireCommand(s: State, order: seq<nat>, order': seq<nat>)
    requires WellFormed(s) && Legal(s, Expire(order, order')) && |s.active| > 2
    ensures var p := Advancing(s, Expire(order, order'));
      && OutOfRing(s, p, 0) && p.full == order' && p.seats == s.seats - {s.turn.value}
      && Coherent(p) && Enumerates(order', p.seats.Keys)
      && Step(s, Expire(order, order')).state == AdvanceTurn(p, order')
  {
    hide OutOfRing, RemovePlayer, AdvanceTurn, Seating, Enumerates;
    assert s.turn.value == s.active[0];
    LeaveCommand(s, 0, order, order');
    AdvancingStep(s, Expire(order, order'));
  }
}
