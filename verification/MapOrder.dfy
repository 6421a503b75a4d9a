/** Where the iteration order of the player map shows in a running hand, and where it does not. */
module MapOrder {
  import opened Options
  import opened Sums
  import opened Orders
  import opened Cards
  import opened Games
  import opened Protocol
  import opened Rings
  import opened Driver
  import opened Dealing
  import opened Endings
  import opened Outsiders
  import opened Showdowns
  import opened Survivors
  import Betting
  import HandRanks
  import Evaluation

  // ----- ties in a running hand -----

  /** Still in, without a card: a newcomer, or a player of Five Card Draw whose hand the deck could not refill. */
  predicate Bare(s: State, id: nat) {
    id in s.seats && !s.seats[id].folded && s.seats[id].hand == []
  }

  /** Two such players whom nobody with a better hand outdoes on what both have staked. */
  ghost predicate BareTie(s: State) {
    exists a, b :: a != b && Bare(s, a) && Bare(s, b) && !Outdone(s, a, Lesser(s.seats[a].bet, s.seats[b].bet))
  }

  /** Two hands dealt from one deck rank differently, with the board or without. */
  lemma HandsDiffer(s: State, a: nat, b: nat)
    requires a in s.seats && b in s.seats && a != b && s.seats[a].hand != []
    requires forall f :: Held(s, f) <= 1
    ensures RankOf(s, a) != RankOf(s, b)
  {
    hide Evaluation.Evaluate, HandRanks.Compare, Held, Copies;
    var hand, other := ShowdownHand(s.game, s.seats[a].hand), ShowdownHand(s.game, s.seats[b].hand);
    var f := Face(s.seats[a].hand[0]);
    assert Held(s, f) <= 1;
    HeldParts(s, a, b, f);
    CopiesPositive(s.seats[a].hand, 0);
    CopiesConcat(s.seats[a].hand, s.game.community, f);
    CopiesConcat(s.seats[b].hand, s.game.community, f);
    if multiset(hand) == multiset(other) { CopiesOfPermutation(hand, other, f); }
    Evaluation.DifferentCardsDifferentRanks(hand, other);
    HandRanks.CompareEqual(Evaluation.Evaluate(hand), Evaluation.Evaluate(other));
  }

  /** A running hand, shown down, depends on the order of the player map exactly when two players without a card tie. */
  lemma RunningContestedIff(s: State)
    requires s.active != [] && SingleCopies(s)
    ensures Contested(s) <==> BareTie(s)
  {
    hide RankOf, HandRanks.Compare, Held, Outdone;
    if Contested(s) {
      var a, b :| Tied(s, a, b) && !Outdone(s, a, Lesser(s.seats[a].bet, s.seats[b].bet));
      TiedBare(s, a, b);
    }
    if BareTie(s) {
      var a, b :| a != b && Bare(s, a) && Bare(s, b) && !Outdone(s, a, Lesser(s.seats[a].bet, s.seats[b].bet));
      BareRank(s, a);
      BareRank(s, b);
      assert Tied(s, a, b);
    }
  }

  lemma BareRank(s: State, x: nat)
    requires Bare(s, x)
    ensures RankOf(s, x) == BoardRank(s)
  {
    hide Evaluation.Evaluate;
  }

  lemma TiedBare(s: State, a: nat, b: nat)
    requires s.active != [] && SingleCopies(s) && Tied(s, a, b)
    ensures Bare(s, a) && Bare(s, b)
  {
    hide RankOf, Held;
    if s.seats[a].hand != [] { HandsDiffer(s, a, b); }
    if s.seats[b].hand != [] { HandsDiffer(s, b, a); }
  }

  // ----- the last fold -----

  /** Two players other than id are still in without a card. */
  ghost predicate TwoBare(s: State, id: nat) {
    exists x, y :: x != y && x != id && y != id && Bare(s, x) && Bare(s, y)
  }

  /**
   When one of the last two folds, the result depends on the order exactly when two players without a card are left
   and the other's hand does not outrank the bare board.
   */
  lemma LastFoldOrderIff(s: State, id: nat)
    requires WellFormed(s) && SingleCopies(s) && BareOutsiders(s) && |s.active| == 2 && id in s.active
    ensures var other := Other(s, id);
      && other in s.seats
      && ((forall order, order' :: Enumerates(order, s.seats.Keys) && Enumerates(order', s.seats.Keys) ==>
             Fold(s, id, order).state == Fold(s, id, order').state)
          <==> !TwoBare(s, id) || HandRanks.Compare(RankOf(s, other), BoardRank(s)) == Greater)
  {
    hide EndGame, Withdraw, Fold, Contested, BareTie, RankOf, BoardRank, HandRanks.Compare, Enumerates, Held, Seating;
    var u := Withdraw(s, IndexOf(s.active, id));
    WithdrawnRunning(s, id);
    RunningContestedIff(u);
    WithdrawnTie(s, id);
    ShowdownOrderIff(u);
    forall order | Enumerates(order, s.seats.Keys) ensures Fold(s, id, order).state == EndGame(u, order) {
      FoldIsWithdrawal(s, id, order);
    }
  }

  lemma WithdrawnRunning(s: State, id: nat)
    requires WellFormed(s) && SingleCopies(s) && |s.active| == 2 && id in s.active
    ensures IndexOf(s.active, id) < 2
    ensures var u := Withdraw(s, IndexOf(s.active, id)); var other := Other(s, id);
      && u.active == [other] && SingleCopies(u) && u.seats.Keys == s.seats.Keys && other in s.seats
      && RankOf(u, other) == RankOf(s, other) && BoardRank(u) == BoardRank(s)
      && forall x :: x in s.seats ==> u.seats[x] == s.seats[x].(folded := s.seats[x].folded || x == id)
  {
    hide Held, RankOf, BoardRank, Seating, Moved;
    var u, other := Withdraw(s, IndexOf(s.active, id)), Other(s, id);
    assert s.active[0] in s.active && s.active[1] in s.active;
    assert u.active == [other];
    SameRanks(s, u, other);
    forall f ensures Held(u, f) <= 1 {
      HeldSame(s, u, f);
      assert Held(s, f) <= 1;
    }
  }

  lemma SameRanks(s: State, u: State, id: nat)
    requires u.game == s.game && id in s.seats && id in u.seats && u.seats[id].hand == s.seats[id].hand
    ensures RankOf(u, id) == RankOf(s, id) && BoardRank(u) == BoardRank(s)
  {
  }

  /** With one player left in the ring, only that player can outdo the others. */
  lemma WithdrawnTie(s: State, id: nat)
    requires WellFormed(s) && SingleCopies(s) && BareOutsiders(s) && |s.active| == 2 && id in s.active
    ensures IndexOf(s.active, id) < 2 && Other(s, id) in s.seats
    ensures BareTie(Withdraw(s, IndexOf(s.active, id))) <==>
      TwoBare(s, id) && HandRanks.Compare(RankOf(s, Other(s, id)), BoardRank(s)) != Greater
  {
    hide Withdraw, RankOf, BoardRank, HandRanks.Compare, BareTie, SingleCopies, BareOutsiders, Seating, Distinct;
    WithdrawnRunning(s, id);
    var u, other := Withdraw(s, IndexOf(s.active, id)), Other(s, id);
    OthersOutside(s, id);
    OneLeftTie(u, other);
    assert forall x :: Bare(u, x) <==> Bare(s, x) && x != id;
  }

  /** With one hand left and nothing staked by anybody else still in. */
  lemma OneLeftTie(u: State, other: nat)
    requires other in u.seats && !u.seats[other].folded
    requires forall x :: x in u.seats && !u.seats[x].folded && x != other ==>
      u.seats[x].hand == [] && u.seats[x].bet == 0
    ensures BareTie(u) <==>
      (exists x, y :: x != y && Bare(u, x) && Bare(u, y))
      && HandRanks.Compare(RankOf(u, other), BoardRank(u)) != Greater
  {
    hide RankOf, BoardRank, HandRanks.Compare, Outdone;
    forall a | Bare(u, a)
      ensures Outdone(u, a, 0) <==> HandRanks.Compare(RankOf(u, other), BoardRank(u)) == Greater
    {
      OnlyOtherOver(u, other, a);
    }
    forall a, b | a != b && Bare(u, a) && Bare(u, b) ensures Lesser(u.seats[a].bet, u.seats[b].bet) == 0 {
      assert a != other || b != other;
    }
  }

  lemma OthersOutside(s: State, id: nat)
    requires InHand(s) && BareOutsiders(s) && |s.active| == 2 && id in s.active
    ensures Other(s, id) in s.seats && !s.seats[Other(s, id)].folded && Other(s, id) != id
    ensures forall x :: x in s.seats && !s.seats[x].folded && x != id && x != Other(s, id) ==>
      s.seats[x].hand == [] && s.seats[x].bet == 0
  {
    assert forall x :: x in s.active <==> x == s.active[0] || x == s.active[1];
    assert forall x :: x in s.seats && !s.seats[x].folded && x != id && x != Other(s, id) ==> Outside(s, x);
  }

  lemma OnlyOtherOver(u: State, other: nat, a: nat)
    requires other in u.seats && !u.seats[other].folded && Bare(u, a)
    requires forall x :: x in u.seats && !u.seats[x].folded && x != other ==> u.seats[x].hand == []
    ensures Outdone(u, a, 0) <==> HandRanks.Compare(RankOf(u, other), BoardRank(u)) == Greater
  {
    hide RankOf, BoardRank, HandRanks.Compare;
    BareRank(u, a);
    HandRanks.CompareEqual(BoardRank(u), BoardRank(u));
    forall c | c in u.seats && Over(u, c, a) ensures c == other {
      if c != other { BareRank(u, c); }
    }
    OutdoneAtZero(u, a, other);
  }

  // ----- any command -----

  /** Apart from the last fold, what a turn command does before the advance has nothing to do with the order. */
  lemma PlayForgetsOrder(s: State, id: nat, action: Action, order: seq<nat>, other: seq<nat>)
    requires WellFormed(s) && s.turn == Some(id)
    requires Enumerates(order, s.seats.Keys) && Enumerates(other, s.seats.Keys)
    requires action.FoldAction? && !DrawRound(s.game) ==> |s.active| != 2
    ensures Play(s, id, action, order) == Play(s, id, action, other)
  {
    hide EndGame, Withdraw, ReplaceCards, Seating, Enumerates;
    assert s.active[0] == id && id in s.active;
  }

  lemma LeaveForgetsOrder(s: State, id: nat, order: seq<nat>, other: seq<nat>, order': seq<nat>)
    requires WellFormed(s) && (|s.active| != 2 || id !in s.active)
    requires Enumerates(order, s.seats.Keys) && Enumerates(other, s.seats.Keys)
    requires Enumerates(order', s.seats.Keys - {id})
    ensures RemovePlayer(s, id, order, order') == RemovePlayer(s, id, other, order')
  {
    hide EndGame, Withdraw, Seating, Enumerates;
  }

  /** The showdown to which a command leads, and its result if it leads to none, have nothing to do with the order. */
  lemma ShownDownForgetsOrder(s: State, id: nat, action: Action, order: seq<nat>, other: seq<nat>, order': seq<nat>)
    requires WellFormed(s) && s.active != []
    requires Enumerates(order, s.seats.Keys) && Enumerates(other, s.seats.Keys)
    requires Enumerates(order', s.seats.Keys - {id})
    ensures var c, d := Act(id, action, order, order'), Act(id, action, other, order');
      && ShownDown(s, c) == ShownDown(s, d)
      && (ShownDown(s, c).None? ==>
            RunAction(s, id, action, order, order') == RunAction(s, id, action, other, order'))
      && RunAction(s, id, action, order, order').outcome == RunAction(s, id, action, other, order').outcome
  {
    hide Play, AdvanceTurn, RemovePlayer, PassingShown, Withdraw, Seating, Enumerates;
    var c := Act(id, action, order, order');
    if LastTwo(s, c) {
      LastTwoAccepted(s, id, action, order, order');
      LastTwoAccepted(s, id, action, other, order');
    } else if action.Leave? {
      LeaveForgetsOrder(s, id, order, other, order');
    } else if s.turn == Some(id) {
      PlayForgetsOrder(s, id, action, order, other);
      PlayWellFormed(s, id, action, order);
      if Advances(s, c) { AdvanceShows(Advancing(s, c), order); }
    }
  }

  lemma LastTwoAccepted(s: State, id: nat, action: Action, order: seq<nat>, order': seq<nat>)
    requires WellFormed(s) && Enumerates(order, s.seats.Keys) && Enumerates(order', s.seats.Keys - {id})
    requires LastTwo(s, Act(id, action, order, order'))
    ensures RunAction(s, id, action, order, order').outcome == Accepted
  {
    hide EndGame, Withdraw, AdvanceTurn, Rebuild, Enumerates, Seating;
    OnePlace(s, Act(id, action, order, order'));
  }

  /** Two different showdowns stay different when a player who has folded leaves. */
  lemma LeavingKeepsDifference(t: State, t': State, id: nat, b: nat, order': seq<nat>)
    requires b in t.seats && b in t'.seats && b != id && t.seats.Keys == t'.seats.Keys
    requires Enumerates(order', t.seats.Keys - {id})
    requires t.showdown != t'.showdown || t.seats[b].wallet != t'.seats[b].wallet
    ensures LeftTable(t, id).seats.Keys == t.seats.Keys - {id} && LeftTable(t', id).seats.Keys == t.seats.Keys - {id}
    ensures Rebuild(LeftTable(t, id), order') != Rebuild(LeftTable(t', id), order')
  {
    var r, r' := Rebuild(LeftTable(t, id), order'), Rebuild(LeftTable(t', id), order');
    assert b in t.seats.Keys - {id};
    assert order' != [];
    assert r.showdown == t.showdown && r'.showdown == t'.showdown;
    assert r.seats[b] == t.seats[b] && r'.seats[b] == t'.seats[b];
  }

  /** The result of a command that leads to the showdown u. */
  function Ending(u: State, id: nat, action: Action, order: seq<nat>, order': seq<nat>): State
    requires Enumerates(order, u.seats.Keys) && Enumerates(order', u.seats.Keys - {id})
  {
    if action.Leave? then
      var t := LeftTable(EndGame(u, order), id);
      assert t.seats.Keys == u.seats.Keys - {id};
      Rebuild(t, order')
    else EndGame(u, order)
  }

  lemma CommandEnds(s: State, id: nat, action: Action, order: seq<nat>, order': seq<nat>)
    requires WellFormed(s) && s.active != []
    requires Enumerates(order, s.seats.Keys) && Enumerates(order', s.seats.Keys - {id})
    ensures var u := ShownDown(s, Act(id, action, order, order'));
      u.Some? ==>
        && u.value.seats.Keys == s.seats.Keys
        && RunAction(s, id, action, order, order').state == Ending(u.value, id, action, order, order')
        && (action.Leave? ==> id in s.seats && u.value.seats[id].folded)
  {
    hide RunAction, EndGame, Rebuild, LeftTable, PassingShown, Unlink, Moved, Play, Seating, Enumerates;
    var c := Act(id, action, order, order');
    StepShowsDown(s, c);
    if LastTwo(s, c) {
      OnePlace(s, c);
    } else if ShownDown(s, c).Some? {
      AdvancingStep(s, c);
    }
  }

  lemma SameEnding(u: State, id: nat, action: Action, order: seq<nat>, other: seq<nat>, order': seq<nat>)
    requires Enumerates(order, u.seats.Keys) && Enumerates(other, u.seats.Keys)
    requires Enumerates(order', u.seats.Keys - {id}) && !Contested(u)
    ensures Ending(u, id, action, order, order') == Ending(u, id, action, other, order')
  {
    hide EndGame, Rebuild, LeftTable, Contested, Enumerates;
    EndGameForgetsOrder(u, order, other);
  }

  lemma OtherEnding(u: State, id: nat, action: Action, order': seq<nat>)
    returns (one: seq<nat>, two: seq<nat>)
    requires Enumerates(order', u.seats.Keys - {id}) && Contested(u)
    requires action.Leave? ==> id in u.seats && u.seats[id].folded
    ensures Enumerates(one, u.seats.Keys) && Enumerates(two, u.seats.Keys)
    ensures Ending(u, id, action, one, order') != Ending(u, id, action, two, order')
  {
    hide EndGame, Rebuild, LeftTable, Enumerates, RankOf, Outdone;
    var a, b :| Tied(u, a, b) && !Outdone(u, a, Lesser(u.seats[a].bet, u.seats[b].bet));
    one, two := ContestedDepends(u, a, b);
    if action.Leave? { LeavingKeepsDifference(EndGame(u, one), EndGame(u, two), id, b, order'); }
  }

  /**
   The result of a command on a running hand depends on the order of the player map exactly when the command leads to
   a contested showdown; a leave still rebuilds the ring along its second order.
   */
  lemma CommandOrderIff(s: State, id: nat, action: Action, order: seq<nat>, order': seq<nat>)
    requires WellFormed(s) && s.active != []
    requires Enumerates(order, s.seats.Keys) && Enumerates(order', s.seats.Keys - {id})
    ensures
      (forall other :: Enumerates(other, s.seats.Keys) ==>
         RunAction(s, id, action, other, order') == RunAction(s, id, action, order, order'))
      <==> (ShownDown(s, Act(id, action, order, order')).Some? ==>
              !Contested(ShownDown(s, Act(id, action, order, order')).value))
  {
    hide RunAction, ShownDown, Contested, Ending, Enumerates, Seating;
    var u := ShownDown(s, Act(id, action, order, order'));
    CommandEnds(s, id, action, order, order');
    forall other | Enumerates(other, s.seats.Keys)
      ensures (u.None? ==> RunAction(s, id, action, other, order') == RunAction(s, id, action, order, order'))
      ensures u.Some? ==> RunAction(s, id, action, other, order').state == Ending(u.value, id, action, other, order')
      ensures RunAction(s, id, action, other, order').outcome == RunAction(s, id, action, order, order').outcome
    {
      ShownDownForgetsOrder(s, id, action, order, other, order');
      CommandEnds(s, id, action, other, order');
    }
    if u.Some? && Contested(u.value) {
      var one, two := OtherEnding(u.value, id, action, order');
    } else if u.Some? {
      forall other | Enumerates(other, s.seats.Keys)
        ensures Ending(u.value, id, action, other, order') == Ending(u.value, id, action, order, order')
      {
        SameEnding(u.value, id, action, other, order, order');
      }
    }
  }

  // ----- with a full hand to show -----

  /** Two players joined while the hand was running. */
  ghost predicate TwoOutside(s: State) {
    exists x, y :: x != y && Outside(s, x) && Outside(s, y)
  }

  lemma AdvancingOutsiders(s: State, c: Command)
    requires WellFormed(s) && Legal(s, c) && Advances(s, c)
    ensures NoNewOutsiders(s, Advancing(s, c))
  {
    hide Fold, RemovePlayer, ReplaceCards, Seating, Enumerates;
    match c
    case Act(id, action, order, order') =>
      assert s.active[0] == id && id in s.active;
      if !DrawRound(s.game) && action.FoldAction? {
        FoldOutsiders(s, id, order);
      } else if DrawRound(s.game) && action.ReplaceAction? && action.cards.Some? {
        ReplaceFrame(s.game, s.seats[id], action.cards.value);
      }
    case Expire(order, order') =>
      var id := s.turn.value;
      assert s.active[0] == id && id in s.active;
      FoldOutsiders(s, id, order);
      Betting.RemoveFields(s, id, order, order');
      RemoveSeated(s, id, order, order');
  }

  /** In Stud and Hold'em only newcomers come to a showdown without a card, and somebody else comes with cards. */
  lemma ShownDownBare(s: State, c: Command) returns (y: nat)
    requires WellFormed(s) && Portions(s) && SingleCopies(s) && BareOutsiders(s) && Legal(s, c)
    requires s.active != [] && s.game.kind != FiveCardDraw && ShownDown(s, c).Some?
    ensures var u := ShownDown(s, c).value;
      && (forall x :: Bare(u, x) ==> Outside(s, x) && u.seats[x].bet == 0)
      && u.game.kind == s.game.kind && y in u.seats && !u.seats[y].folded && u.seats[y].hand != []
  {
    hide Step, Advances, Advancing, LastTwo, Withdraw, PassingShown, RightDeck, UpCount, Held, Seating, Enumerates;
    var u := ShownDown(s, c).value;
    if LastTwo(s, c) {
      OnePlace(s, c);
      LastTwoSeats(s, c);
      y := Other(s, Goer(s, c));
      LastTwoBare(s, Goer(s, c), y);
    } else {
      ShownDownCards(s, c);
      StepShowsDown(s, c);
      AdvancingStep(s, c);
      AdvancingOutsiders(s, c);
      SameKind(Advancing(s, c));
      y := u.active[0];
      assert y in u.active;
      PlayersShow(Advancing(s, c), u, y);
    }
  }

  /** One deck's cards are also what is shown down. */
  lemma ShownDownSingle(s: State, c: Command)
    requires WellFormed(s) && Portions(s) && SingleCopies(s) && Legal(s, c) && s.active != []
    ensures ShownDown(s, c).Some? ==> ShownDown(s, c).value.active != [] && SingleCopies(ShownDown(s, c).value)
  {
    hide Step, Advances, Advancing, LastTwo, Withdraw, PassingShown, Portions, Held, Seating, Enumerates;
    if LastTwo(s, c) {
      OnePlace(s, c);
      LastTwoSeats(s, c);
      WithdrawnRunning(s, Goer(s, c));
    } else {
      ShownDownCards(s, c);
    }
  }

  lemma LastTwoSeats(s: State, c: Command)
    requires WellFormed(s) && Legal(s, c) && LastTwo(s, c)
    ensures |s.active| == 2
  {
  }

  lemma LastTwoBare(s: State, id: nat, y: nat)
    requires WellFormed(s) && Portions(s) && s.game.kind != FiveCardDraw && |s.active| == 2 && id in s.active
    requires y == Other(s, id)
    ensures var u := Withdraw(s, IndexOf(s.active, id));
      IndexOf(s.active, id) < 2 && y in u.seats && !u.seats[y].folded && u.seats[y].hand != []
      && u.game == s.game && forall x :: Bare(u, x) ==> Outside(s, x) && u.seats[x].bet == s.seats[x].bet
  {
    hide RightDeck, UpCount, Unlink, Moved, Seating;
    assert s.active[0] in s.active && s.active[1] in s.active;
    assert forall x :: x in s.active <==> x == s.active[0] || x == s.active[1];
  }

  lemma SameKind(p: State)
    requires WellFormed(p)
    ensures Coherent(p) && (PassingShown(p).Some? ==> PassingShown(p).value.game.kind == p.game.kind)
  {
    hide PlayedOut, Rotate, LapComplete, OthersMatched;
    SeatedCoherent(p);
    PlayedOutFrame(p, 0);
  }

  /** Whoever is in the ring shows cards, so a player without a card is outside it. */
  lemma PlayersShow(p: State, u: State, y: nat)
    requires InHand(p) && (forall x :: x in u.active <==> x in p.active) && u.seats.Keys == p.seats.Keys
    requires forall x :: x in p.seats ==> u.seats[x] == p.seats[x].(hand := u.seats[x].hand)
    requires (forall x :: x in u.active ==> FullHand(u, x)) && u.game.kind != FiveCardDraw && y in u.active
    ensures forall x :: Bare(u, x) ==> Outside(p, x) && u.seats[x].bet == p.seats[x].bet
    ensures y in u.seats && !u.seats[y].folded && u.seats[y].hand != []
  {
    hide UpCount;
    var i :| 0 <= i < |p.active| && p.active[i] == y;
  }

  /** So in Stud no showdown is tied, and in Hold'em none is with at most one newcomer. */
  lemma FullHandsDoNotTie(s: State, c: Command)
    requires WellFormed(s) && Portions(s) && SingleCopies(s) && BareOutsiders(s) && Legal(s, c)
    requires s.active != [] && s.game.kind != FiveCardDraw && (s.game.kind == TexasHoldem ==> !TwoOutside(s))
    ensures ShownDown(s, c).Some? ==> !BareTie(ShownDown(s, c).value)
  {
    hide ShownDown, Held, RankOf, BoardRank, HandRanks.Compare, Portions, Seating;
    if ShownDown(s, c).Some? {
      var u := ShownDown(s, c).value;
      var y := ShownDownBare(s, c);
      if BareTie(u) {
        var a, b :| a != b && Bare(u, a) && Bare(u, b) && !Outdone(u, a, Lesser(u.seats[a].bet, u.seats[b].bet));
        assert Outside(s, a) && Outside(s, b);
        CardsBeatNone(u, y);
        BareRank(u, a);
        OutdoneAtZero(u, a, y);
      }
    }
  }
}
