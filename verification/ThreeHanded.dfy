/** Short runs of three players: rounds that close over somebody, and a table bet that nobody has staked. */
module ThreeHanded {
  import opened Options
  import opened Sums
  import opened Cards
  import opened Games
  import opened Protocol
  import opened Rings
  import opened Driver
  import opened Betting
  import opened Limits
  import opened Turns
  import opened Witnesses
  import opened Openings

  /** The command closes the round, with the hand still running, and x, who can bet, has not acted in it. */
  ghost predicate ClosesOver(s: State, r: Rota, c: Command, x: nat)
    requires WellFormed(s) && Legal(s, c)
  {
    && Advances(s, c) && Waits(Advancing(s, c), ActedBy(s, r, c), x)
    && Step(s, c).state.active != [] && Step(s, c).state.game.round == s.game.round + 1
  }

  /** A check that closes a round before the last one. */
  lemma CheckClosesOver(s: State, r: Rota, id: nat, order: seq<nat>, order': seq<nat>, x: nat)
    requires WellFormed(s) && AllSettled(s) && s.turn == Some(id) && !DrawRound(s.game) && Coherent(s)
    requires Enumerates(order, s.seats.Keys) && Enumerates(order', s.seats.Keys - {id})
    requires s.seats[id].bet == s.bet && s.game.round < LastRound(s.game.kind) && NextUp(s).Some?
    requires s.bettor.Some? && (s.bettor == NextUp(s) || s.seats[s.bettor.value].wallet == 0)
    requires Waits(s, r.acted + {id}, x)
    ensures ClosesOver(s, r, Act(id, CheckAction, order, order'), x)
  {
    hide AdvanceTurn, Enumerates, Seating;
    var c := Act(id, CheckAction, order, order');
    OnTurn(s, id);
    AdvancingStep(s, c);
    assert Advancing(s, c) == s;
    CloseOpens(s, order);
  }

  lemma CloseOpens(p: State, order: seq<nat>)
    requires WellFormed(p) && Coherent(p) && Closes(p) && Enumerates(order, p.seats.Keys)
    requires p.game.round < LastRound(p.game.kind)
    ensures var t := AdvanceTurn(p, order); t.active != [] && t.game.round == p.game.round + 1
  {
    hide RoundAction, FinishRounds, LapComplete, OthersMatched, Rotate;
    var k := NextBetting(p, 1);
    NextTurnSeated(p, k);
    RoundSeated(p.(active := Rotate(p.active, k), turn := Some(p.active[k]), game := NextRound(p.game)), order);
  }

  lemma ThreeOrders()
    ensures Ids(3) == [1, 2, 3] && Enumerates(Ids(3), {1, 2, 3}) && Enumerates([2, 3], {1, 2, 3} - {1})
    ensures Enumerates([1, 3], {1, 2, 3} - {2})
  {
    var a: seq<nat>, b: seq<nat> := [2, 3], [1, 3];
    assert a[0] == 2 && a[1] == 3 && b[0] == 1 && b[1] == 3;
    IdsEnumerate(3, {1, 2, 3});
  }

  /** Three players after the antes of a Stud hand; the first brought w chips. */
  ghost predicate Three(s: State, w: nat) {
    && WellFormed(s) && s.active == [1, 2, 3] && s.turn == Some(1) && s.bettor == Some(1) && s.bet == 50
    && s.game.kind == SevenCardStud && s.game.round == 0 && s.seats.Keys == {1, 2, 3}
    && s.seats[1].wallet == w && s.seats[2].wallet == 950 && s.seats[3].wallet == 950
    && forall x :: x in s.seats ==> s.seats[x].bet == 50 && !s.seats[x].folded
  }

  function StudOpening(w: nat): seq<Command> { Opening(3, w, NewDeck()) }

  lemma ThreeBegin(w: nat) returns (s: State)
    requires w >= BLIND
    ensures Tracks(SevenCardStud, StudOpening(w), s, Rota({}, 50)) && Three(s, w - 50)
  {
    hide Tracks, FirstHand, WellFormed;
    ThreeOrders();
    s := Begin(SevenCardStud, 3, w, NewDeck());
    assert s.seats.Keys == {1, 2, 3};
  }

  /** The first player is out of chips with the blind: one check closes the round, and the others have had no turn. */
  lemma BrokeBettorReached() returns (s: State)
    ensures Tracks(SevenCardStud, StudOpening(50), s, Rota({}, 50)) && WellFormed(s)
    ensures var c := Act(1, CheckAction, Ids(3), [2, 3]);
      Legal(s, c) && ClosesOver(s, Rota({}, 50), c, 2) && ClosesOver(s, Rota({}, 50), c, 3)
  {
    hide Tracks, AdvanceTurn, ClosesOver, Enumerates;
    ThreeOrders();
    s := ThreeBegin(50);
    SeatedCoherent(s);
    var r := Rota({}, 50);
    assert s.active[0] == 1 && s.active[1] == 2 && s.active[2] == 3;
    assert NextBetting(s, 1) == 1;
    CheckClosesOver(s, r, 1, Ids(3), [2, 3], 2);
    CheckClosesOver(s, r, 1, Ids(3), [2, 3], 3);
  }

  // ----- a bettor who folds -----

  /** The first player, on turn and bettor, has folded: the mark moves back to the third, the turn on to the second. */
  function Folded(s: State): State
    requires 1 in s.seats
  {
    s.(seats := s.seats[1 := s.seats[1].(folded := true)], active := [2, 3], turn := Some(2), bettor := Some(3),
       head := Moved(s.head, 1, Some(2)), blind := Moved(s.blind, 1, Some(3)))
  }

  lemma FoldMoves(s: State)
    requires Three(s, 950) && Enumerates(Ids(3), s.seats.Keys)
    ensures var p := Fold(s, 1, Ids(3)).state;
      && p == Folded(s).(active := [3, 2], turn := Some(3)) && Coherent(p)
      && AdvanceTurn(p, Ids(3)) == Folded(s)
  {
    hide EndGame, RoundAction, FinishRounds, Enumerates, Seating;
    assert s.active[0] == 1 && s.active[1] == 2 && s.active[2] == 3;
    assert IndexOf(s.active, 1) == 0;
    assert Unlink([1, 2, 3], 0) == [3, 2];
    var p := Withdraw(s, 0);
    assert p == Folded(s).(active := [3, 2], turn := Some(3));
    assert NextBetting(p, 1) == 1;
    assert Rotate([3, 2], 1) == [2, 3];
  }

  /** The second player checks, which closes the round: the third, now the bettor, has chips and has had no turn. */
  lemma MovedMarkReached() returns (s: State)
    ensures Tracks(SevenCardStud, StudOpening(1000) + [Act(1, FoldAction, Ids(3), [2, 3])], s, Rota({1}, 50))
    ensures WellFormed(s)
    ensures var c := Act(2, CheckAction, Ids(3), [1, 3]);
      Legal(s, c) && ClosesOver(s, Rota({1}, 50), c, 3)
  {
    hide Tracks, AdvanceTurn, ClosesOver, Enumerates, Fold;
    ThreeOrders();
    var t := ThreeBegin(1000);
    var c := Act(1, FoldAction, Ids(3), [2, 3]);
    FoldMoves(t);
    TracksThen(SevenCardStud, StudOpening(1000), t, Rota({}, 50), c);
    s := Folded(t);
    assert Step(t, c).state == s by { FoldStep(t); }
    assert Follow(t, Rota({}, 50), c) == Rota({1}, 50) by { FoldStep(t); }
    SeatedCoherent(s);
    assert s.seats.Keys == {1, 2, 3};
    assert s.active[0] == 2 && s.active[1] == 3;
    assert NextBetting(s, 1) == 1;
    CheckClosesOver(s, Rota({1}, 50), 2, Ids(3), [1, 3], 3);
  }

  lemma FoldStep(t: State)
    requires Three(t, 950) && Enumerates(Ids(3), t.seats.Keys) && Enumerates([2, 3], t.seats.Keys - {1})
    ensures var c := Act(1, FoldAction, Ids(3), [2, 3]);
      && Legal(t, c) && Step(t, c).state == Folded(t) && Advances(t, c)
      && Follow(t, Rota({}, 50), c) == Rota({1}, 50)
  {
    hide Fold, AdvanceTurn, Enumerates, Seating;
    FoldMoves(t);
    FoldAccepted(t, 1, Ids(3));
    PlayWellFormed(t, 1, FoldAction, Ids(3));
  }

  lemma FoldAccepted(t: State, id: nat, order: seq<nat>)
    requires id in t.seats && Enumerates(order, t.seats.Keys)
    ensures Fold(t, id, order).outcome == Accepted
  {
    hide EndGame, Withdraw;
  }

  // ----- the blind of Hold'em -----

  /** The second player checks before the flop: the blind has 950 chips and has had no turn. */
  lemma BlindReached()
    ensures Reaches(TexasHoldem, Joins() + [Start(ORDER, CutDeck())], BeforeFlop()) && WellFormed(BeforeFlop())
    ensures var c := Act(2, CheckAction, ORDER, [1]);
      Legal(BeforeFlop(), c) && ClosesOver(BeforeFlop(), Rota({}, 50), c, 1)
  {
    hide Reaches, CutDeck, DealtCards, DeckAfter, WellFormed, AdvanceTurn;
    FlopComing();
    var s, c := BeforeFlop(), Act(2, CheckAction, ORDER, [1]);
    LegalTwo(s, 2);
    assert s.active[0] == 2 && s.active[1] == 1;
    var p := Check(s, 2).state;
    AdvancingStep(s, c);
    assert Advancing(s, c) == p;
    assert NextBetting(p, 1) == 1;
    assert Closes(p);
    CloseOpens(p, ORDER);
    assert Waits(p, {2}, 1);
  }

  // ----- a table bet above every stake -----

  /** The first player has raised by 50. */
  function RaisedOnce(s: State): State
    requires 1 in s.seats
  {
    s.(seats := s.seats[1 := s.seats[1].(wallet := 900, bet := 100)], active := [2, 3, 1], turn := Some(2),
       bettor := Some(1), bet := 100, pot := s.pot + 50)
  }

  lemma RaiseStep(s: State)
    requires Three(s, 950) && Enumerates(Ids(3), s.seats.Keys) && Enumerates([2, 3], s.seats.Keys - {1})
    ensures var c := Act(1, RaiseAction(Some(50)), Ids(3), [2, 3]);
      Legal(s, c) && Step(s, c).state == RaisedOnce(s)
  {
    hide EndGame, RoundAction, FinishRounds, Enumerates, Seating;
    assert s.active[0] == 1 && s.active[1] == 2 && s.active[2] == 3;
    var p := Raise(s, 1, 50).state;
    PlayWellFormed(s, 1, RaiseAction(Some(50)), Ids(3));
    assert NextBetting(p, 1) == 1;
    assert Rotate([1, 2, 3], 1) == [2, 3, 1];
  }

  /** When the raiser leaves, the table bet of 100 stands above the stakes of 50 of everybody seated. */
  lemma UnstakedBetReached() returns (s: State)
    ensures Reaches(SevenCardStud,
                    StudOpening(1000) + [Act(1, RaiseAction(Some(50)), Ids(3), [2, 3])]
                      + [Act(1, Leave, Ids(3), [2, 3])], s)
    ensures s.active != [] && s.bet == 100 && s.seats.Keys == {2, 3}
    ensures s.seats[2].bet == 50 && s.seats[3].bet == 50 && !Reached(s)
  {
    hide Tracks, Fold, RemovePlayer, Enumerates, Reached, WellFormed, Reaches;
    ThreeOrders();
    var t := ThreeBegin(1000);
    RaiseStep(t);
    var c, d := Act(1, RaiseAction(Some(50)), Ids(3), [2, 3]), Act(1, Leave, Ids(3), [2, 3]);
    TracksReaches(SevenCardStud, StudOpening(1000), t, Rota({}, 50));
    ReachesThen(SevenCardStud, StudOpening(1000), t, c);
    var u := RaisedOnce(t);
    assert u.seats.Keys == {1, 2, 3};
    ReachesThen(SevenCardStud, StudOpening(1000) + [c], u, d);
    s := Step(u, d).state;
    RaiserGone(u);
  }

  lemma RaiserGone(u: State)
    requires WellFormed(u) && u.active == [2, 3, 1] && u.bet == 100 && u.seats.Keys == {1, 2, 3}
    requires u.seats[2].bet == 50 && u.seats[3].bet == 50
    requires Enumerates(Ids(3), u.seats.Keys) && Enumerates([2, 3], u.seats.Keys - {1})
    ensures var s := RemovePlayer(u, 1, Ids(3), [2, 3]).state;
      && s.active != [] && s.bet == 100 && s.seats.Keys == {2, 3}
      && s.seats[2].bet == 50 && s.seats[3].bet == 50 && !Reached(s)
  {
    hide Fold, RemovePlayer, Enumerates, Seating;
    assert u.active[0] == 2 && u.active[1] == 3 && u.active[2] == 1;
    RemoveSeated(u, 1, Ids(3), [2, 3]);
    FoldSeated(u, 1, Ids(3));
    RemoveFields(u, 1, Ids(3), [2, 3]);
    FoldStakes(u, 1, Ids(3));
  }
}
