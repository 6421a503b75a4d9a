/** Runs from the empty table that reach the tables on which the program does not do what one would expect. */
module Witnesses {
  import opened Options
  import opened Sums
  import opened Orders
  import opened Cards
  import opened Games
  import opened Protocol
  import opened Rings
  import opened Driver
  import opened Betting
  import opened Conservation
  import opened Dealing
  import opened MapOrder
  import opened Outsiders
  import opened Runs
  import opened Showdowns
  import opened Survivors
  import opened Termination
  import Evaluation
  import HandRanks
  import Highlights
  import Straights

  // ----- building runs -----

  lemma RunCons(s: State, c: Command, run: seq<Command>)
    requires WellFormed(s) && Legal(s, c)
    ensures WellFormed(Step(s, c).state)
    ensures LegalRun(s, [c] + run) <==> LegalRun(Step(s, c).state, run)
    ensures LegalRun(s, [c] + run) ==> Run(s, [c] + run) == Run(Step(s, c).state, run)
  {
    hide Step, Legal;
    StepWellFormed(s, c);
    assert ([c] + run)[1..] == run;
  }

  /** A run that ends in one more command. */
  lemma {:induction false} RunThen(s: State, run: seq<Command>, c: Command)
    requires WellFormed(s) && LegalRun(s, run) && Legal(Run(s, run), c)
    ensures LegalRun(s, run + [c]) && Run(s, run + [c]) == Step(Run(s, run), c).state
    decreases |run|
  {
    hide Step, Legal;
    if run == [] {
      assert run + [c] == [c] + [];
      StepWellFormed(s, c);
    } else {
      StepWellFormed(s, run[0]);
      RunThen(Step(s, run[0]).state, run[1..], c);
      assert run + [c] == [run[0]] + (run[1..] + [c]);
      RunCons(s, run[0], run[1..] + [c]);
    }
  }

  /** The run reaches the state. */
  ghost predicate Reaches(kind: Kind, run: seq<Command>, s: State) {
    && WellFormed(EmptyTable(kind)) && LegalRun(EmptyTable(kind), run) && Run(EmptyTable(kind), run) == s
  }

  lemma ReachesThen(kind: Kind, run: seq<Command>, s: State, c: Command)
    requires Reaches(kind, run, s) && WellFormed(s) && Legal(s, c)
    ensures Reaches(kind, run + [c], Step(s, c).state) && WellFormed(Step(s, c).state)
  {
    hide Step, Legal, WellFormed;
    StepWellFormed(s, c);
    RunThen(EmptyTable(kind), run, c);
  }

  // ----- two players, 1000 chips each -----

  const ORDER: seq<nat> := [1, 2]

  function Joins(): seq<Command> { [Join(1, 1000, false), Join(2, 1000, false)] }

  function TwoSeated(kind: Kind): State {
    State(map[1 := Seat(1000, 0, false, []), 2 := Seat(1000, 0, false, [])], [2, 1], [], None, Some(1), Some(1), None,
          0, 0, Game(kind, 0, [], []), None, {})
  }

  lemma Seating2(kind: Kind)
    ensures Reaches(kind, Joins(), TwoSeated(kind)) && WellFormed(TwoSeated(kind))
  {
    hide LegalRun, Run;
    var s0 := EmptyTable(kind);
    var s1 := Step(s0, Join(1, 1000, false)).state;
    NothingRun(kind);
    ReachesThen(kind, [], s0, Join(1, 1000, false));
    assert [] + [Join(1, 1000, false)] == [Join(1, 1000, false)];
    assert s1 == State(map[1 := Seat(1000, 0, false, [])], [1], [], None, Some(1), Some(1), None, 0, 0,
                       Game(kind, 0, [], []), None, {});
    ReachesThen(kind, [Join(1, 1000, false)], s1, Join(2, 1000, false));
    assert InsertAt([1], 0, 2) == [2, 1];
    assert Step(s1, Join(2, 1000, false)).state == TwoSeated(kind);
    assert [Join(1, 1000, false)] + [Join(2, 1000, false)] == Joins();
  }

  lemma NothingRun(kind: Kind)
    ensures WellFormed(EmptyTable(kind)) && Reaches(kind, [], EmptyTable(kind))
  {
  }

  lemma BothOrders()
    ensures Enumerates(ORDER, {1, 2}) && Enumerates([1], {1}) && Enumerates([2], {2})
  {
    assert ORDER[0] == 1 && ORDER[1] == 2;
    assert [1][0] == 1 && [2][0] == 2;
  }

  /** Two players in a running hand: chips, stakes, bettor and whose turn it is. */
  ghost predicate Heads(s: State, turn: nat, bettor: nat, w1: nat, b1: nat, w2: nat, b2: nat, bet: nat) {
    && s.seats.Keys == {1, 2} && s.bet == bet
    && !s.seats[1].folded && !s.seats[2].folded
    && s.seats[1].wallet == w1 && s.seats[1].bet == b1 && s.seats[2].wallet == w2 && s.seats[2].bet == b2
    && (turn == 1 || turn == 2) && s.active == (if turn == 1 then [1, 2] else [2, 1]) && s.bettor == Some(bettor)
  }

  /** Everybody dealt in, before the blind. */
  function TwoDealtIn(kind: Kind, deck: seq<Card>): State {
    State(map[1 := Seat(1000, 0, false, []), 2 := Seat(1000, 0, false, [])], [1, 2], [1, 2], None, Some(1), Some(1),
          None, 0, 0, Game(kind, 0, deck, []), None, {})
  }

  lemma DealtInTwo(kind: Kind, deck: seq<Card>)
    ensures Enumerates(ORDER, TwoSeated(kind).seats.Keys)
    ensures DealtIn(TwoSeated(kind), ORDER, deck) == TwoDealtIn(kind, deck)
  {
    BothOrders();
    var s := TwoSeated(kind);
    assert s.seats.Keys == {1, 2};
    assert IndexOf(ORDER, 1) == 0 && Rotate(ORDER, 0) == [1, 2];
    assert FreshSeats(s.seats) == s.seats;
  }

  /** The blind and the antes of the two. */
  lemma PostedTwo(kind: Kind, deck: seq<Card>)
    ensures var u := Posted(TwoDealtIn(kind, deck));
      && u.game == Game(kind, 0, deck, []) && u.seats.Keys == {1, 2} && u.bettor == Some(1) && u.bet == 50
      && u.seats[1] == Seat(950, 50, false, [])
      && (IsAnte(kind) ==> u.active == [1, 2] && u.seats[2] == Seat(950, 50, false, []) && u.pot == 100)
      && (!IsAnte(kind) ==> u.active == [2, 1] && u.seats[2] == Seat(1000, 0, false, []) && u.pot == 50)
  {
    hide CheckEach;
    var d := TwoDealtIn(kind, deck);
    AntesOfTwo(Raise(d, 1, BLIND).state);
    assert Rotate([1, 2], 1) == [2, 1];
  }

  lemma AntesOfTwo(v: State)
    ensures CheckEach(v, [1, 2]) == Check(Check(v, 1).state, 2).state
  {
    hide Check;
    assert [1, 2][1..] == [2];
    assert [2][1..] == [];
  }

  /** The start: the first to join posts the blind, and in Stud the other antes. */
  lemma Started(kind: Kind, deck: seq<Card>)
    requires multiset(deck) == multiset(NewDeck())
    ensures var s := TwoSeated(kind); var c := Start(ORDER, deck);
      && WellFormed(s) && Legal(s, c) && Enumerates(ORDER, s.seats.Keys)
      && var t := StartGame(s, ORDER, deck); var u := Posted(TwoDealtIn(kind, deck));
         && Step(s, c).state == t && WellFormed(t) && Coherent(u)
         && var r := OpenRound(u.game, u.seats, u.active);
            t == u.(game := r.game, seats := r.seats)
  {
    hide OpenRound, Posted, DealtIn;
    Seating2(kind);
    DealtInTwo(kind, deck);
    PostedTwo(kind, deck);
    var s := TwoSeated(kind);
    assert s.seats.Keys == {1, 2} && |s.seats.Keys| == 2;
    assert |s.seats| == |s.seats.Keys|;
    StepWellFormed(s, Start(ORDER, deck));
  }

  lemma StartedHeads(kind: Kind, deck: seq<Card>)
    requires multiset(deck) == multiset(NewDeck())
    ensures Enumerates(ORDER, TwoSeated(kind).seats.Keys)
    ensures var t := StartGame(TwoSeated(kind), ORDER, deck);
      && Reaches(kind, Joins() + [Start(ORDER, deck)], t) && WellFormed(t)
      && t.game.kind == kind && t.game.round == 0
      && (IsAnte(kind) ==> Heads(t, 1, 1, 950, 50, 950, 50, 50))
      && (!IsAnte(kind) ==> Heads(t, 2, 1, 950, 50, 1000, 0, 50))
  {
    hide OpenRound, Posted, DealtIn, StartGame, LegalRun, Run;
    Seating2(kind);
    Started(kind, deck);
    PostedTwo(kind, deck);
    ReachesThen(kind, Joins(), TwoSeated(kind), Start(ORDER, deck));
    var u := Posted(TwoDealtIn(kind, deck));
    OpenRoundFrame(u.game, u.seats, u.active);
  }

  // ----- single steps of a two-player hand -----

  function Partner(id: nat): nat { if id == 1 then 2 else 1 }

  /** The state after an affordable raise that leaves its player chips. */
  function Raised(s: State, x: nat, amount: nat): State
    requires x in s.seats && amount <= s.seats[x].wallet
  {
    var p := s.seats[x];
    s.(seats := s.seats[x := p.(wallet := p.wallet - amount, bet := p.bet + amount)], bettor := Some(x),
       bet := p.bet + amount, pot := s.pot + amount, active := [Partner(x), x], turn := Some(Partner(x)))
  }

  /** Such a raise passes the turn and closes nothing. */
  lemma RaisePasses(s: State, x: nat, amount: nat, order: seq<nat>, order': seq<nat>)
    requires WellFormed(s) && s.active == [x, Partner(x)] && x != Partner(x) && !DrawRound(s.game)
    requires x in s.seats && Partner(x) in s.seats
    requires Enumerates(order, s.seats.Keys) && Enumerates(order', s.seats.Keys - {x})
    requires 0 < amount < s.seats[x].wallet && s.seats[Partner(x)].wallet > 0
    ensures RunAction(s, x, RaiseAction(Some(amount)), order, order') == Accept(Raised(s, x, amount))
  {
    hide RoundAction, FinishRounds, AdvanceTurn, Seating;
    assert s.active[0] == x && s.active[1] == Partner(x);
    var t := Raise(s, x, amount).state;
    PlayWellFormed(s, x, RaiseAction(Some(amount)), order);
    assert Play(s, x, RaiseAction(Some(amount)), order) == Accept(t);
    CheckPasses(t, order);
  }

  /** Raises of 50, 50 and 10 in Hold'em, after the blind of 50. */
  function ShortRaises(): seq<Command> {
    Joins() + [Start(ORDER, NewDeck())]
      + [Act(2, RaiseAction(Some(50)), ORDER, [1])]
      + [Act(1, RaiseAction(Some(50)), ORDER, [2])]
      + [Act(2, RaiseAction(Some(10)), ORDER, [1])]
  }

  lemma RaiseReaches(kind: Kind, run: seq<Command>, s: State, x: nat, amount: nat)
    requires Reaches(kind, run, s) && WellFormed(s) && s.seats.Keys == {1, 2} && !DrawRound(s.game)
    requires (x == 1 || x == 2) && s.active == [x, Partner(x)]
    requires 0 < amount < s.seats[x].wallet && s.seats[Partner(x)].wallet > 0
    ensures var t := Raised(s, x, amount);
      WellFormed(t) && Reaches(kind, run + [Act(x, RaiseAction(Some(amount)), ORDER, [Partner(x)])], t)
  {
    hide RunAction, WellFormed, Reaches;
    BothOrders();
    assert s.seats.Keys - {x} == {Partner(x)};
    RaisePasses(s, x, amount, ORDER, [Partner(x)]);
    ReachesThen(kind, run, s, Act(x, RaiseAction(Some(amount)), ORDER, [Partner(x)]));
  }

  /** That run ends with a table bet of 60 under a stake of 100, and the check that follows subtracts below zero. */
  lemma ShortRaiseReached() returns (s: State)
    ensures Reaches(TexasHoldem, ShortRaises(), s) && WellFormed(s)
    ensures s.seats.Keys == {1, 2} && s.bet == 60 && s.seats[1].bet == 100 && s.turn == Some(1)
    ensures Enumerates(ORDER, s.seats.Keys) && Enumerates([2], s.seats.Keys - {1})
    ensures RunAction(s, 1, CheckAction, ORDER, [2]).outcome == Rejected(Underflow)
  {
    hide StartGame, Reaches, WellFormed, AdvanceTurn;
    BothOrders();
    StartedHeads(TexasHoldem, NewDeck());
    var run := Joins() + [Start(ORDER, NewDeck())];
    s := StartGame(TwoSeated(TexasHoldem), ORDER, NewDeck());
    RaiseReaches(TexasHoldem, run, s, 2, 50);
    run := run + [Act(2, RaiseAction(Some(50)), ORDER, [1])];
    s := Raised(s, 2, 50);
    RaiseReaches(TexasHoldem, run, s, 1, 50);
    run := run + [Act(1, RaiseAction(Some(50)), ORDER, [2])];
    s := Raised(s, 1, 50);
    RaiseReaches(TexasHoldem, run, s, 2, 10);
    s := Raised(s, 2, 10);
    assert s.seats.Keys - {1} == {2};
  }

  // ----- refused raises, for ever -----

  /** In Stud the first player checks after the antes; from there refused raises and checks go round without end. */
  lemma RefusalsReached() returns (run: seq<Command>, s: State)
    ensures Reaches(SevenCardStud, run, s) && WellFormed(s) && Level(s)
    ensures s.seats.Keys == {1, 2} && s.active == [2, 1]
    ensures var states, commands := RoundTrip(s, 2, 1), Refusals(s, 2, 1, ORDER, [1], [2]);
      && states(0) == s && Unending(states, commands)
      && forall n: nat :: n % 4 == 1 || n % 4 == 3 ==> Productive(states(n), commands(n))
  {
    hide StartGame, Reaches, WellFormed, Level, AdvanceTurn, Unending, Productive;
    BothOrders();
    StartedHeads(SevenCardStud, NewDeck());
    var t := StartGame(TwoSeated(SevenCardStud), ORDER, NewDeck());
    StartedLevel(SevenCardStud, NewDeck());
    assert t.seats.Keys - {1} == {2} && t.seats.Keys - {2} == {1};
    var c := Act(1, CheckAction, ORDER, [2]);
    CheckPasses(t, ORDER);
    LegalTwo(t, 1);
    CheckedStep(t);
    s := t.(active := [2, 1], turn := Some(2));
    run := Joins() + [Start(ORDER, NewDeck())] + [c];
    ReachesThen(SevenCardStud, Joins() + [Start(ORDER, NewDeck())], t, c);
    StepLevel(t, c);
    RefusalsForEver(s, 2, 1, ORDER, [1], [2]);
  }

  lemma LegalTwo(t: State, id: nat)
    requires t.seats.Keys == {1, 2} && (id == 1 || id == 2)
    ensures forall action :: Legal(t, Act(id, action, ORDER, [Partner(id)]))
  {
    BothOrders();
    assert t.seats.Keys - {id} == {Partner(id)};
  }

  lemma CheckedStep(t: State)
    requires WellFormed(t) && Heads(t, 1, 1, 950, 50, 950, 50, 50) && !DrawRound(t.game)
    requires Legal(t, Act(1, CheckAction, ORDER, [2]))
    requires AdvanceTurn(t, ORDER) == t.(active := [2, 1], turn := Some(2))
    ensures Step(t, Act(1, CheckAction, ORDER, [2])).state == t.(active := [2, 1], turn := Some(2))
  {
    hide AdvanceTurn;
  }

  lemma StartedLevel(kind: Kind, deck: seq<Card>)
    requires multiset(deck) == multiset(NewDeck())
    ensures Enumerates(ORDER, TwoSeated(kind).seats.Keys) && Level(StartGame(TwoSeated(kind), ORDER, deck))
  {
    hide StartGame, Level;
    Seating2(kind);
    BothOrders();
    assert TwoSeated(kind).seats.Keys == {1, 2} && |TwoSeated(kind).seats| == |TwoSeated(kind).seats.Keys|;
    StartLevel(TwoSeated(kind), ORDER, deck);
  }

  // ----- a newcomer takes what folded players left -----

  /** A cut of the unshuffled deck. */
  function CutDeck(): seq<Card> { NewDeck()[17..] + NewDeck()[..17] }

  lemma CutIsShuffle()
    ensures multiset(CutDeck()) == multiset(NewDeck()) && |CutDeck()| == 52
  {
    var n := NewDeck();
    assert n == n[..17] + n[17..];
  }

  lemma CutAt(i: nat)
    requires 35 <= i < 52
    ensures |CutDeck()| == 52 && CutDeck()[i] == Encode((i - 35) / 13, 1 + (i - 35) % 13)
  {
  }

  lemma DealtAt(deck: seq<Card>, n: nat)
    requires n <= |deck|
    ensures |DealtCards(deck, n)| == n && |DeckAfter(deck, n)| == |deck| - n
    ensures forall i :: 0 <= i < n ==> DealtCards(deck, n)[i] == deck[|deck| - n + i]
    ensures forall i :: 0 <= i < |deck| - n ==> DeckAfter(deck, n)[i] == deck[i]
  {
  }

  /** The first two deals and the flop of that deck. */
  lemma CutDealt()
    ensures DealtCards(CutDeck(), 2) == [19, 20]
    ensures var d := DeckAfter(CutDeck(), 2); DealtCards(d, 2) == [17, 18]
    ensures |Rest()| == 48 && AllFaceUp(DealtCards(Rest(), 3)) == [75, 76, 77]
  {
    hide CutDeck, DealtCards, DeckAfter;
    CutAt(45);
    CutAt(46);
    CutAt(47);
    CutAt(48);
    CutAt(49);
    CutAt(50);
    CutAt(51);
    DealtAt(CutDeck(), 2);
    DealtAt(DeckAfter(CutDeck(), 2), 2);
    DealtAt(Rest(), 3);
  }

  /** The deck after the first deal. */
  function Rest(): seq<Card> { DeckAfter(DeckAfter(CutDeck(), 2), 2) }

  /** Two cards each, the blind posted, the second player to act. */
  function BeforeFlop(): State {
    State(map[1 := Seat(950, 50, false, [17, 18]), 2 := Seat(1000, 0, false, [19, 20])], [1, 2], [2, 1], Some(2),
          Some(1), Some(1), Some(1), 50, 50, Game(TexasHoldem, 0, Rest(), []), None, {})
  }

  lemma BlindPosted(deck: seq<Card>)
    ensures Posted(TwoDealtIn(TexasHoldem, deck)) ==
      State(map[1 := Seat(950, 50, false, []), 2 := Seat(1000, 0, false, [])], [1, 2], [2, 1], Some(2), Some(1),
            Some(1), Some(1), 50, 50, Game(TexasHoldem, 0, deck, []), None, {})
  {
    assert Rotate([1, 2], 1) == [2, 1];
  }

  lemma TwoDealt(g: Game, seats: map<nat, Seat>)
    requires g.kind == TexasHoldem && seats.Keys == {1, 2} && !seats[1].folded && !seats[2].folded
    ensures var d := DealTo(g, seats[2]); var e := DealTo(d.game, seats[1]);
      DealAround(g, seats, [2, 1]) == Layout(e.game, seats[2 := d.seat][1 := e.seat])
  {
    hide DealTo;
    assert [2, 1][1..] == [1];
    assert [1][1..] == [];
  }

  lemma FlopComing()
    ensures Reaches(TexasHoldem, Joins() + [Start(ORDER, CutDeck())], BeforeFlop()) && WellFormed(BeforeFlop())
  {
    hide Posted, DealtIn, StartGame, Reaches, WellFormed, OpenRound, CutDeck, DealtCards, DeckAfter, Heads;
    CutIsShuffle();
    StartedHeads(TexasHoldem, CutDeck());
    Started(TexasHoldem, CutDeck());
    BlindPosted(CutDeck());
    FirstDeal();
  }

  /** The first deal to the two. */
  lemma FirstDeal()
    ensures var u := BeforeFlop().(seats := map[1 := Seat(950, 50, false, []), 2 := Seat(1000, 0, false, [])],
                                   game := Game(TexasHoldem, 0, CutDeck(), []));
      var r := OpenRound(u.game, u.seats, u.active);
      u.(game := r.game, seats := r.seats) == BeforeFlop()
  {
    hide CutDeck, DealtCards, DeckAfter, DealAround;
    CutDealt();
    TwoDealt(Game(TexasHoldem, 0, CutDeck(), []), map[1 := Seat(950, 50, false, []), 2 := Seat(1000, 0, false, [])]);
    NoneDealt(DeckAfter(CutDeck(), 2));
    NoneDealt(Rest());
    assert [] + [19, 20] + [] == [19, 20] && [] + [17, 18] + [] == [17, 18];
  }

  lemma NoneDealt(deck: seq<Card>)
    ensures DealtCards(deck, 0) == [] && AllFaceUp([]) == [] && DeckAfter(deck, 0) == deck
  {
  }

  /** The second player checks, which brings the flop: three diamonds. */
  function Flop(): State {
    BeforeFlop().(seats := map[1 := Seat(950, 50, false, [17, 18]), 2 := Seat(950, 50, false, [19, 20])],
                  active := [1, 2], turn := Some(1), pot := 100,
                  game := Game(TexasHoldem, 1, DeckAfter(Rest(), 3), [75, 76, 77]))
  }

  lemma FlopDealt()
    ensures Reaches(TexasHoldem, Joins() + [Start(ORDER, CutDeck())] + [Act(2, CheckAction, ORDER, [1])], Flop())
    ensures WellFormed(Flop())
  {
    hide Reaches, CutDeck, DealtCards, DeckAfter, Rotate, FinishRounds, EndGame, WellFormed;
    FlopComing();
    var s, c := BeforeFlop(), Act(2, CheckAction, ORDER, [1]);
    LegalTwo(s, 2);
    CutDealt();
    assert s.active[0] == 2 && s.active[1] == 1;
    RotatedPair(2, 1);
    ReachesThen(TexasHoldem, Joins() + [Start(ORDER, CutDeck())], s, c);
    var p := Check(s, 2).state;
    assert p.seats == Flop().seats;
    assert NextBetting(p, 1) == 1;
    assert AdvanceTurn(p, ORDER) == Flop();
  }

  lemma RotatedPair(a: nat, b: nat)
    ensures Rotate([a, b], 1) == [b, a]
  {
  }

  /** The first player has raised by 100, and a newcomer has sat down. */
  function Joined(): State {
    Flop().(seats := map[1 := Seat(850, 150, false, [17, 18]), 2 := Seat(950, 50, false, [19, 20]),
                         3 := Seat(1000, 0, false, [])],
            full := [3, 1, 2], active := [2, 1], turn := Some(2), bet := 150, pot := 200)
  }

  function NewcomerRun(): seq<Command> {
    Joins() + [Start(ORDER, CutDeck())] + [Act(2, CheckAction, ORDER, [1])]
      + [Act(1, RaiseAction(Some(100)), ORDER, [2])] + [Join(3, 1000, false)]
  }

  lemma NewcomerJoined()
    ensures Reaches(TexasHoldem, NewcomerRun(), Joined()) && WellFormed(Joined())
  {
    hide Reaches, CutDeck, DeckAfter, WellFormed;
    FlopDealt();
    var run := Joins() + [Start(ORDER, CutDeck())] + [Act(2, CheckAction, ORDER, [1])];
    RaiseReaches(TexasHoldem, run, Flop(), 1, 100);
    run := run + [Act(1, RaiseAction(Some(100)), ORDER, [2])];
    var s := Raised(Flop(), 1, 100);
    ReachesThen(TexasHoldem, run, s, Join(3, 1000, false));
    assert InsertAt([1, 2], 0, 3) == [3, 1, 2] && IndexOf([1, 2], 1) == 0;
    assert |s.seats| == |s.seats.Keys| == 2;
    assert Step(s, Join(3, 1000, false)).state == Joined();
  }

  /** An unsuited hand of different values is at best a straight. */
  lemma UnsuitedSingles(hand: seq<Card>)
    requires hand != [] && !Evaluation.NeighboursMatch(hand) && Distinct(Evaluation.Values(hand))
    ensures Evaluation.Evaluate(hand).RankValue() <= 5
  {
    hide Evaluation.Profile, Evaluation.Values, Evaluation.NeighboursMatch, Straights.StraightTop;
    Evaluation.NibbleValues(hand);
    Highlights.SingleValues(Evaluation.Values(hand));
  }

  /** The bare board, three suited cards, is a flush. */
  lemma BoardIsFlush()
    ensures Evaluation.Evaluate([75, 76, 77]).RankValue() == 6
  {
    hide Evaluation.Evaluate, Straights.StraightTop;
    var hand: seq<Card> := [75, 76, 77];
    assert Evaluation.Values(hand) == [11, 12, 13];
    ShortNoStraight(Evaluation.Values(hand));
    Highlights.SuitedSingles(hand);
  }

  lemma ShortNoStraight(values: seq<nat>)
    requires values == [11, 12, 13]
    ensures Straights.StraightTop(values) == None
  {
    hide Straights.StraightTop;
    Straights.StraightTopMeaning(values);
    Highlights.WheelHolds(values);
    assert 2 !in values;
    forall top: nat ensures !Straights.Run(values, top) {
      assert forall h: nat :: Straights.Holds(values, h) ==> 11 <= h <= 13;
    }
  }

  /** Three and four of another suit on that board. */
  lemma HandIsLow()
    ensures Evaluation.Evaluate([19, 20, 75, 76, 77]).RankValue() <= 5
  {
    hide Evaluation.Evaluate, Straights.StraightTop;
    var hand: seq<Card> := [19, 20, 75, 76, 77];
    assert Evaluation.Values(hand) == [3, 4, 11, 12, 13];
    assert Suit(hand[1]) != Suit(hand[2]);
    UnsuitedSingles(hand);
  }

  /** The newcomer, without a card, outranks the one player left. */
  lemma BoardOutranks(s: State)
    requires s.game.kind == TexasHoldem && s.game.community == [75, 76, 77] && 2 in s.seats
    requires s.seats[2].hand == [19, 20]
    ensures HandRanks.Compare(RankOf(s, 2), BoardRank(s)) == Less
  {
    hide Evaluation.Evaluate;
    BoardIsFlush();
    HandIsLow();
    assert [19, 20] + [75, 76, 77] == [19, 20, 75, 76, 77];
    assert [] + [75, 76, 77] == [75, 76, 77];
  }

  /**
   When the raiser leaves, the player still in the hand gets back only the called stakes; the newcomer, who has no
   card and has staked nothing, is recorded the winner and takes the hundred chips the leaver left.
   */
  lemma NewcomerTakesTheRest(order: seq<nat>)
    requires Enumerates(order, {1, 2, 3})
    ensures Reaches(TexasHoldem, NewcomerRun(), Joined()) && Enumerates(order, Joined().seats.Keys)
    ensures var t := Fold(Joined(), 1, order).state;
      t.showdown == Some(3) && t.seats[2].wallet == 950 + 100 && t.seats[3].wallet == 1000 + 100
  {
    hide Reaches, Fold, RankOf, BoardRank, Within, CutDeck, Run, LegalRun, Enumerates, DeckAfter;
    hide HandRanks.Compare, Seating, Held, Level, Portions, Stakes, Wallets;
    var s := Joined();
    assert s.seats.Keys == {1, 2, 3};
    NewcomerJoined();
    SoundRun(TexasHoldem, NewcomerRun(), s);
    CalledStakes();
    assert s.active[0] == 2 && s.active[1] == 1 && 1 in s.active;
    assert forall x :: Outside(s, x) <==> x == 3;
    LessNotBeats(s, order);
    LastFoldPays(s, 1, order);
  }

  lemma LessNotBeats(s: State, order: seq<nat>)
    requires s.game.kind == TexasHoldem && s.game.community == [75, 76, 77] && 2 in s.seats
    requires s.seats[2].hand == [19, 20]
    requires Outside(s, 3)
    ensures !BeatsOutsiders(s, order, 2)
  {
    hide RankOf, BoardRank, HandRanks.Compare;
    BoardOutranks(s);
    HandRanks.CompareEqual(RankOf(s, 2), BoardRank(s));
  }

  lemma SoundRun(kind: Kind, run: seq<Command>, s: State)
    requires Reaches(kind, run, s)
    ensures Sound(s)
  {
    hide Sound, Run;
    EveryRun(kind, run);
  }

  lemma CalledStakes()
    ensures Within(Joined(), 50) == 100
  {
    var s := Joined();
    assert [1, 2, 3][0] == 1 && [1, 2, 3][1] == 2 && [1, 2, 3][2] == 3;
    assert s.seats.Keys == {1, 2, 3};
    assert Enumerates([1, 2, 3], s.seats.Keys);
    SumEnumerated(s.seats, [1, 2, 3], StakeUpTo(50), [50, 50, 0]);
    assert Total([50, 50, 0]) == 100 by { TotalThree(50, 50, 0); }
  }

  lemma TotalThree(a: nat, b: nat, c: nat)
    ensures Total([a, b, c]) == a + b + c
  {
    var s: seq<nat> := [a, b, c];
    assert s[1..] == [b, c] && s[1..][1..] == [c] && s[1..][1..][1..] == [];
    assert Total(s) == a + Total(s[1..]) && Total(s[1..]) == b + Total(s[1..][1..]);
    assert Total(s[1..][1..]) == c + Total(s[1..][1..][1..]);
  }

  // ----- two newcomers, and the order of the map shows -----

  function TwoJoined(): State {
    Joined().(seats := Joined().seats[4 := Seat(1000, 0, false, [])], full := [3, 4, 1, 2])
  }

  lemma SecondNewcomer()
    ensures Reaches(TexasHoldem, NewcomerRun() + [Join(4, 1000, false)], TwoJoined()) && WellFormed(TwoJoined())
  {
    hide Reaches, CutDeck, DeckAfter, WellFormed;
    NewcomerJoined();
    var s := Joined();
    ReachesThen(TexasHoldem, NewcomerRun(), s, Join(4, 1000, false));
    assert InsertAt([3, 1, 2], 1, 4) == [3, 4, 1, 2] && IndexOf([3, 1, 2], 1) == 1;
    assert s.seats.Keys == {1, 2, 3} && |s.seats| == |s.seats.Keys|;
    assert Step(s, Join(4, 1000, false)).state == TwoJoined();
  }

  /** With a second newcomer at that table, who wins depends on the order in which the player map is iterated. */
  lemma OrderShows() returns (order: seq<nat>, other: seq<nat>)
    ensures Reaches(TexasHoldem, NewcomerRun() + [Join(4, 1000, false)], TwoJoined())
    ensures Enumerates(order, TwoJoined().seats.Keys) && Enumerates(other, TwoJoined().seats.Keys)
    ensures Fold(TwoJoined(), 1, order).state != Fold(TwoJoined(), 1, other).state
  {
    hide Reaches, Fold, RankOf, BoardRank, CutDeck, Run, LegalRun, Enumerates;
    var s := TwoJoined();
    SecondNewcomer();
    SoundRun(TexasHoldem, NewcomerRun() + [Join(4, 1000, false)], s);
    BoardOutranks(s);
    assert s.active[0] == 2 && s.active[1] == 1 && 1 in s.active;
    assert Outside(s, 3) && Outside(s, 4);
    assert Bare(s, 3) && Bare(s, 4);
    LastFoldOrderIff(s, 1);
    order, other :| Enumerates(order, s.seats.Keys) && Enumerates(other, s.seats.Keys)
      && Fold(s, 1, order).state != Fold(s, 1, other).state;
  }

  // ----- an ace as the kicker that decides -----

  /** Two cards of one value, in two suits, and a third card. */
  lemma PairOfThree(hand: seq<Card>, v: nat, w: nat)
    requires |hand| == 3 && Evaluation.Values(hand) == [v, v, w] && v != w && Suit(hand[0]) != Suit(hand[1])
    requires forall i :: 0 <= i < 3 ==> IsDeckFace(Face(hand[i]))
    ensures Evaluation.Evaluate(hand).OnePair?
    ensures Evaluation.Evaluate(hand).pair == AceHigh(v) && Evaluation.Evaluate(hand).kickers == [w]
  {
    hide Evaluation.Evaluate, Evaluation.OthersInOrder, Evaluation.Group, Evaluation.Groups, Straights.StraightTo;
    var values: seq<nat> := [v, v, w];
    ThreeCounts(v, w);
    assert Evaluation.Leads(values, v, 2);
    assert hand[0] in hand && hand[1] in hand;
    ThreeNoStraight(values);
    forall x, c | Evaluation.Leads(values, x, c) ensures x == v && c == 2 {
    }
    forall x ensures !Evaluation.Follows(values, v, x, 2) {
      if x != v && x != w { assert Evaluation.CountOf(values, x) == 0; }
    }
    Evaluation.EvaluateCategory(hand, 2);
    Evaluation.EvaluateDescribes(hand);
    var r := Evaluation.Evaluate(hand);
    GroupOfThree(v, w, r.pair, r.kickers);
  }

  lemma GroupOfThree(v: nat, w: nat, primary: nat, kickers: seq<nat>)
    requires v != w && Evaluation.Group([v, v, w], 2, primary, kickers)
    ensures primary == AceHigh(v) && kickers == [w]
  {
    hide Evaluation.OthersInOrder;
    var values: seq<nat> := [v, v, w];
    ThreeCounts(v, w);
    var x :| Evaluation.Leads(values, x, 2) && primary == AceHigh(x)
      && Evaluation.OthersInOrder(values, x, x, kickers);
    assert x == v;
    Evaluation.OthersAreKickers(values, v, v, kickers);
    KickerOfThree(v, w);
  }

  lemma ThreeCounts(v: nat, w: nat)
    requires v != w
    ensures Evaluation.CountOf([v, v, w], v) == 2 && Evaluation.CountOf([v, v, w], w) == 1
    ensures forall x :: x != v && x != w ==> Evaluation.CountOf([v, v, w], x) == 0
  {
  }

  lemma ThreeNoStraight(values: seq<nat>)
    requires |values| == 3
    ensures !Evaluation.IsStraight(values)
  {
  }

  lemma KickerOfThree(v: nat, w: nat)
    requires v != w
    ensures Evaluation.KickersBut([v, v, w], v, v) == [w]
  {
    var values: seq<nat> := [v, v, w];
    assert values[1..] == [v, w] && values[1..][1..] == [w] && values[1..][1..][1..] == [];
    assert Evaluation.KickersBut(values[1..][1..], v, v) == [w];
    assert Evaluation.KickersBut(values[1..], v, v) == [w];
  }

  /** Two kings with an ace, and the other two kings with a two. */
  const WITH_ACE: seq<Card> := [13, 29, 33]
  const WITH_TWO: seq<Card> := [45, 61, 2]

  lemma KingsRead()
    ensures Highlights.DeckHand(WITH_ACE + WITH_TWO) && Highlights.DeckHand(WITH_ACE)
    ensures Evaluation.Evaluate(WITH_ACE).OnePair? && Evaluation.Evaluate(WITH_TWO).OnePair?
    ensures Evaluation.Evaluate(WITH_ACE).pair == 13 && Evaluation.Evaluate(WITH_ACE).kickers == [1]
    ensures Evaluation.Evaluate(WITH_TWO).pair == 13 && Evaluation.Evaluate(WITH_TWO).kickers == [2]
  {
    hide Evaluation.Evaluate;
    assert Evaluation.Values(WITH_ACE) == [13, 13, 1] && Evaluation.Values(WITH_TWO) == [13, 13, 2];
    PairOfThree(WITH_ACE, 13, 1);
    PairOfThree(WITH_TWO, 13, 2);
  }

  /**
   Two hands of one deck that only an ace kicker sets apart: for the one with the ace no kicker is shown, so the cards
   shown do not tell the two apart; and the ace counts below the two.
   */
  lemma AceKickerUnseen()
    ensures Highlights.DeckHand(WITH_ACE + WITH_TWO)
    ensures var r, q := Evaluation.Evaluate(WITH_ACE), Evaluation.Evaluate(WITH_TWO);
      && Highlights.SamePrimaries(r, q) && HandRanks.Compare(r, q) == Less
      && Highlights.Counts(r)
      && var cards := Highlights.CardsUsedAgainst(r, WITH_ACE, [q]);
         && cards == Highlights.CardsUsed(r, WITH_ACE)
         && !Highlights.ToldApart(cards[|Highlights.Base(r, WITH_ACE)|..], q)
  {
    hide Evaluation.Evaluate, Highlights.CardsUsedAgainst, Highlights.CardsUsed, Highlights.DeckHand;
    KingsRead();
    var r, q := Evaluation.Evaluate(WITH_ACE), Evaluation.Evaluate(WITH_TWO);
    Highlights.ShownTellApartIff(WITH_ACE, [q], 0);
    Highlights.ShownKickers(WITH_ACE, [q]);
  }
}
