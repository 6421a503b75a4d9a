/** A hand of Five Card Draw in which the deck runs out: a player is left without a card, or names the last four. */
module DrawnOut {
  import opened Options
  import opened Sums
  import opened Orders
  import opened Cards
  import opened Games
  import opened Protocol
  import opened Rings
  import opened Driver
  import opened Betting
  import opened Dealing
  import opened MapOrder
  import opened Showdowns
  import opened Survivors
  import opened Witnesses
  import opened Openings
  import opened Turns
  import HandRanks

  // ----- discarding the front or the back of a hand -----

  lemma {:induction false} RemoveFront(hand: seq<Card>, k: nat)
    requires k <= |hand|
    ensures RemoveEach(hand, hand[..k]) == Some(hand[k..])
  {
    if k == 0 {
      assert hand[0..] == hand;
    } else {
      assert hand[..0] + hand[1..] == hand[1..];
      RemoveFront(hand[1..], k - 1);
      assert hand[..k][1..] == hand[1..][..k - 1] && hand[k..] == hand[1..][k - 1..];
    }
  }

  lemma {:induction false} RemoveBack(a: Card, rest: seq<Card>)
    requires a !in rest
    ensures RemoveEach([a] + rest, rest) == Some([a])
  {
    if rest == [] {
      assert [a] + rest == [a];
    } else {
      var hand := [a] + rest;
      assert IndexOf(hand, rest[0]) == 1 by { IndexOfAtFirst(hand, 1); }
      assert hand[..1] + hand[2..] == [a] + rest[1..];
      RemoveBack(a, rest[1..]);
    }
  }

  lemma {:induction false} IndexOfAtFirst(s: seq<Card>, k: nat)
    requires k < |s| && forall i :: 0 <= i < k ==> s[i] != s[k]
    ensures IndexOf(s, s[k]) == k
  {
    if k > 0 { IndexOfAtFirst(s[1..], k - 1); }
  }

  // ----- an even ring -----

  /** Everybody in the ring has staked the blind and holds 950 chips more. */
  ghost predicate Even(s: State, ring: seq<nat>, mark: nat, round: nat) {
    && WellFormed(s) && s.active == ring && s.bettor == Some(mark) && s.bet == BLIND && |ring| >= 2
    && s.game.kind == FiveCardDraw && s.game.round == round
    && forall x :: x in ring ==> x in s.seats && s.seats[x].wallet == 950 && s.seats[x].bet == BLIND
  }

  /** The turn passes to the next in the ring; when that is the bettor, the next round opens. */
  function Passed(p: State): State
    requires |p.active| >= 2
  {
    var t := p.(active := Rotate(p.active, 1), turn := Some(p.active[1]));
    if p.bettor == Some(p.active[1]) then t.(game := NextRound(p.game)) else t
  }

  lemma EvenAdvance(p: State, ring: seq<nat>, mark: nat, round: nat, order: seq<nat>)
    requires Even(p, ring, mark, round) && round < 2 && Enumerates(order, p.seats.Keys) && Coherent(p)
    ensures AdvanceTurn(p, order) == Passed(p)
  {
    hide EndGame, FinishRounds, Rotate, RoundAction, Seating, Enumerates;
    assert p.active[1] in ring;
    assert NextBetting(p, 1) == 1;
    forall i | 1 <= i < |p.active| ensures p.seats[p.active[i]].bet == p.bet {
      assert p.active[i] in ring;
    }
    NextTurnSeated(p, 1);
    assert p.active[1] == mark ==> Closes(p);
    assert p.active[1] != mark ==> !Closes(p) by { MarkHolds(p, ring, mark, round); }
    NothingDealt(p.(active := Rotate(p.active, 1), turn := Some(p.active[1]), game := NextRound(p.game)), order);
  }

  lemma MarkHolds(p: State, ring: seq<nat>, mark: nat, round: nat)
    requires Even(p, ring, mark, round)
    ensures mark in ring && mark in p.seats && p.seats[mark].wallet == 950
  {
    hide Seating;
  }

  /** The later rounds of Five Card Draw deal nothing. */
  lemma NothingDealt(s: State, order: seq<nat>)
    requires s.game.kind == FiveCardDraw && 1 <= s.game.round <= 2
    ensures Enumerates(order, s.seats.Keys) && (forall i :: 0 <= i < |s.active| ==> s.active[i] in s.seats) ==>
      RoundAction(s, order) == RoundStep(s, true)
  {
  }

  lemma EvenPassed(p: State, ring: seq<nat>, mark: nat, round: nat, t: State)
    requires Even(p, ring, mark, round) && round < 2 && t == Passed(p) && WellFormed(t)
    ensures Even(t, Rotate(ring, 1), mark, if ring[1] == mark then round + 1 else round)
  {
    hide WellFormed;
    forall x | x in Rotate(ring, 1) ensures x in ring {
    }
  }

  /** Orders of the player map with which player id may act. */
  lemma SomeOrders(s: State, id: nat) returns (order: seq<nat>, order': seq<nat>)
    requires Seating(s)
    ensures Enumerates(order, s.seats.Keys) && Enumerates(order', s.seats.Keys - {id})
  {
    order := s.full;
    order' := EnumerationExists(s.seats.Keys - {id});
  }

  lemma WellParts(s: State)
    requires WellFormed(s)
    ensures Coherent(s) && Seating(s) && InHand(s) && Turning(s)
    ensures s.active != [] ==> s.turn == Some(s.active[0]) && s.active[0] in s.seats
  {
    SeatedCoherent(s);
  }

  /** A check in the first round. */
  lemma CheckOn(run: seq<Command>, s: State, ring: seq<nat>, mark: nat) returns (run': seq<Command>, t: State)
    requires Reaches(FiveCardDraw, run, s) && Even(s, ring, mark, 0)
    ensures Reaches(FiveCardDraw, run', t) && t == Passed(s)
    ensures Even(t, Rotate(ring, 1), mark, if ring[1] == mark then 1 else 0)
  {
    hide Reaches, AdvanceTurn, WellFormed, Passed, Enumerates;
    WellParts(s);
    var id := s.active[0];
    assert id in ring;
    var order, order' := SomeOrders(s, id);
    var c := Act(id, CheckAction, order, order');
    ReachesThen(FiveCardDraw, run, s, c);
    EvenAdvance(s, ring, mark, 0, order);
    run', t := run + [c], Step(s, c).state;
    EvenPassed(s, ring, mark, 0, t);
  }

  /** A replacement in the draw round. */
  lemma DrawOn(run: seq<Command>, s: State, ring: seq<nat>, mark: nat, cards: seq<Card>)
    returns (run': seq<Command>, t: State)
    requires Reaches(FiveCardDraw, run, s) && Even(s, ring, mark, 1)
    requires ring[0] in s.seats && ReplaceCards(s.game, s.seats[ring[0]], cards).Replaced?
    ensures Reaches(FiveCardDraw, run', t)
    ensures Even(t, Rotate(ring, 1), mark, if ring[1] == mark then 2 else 1)
    ensures var r := ReplaceCards(s.game, s.seats[ring[0]], cards);
      t.seats == s.seats[ring[0] := r.seat] && t.game.deck == r.game.deck
  {
    hide Reaches, AdvanceTurn, ReplaceCards, WellFormed, Enumerates;
    WellParts(s);
    var id := s.active[0];
    var order, order' := SomeOrders(s, id);
    var c := Act(id, ReplaceAction(Some(cards)), order, order');
    var p := Replace(s, id, ReplaceAction(Some(cards))).state;
    ReplaceFrame(s.game, s.seats[id], cards);
    ReachesThen(FiveCardDraw, run, s, c);
    PlayWellFormed(s, id, ReplaceAction(Some(cards)), order);
    assert Even(p, ring, mark, 1);
    WellParts(p);
    EvenAdvance(p, ring, mark, 1, order);
    run', t := run + [c], Step(s, c).state;
    EvenPassed(p, ring, mark, 1, t);
  }

  function Without(ring: seq<nat>, k: nat): seq<nat>
    requires k < |ring|
  {
    ring[..k] + ring[k + 1..]
  }

  /** A leave out of turn; the mark of a leaving bettor goes to the predecessor. */
  lemma AwayOn(run: seq<Command>, s: State, ring: seq<nat>, mark: nat, round: nat, k: nat)
    returns (run': seq<Command>, t: State)
    requires Reaches(FiveCardDraw, run, s) && Even(s, ring, mark, round) && 1 <= k < |ring| && |ring| > 2
    ensures Reaches(FiveCardDraw, run', t)
    ensures Even(t, Without(ring, k), if mark == ring[k] then ring[k - 1] else mark, round)
    ensures t.game == s.game && t.seats.Keys == s.seats.Keys - {ring[k]}
    ensures forall x :: x in t.seats ==> t.seats[x].hand == s.seats[x].hand
  {
    hide Reaches, RemovePlayer, WellFormed, Enumerates, Seating;
    WellParts(s);
    var id := ring[k];
    assert id in ring;
    var order, order' := SomeOrders(s, id);
    var c := Act(id, Leave, order, order');
    ReachesThen(FiveCardDraw, run, s, c);
    run', t := run + [c], Step(s, c).state;
    AwayFields(s, k, order, order');
    forall x | x in Without(ring, k) ensures x in ring && x != id {
    }
  }

  lemma AwayFields(s: State, k: nat, order: seq<nat>, order': seq<nat>)
    requires WellFormed(s) && 1 <= k < |s.active| && |s.active| > 2 && s.active[k] in s.seats
    requires Enumerates(order, s.seats.Keys) && Enumerates(order', s.seats.Keys - {s.active[k]})
    ensures var t := RemovePlayer(s, s.active[k], order, order').state;
      && t.active == Without(s.active, k) && t.game == s.game && t.bet == s.bet
      && t.bettor == (if s.bettor == Some(s.active[k]) then Some(s.active[k - 1]) else s.bettor)
      && t.seats == s.seats - {s.active[k]}
  {
    hide RemovePlayer, EndGame, Enumerates, Seating;
    var id := s.active[k];
    IndexOfAt(s.active, k);
    assert Fold(s, id, order).state == Withdraw(s, k);
    WithdrawSeated(s, k);
    RemoveSeated(s, id, order, order');
    RemoveFields(s, id, order, order');
  }

  // ----- emptying the deck -----

  /** Everybody in the ring holds five cards, the second player an ace at the front; d cards are left. */
  ghost predicate Holding(s: State, ring: seq<nat>, mark: nat, d: nat) {
    && Even(s, ring, mark, 1) && |s.game.deck| == d && 2 in ring
    && (forall x :: x in ring ==> x in s.seats && |s.seats[x].hand| == 5) && Value(s.seats[2].hand[0]) == 1
  }

  lemma DrawnThree(g: Game, p: Seat)
    requires |p.hand| == 5 && |g.deck| >= 3
    ensures var r := ReplaceCards(g, p, p.hand[..3]);
      r.Replaced? && |r.seat.hand| == 5 && |r.game.deck| == |g.deck| - 3
  {
    RemoveFront(p.hand, 3);
    ReplaceKeepsSizeIff(g, p, p.hand[..3]);
  }

  /** The player on turn, not the second, changes three cards. */
  lemma ThreeOn(run: seq<Command>, s: State, ring: seq<nat>, mark: nat, d: nat) returns (run': seq<Command>, t: State)
    requires Reaches(FiveCardDraw, run, s) && Holding(s, ring, mark, d)
    requires |ring| >= 2 && ring[0] != 2 && ring[1] != mark && d >= 3
    ensures Reaches(FiveCardDraw, run', t) && Holding(t, Rotate(ring, 1), mark, d - 3)
  {
    hide Reaches, Even, ReplaceCards;
    assert ring[0] in ring;
    DrawnThree(s.game, s.seats[ring[0]]);
    run', t := DrawOn(run, s, ring, mark, s.seats[ring[0]].hand[..3]);
    forall x | x in Rotate(ring, 1) ensures x in ring {
    }
    RotateHolds(ring, 2);
  }

  lemma RotateHolds(ring: seq<nat>, x: nat)
    requires x in ring && |ring| >= 2
    ensures x in Rotate(ring, 1)
  {
    var i :| 0 <= i < |ring| && ring[i] == x;
    assert if i == 0 then Rotate(ring, 1)[|ring| - 1] == x else Rotate(ring, 1)[i - 1] == x;
  }

  lemma DrawnFour(g: Game, p: Seat)
    requires |p.hand| == 5 && p.hand[0] !in p.hand[1..] && Value(p.hand[0]) == 1
    ensures var r := ReplaceCards(g, p, p.hand[1..]);
      && r.Replaced? && r.seat.hand == [p.hand[0]] + DealtCards(g.deck, 4)
      && |r.seat.hand| == 1 + Dealt(g.deck, 4) && r.game.deck == DeckAfter(g.deck, 4)
  {
    assert p.hand == [p.hand[0]] + p.hand[1..];
    RemoveBack(p.hand[0], p.hand[1..]);
  }

  lemma FirstDiffers(run: seq<Command>, s: State, id: nat)
    requires Reaches(FiveCardDraw, run, s) && s.active != [] && id in s.seats && s.seats[id].hand != []
    ensures s.seats[id].hand[0] !in s.seats[id].hand[1..]
  {
    hide Reaches, Run, WellFormed, Held;
    SoundRun(FiveCardDraw, run, s);
    var hand := s.seats[id].hand;
    forall j | 1 <= j < |hand| ensures hand[0] != hand[j] {
      HandsDistinct(s, id, 0, j);
    }
  }

  /** The second player keeps the ace and changes the four others, or as many as the deck still has. */
  lemma FourOn(run: seq<Command>, s: State, ring: seq<nat>, mark: nat, d: nat) returns (run': seq<Command>, t: State)
    requires Reaches(FiveCardDraw, run, s) && Holding(s, ring, mark, d)
    requires |ring| >= 2 && ring[0] == 2 && ring[1] != mark
    ensures Reaches(FiveCardDraw, run', t) && Even(t, Rotate(ring, 1), mark, 1)
    ensures d >= 4 ==> Holding(t, Rotate(ring, 1), mark, d - 4)
    ensures d < 4 ==> t.game.deck == [] && 2 in t.seats && |t.seats[2].hand| == 1 + d
  {
    hide Reaches, ReplaceCards, WellFormed;
    FirstDiffers(run, s, 2);
    DrawnFour(s.game, s.seats[2]);
    run', t := DrawOn(run, s, ring, mark, s.seats[2].hand[1..]);
    forall x | x in Rotate(ring, 1) ensures x in ring {
    }
    RotateHolds(ring, 2);
  }

  lemma AwayHolding(run: seq<Command>, s: State, ring: seq<nat>, mark: nat, d: nat, k: nat)
    returns (run': seq<Command>, t: State)
    requires Reaches(FiveCardDraw, run, s) && Holding(s, ring, mark, d)
    requires 1 <= k < |ring| && |ring| > 2 && 2 in Without(ring, k)
    ensures Reaches(FiveCardDraw, run', t)
    ensures Holding(t, Without(ring, k), if mark == ring[k] then ring[k - 1] else mark, d)
  {
    hide Reaches, WellFormed;
    run', t := AwayOn(run, s, ring, mark, 1, k);
    forall x | x in Without(ring, k) ensures x in ring {
    }
  }

  // ----- the hand -----

  /** The unshuffled deck, cut so that the second player is dealt an ace first. */
  function AceDeck(): seq<Card> { NewDeck()[10..] + NewDeck()[..10] }

  lemma AceIsShuffle()
    ensures multiset(AceDeck()) == multiset(NewDeck()) && |AceDeck()| == 52
  {
    hide NewDeck, Encode;
    NewDeckSize();
    var n := NewDeck();
    assert n == n[..10] + n[10..];
  }

  lemma NewDeckSize()
    ensures |NewDeck()| == 52
  {
  }

  lemma AceInPlace()
    ensures |AceDeck()| == 52 && Value(AceDeck()[42]) == 1
  {
    assert AceDeck()[42] == NewDeck()[0];
  }

  lemma FirstTwoDealt(g: Game, seats: map<nat, Seat>)
    requires g.kind == FiveCardDraw && |g.deck| == 52 && (forall x :: x in seats <==> 1 <= x <= 5)
    requires forall x :: x in seats ==> !seats[x].folded && seats[x].hand == []
    ensures DealAround(g, seats, Ids(5)).seats[2].hand[..1] == [g.deck[42]]
  {
    hide DealAround;
    var d := DealTo(g, seats[1]);
    var seats' := seats[1 := d.seat];
    var e := DealTo(d.game, seats'[2]);
    assert Ids(5)[1..][0] == 2 && 2 !in Ids(5)[1..][1..];
    OneMoreDealt(g, seats, Ids(5));
    OneMoreDealt(d.game, seats', Ids(5)[1..]);
    DealAroundFrame(e.game, seats'[2 := e.seat], Ids(5)[1..][1..]);
  }

  lemma OneMoreDealt(g: Game, seats: map<nat, Seat>, ring: seq<nat>)
    requires ring != [] && forall i :: 0 <= i < |ring| ==> ring[i] in seats
    ensures var d := DealTo(g, seats[ring[0]]);
      DealAround(g, seats, ring) == DealAround(d.game, seats[ring[0] := d.seat], ring[1..])
  {
    hide DealTo;
  }

  /** Five cards each, and 27 left. */
  lemma FirstDealt()
    ensures var r := FirstHand(FiveCardDraw, 5, 1000, AceDeck());
      && |r.game.deck| == 27 && (forall x :: 1 <= x <= 5 ==> x in r.seats && |r.seats[x].hand| == 5)
      && Value(r.seats[2].hand[0]) == 1
  {
    hide DealAround, AceDeck, UpCount;
    AceIsShuffle();
    AceInPlace();
    ShuffledFaceDown(AceDeck());
    var g, seats := Game(FiveCardDraw, 0, AceDeck(), []), Anted(5, 1000);
    assert Needed(5, 5) == 25;
    DealAroundSizes(g, seats, Ids(5), 5);
    FirstTwoDealt(g, seats);
    var t := DealAround(g, seats, Ids(5));
    forall x | 1 <= x <= 5 ensures |t.seats[x].hand| == 5 {
      assert Ids(5)[x - 1] == x;
    }
    assert t.seats[2].hand[0] == t.seats[2].hand[..1][0];
  }

  /** The first hand at a table of five, after the antes. */
  lemma Antes() returns (run: seq<Command>, s: State)
    ensures Reaches(FiveCardDraw, run, s) && Even(s, [1, 2, 3, 4, 5], 1, 0) && Dealt5(s)
  {
    hide Reaches, Tracks, WellFormed, FirstHand;
    AceIsShuffle();
    run := Opening(5, 1000, AceDeck());
    s := Begin(FiveCardDraw, 5, 1000, AceDeck());
    TracksReaches(FiveCardDraw, run, s, Rota({}, BLIND));
    FirstDealt();
    assert Ids(5) == [1, 2, 3, 4, 5];
  }

  ghost predicate Dealt5(s: State) {
    && |s.game.deck| == 27 && (forall x :: 1 <= x <= 5 ==> x in s.seats && |s.seats[x].hand| == 5)
    && Value(s.seats[2].hand[0]) == 1
  }

  lemma DealtPassed(s: State)
    requires Dealt5(s) && |s.active| >= 2
    ensures Dealt5(Passed(s))
  {
  }

  /** Everybody checks, and the draw round opens. */
  lemma Checks() returns (run: seq<Command>, s: State)
    ensures Reaches(FiveCardDraw, run, s) && Holding(s, [1, 2, 3, 4, 5], 1, 27)
  {
    hide Reaches, WellFormed, Passed, Dealt5;
    Turns5();
    run, s := Antes();
    DealtPassed(s);
    run, s := CheckOn(run, s, [1, 2, 3, 4, 5], 1);
    DealtPassed(s);
    run, s := CheckOn(run, s, [2, 3, 4, 5, 1], 1);
    DealtPassed(s);
    run, s := CheckOn(run, s, [3, 4, 5, 1, 2], 1);
    DealtPassed(s);
    run, s := CheckOn(run, s, [4, 5, 1, 2, 3], 1);
    DealtPassed(s);
    run, s := CheckOn(run, s, [5, 1, 2, 3, 4], 1);
    DealtHolding(s);
  }

  lemma DealtHolding(s: State)
    requires Dealt5(s) && Even(s, [1, 2, 3, 4, 5], 1, 1)
    ensures Holding(s, [1, 2, 3, 4, 5], 1, 27)
  {
    hide WellFormed;
  }

  lemma Turns5()
    ensures Rotate<nat>([1, 2, 3, 4, 5], 1) == [2, 3, 4, 5, 1] && Rotate<nat>([2, 3, 4, 5, 1], 1) == [3, 4, 5, 1, 2]
    ensures Rotate<nat>([3, 4, 5, 1, 2], 1) == [4, 5, 1, 2, 3] && Rotate<nat>([4, 5, 1, 2, 3], 1) == [5, 1, 2, 3, 4]
    ensures Rotate<nat>([5, 1, 2, 3, 4], 1) == [1, 2, 3, 4, 5]
  {
  }

  lemma Turns4()
    ensures Without([5, 1, 2, 3, 4], 1) == [5, 2, 3, 4] && Without([4, 5, 2, 3], 1) == [4, 2, 3]
    ensures Rotate<nat>([5, 2, 3, 4], 1) == [2, 3, 4, 5] && Rotate<nat>([2, 3, 4, 5], 1) == [3, 4, 5, 2]
    ensures Rotate<nat>([3, 4, 5, 2], 1) == [4, 5, 2, 3] && Rotate<nat>([4, 2, 3], 1) == [2, 3, 4]
  {
  }

  /** Four draw, and the bettor leaves out of turn. */
  lemma FourHaveDrawn() returns (run: seq<Command>, s: State)
    ensures Reaches(FiveCardDraw, run, s) && Holding(s, [5, 2, 3, 4], 5, 14)
  {
    hide Reaches, Holding, Rotate, Without;
    Turns5();
    Turns4();
    run, s := Checks();
    run, s := ThreeOn(run, s, [1, 2, 3, 4, 5], 1, 27);
    run, s := FourOn(run, s, [2, 3, 4, 5, 1], 1, 24);
    run, s := ThreeOn(run, s, [3, 4, 5, 1, 2], 1, 20);
    run, s := ThreeOn(run, s, [4, 5, 1, 2, 3], 1, 17);
    run, s := AwayHolding(run, s, [5, 1, 2, 3, 4], 1, 14, 1);
  }

  /** Three more draw, the next bettor leaves, and one more draws: a single card is left. */
  lemma OneCardLeft() returns (run: seq<Command>, s: State)
    ensures Reaches(FiveCardDraw, run, s) && Holding(s, [2, 3, 4], 4, 1)
  {
    hide Reaches, Holding, Rotate, Without;
    Turns4();
    run, s := FourHaveDrawn();
    run, s := ThreeOn(run, s, [5, 2, 3, 4], 5, 14);
    run, s := FourOn(run, s, [2, 3, 4, 5], 5, 11);
    run, s := ThreeOn(run, s, [3, 4, 5, 2], 5, 7);
    run, s := AwayHolding(run, s, [4, 5, 2, 3], 5, 4, 1);
    run, s := ThreeOn(run, s, [4, 2, 3], 4, 4);
  }

  // ----- a player without a card -----

  lemma Turns2()
    ensures Without([3, 4, 2], 1) == [3, 2] && Rotate<nat>([2, 3, 4], 1) == [3, 4, 2]
    ensures Rotate<nat>([3, 2], 1) == [2, 3] && Rotate<nat>([2, 3], 1) == [3, 2]
  {
  }

  /** Naming no card changes nothing. */
  lemma DrawnNone(g: Game, p: Seat)
    ensures ReplaceCards(g, p, []).Replaced?
    ensures ReplaceCards(g, p, []).seat == p && ReplaceCards(g, p, []).game.deck == g.deck
  {
    assert p.hand + DealtCards(g.deck, 0) == p.hand;
    assert DeckAfter(g.deck, 0) == g.deck;
  }

  /** With an empty deck, naming both cards of a hand of two leaves none. */
  lemma DrawnLast(g: Game, p: Seat)
    requires |p.hand| == 2 && g.deck == []
    ensures var r := ReplaceCards(g, p, p.hand); r.Replaced? && r.seat.hand == []
  {
    RemoveFront(p.hand, 2);
    assert p.hand[..2] == p.hand && p.hand[2..] == [];
  }

  /** The third bettor leaves, and the one after has no need of cards. */
  lemma TwoAreLeft(run: seq<Command>, s: State) returns (run': seq<Command>, t: State)
    requires Reaches(FiveCardDraw, run, s) && Even(s, [3, 4, 2], 4, 1)
    ensures Reaches(FiveCardDraw, run', t) && Even(t, [2, 3], 3, 1) && t.game.deck == s.game.deck
    ensures 2 in s.seats && 2 in t.seats && t.seats[2].hand == s.seats[2].hand
    ensures 4 !in t.seats && |t.seats| < MAX_PLAYERS
  {
    hide Reaches, Rotate, Without, ReplaceCards;
    Turns2();
    EvenMembers(s, [3, 4, 2], 4, 1, 2);
    EvenMembers(s, [3, 4, 2], 4, 1, 4);
    run', t := AwayOn(run, s, [3, 4, 2], 4, 1, 1);
    SmallerSet(s.seats.Keys, 4);
    assert |t.seats| == |t.seats.Keys| && |s.seats| == |s.seats.Keys|;
    EvenMembers(t, [3, 2], 3, 1, 3);
    EvenMembers(t, [3, 2], 3, 1, 2);
    DrawnNone(t.game, t.seats[3]);
    run', t := DrawOn(run', t, [3, 2], 3, []);
    assert |t.seats| == |t.seats.Keys|;
  }

  lemma EvenMembers(s: State, ring: seq<nat>, mark: nat, round: nat, x: nat)
    requires Even(s, ring, mark, round) && x in ring
    ensures x in s.seats && |s.seats| <= MAX_PLAYERS
  {
  }

  /** Once the deck is empty the second player names the last two cards, and goes on in the hand without any. */
  lemma NoCardReached() returns (run: seq<Command>, s: State)
    ensures Reaches(FiveCardDraw, run, s) && Even(s, [3, 2], 3, 2)
    ensures 2 in s.seats && s.seats[2].hand == [] && 4 !in s.seats && |s.seats| < MAX_PLAYERS
  {
    hide Reaches, Rotate, Without, ReplaceCards, Holding, Even;
    Turns2();
    run, s := OneCardLeft();
    run, s := FourOn(run, s, [2, 3, 4], 4, 1);
    run, s := TwoAreLeft(run, s);
    DrawnLast(s.game, s.seats[2]);
    run, s := DrawOn(run, s, [2, 3], 3, s.seats[2].hand);
    assert |s.seats| == |s.seats.Keys|;
  }

  /** A newcomer then ties with that player, and a fold by the third depends on the order of the player map. */
  lemma DrawOrderShows() returns (run: seq<Command>, s: State, order: seq<nat>, other: seq<nat>)
    ensures Reaches(FiveCardDraw, run, s) && WellFormed(s) && s.turn == Some(3)
    ensures 2 in s.active && 2 in s.seats && s.seats[2].hand == []
    ensures Enumerates(order, s.seats.Keys) && Enumerates(other, s.seats.Keys)
    ensures Fold(s, 3, order).state != Fold(s, 3, other).state
  {
    hide Reaches, Fold, RankOf, BoardRank, HandRanks.Compare, Enumerates, Held;
    var t: State;
    run, t := NoCardReached();
    ReachesThen(FiveCardDraw, run, t, Join(4, 1000, false));
    run, s := run + [Join(4, 1000, false)], Step(t, Join(4, 1000, false)).state;
    SoundRun(FiveCardDraw, run, s);
    JoinedTie(t, s);
    LastFoldOrderIff(s, 3);
    order, other :| Enumerates(order, s.seats.Keys) && Enumerates(other, s.seats.Keys)
      && Fold(s, 3, order).state != Fold(s, 3, other).state;
  }

  lemma JoinedTie(t: State, s: State)
    requires Even(t, [3, 2], 3, 2) && 2 in t.seats && t.seats[2].hand == [] && 4 !in t.seats && |t.seats| < MAX_PLAYERS
    requires s == AddPlayer(t, 4, 1000, false).state && WellFormed(s)
    ensures s.active == [3, 2] && 3 in s.active && 2 in s.active && s.turn == Some(3) && TwoBare(s, 3)
    ensures Other(s, 3) == 2 && 2 in s.seats && s.seats[2].hand == []
    ensures HandRanks.Compare(RankOf(s, 2), BoardRank(s)) != Greater
  {
    hide RankOf, BoardRank, HandRanks.Compare, InsertAt, IndexOf, Seating;
    assert s.active[0] == 3 && s.active[1] == 2;
    assert Bare(s, 2) && Bare(s, 4);
    BareRank(s, 2);
    HandRanks.CompareEqual(BoardRank(s), BoardRank(s));
  }

  // ----- the last four cards -----

  lemma DrawnTwo(g: Game, p: Seat)
    requires |p.hand| == 5 && |g.deck| == 1
    ensures var r := ReplaceCards(g, p, p.hand[..2]); r.Replaced? && |r.seat.hand| == 4
  {
    RemoveFront(p.hand, 2);
    ReplaceKeepsSizeIff(g, p, p.hand[..2]);
  }

  /** With one card in the deck a change of two leaves a hand of four; naming all four fails on the missing card. */
  lemma PanicReached() returns (run: seq<Command>, s: State)
    ensures Reaches(FiveCardDraw, run, s) && WellFormed(s) && DrawRound(s.game) && s.turn == Some(2) && 2 in s.seats
    ensures ReplaceCards(s.game, s.seats[2], s.seats[2].hand) == Refused(EmptyHandPanic)
  {
    hide Reaches, Rotate, Without, ReplaceCards;
    Turns2();
    run, s := OneCardLeft();
    DrawnTwo(s.game, s.seats[2]);
    run, s := DrawOn(run, s, [2, 3, 4], 4, s.seats[2].hand[..2]);
    run, s := TwoAreLeft(run, s);
    ReplacePanicsIff(s.game, s.seats[2], s.seats[2].hand);
    assert s.active[0] == 2;
  }
}
