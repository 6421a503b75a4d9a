/** Cards over a whole hand: none made, none lost, and every deal complete. */
module Dealing {
  import opened Options
  import opened Sums
  import opened Cards
  import opened Games
  import opened Protocol
  import opened Rings
  import opened Driver
  import Betting

  /** Copies of a face in the deck, on the board and in the hands at the table. */
  ghost function Held(s: State, f: nat): nat {
    Copies(s.game.deck, f) + Copies(s.game.community, f) + Sum(s.seats, HandCopies(f))
  }

  lemma HeldSame(s: State, t: State, f: nat)
    requires t.game == s.game && t.seats.Keys == s.seats.Keys
    requires forall id :: id in s.seats ==> t.seats[id].hand == s.seats[id].hand
    ensures Held(t, f) == Held(s, f)
  {
    SumSame(s.seats, t.seats, HandCopies(f));
  }

  lemma OpenRoundHeld(g: Game, seats: map<nat, Seat>, ring: seq<nat>, f: nat)
    requires forall i :: 0 <= i < |ring| ==> ring[i] in seats
    ensures var r := OpenRound(g, seats, ring);
      Copies(r.game.deck, f) + Copies(r.game.community, f) + Sum(r.seats, HandCopies(f))
        == Copies(g.deck, f) + Copies(g.community, f) + Sum(seats, HandCopies(f))
  {
    hide DealAround, DealCommunity, Copies, Sum;
    DealAroundKeepsCards(g, seats, ring, f);
    DealAroundFrame(g, seats, ring);
    CommunityHeld(g, 1, f);
    CommunityHeld(g, 3, f);
  }

  lemma CommunityHeld(g: Game, n: nat, f: nat)
    ensures var h := DealCommunity(g, n);
      Copies(h.deck, f) + Copies(h.community, f) == Copies(g.deck, f) + Copies(g.community, f)
  {
    DealSplits(g.deck, n, f);
    AllFaceUpCopies(DealtCards(g.deck, n), f);
    CopiesConcat(g.community, AllFaceUp(DealtCards(g.deck, n)), f);
  }

  lemma RoundHeld(s: State, order: seq<nat>, f: nat)
    requires Enumerates(order, s.seats.Keys) && Coherent(s)
    ensures var r := RoundAction(s, order); r.goesOn ==> Held(r.state, f) == Held(s, f)
  {
    hide OpenRound, EndGame;
    OpenRoundHeld(s.game, s.seats, s.active, f);
  }

  lemma AdvanceHeld(s: State, order: seq<nat>, f: nat)
    requires WellFormed(s) && s.active != [] && Enumerates(order, s.seats.Keys)
    ensures var t := AdvanceTurn(s, order); t.active != [] ==> Held(t, f) == Held(s, f)
  {
    hide RoundAction, FinishRounds, Held;
    var k := NextBetting(s, 1);
    if k == |s.active| {
      FinishSeated(s, order, 20);
    } else {
      NextTurnSeated(s, k);
      var t := s.(active := Rotate(s.active, k), turn := Some(s.active[k]));
      var next := t.(game := NextRound(s.game));
      HeldSame(s, t, f);
      NextRoundHeld(t, f);
      RoundHeld(next, order, f);
      RoundSeated(next, order);
    }
  }

  lemma NextRoundHeld(s: State, f: nat)
    ensures Held(s.(game := NextRound(s.game)), f) == Held(s, f)
  {
  }

  /** The cards that an accepted command puts out of play: named discards, or the hand of a leaver. */
  ghost function Gone(s: State, c: Command, f: nat): nat
    requires WellFormed(s) && Legal(s, c)
  {
    match c
    case Act(id, action, order, order') =>
      if action.Leave? && id in s.seats then Copies(s.seats[id].hand, f)
      else if action.ReplaceAction? && RunAction(s, id, action, order, order').outcome == Accepted && action.cards.Some?
        then Copies(action.cards.value, f)
      else 0
    case Expire(_, _) => if s.turn.value in s.seats then Copies(s.seats[s.turn.value].hand, f) else 0
    case _ => 0
  }

  lemma RemoveHeld(s: State, id: nat, order: seq<nat>, order': seq<nat>, f: nat)
    requires WellFormed(s) && id in s.seats
    requires Enumerates(order, s.seats.Keys) && Enumerates(order', s.seats.Keys - {id})
    ensures var t := RemovePlayer(s, id, order, order').state;
      t.active != [] ==> Held(t, f) + Copies(s.seats[id].hand, f) == Held(s, f)
  {
    hide RemovePlayer, Fold, Copies;
    Betting.RemoveFields(s, id, order, order');
    RemoveSeated(s, id, order, order');
    var t := Fold(s, id, order).state;
    if t.active != [] {
      FoldHands(s, id, order);
      HeldSame(s, t, f);
      SumRemove(t.seats, id, HandCopies(f));
    }
  }

  lemma FoldHands(s: State, id: nat, order: seq<nat>)
    requires WellFormed(s) && id in s.seats && Enumerates(order, s.seats.Keys)
    ensures var t := Fold(s, id, order).state; t.active != [] ==>
      t.game == s.game && forall x :: x in s.seats ==> t.seats[x].hand == s.seats[x].hand
  {
    hide EndGame;
    if id in s.active { FoldSeated(s, id, order); }
  }

  lemma PlayHeld(s: State, id: nat, action: Action, order: seq<nat>, f: nat)
    requires WellFormed(s) && s.turn == Some(id) && Enumerates(order, s.seats.Keys)
    ensures var r := Play(s, id, action, order);
      r.state.active != [] && r.outcome == Accepted ==>
        Held(s, f) ==
        Held(r.state, f) + (if action.ReplaceAction? && action.cards.Some? then Copies(action.cards.value, f) else 0)
  {
    hide EndGame, Held, Copies, ReplaceCards;
    assert s.active[0] == id;
    var t := Play(s, id, action, order).state;
    if DrawRound(s.game) {
      if action.ReplaceAction? && action.cards.Some? { ReplaceHeld(s, id, action, f); }
    } else if action.FoldAction? {
      FoldSeated(s, id, order);
      if t.active != [] { HeldSame(s, t, f); }
    } else {
      HeldSame(s, t, f);
    }
  }

  lemma ReplaceHeld(s: State, id: nat, action: Action, f: nat)
    requires id in s.seats && action.ReplaceAction? && action.cards.Some?
    ensures var r := Replace(s, id, action);
      if r.outcome == Accepted then Held(r.state, f) + Copies(action.cards.value, f) == Held(s, f) else r.state == s
  {
    var t := Replace(s, id, action).state;
    ReplaceSwaps(s.game, s.seats[id], action.cards.value, f);
    SumUpdate(s.seats, id, t.seats[id], HandCopies(f));
  }

  /** While a hand runs, the cards in play and those put out of play account for each other at every step. */
  lemma StepCards(s: State, c: Command, f: nat)
    requires WellFormed(s) && Legal(s, c)
    ensures s.active != [] && Step(s, c).state.active != [] ==> Held(Step(s, c).state, f) + Gone(s, c, f) == Held(s, f)
  {
    hide RemovePlayer, AdvanceTurn, StartGame, Play, Held;
    if s.active == [] || Step(s, c).state.active == [] { return; }
    match c
    case Join(id, wallet, folded) => AddHeld(s, id, wallet, folded, f);
    case Act(id, action, order, order') => ActCards(s, id, action, order, order', f);
    case Start(order, deck) =>
    case Expire(order, order') =>
      var id := s.turn.value;
      assert s.active[0] == id;
      RemoveHeld(s, id, order, order', f);
      LeaveWellFormed(s, id, order, order');
      var t := RemovePlayer(s, id, order, order').state;
      RemoveSeated(s, id, order, order');
      if t.turn.Some? { AdvanceHeld(t, order', f); }
  }

  lemma AddHeld(s: State, id: nat, wallet: nat, folded: bool, f: nat)
    ensures Held(AddPlayer(s, id, wallet, folded).state, f) == Held(s, f)
  {
    if id !in s.seats { SumUpdate(s.seats, id, Seat(wallet, 0, folded, []), HandCopies(f)); }
  }

  lemma ActCards(s: State, id: nat, action: Action, order: seq<nat>, order': seq<nat>, f: nat)
    requires WellFormed(s) && s.active != []
    requires Enumerates(order, s.seats.Keys) && Enumerates(order', s.seats.Keys - {id})
    requires RunAction(s, id, action, order, order').state.active != []
    ensures Held(s, f) ==
      Held(RunAction(s, id, action, order, order').state, f) + Gone(s, Act(id, action, order, order'), f)
  {
    hide AdvanceTurn, Play, RemovePlayer, Held;
    if action.Leave? {
      if id in s.seats { RemoveHeld(s, id, order, order', f); } else { Betting.MissingLeaver(s, id, order, order'); }
    } else if !action.Update? && !action.KeepPlayingAction? && s.turn == Some(id) {
      var r := Play(s, id, action, order);
      PlayWellFormed(s, id, action, order);
      PlayHeld(s, id, action, order, f);
      RefusedKeepsCards(s, id, action, order, f);
      if r.outcome == Accepted {
        AdvanceSeated(r.state, order);
        assert r.state.active != [] by { NoHandNoAdvance(r.state, order); }
        AdvanceHeld(r.state, order, f);
      }
    } else {
      HeldSame(s, KeepPlaying(s, id).state, f);
    }
  }

  lemma NoHandNoAdvance(s: State, order: seq<nat>)
    requires Enumerates(order, s.seats.Keys) && Coherent(s)
    ensures s.active == [] ==> AdvanceTurn(s, order) == s
  {
  }

  /** A refused command moves no card. */
  lemma RefusedKeepsCards(s: State, id: nat, action: Action, order: seq<nat>, f: nat)
    requires WellFormed(s) && s.turn == Some(id) && Enumerates(order, s.seats.Keys)
    ensures var r := Play(s, id, action, order);
      r.outcome != Accepted ==> r.state.game == s.game && r.state.seats == s.seats && Held(r.state, f) == Held(s, f)
  {
    hide EndGame;
  }

  lemma FreshHeld(seats: map<nat, Seat>, f: nat)
    ensures Sum(FreshSeats(seats), HandCopies(f)) == 0
  {
    SumZero(FreshSeats(seats), HandCopies(f));
  }

  /** A hand starts with exactly one deck of 52 different cards. */
  lemma StartCards(s: State, order: seq<nat>, deck: seq<Card>, f: nat)
    requires WellFormed(s) && s.active == [] && |s.seats| >= 2 && Enumerates(order, s.seats.Keys)
    requires multiset(deck) == multiset(NewDeck())
    ensures Held(StartGame(s, order, deck), f) == if IsDeckFace(f) then 1 else 0
  {
    hide OpenRound, Posted, DealtIn, FreshSeats, Sum, Copies, Rotate, Seating, InHand, Turning, ReadyToPost;
    hide Enumerates, Rebuild;
    var d := DealtIn(s, order, deck);
    DealtInSeating(s, order, deck);
    FreshHeld(s.seats, f);
    CopiesOfPermutation(deck, NewDeck(), f);
    NewDeckCopies(f);
    assert Copies([], f) == 0 by { NoCopies(f); }
    PostedFrame(d);
    PostedSeated(d);
    var u := Posted(d);
    HeldSame(d, u, f);
    OpenRoundHeld(u.game, u.seats, u.active, f);
  }

  lemma NoCopies(f: nat)
    ensures Copies([], f) == 0
  {
  }

  /** The hand is still running after every command of the run. */
  ghost predicate WithinHand(s: State, run: seq<Command>)
    requires WellFormed(s) && LegalRun(s, run)
    decreases |run|
  {
    s.active != [] && (run == [] || (StepWellFormed(s, run[0]); WithinHand(Step(s, run[0]).state, run[1..])))
  }

  ghost function GoneOver(s: State, run: seq<Command>, f: nat): nat
    requires WellFormed(s) && LegalRun(s, run)
    decreases |run|
  {
    if run == [] then 0 else
      StepWellFormed(s, run[0]);
      Gone(s, run[0], f) + GoneOver(Step(s, run[0]).state, run[1..], f)
  }

  lemma {:induction false} HandCards(s: State, run: seq<Command>, f: nat)
    requires WellFormed(s) && LegalRun(s, run) && WithinHand(s, run)
    ensures Held(Run(s, run), f) + GoneOver(s, run, f) == Held(s, f)
    decreases |run|
  {
    hide Step, Gone, Held;
    if run != [] {
      StepWellFormed(s, run[0]);
      StepCards(s, run[0], f);
      HandCards(Step(s, run[0]).state, run[1..], f);
    }
  }

  /** At every moment of a hand each of the 52 cards is in exactly one place, in play or put out of play. */
  lemma DeckAccounted(s: State, order: seq<nat>, deck: seq<Card>, run: seq<Command>, f: nat)
    requires WellFormed(s) && s.active == [] && |s.seats| >= 2 && Legal(s, Start(order, deck))
    ensures var t := StartGame(s, order, deck);
      && WellFormed(t)
      && (LegalRun(t, run) && WithinHand(t, run) ==>
            Held(Run(t, run), f) + GoneOver(t, run, f) == if IsDeckFace(f) then 1 else 0)
  {
    hide Held, GoneOver, Run, StartGame, LegalRun, WithinHand;
    StartWellFormed(s, order, deck);
    StartCards(s, order, deck, f);
    var t := StartGame(s, order, deck);
    if LegalRun(t, run) && WithinHand(t, run) { HandCards(t, run, f); }
  }

  // ----- no card is in play twice -----

  /** While a hand runs no face is in play twice. */
  ghost predicate SingleCopies(s: State) {
    s.active != [] ==> forall f :: Held(s, f) <= 1
  }

  /** Only the start of a hand fills the active ring. */
  lemma StaysIdle(s: State, c: Command)
    requires WellFormed(s) && Legal(s, c) && s.active == []
    ensures Step(s, c).state.active != [] ==> c.Start? && |s.seats| >= 2
  {
    hide RemovePlayer, StartGame, AddPlayer;
    match c
    case Join(id, wallet, folded) => AddSeated(s, id, wallet, folded);
    case Act(id, action, order, order') =>
      if action.Leave? {
        if id in s.seats { RemoveSeated(s, id, order, order'); } else { Betting.MissingLeaver(s, id, order, order'); }
      }
    case Start(_, _) =>
    case Expire(_, _) =>
  }

  lemma StepSingle(s: State, c: Command)
    requires WellFormed(s) && SingleCopies(s) && Legal(s, c)
    ensures SingleCopies(Step(s, c).state)
  {
    hide Held, Step, StartGame;
    var t := Step(s, c).state;
    if t.active == [] { return; }
    forall f ensures Held(t, f) <= 1 {
      if s.active != [] {
        StepCards(s, c, f);
      } else {
        StaysIdle(s, c);
        StartIsStep(s, c);
        StartCards(s, c.order, c.deck, f);
      }
    }
  }

  lemma StartIsStep(s: State, c: Command)
    requires WellFormed(s) && Legal(s, c) && s.active == [] && c.Start? && |s.seats| >= 2
    ensures Step(s, c).state == StartGame(s, c.order, c.deck)
  {
    hide StartGame;
  }

  /** So no hand shows a face twice. */
  lemma HandsDistinct(s: State, id: nat, i: nat, j: nat)
    requires s.active != [] && SingleCopies(s) && id in s.seats && i < j < |s.seats[id].hand|
    ensures Face(s.seats[id].hand[i]) != Face(s.seats[id].hand[j])
  {
    var hand := s.seats[id].hand;
    if Face(hand[i]) == Face(hand[j]) {
      var f := Face(hand[i]);
      assert Held(s, f) <= 1;
      assert hand == hand[..j] + hand[j..];
      CopiesConcat(hand[..j], hand[j..], f);
      CopiesPositive(hand[..j], i);
      CopiesPositive(hand[j..], 0);
      SumAtLeast(s.seats, id, HandCopies(f));
    }
  }

  /** Nor do two hands share one. */
  lemma HandsDisjoint(s: State, a: nat, b: nat, i: nat, j: nat)
    requires s.active != [] && SingleCopies(s) && a in s.seats && b in s.seats && a != b
    requires i < |s.seats[a].hand| && j < |s.seats[b].hand|
    ensures Face(s.seats[a].hand[i]) != Face(s.seats[b].hand[j])
  {
    hide Held, Copies;
    var f := Face(s.seats[a].hand[i]);
    assert Held(s, f) <= 1;
    HeldParts(s, a, b, f);
    CopiesPositive(s.seats[a].hand, i);
    CopiesPositive(s.seats[b].hand, j);
  }

  lemma HeldParts(s: State, a: nat, b: nat, f: nat)
    requires a in s.seats && b in s.seats && a != b
    ensures Copies(s.seats[a].hand, f) + Copies(s.seats[b].hand, f) + Copies(s.game.community, f) <= Held(s, f)
  {
    hide Copies;
    SumRemove(s.seats, a, HandCopies(f));
    SumAtLeast(s.seats - {a}, b, HandCopies(f));
  }

  // ----- how many cards everybody holds -----

  function UpCount(hand: seq<Card>): nat {
    if hand == [] then 0 else (if IsFaceUp(hand[0]) then 1 else 0) + UpCount(hand[1..])
  }

  lemma {:induction false} UpCountConcat(a: seq<Card>, b: seq<Card>)
    ensures UpCount(a + b) == UpCount(a) + UpCount(b)
  {
    if a == [] {
      assert a + b == b;
    } else {
      assert (a + b)[1..] == a[1..] + b;
      UpCountConcat(a[1..], b);
    }
  }

  ghost predicate FaceDown(cards: seq<Card>) { forall i :: 0 <= i < |cards| ==> cards[i] < 64 }

  lemma {:induction false} UpCountDown(cards: seq<Card>)
    requires FaceDown(cards)
    ensures UpCount(cards) == 0
  {
    if cards != [] { UpCountDown(cards[1..]); }
  }

  lemma {:induction false} UpCountUp(cards: seq<Card>)
    ensures UpCount(AllFaceUp(cards)) == |cards|
  {
    if cards != [] {
      FaceUpKeepsFace(cards[0]);
      assert AllFaceUp(cards)[1..] == AllFaceUp(cards[1..]);
      UpCountUp(cards[1..]);
    }
  }

  /** A deal out of a deck that is long enough is complete. */
  lemma DealToSizes(g: Game, p: Seat)
    requires !p.folded && FaceDown(g.deck)
    requires |g.deck| >= DealCounts(g.kind, g.round).0 + DealCounts(g.kind, g.round).1
    ensures var d := DealTo(g, p); var (down, up) := DealCounts(g.kind, g.round);
      && |d.seat.hand| == |p.hand| + down + up && UpCount(d.seat.hand) == UpCount(p.hand) + up
      && |d.game.deck| == |g.deck| - down - up && FaceDown(d.game.deck)
      && d.game == g.(deck := d.game.deck) && d.seat == p.(hand := d.seat.hand)
  {
    hide UpCount;
    var (down, up) := DealCounts(g.kind, g.round);
    var hidden, rest := DealtCards(g.deck, down), DeckAfter(g.deck, down);
    var shown := AllFaceUp(DealtCards(rest, up));
    UpCountConcat(p.hand + hidden, shown);
    UpCountConcat(p.hand, hidden);
    UpCountDown(hidden);
    UpCountUp(DealtCards(rest, up));
  }

  /** The cards that n players take in all. */
  function Needed(per: nat, n: nat): nat { per * n }

  lemma NeededStep(per: nat, n: nat)
    ensures Needed(per, 0) == 0 && (n > 0 ==> Needed(per, n) == per + Needed(per, n - 1))
  {
  }

  /** Walking the ring deals to each of its players exactly once. */
  lemma {:induction false} DealAroundSizes(g: Game, seats: map<nat, Seat>, ring: seq<nat>, per: nat)
    requires Distinct(ring) && forall i :: 0 <= i < |ring| ==> ring[i] in seats && !seats[ring[i]].folded
    requires per == DealCounts(g.kind, g.round).0 + DealCounts(g.kind, g.round).1
    requires FaceDown(g.deck) && |g.deck| >= Needed(per, |ring|)
    ensures var t := DealAround(g, seats, ring);
      && |t.game.deck| == |g.deck| - Needed(per, |ring|) && FaceDown(t.game.deck)
      && forall i :: 0 <= i < |ring| ==>
           |t.seats[ring[i]].hand| == |seats[ring[i]].hand| + per
           && UpCount(t.seats[ring[i]].hand) == UpCount(seats[ring[i]].hand) + DealCounts(g.kind, g.round).1
    decreases |ring|
  {
    hide DealTo, DealCounts, UpCount, FaceDown, Needed;
    NeededStep(per, |ring|);
    if ring != [] {
      DealToSizes(g, seats[ring[0]]);
      var d := DealTo(g, seats[ring[0]]);
      var rest := ring[1..];
      var seats' := seats[ring[0] := d.seat];
      assert forall i :: 0 <= i < |rest| ==> rest[i] == ring[i + 1] && seats'[rest[i]] == seats[rest[i]];
      DealAroundSizes(d.game, seats', rest, per);
      DealAroundFrame(d.game, seats', rest);
      var t := DealAround(d.game, seats', rest);
      assert ring[0] !in rest;
      forall i | 1 <= i < |ring| ensures
           |t.seats[ring[i]].hand| == |seats[ring[i]].hand| + per
           && UpCount(t.seats[ring[i]].hand) == UpCount(seats[ring[i]].hand) + DealCounts(g.kind, g.round).1 {
        assert ring[i] == rest[i - 1];
      }
    }
  }

  function BoardSize(round: nat): nat {
    if round == 0 then 0 else if round == 1 then 3 else if round == 2 then 4 else 5
  }

  function UpCards(round: nat): nat { 1 + (if round < 3 then round else 3) }

  /** What a player still in the hand holds in each game; after its draw, Five Card Draw leaves this open. */
  predicate RightHand(g: Game, hand: seq<Card>) {
    match g.kind
    case FiveCardDraw => g.round == 0 ==> |hand| == 5
    case SevenCardStud => |hand| == 3 + g.round && UpCount(hand) == UpCards(g.round)
    case TexasHoldem => |hand| == 2
  }

  /** What is left in the deck and on the board, with at most five players dealt to. */
  predicate RightDeck(g: Game) {
    match g.kind
    case FiveCardDraw => true
    case SevenCardStud => |g.deck| + 5 * (3 + g.round) >= 52
    case TexasHoldem => |g.deck| + 10 + BoardSize(g.round) >= 52 && |g.community| == BoardSize(g.round)
  }

  ghost predicate Portions(s: State) {
    s.active != [] ==>
      && FaceDown(s.game.deck) && RightDeck(s.game)
      && forall id :: id in s.active ==> id in s.seats && RightHand(s.game, s.seats[id].hand)
  }

  lemma PortionsSame(s: State, t: State)
    requires Portions(s) && t.game == s.game && (t.active != [] ==> s.active != [])
    requires forall id :: id in t.active ==> id in s.active && id in t.seats && t.seats[id].hand == s.seats[id].hand
    ensures Portions(t)
  {
  }

  /** The state in which a round is about to be opened. */
  ghost predicate ReadyToDeal(s: State) {
    && FaceDown(s.game.deck)
    && if s.game.round == 0 then
         && |s.game.deck| == 52 && s.game.community == []
         && forall id :: id in s.active ==> id in s.seats && s.seats[id].hand == []
       else
         var g := s.game.(round := s.game.round - 1);
         RightDeck(g) && forall id :: id in s.active ==> id in s.seats && RightHand(g, s.seats[id].hand)
  }

  lemma {:induction false} DistinctSize(q: seq<nat>, ids: set<nat>)
    requires Distinct(q) && forall i :: 0 <= i < |q| ==> q[i] in ids
    ensures |q| <= |ids|
  {
    if q != [] {
      DistinctSize(q[1..], ids - {q[0]});
    }
  }

  lemma RingDealPortions(s: State)
    requires Seated(s) && ReadyToDeal(s) && (s.game.kind == SevenCardStud || s.game.round == 0)
    requires s.game.round <= LastRound(s.game.kind)
    ensures var t := DealAround(s.game, s.seats, s.active);
      Portions(s.(game := t.game, seats := t.seats))
  {
    hide DealAround, UpCount;
    var (down, up) := DealCounts(s.game.kind, s.game.round);
    var per := down + up;
    DistinctSize(s.active, s.seats.Keys);
    assert |s.active| <= 5 && per <= 5;
    NeededAtMost(per, |s.active|);
    assert s.game.kind == SevenCardStud && s.game.round > 0 ==> per == 1;
    DealAroundSizes(s.game, s.seats, s.active, per);
    DealAroundFrame(s.game, s.seats, s.active);
    var t := DealAround(s.game, s.seats, s.active);
    forall id | id in s.active ensures id in t.seats && RightHand(t.game, t.seats[id].hand) {
      var i :| 0 <= i < |s.active| && s.active[i] == id;
      assert UpCount([]) == 0 by { NoneUp(); }
    }
  }

  lemma NoneUp()
    ensures UpCount([]) == 0
  {
  }

  lemma NeededAtMost(per: nat, n: nat)
    requires n <= 5
    ensures Needed(per, n) <= per * 5 && (per == 1 ==> Needed(per, n) == n)
  {
  }

  lemma OpenRoundPortions(s: State)
    requires Seated(s) && ReadyToDeal(s) && s.game.round <= LastRound(s.game.kind)
    ensures var r := OpenRound(s.game, s.seats, s.active);
      Portions(s.(game := r.game, seats := r.seats))
  {
    hide DealAround, UpCount;
    if s.game.kind == SevenCardStud || s.game.round == 0 {
      RingDealPortions(s);
    }
  }

  lemma RoundPortions(s: State, order: seq<nat>)
    requires Seated(s) && s.active != [] && ReadyToDeal(s) && Enumerates(order, s.seats.Keys)
    ensures Portions(RoundAction(s, order).state)
  {
    hide OpenRound, EndGame, ReadyToDeal, Portions;
    RoundSeated(s, order);
    if s.game.round <= LastRound(s.game.kind) {
      OpenRoundPortions(s);
    } else {
      NothingDealt(RoundAction(s, order).state);
    }
  }

  lemma NothingDealt(s: State)
    ensures s.active == [] ==> Portions(s)
  {
  }

  lemma NextRoundReady(s: State)
    requires Portions(s) && s.active != []
    ensures ReadyToDeal(s.(game := NextRound(s.game)))
  {
    assert NextRound(s.game).(round := s.game.round) == s.game;
  }

  lemma AdvancePortions(s: State, order: seq<nat>)
    requires WellFormed(s) && Portions(s) && Enumerates(order, s.seats.Keys)
    ensures Portions(AdvanceTurn(s, order))
  {
    hide RoundAction, FinishRounds, Portions, ReadyToDeal;
    AdvanceSeated(s, order);
    NothingDealt(AdvanceTurn(s, order));
    if s.active != [] {
      var k := NextBetting(s, 1);
      if k < |s.active| {
        NextTurnSeated(s, k);
        RotateKeeps(s.active, k);
        var t := s.(active := Rotate(s.active, k), turn := Some(s.active[k]));
        PortionsRotated(s, t);
        NextRoundReady(t);
        RoundPortions(t.(game := NextRound(s.game)), order);
      } else {
        FinishSeated(s, order, 20);
      }
    }
  }

  lemma PortionsRotated(s: State, t: State)
    requires InHand(s) && Portions(s) && s.active != [] && t.game == s.game && t.seats == s.seats
    requires forall x :: x in t.active <==> x in s.active
    ensures Portions(t)
  {
    forall id | id in t.active ensures id in s.active && id in t.seats {
      var i :| 0 <= i < |s.active| && s.active[i] == id;
    }
    PortionsSame(s, t);
  }

  lemma FoldPortions(s: State, id: nat, order: seq<nat>)
    requires WellFormed(s) && Portions(s) && id in s.seats && Enumerates(order, s.seats.Keys)
    ensures Portions(Fold(s, id, order).state)
  {
    hide Fold;
    var t := Fold(s, id, order).state;
    LeaverIsOut(s, id, order);
    FoldHands(s, id, order);
    if id in s.active { FoldSeated(s, id, order); }
    NothingDealt(t);
    if t.active != [] {
      forall x | x in t.active ensures x in s.active && x in t.seats {
        var i :| 0 <= i < |t.active| && t.active[i] == x;
      }
      PortionsSame(s, t);
    }
  }

  lemma RemovePortions(s: State, id: nat, order: seq<nat>, order': seq<nat>)
    requires WellFormed(s) && Portions(s) && id in s.seats
    requires Enumerates(order, s.seats.Keys) && Enumerates(order', s.seats.Keys - {id})
    ensures Portions(RemovePlayer(s, id, order, order').state)
  {
    hide Fold, RemovePlayer, Portions;
    FoldPortions(s, id, order);
    Betting.RemoveFields(s, id, order, order');
    RemoveSeated(s, id, order, order');
    var t, u := Fold(s, id, order).state, RemovePlayer(s, id, order, order').state;
    NothingDealt(u);
    if u.active != [] {
      forall x | x in u.active ensures x in t.active && x in u.seats {
        var i :| 0 <= i < |u.active| && u.active[i] == x;
      }
      PortionsSame(t, u);
    }
  }

  lemma PlayPortions(s: State, id: nat, action: Action, order: seq<nat>)
    requires WellFormed(s) && Portions(s) && s.turn == Some(id) && Enumerates(order, s.seats.Keys)
    ensures Portions(Play(s, id, action, order).state)
  {
    hide Fold, ReplaceCards, RightHand, RightDeck;
    assert s.active[0] == id;
    var t := Play(s, id, action, order).state;
    if DrawRound(s.game) {
      DrawPortions(s, id, action);
    } else if action.FoldAction? {
      FoldPortions(s, id, order);
    } else {
      assert t.game == s.game && t.active == s.active;
      PortionsSame(s, t);
    }
  }

  lemma DrawPortions(s: State, id: nat, action: Action)
    requires Seated(s) && Portions(s) && s.turn == Some(id) && DrawRound(s.game)
    ensures Portions(Replace(s, id, action).state)
  {
    if action.ReplaceAction? && action.cards.Some? {
      ReplaceSwaps(s.game, s.seats[id], action.cards.value, 0);
      var t := Replace(s, id, action).state;
      assert FaceDown(t.game.deck) by {
        if t != s {
          var d := DealtCards(s.game.deck, |action.cards.value|);
          assert forall i :: 0 <= i < |t.game.deck| ==> t.game.deck[i] == (t.game.deck + d)[i];
        }
      }
    }
  }

  lemma StartPortions(s: State, order: seq<nat>, deck: seq<Card>)
    requires WellFormed(s) && s.active == [] && |s.seats| >= 2 && Enumerates(order, s.seats.Keys)
    requires multiset(deck) == multiset(NewDeck())
    ensures Portions(StartGame(s, order, deck))
  {
    hide OpenRound, Posted, DealtIn, ReadyToDeal, Portions;
    var d := DealtIn(s, order, deck);
    DealtInSeating(s, order, deck);
    PostedSeated(d);
    PostedReady(s, order, deck);
    OpenRoundPortions(Posted(d));
  }

  lemma PostedReady(s: State, order: seq<nat>, deck: seq<Card>)
    requires WellFormed(s) && s.active == [] && |s.seats| >= 2 && Enumerates(order, s.seats.Keys)
    requires multiset(deck) == multiset(NewDeck())
    ensures ReadyToDeal(Posted(DealtIn(s, order, deck)))
  {
    hide Posted, DealtIn, FaceDown, Rotate, Seating, Turning, Rebuild, ReadyToPost, Enumerates, Distinct, NewDeck;
    var d := DealtIn(s, order, deck);
    DealtInSeating(s, order, deck);
    PostedFrame(d);
    PostedSeated(d);
    ShuffledFaceDown(deck);
    var u := Posted(d);
    forall id | id in u.active ensures id in u.seats && u.seats[id].hand == [] {
      var i :| 0 <= i < |u.active| && u.active[i] == id;
    }
  }

  lemma ShuffledFaceDown(deck: seq<Card>)
    requires multiset(deck) == multiset(NewDeck())
    ensures |deck| == 52 && FaceDown(deck)
  {
    assert |deck| == |multiset(deck)| && |NewDeck()| == |multiset(NewDeck())|;
    forall i | 0 <= i < |deck| ensures deck[i] < 64 {
      assert deck[i] in multiset(NewDeck());
      var j :| 0 <= j < 52 && NewDeck()[j] == deck[i];
    }
  }

  /**
   At every moment of a hand everybody in it holds the cards the round prescribes, and no deal has come up
   short: 3 + round in Stud with 1 + min(round, 3) face up, two plus the board in Hold'em.
   */
  lemma StepPortions(s: State, c: Command)
    requires WellFormed(s) && Portions(s) && Legal(s, c)
    ensures Portions(Step(s, c).state)
  {
    hide RemovePlayer, AdvanceTurn, StartGame, Play, Portions;
    match c
    case Join(id, wallet, folded) => AddPortions(s, id, wallet, folded);
    case Act(id, action, order, order') => ActPortions(s, id, action, order, order');
    case Start(order, deck) => if |s.seats| >= 2 && s.turn.None? { StartPortions(s, order, deck); }
    case Expire(order, order') =>
      var id := s.turn.value;
      assert s.active[0] == id;
      RemovePortions(s, id, order, order');
      LeaveWellFormed(s, id, order, order');
      var t := RemovePlayer(s, id, order, order').state;
      RemoveSeated(s, id, order, order');
      if t.turn.Some? { AdvancePortions(t, order'); }
  }

  lemma AddPortions(s: State, id: nat, wallet: nat, folded: bool)
    requires WellFormed(s) && Portions(s)
    ensures Portions(AddPlayer(s, id, wallet, folded).state)
  {
    PortionsSame(s, AddPlayer(s, id, wallet, folded).state);
  }

  lemma ActPortions(s: State, id: nat, action: Action, order: seq<nat>, order': seq<nat>)
    requires WellFormed(s) && Portions(s)
    requires Enumerates(order, s.seats.Keys) && Enumerates(order', s.seats.Keys - {id})
    ensures Portions(RunAction(s, id, action, order, order').state)
  {
    hide AdvanceTurn, Play, RemovePlayer, RightHand, RightDeck;
    if action.Leave? {
      if id in s.seats { RemovePortions(s, id, order, order'); } else { Betting.MissingLeaver(s, id, order, order'); }
    } else if !action.Update? && !action.KeepPlayingAction? && s.turn == Some(id) {
      PlayPortions(s, id, action, order);
      PlayWellFormed(s, id, action, order);
      AdvancePortions(Play(s, id, action, order).state, order);
    } else {
      PortionsSame(s, KeepPlaying(s, id).state);
    }
  }
}
