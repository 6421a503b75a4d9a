/** The three games as values: what each deals, when a hand is over, and card replacement. */
module Games {
  import opened Options
  import opened Sums
  import opened Cards
  import opened Sieves
  import Sorting

  datatype Kind = FiveCardDraw | SevenCardStud | TexasHoldem

  datatype Game = Game(kind: Kind, round: nat, deck: seq<Card>, community: seq<Card>)

  datatype Seat = Seat(wallet: nat, bet: nat, folded: bool, hand: seq<Card>)

  predicate IsAnte(kind: Kind) { kind != TexasHoldem }

  /** Cards a player gets in a round: face down, then face up. */
  function DealCounts(kind: Kind, round: nat): (nat, nat) {
    match kind
    case FiveCardDraw => (5, 0)
    case TexasHoldem => (2, 0)
    case SevenCardStud =>
      if round == 0 then (2, 1) else if round <= 3 then (0, 1) else if round == 4 then (1, 0) else (0, 0)
  }

  datatype Dealing = Dealing(game: Game, seat: Seat)

  function DealTo(g: Game, p: Seat): Dealing {
    if p.folded then Dealing(g, p) else
      var (down, up) := DealCounts(g.kind, g.round);
      var hidden, rest := DealtCards(g.deck, down), DeckAfter(g.deck, down);
      var shown := AllFaceUp(DealtCards(rest, up));
      Dealing(g.(deck := DeckAfter(rest, up)), p.(hand := p.hand + hidden + shown))
  }

  datatype Layout = Layout(game: Game, seats: map<nat, Seat>)

  /** Deals to the seats of a ring in the order in which it is walked. */
  function DealAround(g: Game, seats: map<nat, Seat>, ring: seq<nat>): (t: Layout)
    requires forall i :: 0 <= i < |ring| ==> ring[i] in seats
    ensures t.seats.Keys == seats.Keys
    decreases |ring|
  {
    if ring == [] then Layout(g, seats) else
      var d := DealTo(g, seats[ring[0]]);
      DealAround(d.game, seats[ring[0] := d.seat], ring[1..])
  }

  function LastRound(kind: Kind): nat {
    match kind
    case FiveCardDraw => 2
    case SevenCardStud => 4
    case TexasHoldem => 3
  }

  function DealCommunity(g: Game, n: nat): Game {
    g.(deck := DeckAfter(g.deck, n), community := g.community + AllFaceUp(DealtCards(g.deck, n)))
  }

  datatype RoundResult = RoundResult(game: Game, seats: map<nat, Seat>, over: bool)

  /** The action that opens a round; `over` asks for the showdown. */
  function OpenRound(g: Game, seats: map<nat, Seat>, ring: seq<nat>): (r: RoundResult)
    requires forall i :: 0 <= i < |ring| ==> ring[i] in seats
    ensures r.seats.Keys == seats.Keys
    ensures r.over <==> g.round > LastRound(g.kind)
  {
    if g.round > LastRound(g.kind) then RoundResult(g, seats, true)
    else if g.kind == SevenCardStud || g.round == 0 then
      var t := DealAround(g, seats, ring);
      RoundResult(t.game, t.seats, false)
    else if g.kind == TexasHoldem then RoundResult(DealCommunity(g, if g.round == 1 then 3 else 1), seats, false)
    else RoundResult(g, seats, false)
  }

  function ShowdownHand(g: Game, hand: seq<Card>): seq<Card> {
    if g.kind == TexasHoldem then hand + g.community else hand
  }

  datatype Refusal =
    | PlayerNotFound | ZeroRaise | InsufficientFunds | AlreadyAllIn | Underflow
    | NotYourTurn | InvalidCard | InvalidAmount | InvalidCommand | ReplaceCardsExpected
    | TooManyDiscards | CardNotInHand | LastCardMustBeAce | EmptyHandPanic
    | TableFull | NoShowdown

  /** The hand without the named cards, one copy per name, or None when one of them is missing. */
  function RemoveEach(hand: seq<Card>, discard: seq<Card>): Option<seq<Card>> {
    if discard == [] then Some(hand)
    else if discard[0] !in hand then None
    else
      var k := IndexOf(hand, discard[0]);
      RemoveEach(hand[..k] + hand[k + 1..], discard[1..])
  }

  datatype Replacement = Refused(reason: Refusal) | Replaced(game: Game, seat: Seat)

  /** Discard up to four cards (four only beside an ace) and draw as many from the tail of the deck. */
  function ReplaceCards(g: Game, p: Seat, discard: seq<Card>): Replacement {
    if 4 < |discard| then Refused(TooManyDiscards) else
      match RemoveEach(p.hand, discard)
      case None => Refused(CardNotInHand)
      case Some(kept) =>
        if |discard| == 4 && kept == [] then Refused(EmptyHandPanic)
        else if |discard| == 4 && Value(kept[0]) != 1 then Refused(LastCardMustBeAce)
        else Replaced(g.(deck := DeckAfter(g.deck, |discard|)), p.(hand := kept + DealtCards(g.deck, |discard|)))
  }

  // ----- cards are neither made nor lost -----

  lemma DealToKeepsCards(g: Game, p: Seat, f: nat)
    ensures var d := DealTo(g, p);
      Copies(d.game.deck, f) + Copies(d.seat.hand, f) == Copies(g.deck, f) + Copies(p.hand, f)
    ensures var d := DealTo(g, p);
      d.game.kind == g.kind && d.game.round == g.round && d.game.community == g.community
      && d.seat == p.(hand := d.seat.hand)
  {
    if !p.folded {
      var (down, up) := DealCounts(g.kind, g.round);
      var rest := DeckAfter(g.deck, down);
      DealSplits(g.deck, down, f);
      DealSplits(rest, up, f);
      AllFaceUpCopies(DealtCards(rest, up), f);
      CopiesConcat(p.hand, DealtCards(g.deck, down), f);
      CopiesConcat(p.hand + DealtCards(g.deck, down), AllFaceUp(DealtCards(rest, up)), f);
    }
  }

  function HandCopies(f: nat): Seat -> nat {
    (p: Seat) => Copies(p.hand, f)
  }

  lemma {:induction false} DealAroundKeepsCards(g: Game, seats: map<nat, Seat>, ring: seq<nat>, f: nat)
    requires forall i :: 0 <= i < |ring| ==> ring[i] in seats
    ensures var t := DealAround(g, seats, ring);
      Copies(t.game.deck, f) + Sum(t.seats, HandCopies(f)) == Copies(g.deck, f) + Sum(seats, HandCopies(f))
    decreases |ring|
  {
    if ring != [] {
      var d := DealTo(g, seats[ring[0]]);
      DealToKeepsCards(g, seats[ring[0]], f);
      SumUpdate(seats, ring[0], d.seat, HandCopies(f));
      DealAroundKeepsCards(d.game, seats[ring[0] := d.seat], ring[1..], f);
    }
  }

  /** Dealing touches nothing but hands and deck. */
  lemma {:induction false} DealAroundFrame(g: Game, seats: map<nat, Seat>, ring: seq<nat>)
    requires forall i :: 0 <= i < |ring| ==> ring[i] in seats
    ensures var t := DealAround(g, seats, ring);
      && t.game == g.(deck := t.game.deck)
      && (forall id :: id in seats ==> t.seats[id] == seats[id].(hand := t.seats[id].hand))
      && (forall id :: id in seats && id !in ring ==> t.seats[id] == seats[id])
    decreases |ring|
  {
    if ring != [] {
      var d := DealTo(g, seats[ring[0]]);
      DealToKeepsCards(g, seats[ring[0]], 0);
      DealAroundFrame(d.game, seats[ring[0] := d.seat], ring[1..]);
    }
  }

  lemma {:induction false} RemoveEachCopies(hand: seq<Card>, discard: seq<Card>, f: nat)
    ensures RemoveEach(hand, discard).Some? ==>
      Copies(RemoveEach(hand, discard).value, f) + Copies(discard, f) == Copies(hand, f)
      && |RemoveEach(hand, discard).value| + |discard| == |hand|
  {
    if discard != [] && discard[0] in hand {
      var k := IndexOf(hand, discard[0]);
      CopiesRemove(hand, k, f);
      RemoveEachCopies(hand[..k] + hand[k + 1..], discard[1..], f);
    }
  }

  /** A replacement is accepted exactly when the cards are held and the limits are met. */
  lemma {:induction false} RemoveEachIff(hand: seq<Card>, discard: seq<Card>)
    ensures RemoveEach(hand, discard).Some? <==> multiset(discard) <= multiset(hand)
    ensures RemoveEach(hand, discard).Some? ==>
      multiset(RemoveEach(hand, discard).value) == multiset(hand) - multiset(discard)
  {
    if discard != [] {
      assert discard == [discard[0]] + discard[1..];
      if discard[0] in hand {
        var k := IndexOf(hand, discard[0]);
        Sorting.Without(hand, k);
        RemoveEachIff(hand[..k] + hand[k + 1..], discard[1..]);
      } else {
        assert discard[0] in multiset(discard) && discard[0] !in multiset(hand);
      }
    }
  }

  /** A replacement touches nothing but the deck and the hand. */
  lemma ReplaceFrame(g: Game, p: Seat, discard: seq<Card>)
    ensures var r := ReplaceCards(g, p, discard);
      r.Replaced? ==> r.game == g.(deck := r.game.deck) && r.seat == p.(hand := r.seat.hand)
  {
  }

  /** An accepted replacement swaps exactly the named cards for the tail of the deck. */
  lemma ReplaceSwaps(g: Game, p: Seat, discard: seq<Card>, f: nat)
    ensures var r := ReplaceCards(g, p, discard);
      r.Replaced? ==>
        && r.game == g.(deck := r.game.deck) && r.seat == p.(hand := r.seat.hand)
        && r.game.deck + DealtCards(g.deck, |discard|) == g.deck
        && multiset(r.seat.hand) == multiset(p.hand) - multiset(discard) + multiset(DealtCards(g.deck, |discard|))
        && Copies(r.game.deck, f) + Copies(r.seat.hand, f) + Copies(discard, f) == Copies(g.deck, f) + Copies(p.hand, f)
  {
    var r := ReplaceCards(g, p, discard);
    if r.Replaced? {
      RemoveEachCopies(p.hand, discard, f);
      RemoveEachIff(p.hand, discard);
      DealSplits(g.deck, |discard|, f);
      CopiesConcat(RemoveEach(p.hand, discard).value, DealtCards(g.deck, |discard|), f);
    }
  }

  /** A replacement keeps the size of the hand exactly when the deck holds as many cards as are named. */
  lemma ReplaceKeepsSizeIff(g: Game, p: Seat, discard: seq<Card>)
    ensures var r := ReplaceCards(g, p, discard);
      r.Replaced? ==>
        && (|r.seat.hand| == |p.hand| <==> |discard| <= |g.deck|)
        && |r.seat.hand| == |p.hand| - |discard| + (if |discard| <= |g.deck| then |discard| else |g.deck|)
  {
    RemoveEachCopies(p.hand, discard, 0);
  }

  /** The look at the last card fails exactly when all four cards of a hand of four are named. */
  lemma ReplacePanicsIff(g: Game, p: Seat, discard: seq<Card>)
    ensures ReplaceCards(g, p, discard) == Refused(EmptyHandPanic) <==>
      |discard| == 4 && multiset(discard) == multiset(p.hand)
  {
    RemoveEachIff(p.hand, discard);
    RemoveEachCopies(p.hand, discard, 0);
    assert |multiset(discard)| == |discard| && |multiset(p.hand)| == |p.hand|;
    if multiset(discard) == multiset(p.hand) {
      assert RemoveEach(p.hand, discard).value == [];
    }
  }

  // ----- which replacements are accepted, and what stays in the hand -----

  /** Position i of the hand stays: as many of its card stand before it as are named. */
  predicate Stays(hand: seq<Card>, discard: seq<Card>, i: nat)
    requires i < |hand|
  {
    multiset(hand[..i])[hand[i]] >= multiset(discard)[hand[i]]
  }

  function StayMask(hand: seq<Card>, discard: seq<Card>): (mask: seq<bool>)
    ensures |mask| == |hand| && forall i :: 0 <= i < |hand| ==> (mask[i] <==> Stays(hand, discard, i))
  {
    seq(|hand|, i requires 0 <= i < |hand| => Stays(hand, discard, i))
  }

  /** Taking one named card out of the hand and off the list leaves the others where they were. */
  lemma StaysWithout(hand: seq<Card>, discard: seq<Card>, k: nat)
    requires discard != [] && k < |hand| && hand[k] == discard[0] && discard[0] !in hand[..k]
    ensures !StayMask(hand, discard)[k]
    ensures StayMask(hand[..k] + hand[k + 1..], discard[1..])
      == StayMask(hand, discard)[..k] + StayMask(hand, discard)[k + 1..]
  {
    var t, d := hand[..k] + hand[k + 1..], discard[1..];
    assert discard == [discard[0]] + d;
    forall i | 0 <= i < |t| ensures Stays(t, d, i) <==> Stays(hand, discard, if i < k then i else i + 1) {
      if i < k {
        assert t[..i] == hand[..i] && hand[i] in hand[..k];
      } else {
        assert t[..i] == hand[..k] + hand[k + 1..i + 1];
        assert hand[..i + 1] == hand[..k] + ([hand[k]] + hand[k + 1..i + 1]);
      }
    }
  }

  /** The cards left keep their order; of equal cards the first ones go. */
  lemma {:induction false} RemoveEachSifts(hand: seq<Card>, discard: seq<Card>)
    ensures RemoveEach(hand, discard).Some? ==>
      Sifted(hand, StayMask(hand, discard), RemoveEach(hand, discard).value)
  {
    if discard == [] {
      SiftedWhole(hand, StayMask(hand, []));
    } else if discard[0] in hand {
      var k := IndexOf(hand, discard[0]);
      var t := hand[..k] + hand[k + 1..];
      RemoveEachSifts(t, discard[1..]);
      StaysWithout(hand, discard, k);
      if RemoveEach(t, discard[1..]).Some? {
        SiftedSkip(hand, StayMask(hand, discard), k, RemoveEach(t, discard[1..]).value);
      }
    }
  }

  /** The first card to stay has the value of an ace. */
  ghost predicate AceStaysFirst(hand: seq<Card>, discard: seq<Card>) {
    exists i :: 0 <= i < |hand| && Stays(hand, discard, i) && Value(hand[i]) == 1
      && forall j :: 0 <= j < i ==> !Stays(hand, discard, j)
  }

  lemma FirstLeft(hand: seq<Card>, discard: seq<Card>)
    requires RemoveEach(hand, discard).Some?
    ensures var kept := RemoveEach(hand, discard).value;
      AceStaysFirst(hand, discard) <==> kept != [] && Value(kept[0]) == 1
  {
    var kept, mask := RemoveEach(hand, discard).value, StayMask(hand, discard);
    RemoveEachSifts(hand, discard);
    if kept != [] {
      var i := PlaceOf(mask, 0);
      forall j | 0 <= j < i ensures !Stays(hand, discard, j) {
        if mask[j] { MarksBefore(mask[..i], j); }
      }
    }
    if AceStaysFirst(hand, discard) {
      var i :| 0 <= i < |hand| && Stays(hand, discard, i) && Value(hand[i]) == 1
        && forall j :: 0 <= j < i ==> !Stays(hand, discard, j);
      NoMarks(mask[..i]);
    }
  }

  /**
   A replacement is accepted exactly when at most four cards are named, the hand holds them, and, when four are
   named, the first card to stay is an ace; each refusal has its own condition.
   */
  lemma ReplaceAcceptedIff(g: Game, p: Seat, discard: seq<Card>)
    ensures var r := ReplaceCards(g, p, discard); var held := multiset(discard) <= multiset(p.hand);
      && (r.Replaced? <==> |discard| <= 4 && held && (|discard| == 4 ==> AceStaysFirst(p.hand, discard)))
      && (r == Refused(TooManyDiscards) <==> |discard| > 4)
      && (r == Refused(CardNotInHand) <==> |discard| <= 4 && !held)
      && (r == Refused(EmptyHandPanic) <==> |discard| == 4 && multiset(discard) == multiset(p.hand))
      && (r == Refused(LastCardMustBeAce) <==>
            |discard| == 4 && multiset(discard) < multiset(p.hand) && !AceStaysFirst(p.hand, discard))
  {
    RemoveEachIff(p.hand, discard);
    ReplacePanicsIff(g, p, discard);
    if RemoveEach(p.hand, discard).Some? { FirstLeft(p.hand, discard); }
  }

  /** What an accepted replacement leaves: the cards that stay, in their order, then the tail of the deck. */
  lemma ReplacedHand(g: Game, p: Seat, discard: seq<Card>)
    ensures var r := ReplaceCards(g, p, discard);
      r.Replaced? ==>
        var left := |p.hand| - |discard|;
        && 0 <= left <= |r.seat.hand| && r.seat == p.(hand := r.seat.hand)
        && Sifted(p.hand, StayMask(p.hand, discard), r.seat.hand[..left])
        && r.game == g.(deck := r.game.deck) && r.game.deck + r.seat.hand[left..] == g.deck
        && (|r.game.deck| == |g.deck| - |discard| || (|g.deck| < |discard| && r.game.deck == []))
  {
    RemoveEachSifts(p.hand, discard);
    RemoveEachCopies(p.hand, discard, 0);
    var r := ReplaceCards(g, p, discard);
    if r.Replaced? {
      var kept, drawn := RemoveEach(p.hand, discard).value, DealtCards(g.deck, |discard|);
      assert r.seat.hand == kept + drawn && (kept + drawn)[..|kept|] == kept && (kept + drawn)[|kept|..] == drawn;
    }
  }
}
