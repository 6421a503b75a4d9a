/** Which card goes where: every deal by position in the deck. */
module Deals {
  import opened Sums
  import opened Cards
  import opened Games
  import opened Dealing

  /** A card is turned up by its flag of 64 and nothing else. */
  lemma TurnedUp(c: Card)
    ensures c < 64 ==> FaceUp(c) == c + 64
    ensures 64 <= c < 128 ==> FaceUp(c) == c
    ensures FaceUp(c) % 64 == c % 64
  {
  }

  /** The cards from the tail of the deck: those lying last, in the order in which they lie. */
  lemma TailDealt(deck: seq<Card>, n: nat)
    ensures DeckAfter(deck, n) + DealtCards(deck, n) == deck
    ensures |DealtCards(deck, n)| == if n <= |deck| then n else |deck|
  {
  }

  /** The same cards, turned up. */
  predicate Shown(cards: seq<Card>, source: seq<Card>) {
    |cards| == |source| && forall i :: 0 <= i < |cards| ==> cards[i] == FaceUp(source[i])
  }

  /** A hand grows at its end: the tail of the deck as it lies, then the next tail turned up. */
  ghost predicate Grown(before: seq<Card>, after: seq<Card>, deck: seq<Card>, rest: seq<Card>, down: nat, up: nat) {
    && |deck| >= down + up && rest == deck[..|deck| - down - up]
    && |after| == |before| + down + up && after[..|before|] == before
    && after[|before|..|before| + down] == deck[|deck| - down..]
    && Shown(after[|before| + down..], deck[|deck| - down - up..|deck| - down])
  }

  /** A player still in gets the cards of the round behind the hand held so far; a player who is out gets none. */
  lemma DealtTo(g: Game, p: Seat)
    ensures var d := DealTo(g, p); var (down, up) := DealCounts(g.kind, g.round);
      && d.game == g.(deck := d.game.deck) && d.seat == p.(hand := d.seat.hand)
      && (p.folded ==> d.seat == p && d.game == g)
      && (!p.folded && |g.deck| >= down + up ==> Grown(p.hand, d.seat.hand, g.deck, d.game.deck, down, up))
      && (!p.folded ==>
            && p.hand <= d.seat.hand && d.game.deck <= g.deck
            && |d.seat.hand| + |d.game.deck| == |p.hand| + |g.deck|)
  {
    var (down, up) := DealCounts(g.kind, g.round);
    var rest := DeckAfter(g.deck, down);
    TailDealt(g.deck, down);
    TailDealt(rest, up);
  }

  /** The rounds of each game: cards face down and face up for everybody still in. */
  lemma RoundCounts(round: nat)
    ensures DealCounts(FiveCardDraw, 0) == (5, 0) && DealCounts(TexasHoldem, 0) == (2, 0)
    ensures DealCounts(SevenCardStud, round) ==
      if round == 0 then (2, 1) else if round < 4 then (0, 1) else if round == 4 then (1, 0) else (0, 0)
  {
  }

  /** The i-th player of the ring gets the i-th share from the tail of the deck. */
  lemma {:induction false} DealtAround(g: Game, seats: map<nat, Seat>, ring: seq<nat>, per: nat, i: nat)
    requires Distinct(ring) && forall j :: 0 <= j < |ring| ==> ring[j] in seats && !seats[ring[j]].folded
    requires per == DealCounts(g.kind, g.round).0 + DealCounts(g.kind, g.round).1
    requires |g.deck| >= Needed(per, |ring|) && i < |ring|
    ensures Needed(per, i) + per <= |g.deck|
    ensures var (down, up) := DealCounts(g.kind, g.round); var cut := |g.deck| - Needed(per, i);
      Grown(seats[ring[i]].hand, DealAround(g, seats, ring).seats[ring[i]].hand, g.deck[..cut], g.deck[..cut - per],
            down, up)
    decreases |ring|
  {
    hide DealTo, DealCounts, Grown, Needed;
    NeededStep(per, |ring|);
    NeededStep(per, i);
    NeededGrows(per, i, |ring| - 1);
    DealtTo(g, seats[ring[0]]);
    var d := DealTo(g, seats[ring[0]]);
    var seats' := seats[ring[0] := d.seat];
    var rest := ring[1..];
    assert g.deck[..|g.deck|] == g.deck;
    DeckCut(seats[ring[0]].hand, d.seat.hand, g.deck, d.game.deck, DealCounts(g.kind, g.round).0,
            DealCounts(g.kind, g.round).1);
    if i == 0 {
      DealAroundFrame(d.game, seats', rest);
      NeededStep(per, 0);
    } else {
      assert rest[i - 1] == ring[i];
      DealtAround(d.game, seats', rest, per, i - 1);
      var cut := |g.deck| - Needed(per, i);
      assert d.game.deck[..cut] == g.deck[..cut];
      assert d.game.deck[..cut - per] == g.deck[..cut - per];
    }
  }

  lemma DeckCut(before: seq<Card>, after: seq<Card>, deck: seq<Card>, rest: seq<Card>, down: nat, up: nat)
    requires Grown(before, after, deck, rest, down, up)
    ensures rest == deck[..|deck| - down - up]
  {
  }

  lemma NeededGrows(per: nat, i: nat, n: nat)
    requires i <= n
    ensures Needed(per, i) <= Needed(per, n)
  {
    assert per * (n - i) >= 0;
  }

  /** The board grows at its end by three cards, then one, then one, from the tail of the deck and turned up. */
  lemma BoardDealt(g: Game, seats: map<nat, Seat>, ring: seq<nat>)
    requires g.kind == TexasHoldem && 1 <= g.round <= 3 && forall i :: 0 <= i < |ring| ==> ring[i] in seats
    ensures var r := OpenRound(g, seats, ring); var n := if g.round == 1 then 3 else 1;
      && !r.over && r.seats == seats && r.game == g.(deck := r.game.deck, community := r.game.community)
      && (|g.deck| >= n ==>
            && r.game.deck == g.deck[..|g.deck| - n] && |r.game.community| == |g.community| + n
            && g.community <= r.game.community
            && Shown(r.game.community[|g.community|..], g.deck[|g.deck| - n..]))
  {
    TailDealt(g.deck, if g.round == 1 then 3 else 1);
  }

  /** When a round opens without a deal or a board: Five Card Draw after the first, and any game after its last. */
  lemma NothingDealt(g: Game, seats: map<nat, Seat>, ring: seq<nat>)
    requires forall i :: 0 <= i < |ring| ==> ring[i] in seats
    ensures g.kind == FiveCardDraw && g.round >= 1 ==> OpenRound(g, seats, ring) == RoundResult(g, seats, g.round > 2)
    ensures g.kind == SevenCardStud && g.round > 4 ==> OpenRound(g, seats, ring) == RoundResult(g, seats, true)
    ensures g.kind == TexasHoldem && g.round > 3 ==> OpenRound(g, seats, ring) == RoundResult(g, seats, true)
  {
  }

  /** At a showdown the board of Hold'em counts behind the player's own cards. */
  lemma ShownTogether(g: Game, hand: seq<Card>)
    ensures g.kind == TexasHoldem ==>
      hand <= ShowdownHand(g, hand) && ShowdownHand(g, hand)[|hand|..] == g.community
    ensures g.kind != TexasHoldem ==> ShowdownHand(g, hand) == hand
  {
  }
}
