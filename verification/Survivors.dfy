/** The end of a hand by folding, with players at the table who joined while it was running. */
module Survivors {
  import opened Options
  import opened Sums
  import opened Orders
  import opened Games
  import opened SidePots
  import opened Protocol
  import opened Rings
  import opened Driver
  import opened Conservation
  import opened Outsiders
  import opened Showdowns
  import HandRanks
  import Evaluation

  /** What somebody without cards is ranked by: the board, where the game has one. */
  function BoardRank(s: State): HandRanks.HandRank {
    Evaluation.Evaluate(ShowdownHand(s.game, []))
  }

  /** One player is left in the hand; whoever else has not folded has no cards and no stake. */
  ghost predicate LastHand(s: State, id: nat) {
    && id in s.seats && !s.seats[id].folded
    && forall x :: x in s.seats && x != id && !s.seats[x].folded ==> s.seats[x].hand == [] && s.seats[x].bet == 0
  }

  predicate Newcomer(s: State, id: nat, x: nat) {
    x in s.seats && x != id && !s.seats[x].folded
  }

  /** The last hand outranks the bare board, or ties with it and comes after every newcomer in iteration order. */
  ghost predicate BeatsNewcomers(s: State, order: seq<nat>, id: nat)
    requires id in s.seats
  {
    forall x :: Newcomer(s, id, x) ==>
      || HandRanks.Compare(RankOf(s, id), BoardRank(s)) == Greater
      || (RankOf(s, id) == BoardRank(s) && IndexOf(order, id) > IndexOf(order, x))
  }

  lemma WithinNothing(s: State)
    ensures Within(s, 0) == 0
  {
    SumZero(s.seats, StakeUpTo(0));
  }

  lemma WithinStakes(s: State, x: nat)
    ensures Within(s, x) <= Stakes(s)
  {
    SumBelow(s.seats, StakeUpTo(x), StakeOf);
  }

  /** The last hand is swept min(own stake, bet) from everybody, and nobody else is swept anything. */
  lemma LastSwept(s: State, order: seq<nat>, id: nat)
    requires Enumerates(order, s.seats.Keys) && LastHand(s, id)
    ensures Swept(Entries(s, order), HandRanks.Compare)[IndexOf(order, id)] == Within(s, s.seats[id].bet)
    ensures forall x :: x in s.seats && x != id ==> Swept(Entries(s, order), HandRanks.Compare)[IndexOf(order, x)] == 0
  {
    hide Evaluation.Evaluate, HandRanks.Compare, RankOf, Cover, Swept, Entries, Within;
    forall x | x in s.seats && x != id ensures Swept(Entries(s, order), HandRanks.Compare)[IndexOf(order, x)] == 0 {
      SweptAtTable(s, order, x);
    }
    SweptAtTable(s, order, id);
    LastUncovered(s, order, id);
    WithinNothing(s);
  }

  lemma LastUncovered(s: State, order: seq<nat>, id: nat)
    requires Enumerates(order, s.seats.Keys) && LastHand(s, id)
    ensures Cover(Entries(s, order), IndexOf(order, id), HandRanks.Compare) == 0
  {
    hide Evaluation.Evaluate, HandRanks.Compare, RankOf, Beats, Entries;
    var es, i := Entries(s, order), IndexOf(order, id);
    forall j | 0 <= j < |es| && Beats(es, j, i, HandRanks.Compare) ensures es[j].bet == 0 {
      BeatsMeaning(s, order, j, i);
      EntryAt(s, order, order[j]);
      IndexOfAt(order, j);
      NotOverSelf(s, id);
    }
  }

  lemma NotOverSelf(s: State, id: nat)
    requires id in s.seats
    ensures !Over(s, id, id)
  {
    hide Evaluation.Evaluate, HandRanks.Compare;
    HandRanks.CompareEqual(RankOf(s, id), RankOf(s, id));
  }

  lemma LastSweptTotal(s: State, order: seq<nat>, id: nat)
    requires Enumerates(order, s.seats.Keys) && LastHand(s, id)
    ensures Total(Swept(Entries(s, order), HandRanks.Compare)) == Within(s, s.seats[id].bet)
  {
    hide Evaluation.Evaluate, HandRanks.Compare, RankOf, Swept, Entries, Within, Total, LastHand;
    var swept, i := Swept(Entries(s, order), HandRanks.Compare), IndexOf(order, id);
    assert order[i] == id by { hide LastHand; KnownPlace(s, order, id); }
    LastSwept(s, order, id);
    forall j | 0 <= j < |order| && j != i ensures swept[j] == 0 {
      assert order[j] in s.seats.Keys;
      IndexOfAt(order, j);
    }
    TotalSingle(swept, i);
  }

  lemma KnownPlace(s: State, order: seq<nat>, id: nat)
    requires Enumerates(order, s.seats.Keys) && LastHand(s, id)
    ensures IndexOf(order, id) < |order| && order[IndexOf(order, id)] == id
  {
  }

  lemma {:induction false} TotalSingle(s: seq<nat>, i: nat)
    requires i < |s| && forall j :: 0 <= j < |s| && j != i ==> s[j] == 0
    ensures Total(s) == s[i]
  {
    if i == 0 {
      TotalNothing(s[1..]);
    } else {
      TotalSingle(s[1..], i - 1);
    }
  }

  lemma {:induction false} TotalNothing(s: seq<nat>)
    requires forall j :: 0 <= j < |s| ==> s[j] == 0
    ensures Total(s) == 0
  {
    if s != [] { TotalNothing(s[1..]); }
  }

  lemma NewcomerRank(s: State, id: nat, x: nat)
    requires LastHand(s, id) && Newcomer(s, id, x)
    ensures RankOf(s, x) == BoardRank(s)
    ensures Over(s, id, x) <==> HandRanks.Compare(RankOf(s, id), BoardRank(s)) == Greater
    ensures Tied(s, id, x) <==> RankOf(s, id) == BoardRank(s)
  {
    hide Evaluation.Evaluate, HandRanks.Compare;
  }

  /** The last hand is recorded the winner exactly when it beats the newcomers. */
  lemma LastWinsIff(s: State, order: seq<nat>, id: nat)
    requires Enumerates(order, s.seats.Keys) && LastHand(s, id)
    ensures var w := WinnerAt(Entries(s, order), 0, HandRanks.Compare);
      && w.Some?
      && (w == Some(IndexOf(order, id)) <==> BeatsNewcomers(s, order, id))
      && (w != Some(IndexOf(order, id)) ==> Newcomer(s, id, order[w.value]))
  {
    hide Evaluation.Evaluate, HandRanks.Compare, RankOf, Entries, WinnerAt, Over, Tied, BoardRank;
    var w := WinnerAt(Entries(s, order), 0, HandRanks.Compare);
    WinnerBeats(s, order);
    WinnerPosition(order, w.value, id);
    if order[w.value] == id {
      forall x | Newcomer(s, id, x)
        ensures HandRanks.Compare(RankOf(s, id), BoardRank(s)) == Greater
                || (RankOf(s, id) == BoardRank(s) && IndexOf(order, id) > IndexOf(order, x))
      {
        NewcomerRank(s, id, x);
      }
    } else {
      var x := order[w.value];
      assert Newcomer(s, id, x);
      NewcomerRank(s, id, x);
      WinnerPosition(order, w.value, x);
      NotBothWays(s, id, x);
    }
  }

  lemma NotBothWays(s: State, a: nat, b: nat)
    requires a in s.seats && b in s.seats
    ensures Over(s, b, a) ==> !Over(s, a, b) && !Tied(s, a, b)
    ensures Tied(s, b, a) ==> !Over(s, a, b)
  {
    hide Evaluation.Evaluate, HandRanks.Compare;
    HandRanks.CompareFlip(RankOf(s, a), RankOf(s, b));
    HandRanks.CompareEqual(RankOf(s, a), RankOf(s, b));
  }

  /**
   The last player in the hand takes the whole pot exactly when nothing in it lies above the player's own stake or
   no newcomer holds a better place; otherwise the rest goes to a newcomer, who is recorded the winner.
   */
  lemma LoneSurvivor(s: State, order: seq<nat>, id: nat)
    requires Enumerates(order, s.seats.Keys) && Stakes(s) <= s.pot && LastHand(s, id)
    ensures var t := EndGame(s, order); var swept := Within(s, s.seats[id].bet);
      && t.pot == 0 && t.showdown.Some? && t.head == t.showdown && swept <= s.pot
      && (t.showdown == Some(id) <==> BeatsNewcomers(s, order, id))
      && (t.seats[id].wallet == s.seats[id].wallet + s.pot <==> s.pot == swept || BeatsNewcomers(s, order, id))
      && (!BeatsNewcomers(s, order, id) ==>
            && Newcomer(s, id, t.showdown.value)
            && t.seats[id].wallet == s.seats[id].wallet + swept
            && t.seats[t.showdown.value].wallet == s.seats[t.showdown.value].wallet + (s.pot - swept))
  {
    hide Evaluation.Evaluate, HandRanks.Compare, RankOf, Entries, Within, BeatsNewcomers;
    hide EndGame, Swept, WinnerAt, Payouts, Total;
    LastWinsIff(s, order, id);
    LastSwept(s, order, id);
    LastSweptTotal(s, order, id);
    WithinStakes(s, s.seats[id].bet);
    PaidAtTable(s, order, id);
    KnownPlace(s, order, id);
    var w := WinnerAt(Entries(s, order), 0, HandRanks.Compare).value;
    PaidToWinner(Entries(s, order), s.pot, IndexOf(order, id));
    PaidToWinner(Entries(s, order), s.pot, w);
    PaidAtTable(s, order, order[w]);
    IndexOfAt(order, w);
    EndedFields(s, order);
  }

  lemma EndedFields(s: State, order: seq<nat>)
    requires Enumerates(order, s.seats.Keys) && WinnerAt(Entries(s, order), 0, HandRanks.Compare).Some?
    ensures var t := EndGame(s, order); t.pot == 0 && t.head == t.showdown && t.active == [] && t.turn == None
  {
    hide Evaluation.Evaluate, HandRanks.Compare, Entries, WinnerAt, Payouts;
  }

  /** The pay-out of one entry: its sweep, and for the winner what the sweep leaves. */
  lemma PaidToWinner(es: seq<Ranked>, pot: nat, j: nat)
    requires j < |es| && Total(Swept(es, HandRanks.Compare)) <= pot && WinnerAt(es, 0, HandRanks.Compare).Some?
    ensures Payouts(es, pot, HandRanks.Compare)[j] == Swept(es, HandRanks.Compare)[j]
      + (if WinnerAt(es, 0, HandRanks.Compare) == Some(j) then pot - Total(Swept(es, HandRanks.Compare)) else 0)
  {
    hide WinnerAt, Swept, Total;
  }

  // ----- when the last hand is good enough -----

  /** Cards of one's own never tie with the bare board. */
  lemma OwnCardsDiffer(s: State, id: nat)
    requires id in s.seats && s.seats[id].hand != []
    ensures RankOf(s, id) != BoardRank(s)
  {
    hide Evaluation.Evaluate, HandRanks.Compare;
    var own, bare := ShowdownHand(s.game, s.seats[id].hand), ShowdownHand(s.game, []);
    assert |multiset(own)| == |own| && |multiset(bare)| == |bare|;
    Evaluation.DifferentCardsDifferentRanks(own, bare);
    HandRanks.CompareEqual(Evaluation.Evaluate(own), Evaluation.Evaluate(bare));
  }

  /** Where there is no board, any cards beat none. */
  lemma CardsBeatNone(s: State, id: nat)
    requires id in s.seats && s.seats[id].hand != [] && (s.game.kind == TexasHoldem ==> s.game.community == [])
    ensures HandRanks.Compare(RankOf(s, id), BoardRank(s)) == Greater
  {
    hide Evaluation.Classify;
    var own := ShowdownHand(s.game, s.seats[id].hand);
    assert ShowdownHand(s.game, []) == [];
    Evaluation.EvaluateCards(own);
    OnlyNoCardsIsZero(Evaluation.Evaluate(own));
  }

  lemma OnlyNoCardsIsZero(r: HandRanks.HandRank)
    ensures r.RankValue() == 0 <==> r.NoCards?
  {
  }

  // ----- the last fold of a running hand -----

  /** The player left when one of the last two folds. */
  function Other(s: State, id: nat): nat
    requires |s.active| == 2
  {
    if s.active[0] == id then s.active[1] else s.active[0]
  }

  lemma LastFold(s: State, id: nat, order: seq<nat>)
    requires WellFormed(s) && Funded(s) && BareOutsiders(s) && |s.active| == 2 && id in s.active
    requires Enumerates(order, s.seats.Keys)
    ensures var k := IndexOf(s.active, id); var u := Withdraw(s, k); var other := Other(s, id);
      && Fold(s, id, order).state == EndGame(u, order)
      && other in s.active && LastHand(u, other) && Stakes(u) <= u.pot && u.pot == s.pot && u.game == s.game
      && (forall x :: x in s.seats ==> u.seats[x] == s.seats[x].(folded := u.seats[x].folded))
      && (forall x :: Newcomer(u, other, x) <==> Outside(s, x))
  {
    hide EndGame, Withdraw, Fold, Seating, Outside, Newcomer;
    FoldIsWithdrawal(s, id, order);
    LastWithdrawn(s, id);
  }

  lemma FoldIsWithdrawal(s: State, id: nat, order: seq<nat>)
    requires WellFormed(s) && |s.active| == 2 && id in s.active && Enumerates(order, s.seats.Keys)
    ensures IndexOf(s.active, id) < 2
    ensures Fold(s, id, order).state == EndGame(Withdraw(s, IndexOf(s.active, id)), order)
  {
    hide EndGame, Withdraw, Seating, Enumerates;
  }

  lemma LastWithdrawn(s: State, id: nat)
    requires WellFormed(s) && Funded(s) && BareOutsiders(s) && |s.active| == 2 && id in s.active
    ensures var k := IndexOf(s.active, id); var u := Withdraw(s, k); var other := Other(s, id);
      && other in s.active && LastHand(u, other) && Stakes(u) <= u.pot && u.pot == s.pot && u.game == s.game
      && (forall x :: x in s.seats ==> u.seats[x] == s.seats[x].(folded := u.seats[x].folded))
      && (forall x :: Newcomer(u, other, x) <==> Outside(s, x))
  {
    hide Unlink, Seating, Moved;
    RefoldChips(s, id);
    assert s.active[0] in s.active && s.active[1] in s.active;
    assert forall x :: x in s.active <==> x == s.active[0] || x == s.active[1];
  }

  lemma SameBut(s: State, u: State, id: nat, x: nat)
    requires u.seats.Keys == s.seats.Keys && u.game == s.game && id in s.seats
    requires forall x :: x in s.seats ==> u.seats[x] == s.seats[x].(folded := u.seats[x].folded)
    ensures RankOf(u, id) == RankOf(s, id) && BoardRank(u) == BoardRank(s) && Within(u, x) == Within(s, x)
  {
    SumSame(s.seats, u.seats, StakeUpTo(x));
  }

  /** The other player's hand outranks the bare board, or nobody has joined, or the tie goes by place. */
  ghost predicate BeatsOutsiders(s: State, order: seq<nat>, id: nat)
    requires id in s.seats
  {
    forall x :: Outside(s, x) ==>
      || HandRanks.Compare(RankOf(s, id), BoardRank(s)) == Greater
      || (RankOf(s, id) == BoardRank(s) && IndexOf(order, id) > IndexOf(order, x))
  }

  /**
   When one of the last two folds, the other takes the whole pot exactly when nothing in it lies above that
   player's stake or no newcomer holds a better place; otherwise a newcomer wins the table and takes the rest.
   */
  lemma LastFoldPays(s: State, id: nat, order: seq<nat>)
    requires WellFormed(s) && Funded(s) && BareOutsiders(s) && |s.active| == 2 && id in s.active
    requires Enumerates(order, s.seats.Keys)
    ensures var t := Fold(s, id, order).state; var other := Other(s, id);
      && other in s.seats && t.active == [] && t.turn == None && t.pot == 0
      && (t.showdown == Some(other) <==> BeatsOutsiders(s, order, other))
      && (t.seats[other].wallet == s.seats[other].wallet + s.pot <==>
            s.pot == Within(s, s.seats[other].bet) || BeatsOutsiders(s, order, other))
      && (!BeatsOutsiders(s, order, other) ==>
            && t.showdown.Some? && Outside(s, t.showdown.value) && Within(s, s.seats[other].bet) <= s.pot
            && t.seats[other].wallet == s.seats[other].wallet + Within(s, s.seats[other].bet)
            && t.seats[t.showdown.value].wallet
                 == s.seats[t.showdown.value].wallet + (s.pot - Within(s, s.seats[other].bet)))
  {
    hide EndGame, Withdraw, Fold, RankOf, BoardRank, HandRanks.Compare, Within, LastHand, Newcomer;
    FoldSeated(s, id, order);
    LastFold(s, id, order);
    var u, other := Withdraw(s, IndexOf(s.active, id)), Other(s, id);
    SameBut(s, u, other, s.seats[other].bet);
    BeatsSame(s, u, order, other);
    LoneSurvivor(u, order, other);
  }

  lemma BeatsSame(s: State, u: State, order: seq<nat>, id: nat)
    requires u.seats.Keys == s.seats.Keys && id in s.seats
    requires RankOf(u, id) == RankOf(s, id) && BoardRank(u) == BoardRank(s)
    requires forall x :: Newcomer(u, id, x) <==> Outside(s, x)
    ensures BeatsNewcomers(u, order, id) <==> BeatsOutsiders(s, order, id)
  {
    hide RankOf, BoardRank, HandRanks.Compare;
  }

  /** So a player with cards always takes the whole pot in Draw, in Stud, and in Hold'em before the flop. */
  lemma LastFoldWithoutBoard(s: State, id: nat, order: seq<nat>)
    requires WellFormed(s) && Funded(s) && BareOutsiders(s) && |s.active| == 2 && id in s.active
    requires Enumerates(order, s.seats.Keys)
    requires s.game.kind == TexasHoldem ==> s.game.community == []
    ensures var t := Fold(s, id, order).state; var other := Other(s, id);
      other in s.seats && (s.seats[other].hand != [] ==>
        t.showdown == Some(other) && t.seats[other].wallet == s.seats[other].wallet + s.pot)
  {
    hide Fold, RankOf, BoardRank, HandRanks.Compare, Within;
    LastFoldPays(s, id, order);
    if s.seats[Other(s, id)].hand != [] { CardsBeatNone(s, Other(s, id)); }
  }

  /** With a board: exactly when nothing is left over, nobody has joined, or the player's hand outranks the board. */
  lemma LastFoldWithBoard(s: State, id: nat, order: seq<nat>)
    requires WellFormed(s) && Funded(s) && BareOutsiders(s) && |s.active| == 2 && id in s.active
    requires Enumerates(order, s.seats.Keys)
    ensures var t := Fold(s, id, order).state; var other := Other(s, id);
      other in s.seats && (s.seats[other].hand != [] ==>
        (t.seats[other].wallet == s.seats[other].wallet + s.pot <==>
           || s.pot == Within(s, s.seats[other].bet)
           || (forall x :: !Outside(s, x))
           || HandRanks.Compare(RankOf(s, other), BoardRank(s)) == Greater))
  {
    hide Fold, RankOf, BoardRank, HandRanks.Compare, Within;
    LastFoldPays(s, id, order);
    if s.seats[Other(s, id)].hand != [] { OwnCardsDiffer(s, Other(s, id)); }
  }
}
