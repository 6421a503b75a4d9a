/** The showdown at the table: whom it pays, and exactly when that depends on the order of the player map. */
module Showdowns {
  import opened Options
  import opened Sums
  import opened Orders
  import opened Games
  import opened SidePots
  import opened Protocol
  import opened Rings
  import HandRanks
  import Evaluation

  type Ranked = Entry<HandRanks.HandRank>

  function RankOf(s: State, id: nat): HandRanks.HandRank
    requires id in s.seats
  {
    Evaluation.Evaluate(ShowdownHand(s.game, s.seats[id].hand))
  }

  /** Player a is still in and holds a better hand than player b. */
  predicate Over(s: State, a: nat, b: nat)
    requires a in s.seats && b in s.seats
  {
    !s.seats[a].folded && HandRanks.Compare(RankOf(s, a), RankOf(s, b)) == Greater
  }

  function StakeUpTo(x: nat): Seat -> nat {
    (p: Seat) => if p.bet <= x then p.bet else x
  }

  /** The sum of min(x, bet) over everybody seated. */
  ghost function Within(s: State, x: nat): nat { Sum(s.seats, StakeUpTo(x)) }

  function CappedList(es: seq<Ranked>, x: nat): (r: seq<nat>)
    ensures |r| == |es| && forall i :: 0 <= i < |es| ==> r[i] == if es[i].bet <= x then es[i].bet else x
  {
    seq(|es|, i requires 0 <= i < |es| => if es[i].bet <= x then es[i].bet else x)
  }

  lemma {:induction false} CappedTotal(es: seq<Ranked>, x: nat)
    ensures Total(CappedList(es, x)) == Reach(es, x)
  {
    if es != [] {
      CappedTotal(es[1..], x);
      assert CappedList(es, x)[1..] == CappedList(es[1..], x);
    }
  }

  lemma ReachIsWithin(s: State, order: seq<nat>, x: nat)
    requires Enumerates(order, s.seats.Keys)
    ensures Reach(Entries(s, order), x) == Within(s, x)
  {
    hide Evaluation.Evaluate, Reach;
    var es := Entries(s, order);
    CappedTotal(es, x);
    SumEnumerated(s.seats, order, StakeUpTo(x), CappedList(es, x));
  }

  /** The entry of a player, wherever the player comes in the iteration order. */
  lemma EntryAt(s: State, order: seq<nat>, id: nat)
    requires Enumerates(order, s.seats.Keys) && id in s.seats
    ensures var i := IndexOf(order, id); i < |order| && Entries(s, order)[i] == EntryOf(s, id)
    ensures EntryOf(s, id) == Entry(id, s.seats[id].bet, s.seats[id].folded, RankOf(s, id))
  {
    hide Evaluation.Evaluate;
  }

  // ----- ties at the top -----

  function Lesser(a: nat, b: nat): nat { if a <= b then a else b }

  /** Two players still in hold hands of the same rank. */
  predicate Tied(s: State, a: nat, b: nat) {
    && a in s.seats && b in s.seats && a != b && !s.seats[a].folded && !s.seats[b].folded
    && RankOf(s, a) == RankOf(s, b)
  }

  /** Somebody with a better hand than player a has staked at least `level`. */
  ghost predicate Outdone(s: State, a: nat, level: nat)
    requires a in s.seats
  {
    exists c :: c in s.seats && Over(s, c, a) && s.seats[c].bet >= level
  }

  /** Two players tie for the best hand on a layer that both have staked, or for the table at large. */
  ghost predicate Contested(s: State) {
    exists a, b :: Tied(s, a, b) && !Outdone(s, a, Lesser(s.seats[a].bet, s.seats[b].bet))
  }

  /** Beating is being over, or coming later with the same rank. */
  lemma BeatsMeaning(s: State, order: seq<nat>, j: nat, i: nat)
    requires Enumerates(order, s.seats.Keys) && i < |order| && j < |order| && !s.seats[order[i]].folded
    ensures order[i] in s.seats && order[j] in s.seats
    ensures Beats(Entries(s, order), j, i, HandRanks.Compare) <==>
      Over(s, order[j], order[i]) || (Tied(s, order[j], order[i]) && j > i)
  {
    hide Evaluation.Evaluate, HandRanks.Compare;
    assert order[j] in s.seats.Keys && order[i] in s.seats.Keys;
    HandRanks.CompareEqual(RankOf(s, order[j]), RankOf(s, order[i]));
    assert j != i ==> order[j] != order[i];
  }

  lemma OverTied(s: State, c: nat, a: nat, b: nat)
    requires Tied(s, a, b) && c in s.seats
    ensures Over(s, c, a) <==> Over(s, c, b)
  {
  }

  /** Up to the player's own stake, the stake that covers a player does not depend on the order. */
  lemma ClippedCover(s: State, order: seq<nat>, order': seq<nat>, id: nat)
    requires Enumerates(order, s.seats.Keys) && Enumerates(order', s.seats.Keys) && !Contested(s)
    requires id in s.seats && !s.seats[id].folded
    ensures Lesser(Cover(Entries(s, order), IndexOf(order, id), HandRanks.Compare), s.seats[id].bet)
         <= Lesser(Cover(Entries(s, order'), IndexOf(order', id), HandRanks.Compare), s.seats[id].bet)
  {
    hide Evaluation.Evaluate, HandRanks.Compare, RankOf, Beats, Contested, Entries, Over, Tied;
    var es, i := Entries(s, order), IndexOf(order, id);
    var c := Cover(es, i, HandRanks.Compare);
    if c != 0 {
      var j :| 0 <= j < |es| && Beats(es, j, i, HandRanks.Compare) && es[j].bet == c;
      BeatsMeaning(s, order, j, i);
      EntryAt(s, order, order[j]);
      IndexOfAt(order, j);
      if Over(s, order[j], id) {
        CoverReaches(s, order', id, order[j]);
      } else {
        var d := OutdoneBy(s, order[j], id);
        OverTied(s, d, order[j], id);
        CoverReaches(s, order', id, d);
      }
    }
  }

  /** In an uncontested showdown a tie is settled by somebody better. */
  lemma OutdoneBy(s: State, a: nat, b: nat) returns (c: nat)
    requires Tied(s, a, b) && !Contested(s)
    ensures c in s.seats && Over(s, c, a) && s.seats[c].bet >= Lesser(s.seats[a].bet, s.seats[b].bet)
  {
    hide Over, RankOf;
    assert Outdone(s, a, Lesser(s.seats[a].bet, s.seats[b].bet));
    c :| c in s.seats && Over(s, c, a) && s.seats[c].bet >= Lesser(s.seats[a].bet, s.seats[b].bet);
  }

  lemma CoverReaches(s: State, order: seq<nat>, id: nat, c: nat)
    requires Enumerates(order, s.seats.Keys) && id in s.seats && !s.seats[id].folded && c in s.seats && Over(s, c, id)
    ensures IndexOf(order, id) < |order|
    ensures Cover(Entries(s, order), IndexOf(order, id), HandRanks.Compare) >= s.seats[c].bet
  {
    hide Evaluation.Evaluate, HandRanks.Compare, RankOf, Beats, Over, Tied;
    BeatsMeaning(s, order, IndexOf(order, c), IndexOf(order, id));
    EntryAt(s, order, c);
  }

  /** What the sweep pays a player of an uncontested showdown does not depend on the iteration order. */
  lemma SweptForgetsOrder(s: State, order: seq<nat>, order': seq<nat>, id: nat)
    requires Enumerates(order, s.seats.Keys) && Enumerates(order', s.seats.Keys) && !Contested(s) && id in s.seats
    ensures Swept(Entries(s, order), HandRanks.Compare)[IndexOf(order, id)]
         == Swept(Entries(s, order'), HandRanks.Compare)[IndexOf(order', id)]
  {
    hide Evaluation.Evaluate, HandRanks.Compare, RankOf, Cover, Swept, Reach, Entries, Contested;
    SweptAtTable(s, order, id);
    SweptAtTable(s, order', id);
    if !s.seats[id].folded {
      ClippedCover(s, order, order', id);
      ClippedCover(s, order', order, id);
    }
  }

  /** The sweep pays a player the part of everybody's stake between the covering stake and the player's own. */
  lemma SweptAtTable(s: State, order: seq<nat>, id: nat)
    requires Enumerates(order, s.seats.Keys) && id in s.seats
    ensures var i := IndexOf(order, id);
      && i < |order|
      && var c := Cover(Entries(s, order), i, HandRanks.Compare);
         Swept(Entries(s, order), HandRanks.Compare)[i] ==
           if s.seats[id].folded || s.seats[id].bet <= c then 0 else Within(s, s.seats[id].bet) - Within(s, c)
  {
    hide Evaluation.Evaluate, HandRanks.Compare, Cover, Swept, Reach;
    var es, i := Entries(s, order), IndexOf(order, id);
    HandRanks.CompareIsTotalOrder();
    EntryAt(s, order, id);
    SweepIsShare(es, i, HandRanks.Compare);
    ReachIsWithin(s, order, s.seats[id].bet);
    ReachIsWithin(s, order, Cover(es, i, HandRanks.Compare));
  }

  lemma SweptTotalForgetsOrder(s: State, order: seq<nat>, order': seq<nat>)
    requires Enumerates(order, s.seats.Keys) && Enumerates(order', s.seats.Keys)
    ensures Total(Swept(Entries(s, order), HandRanks.Compare)) == Total(Swept(Entries(s, order'), HandRanks.Compare))
  {
    hide Evaluation.Evaluate, HandRanks.Compare, Swept, Reach, Total, HighestLive;
    var es, es' := Entries(s, order), Entries(s, order');
    SweepPaid(es, HandRanks.Compare);
    SweepPaid(es', HandRanks.Compare);
    HighestAgree(s, order, order');
    HighestAgree(s, order', order);
    ReachIsWithin(s, order, HighestLive(es));
    ReachIsWithin(s, order', HighestLive(es'));
  }

  lemma HighestAgree(s: State, order: seq<nat>, order': seq<nat>)
    requires Enumerates(order, s.seats.Keys) && Enumerates(order', s.seats.Keys)
    ensures HighestLive(Entries(s, order)) <= HighestLive(Entries(s, order'))
  {
    hide Evaluation.Evaluate, HighestLive;
    var es, es' := Entries(s, order), Entries(s, order');
    var h := HighestLive(es);
    if h != 0 {
      var i :| 0 <= i < |es| && !es[i].folded && es[i].bet == h;
      assert order[i] in s.seats.Keys;
      EntryAt(s, order', order[i]);
      assert es'[IndexOf(order', order[i])].bet == h;
    }
  }

  /** The winner of the table holds a better hand than everybody else still in. */
  ghost predicate Leads(s: State, id: nat) {
    && id in s.seats && !s.seats[id].folded
    && forall b :: b in s.seats && b != id && !s.seats[b].folded ==> Over(s, id, b)
  }

  /** The winner beats everybody else still in, whether by rank or by place. */
  lemma WinnerBeats(s: State, order: seq<nat>)
    requires Enumerates(order, s.seats.Keys)
    ensures var w := WinnerAt(Entries(s, order), 0, HandRanks.Compare);
      && (w.Some? ==> order[w.value] in s.seats && !s.seats[order[w.value]].folded)
      && forall b :: b in s.seats && !s.seats[b].folded ==>
           && w.Some?
           && (b == order[w.value] || Over(s, order[w.value], b)
               || (Tied(s, order[w.value], b) && w.value > IndexOf(order, b)))
  {
    hide Evaluation.Evaluate, HandRanks.Compare, RankOf, Over, Beats, Tied;
    var es := Entries(s, order);
    var w := WinnerAt(es, 0, HandRanks.Compare);
    HandRanks.CompareIsTotalOrder();
    WinnerBeforeMeaning(es, |es|, 0, HandRanks.Compare);
    if w.Some? { assert order[w.value] in s.seats.Keys; }
    forall b | b in s.seats && !s.seats[b].folded
      ensures w.Some? && (b == order[w.value] || Over(s, order[w.value], b)
                          || (Tied(s, order[w.value], b) && w.value > IndexOf(order, b)))
    {
      var j := IndexOf(order, b);
      EntryAt(s, order, b);
      assert Eligible(es[j], 0);
      if w.Some? && b != order[w.value] { BeatsMeaning(s, order, w.value, j); }
    }
  }

  lemma WinnerAtTable(s: State, order: seq<nat>)
    requires Enumerates(order, s.seats.Keys) && !Contested(s)
    ensures var w := WinnerAt(Entries(s, order), 0, HandRanks.Compare);
      if w.Some? then Leads(s, order[w.value]) else forall id :: id in s.seats ==> s.seats[id].folded
  {
    hide Evaluation.Evaluate, HandRanks.Compare, RankOf, Over, Entries, WinnerAt, Tied, Contested;
    var w := WinnerAt(Entries(s, order), 0, HandRanks.Compare);
    WinnerBeats(s, order);
    if w.Some? {
      var id := order[w.value];
      forall b | b in s.seats && b != id && !s.seats[b].folded ensures Over(s, id, b) {
        if !Over(s, id, b) {
          var c := OutdoneBy(s, id, b);
          NotBoth(s, id, c);
        }
      }
    }
  }

  lemma NotBoth(s: State, a: nat, b: nat)
    requires a in s.seats && b in s.seats && Over(s, b, a)
    ensures a != b && !Over(s, a, b) && !Tied(s, a, b) && !s.seats[b].folded
  {
    hide Evaluation.Evaluate, HandRanks.Compare;
    HandRanks.CompareFlip(RankOf(s, a), RankOf(s, b));
    HandRanks.CompareEqual(RankOf(s, a), RankOf(s, b));
    HandRanks.CompareEqual(RankOf(s, b), RankOf(s, a));
  }

  lemma LeaderUnique(s: State, a: nat, b: nat)
    requires Leads(s, a) && Leads(s, b)
    ensures a == b
  {
    hide Evaluation.Evaluate, HandRanks.Compare;
    HandRanks.CompareFlip(RankOf(s, a), RankOf(s, b));
  }

  /** An uncontested showdown is the same for every iteration order of the player map. */
  lemma EndGameForgetsOrder(s: State, order: seq<nat>, order': seq<nat>)
    requires Enumerates(order, s.seats.Keys) && Enumerates(order', s.seats.Keys) && !Contested(s)
    ensures EndGame(s, order) == EndGame(s, order')
  {
    hide Evaluation.Evaluate, HandRanks.Compare, Contested, RankOf, Over, Swept, Leads, Entries, WinnerAt, Payouts;
    var es, es' := Entries(s, order), Entries(s, order');
    var w, w' := WinnerAt(es, 0, HandRanks.Compare), WinnerAt(es', 0, HandRanks.Compare);
    LeadersAgree(s, order, order');
    if w.Some? {
      assert order[w.value] == order'[w'.value];
      var pay, pay' := Payouts(es, s.pot, HandRanks.Compare), Payouts(es', s.pot, HandRanks.Compare);
      forall id | id in s.seats ensures pay[IndexOf(order, id)] == pay'[IndexOf(order', id)] {
        PayoutForgetsOrder(s, order, order', id);
      }
      assert SettledSeats(s.seats, order, pay) == SettledSeats(s.seats, order', pay');
    }
  }

  lemma LeadersAgree(s: State, order: seq<nat>, order': seq<nat>)
    requires Enumerates(order, s.seats.Keys) && Enumerates(order', s.seats.Keys) && !Contested(s)
    ensures var w := WinnerAt(Entries(s, order), 0, HandRanks.Compare);
      var w' := WinnerAt(Entries(s, order'), 0, HandRanks.Compare);
      (w.Some? <==> w'.Some?) && (w.Some? ==> order[w.value] == order'[w'.value])
  {
    hide Evaluation.Evaluate, HandRanks.Compare, Contested, Entries, WinnerAt, Over;
    var w, w' := WinnerAt(Entries(s, order), 0, HandRanks.Compare), WinnerAt(Entries(s, order'), 0, HandRanks.Compare);
    WinnerAtTable(s, order);
    WinnerAtTable(s, order');
    if w.Some? && w'.Some? { LeaderUnique(s, order[w.value], order'[w'.value]); }
  }

  lemma PayoutForgetsOrder(s: State, order: seq<nat>, order': seq<nat>, id: nat)
    requires Enumerates(order, s.seats.Keys) && Enumerates(order', s.seats.Keys) && !Contested(s) && id in s.seats
    ensures Payouts(Entries(s, order), s.pot, HandRanks.Compare)[IndexOf(order, id)]
         == Payouts(Entries(s, order'), s.pot, HandRanks.Compare)[IndexOf(order', id)]
  {
    hide Evaluation.Evaluate, HandRanks.Compare, Contested, Entries, WinnerAt, Swept, Total;
    SweptForgetsOrder(s, order, order', id);
    SweptTotalForgetsOrder(s, order, order');
    LeadersAgree(s, order, order');
    var w, w' := WinnerAt(Entries(s, order), 0, HandRanks.Compare), WinnerAt(Entries(s, order'), 0, HandRanks.Compare);
    if w.Some? {
      WinnerPosition(order, w.value, id);
      WinnerPosition(order', w'.value, id);
    }
  }

  lemma WinnerPosition(order: seq<nat>, w: nat, id: nat)
    requires Distinct(order) && w < |order|
    ensures IndexOf(order, id) == w <==> order[w] == id
  {
    IndexOfAt(order, w);
  }

  // ----- a contested showdown does depend on the order -----

  lemma {:induction false} EnumerationExists(ids: set<nat>) returns (order: seq<nat>)
    ensures Enumerates(order, ids)
  {
    if ids == {} {
      order := [];
    } else {
      var x :| x in ids;
      var rest := EnumerationExists(ids - {x});
      order := [x] + rest;
      assert forall y :: y in ids ==> y in order;
    }
  }

  /** Two players may come last in the iteration, in either order. */
  lemma EndingIn(s: State, rest: seq<nat>, a: nat, b: nat)
    requires a in s.seats && b in s.seats && a != b && Enumerates(rest, s.seats.Keys - {a, b})
    ensures Enumerates(rest + [a, b], s.seats.Keys)
    ensures IndexOf(rest + [a, b], a) == |rest| && IndexOf(rest + [a, b], b) == |rest| + 1
  {
    EndingInOne(rest, s.seats.Keys - {a, b}, a);
    EndingInOne(rest + [a], s.seats.Keys - {b}, b);
    assert s.seats.Keys - {a, b} + {a} == s.seats.Keys - {b} && s.seats.Keys - {b} + {b} == s.seats.Keys;
    assert rest + [a, b] == rest + [a] + [b];
    IndexOfAt(rest + [a, b], |rest|);
    IndexOfAt(rest + [a, b], |rest| + 1);
  }

  lemma EndingInOne(rest: seq<nat>, ids: set<nat>, x: nat)
    requires Enumerates(rest, ids) && x !in ids
    ensures Enumerates(rest + [x], ids + {x})
  {
    InsertEnumerates(rest, |rest|, x, ids);
    assert InsertAt(rest, |rest|, x) == rest + [x];
  }

  /** One player's stake reaches y, so the sum of stakes up to a smaller x is smaller. */
  lemma WithinGrows(s: State, x: nat, y: nat, id: nat)
    requires id in s.seats && x <= y <= s.seats[id].bet
    ensures Within(s, x) <= Within(s, y) && (x < y ==> Within(s, x) < Within(s, y))
  {
    SumRemove(s.seats, id, StakeUpTo(x));
    SumRemove(s.seats, id, StakeUpTo(y));
    SumBelow(s.seats - {id}, StakeUpTo(x), StakeUpTo(y));
  }

  lemma {:induction false} SumBelow(m: map<nat, Seat>, g: Seat -> nat, h: Seat -> nat)
    requires forall k :: k in m ==> g(m[k]) <= h(m[k])
    ensures Sum(m, g) <= Sum(m, h)
    decreases |m|
  {
    if m != map[] {
      var k :| k in m;
      SumRemove(m, k, g);
      SumRemove(m, k, h);
      SumBelow(m - {k}, g, h);
    }
  }

  /** The last in the order wins every tie: of two tied players the later is swept more when nobody outdoes them. */
  lemma LaterTakesMore(s: State, order: seq<nat>, order': seq<nat>, a: nat, b: nat)
    requires Enumerates(order, s.seats.Keys) && Enumerates(order', s.seats.Keys) && Tied(s, a, b)
    requires IndexOf(order, b) == |order| - 1 && IndexOf(order', b) < IndexOf(order', a)
    requires var level := Lesser(s.seats[a].bet, s.seats[b].bet); level > 0 && !Outdone(s, a, level)
    ensures Swept(Entries(s, order'), HandRanks.Compare)[IndexOf(order', b)]
          < Swept(Entries(s, order), HandRanks.Compare)[IndexOf(order, b)]
  {
    hide Evaluation.Evaluate, HandRanks.Compare, RankOf, Cover, Swept, Entries, Within, Beats;
    var level := Lesser(s.seats[a].bet, s.seats[b].bet);
    var c := Cover(Entries(s, order), IndexOf(order, b), HandRanks.Compare);
    var c' := Cover(Entries(s, order'), IndexOf(order', b), HandRanks.Compare);
    LastCover(s, order, a, b);
    TiedCover(s, order', a, b);
    SweptAtTable(s, order, b);
    SweptAtTable(s, order', b);
    WithinGrows(s, c, Lesser(c', s.seats[b].bet), b);
    WithinGrows(s, c, s.seats[b].bet, b);
  }

  lemma LastCover(s: State, order: seq<nat>, a: nat, b: nat)
    requires Enumerates(order, s.seats.Keys) && Tied(s, a, b) && IndexOf(order, b) == |order| - 1
    requires var level := Lesser(s.seats[a].bet, s.seats[b].bet); level > 0 && !Outdone(s, a, level)
    ensures Cover(Entries(s, order), IndexOf(order, b), HandRanks.Compare) < Lesser(s.seats[a].bet, s.seats[b].bet)
  {
    hide Evaluation.Evaluate, HandRanks.Compare, RankOf, Beats, Over, Entries;
    var es, i := Entries(s, order), IndexOf(order, b);
    var c := Cover(es, i, HandRanks.Compare);
    if c != 0 {
      var j :| 0 <= j < |es| && Beats(es, j, i, HandRanks.Compare) && es[j].bet == c;
      BeatsMeaning(s, order, j, i);
      EntryAt(s, order, order[j]);
      IndexOfAt(order, j);
      OverTied(s, order[j], a, b);
      assert Over(s, order[j], a) && s.seats[order[j]].bet == c;
    }
  }

  lemma TiedCover(s: State, order: seq<nat>, a: nat, b: nat)
    requires Enumerates(order, s.seats.Keys) && Tied(s, a, b) && IndexOf(order, b) < IndexOf(order, a)
    ensures Cover(Entries(s, order), IndexOf(order, b), HandRanks.Compare) >= s.seats[a].bet
  {
    hide Evaluation.Evaluate, HandRanks.Compare, RankOf, Beats, Over;
    BeatsMeaning(s, order, IndexOf(order, a), IndexOf(order, b));
    EntryAt(s, order, a);
  }

  /** With the tied pair last, the earlier of the two cannot win the table. */
  lemma EarlierLoses(s: State, order: seq<nat>, a: nat, b: nat)
    requires Enumerates(order, s.seats.Keys) && Tied(s, a, b) && IndexOf(order, b) < IndexOf(order, a)
    ensures WinnerAt(Entries(s, order), 0, HandRanks.Compare).Some?
    ensures WinnerAt(Entries(s, order), 0, HandRanks.Compare) != Some(IndexOf(order, b))
  {
    hide Evaluation.Evaluate, HandRanks.Compare, RankOf, Over, Entries, WinnerAt;
    assert order[IndexOf(order, b)] == b;
    NotOverTied(s, a, b);
    WinnerBeats(s, order);
  }

  lemma NotOverTied(s: State, a: nat, b: nat)
    requires Tied(s, a, b)
    ensures !Over(s, b, a) && !Over(s, a, b)
  {
    hide Evaluation.Evaluate, HandRanks.Compare;
    HandRanks.CompareEqual(RankOf(s, b), RankOf(s, a));
    HandRanks.CompareEqual(RankOf(s, a), RankOf(s, b));
  }

  lemma NobodyOver(s: State, a: nat)
    requires a in s.seats && !Outdone(s, a, 0)
    ensures forall c :: c in s.seats ==> !Over(s, c, a)
  {
    hide Over, RankOf;
    forall c | c in s.seats ensures !Over(s, c, a) {
      OutdoneAtZero(s, a, c);
    }
  }

  lemma OutdoneAtZero(s: State, a: nat, c: nat)
    requires a in s.seats && c in s.seats
    ensures Over(s, c, a) ==> Outdone(s, a, 0)
  {
    hide Over, RankOf;
    assert s.seats[c].bet >= 0;
  }

  /** Nobody over them, the last of a tied pair at the end of the order wins the table. */
  lemma LastWins(s: State, order: seq<nat>, a: nat, b: nat)
    requires Enumerates(order, s.seats.Keys) && Tied(s, a, b) && !Outdone(s, a, 0) && IndexOf(order, b) == |order| - 1
    ensures WinnerAt(Entries(s, order), 0, HandRanks.Compare) == Some(|order| - 1)
  {
    hide Evaluation.Evaluate, HandRanks.Compare, RankOf, Over, Entries, WinnerAt;
    assert order[|order| - 1] == b;
    NobodyOver(s, a);
    WinnerBeats(s, order);
    var w := WinnerAt(Entries(s, order), 0, HandRanks.Compare);
    OverTied(s, order[w.value], a, b);
  }

  /** What one player is paid. */
  lemma PaidAtTable(s: State, order: seq<nat>, id: nat)
    requires Enumerates(order, s.seats.Keys) && id in s.seats && WinnerAt(Entries(s, order), 0, HandRanks.Compare).Some?
    ensures EndGame(s, order).seats[id].wallet
         == s.seats[id].wallet + Payouts(Entries(s, order), s.pot, HandRanks.Compare)[IndexOf(order, id)]
    ensures EndGame(s, order).showdown == Some(order[WinnerAt(Entries(s, order), 0, HandRanks.Compare).value])
  {
    hide Evaluation.Evaluate, HandRanks.Compare, Entries, WinnerAt, Payouts;
  }

  lemma ContestedDepends(s: State, a: nat, b: nat) returns (order: seq<nat>, order': seq<nat>)
    requires Tied(s, a, b) && !Outdone(s, a, Lesser(s.seats[a].bet, s.seats[b].bet))
    ensures Enumerates(order, s.seats.Keys) && Enumerates(order', s.seats.Keys) && b in s.seats && !s.seats[b].folded
    ensures var t, t' := EndGame(s, order), EndGame(s, order');
      t.showdown != t'.showdown || t.seats[b].wallet != t'.seats[b].wallet
  {
    hide Evaluation.Evaluate, HandRanks.Compare, RankOf, Over, Entries, WinnerAt, Payouts, EndGame, Swept, Outdone;
    var rest := EnumerationExists(s.seats.Keys - {a, b});
    order, order' := rest + [a, b], rest + [b, a];
    EndingIn(s, rest, a, b);
    assert s.seats.Keys - {b, a} == s.seats.Keys - {a, b};
    EndingIn(s, rest, b, a);
    EarlierLoses(s, order', a, b);
    TiedBack(s, a, b);
    EarlierLoses(s, order, b, a);
    PaidAtTable(s, order, b);
    PaidAtTable(s, order', b);
    if Lesser(s.seats[a].bet, s.seats[b].bet) == 0 {
      LastWins(s, order, a, b);
      OutdoneBack(s, a, b);
      LastWins(s, order', b, a);
    } else {
      LaterTakesMore(s, order, order', a, b);
      PaidBeyondSweep(Entries(s, order), s.pot, IndexOf(order, b));
      PaidBeyondSweep(Entries(s, order'), s.pot, IndexOf(order', b));
    }
  }

  lemma TiedBack(s: State, a: nat, b: nat)
    requires Tied(s, a, b)
    ensures Tied(s, b, a)
  {
  }

  lemma OutdoneBack(s: State, a: nat, b: nat)
    requires Tied(s, a, b) && !Outdone(s, a, 0)
    ensures !Outdone(s, b, 0)
  {
    hide Over, RankOf;
    NobodyOver(s, a);
    forall c | c in s.seats ensures !Over(s, c, b) {
      OverTied(s, c, a, b);
    }
  }

  /** Beyond the sweep only the winner of the table is paid. */
  lemma PaidBeyondSweep(es: seq<Ranked>, pot: nat, j: nat)
    requires j < |es|
    ensures WinnerAt(es, 0, HandRanks.Compare) != Some(j) ==>
      Payouts(es, pot, HandRanks.Compare)[j] == Swept(es, HandRanks.Compare)[j]
    ensures Payouts(es, pot, HandRanks.Compare)[j] >= Swept(es, HandRanks.Compare)[j]
  {
    hide WinnerAt, Swept, Total;
  }

  /** The showdown is the same for every iteration order exactly when nobody ties for the best hand on a layer. */
  lemma ShowdownOrderIff(s: State)
    ensures !Contested(s) <==>
      forall order, order' :: Enumerates(order, s.seats.Keys) && Enumerates(order', s.seats.Keys) ==>
        EndGame(s, order) == EndGame(s, order')
  {
    hide EndGame, RankOf, Enumerates;
    if Contested(s) {
      var a, b :| Tied(s, a, b) && !Outdone(s, a, Lesser(s.seats[a].bet, s.seats[b].bet));
      var order, order' := ContestedDepends(s, a, b);
    } else {
      forall order, order' | Enumerates(order, s.seats.Keys) && Enumerates(order', s.seats.Keys)
        ensures EndGame(s, order) == EndGame(s, order')
      {
        EndGameForgetsOrder(s, order, order');
      }
    }
  }
}
