/** Every table operation keeps the two rings and their markers well formed. */
module Rings {
  import opened Options
  import opened Sums
  import opened Cards
  import opened Games
  import opened SidePots
  import opened Protocol
  import HandRanks
  import Evaluation

  lemma RotateKeeps<T>(ring: seq<T>, k: nat)
    requires Distinct(ring) && k <= |ring|
    ensures Distinct(Rotate(ring, k)) && |Rotate(ring, k)| == |ring|
    ensures forall x :: x in Rotate(ring, k) <==> x in ring
  {
    assert ring == ring[..k] + ring[k..];
    var r := Rotate(ring, k);
    forall i, j | 0 <= i < j < |r| ensures r[i] != r[j] {
      assert r[i] == ring[if i < |ring| - k then i + k else i - (|ring| - k)];
      assert r[j] == ring[if j < |ring| - k then j + k else j - (|ring| - k)];
    }
  }

  /** Unlinking takes exactly one position out of the ring. */
  lemma UnlinkRemoves<T>(ring: seq<T>, k: nat)
    requires Distinct(ring) && k < |ring|
    ensures Distinct(Unlink(ring, k)) && |Unlink(ring, k)| == |ring| - 1
    ensures forall x :: x in Unlink(ring, k) <==> x in ring && x != ring[k]
  {
    var r := Unlink(ring, k);
    if k == 0 && |ring| > 1 {
      var n := |ring|;
      assert ring == [ring[0]] + ring[1..n - 1] + [ring[n - 1]];
      forall x ensures x in r <==> x in ring && x != ring[0] {
        if x in ring[1..n - 1] {
          var i :| 0 <= i < n - 2 && ring[1..n - 1][i] == x;
          assert ring[i + 1] == x;
        }
      }
      forall i, j | 0 <= i < j < |r| ensures r[i] != r[j] {
        assert r[j] == ring[j];
        assert r[i] == (if i == 0 then ring[n - 1] else ring[i]);
      }
    } else {
      assert ring == ring[..k] + [ring[k]] + ring[k + 1..];
      forall x ensures x in r <==> x in ring && x != ring[k] {
        if x in ring[..k] {
          var i :| 0 <= i < k && ring[i] == x;
        }
        if x in ring[k + 1..] {
          var i :| 0 <= i < |ring| - k - 1 && ring[k + 1..][i] == x;
          assert ring[k + 1 + i] == x;
        }
      }
      forall i, j | 0 <= i < j < |r| ensures r[i] != r[j] {
        assert r[i] == ring[if i < k then i else i + 1];
        assert r[j] == ring[if j < k then j else j + 1];
      }
    }
  }

  lemma SettledSeating(s: State, order: seq<nat>)
    requires Seating(s) && Enumerates(order, s.seats.Keys)
    requires WinnerAt(Entries(s, order), 0, HandRanks.Compare).Some?
    ensures Seated(EndGame(s, order)) && EndGame(s, order).active == []
  {
    hide Payouts, WinnerAt, Entries, SettledSeats, Enumerates, NextIn;
    Enumerated(order, s.seats.Keys);
    if s.blind.Some? {
      NextSeated(s.full, s.seats.Keys, s.blind.value);
    }
  }

  lemma Enumerated(order: seq<nat>, ids: set<nat>)
    requires Enumerates(order, ids)
    ensures forall i :: 0 <= i < |order| ==> order[i] in ids
  {
  }

  lemma NextSeated(full: seq<nat>, ids: set<nat>, id: nat)
    requires Enumerates(full, ids) && id in ids
    ensures NextIn(full, id).Some? && NextIn(full, id).value in ids
  {
  }

  /** With somebody unfolded the showdown ends the hand. */
  lemma EndGameSeated(s: State, order: seq<nat>, id: nat)
    requires Seating(s) && Enumerates(order, s.seats.Keys)
    requires id in s.seats && !s.seats[id].folded
    ensures Seated(EndGame(s, order)) && EndGame(s, order).active == [] && EndGame(s, order).pot == 0
    ensures WinnerAt(Entries(s, order), 0, HandRanks.Compare).Some?
  {
    var k := IndexOf(order, id);
    SomebodyLeads(Entries(s, order), k, HandRanks.Compare);
    SettledSeating(s, order);
  }

  lemma RaiseSeated(s: State, id: nat, amount: nat)
    requires Seated(s) && s.turn == Some(id)
    ensures Seated(Raise(s, id, amount).state)
  {
    assert s.active[0] == id;
  }

  lemma AllInSeated(s: State, id: nat)
    requires Seated(s) && s.turn == Some(id)
    ensures Seated(AllIn(s, id).state)
  {
    assert s.active[0] == id;
  }

  lemma CheckSeated(s: State, id: nat)
    requires Seated(s)
    ensures Seated(Check(s, id).state)
  {
  }

  lemma ReplaceSeated(s: State, id: nat, action: Action)
    requires Seated(s)
    ensures Seated(Replace(s, id, action).state)
  {
    if id in s.seats && action.ReplaceAction? && action.cards.Some? {
      ReplaceFrame(s.game, s.seats[id], action.cards.value);
    }
  }

  /** With three or more in the hand a withdrawal leaves a well-formed ring of one fewer. */
  lemma WithdrawSeated(s: State, k: nat)
    requires Seated(s) && k < |s.active| && |s.active| > 2
    ensures var t := Withdraw(s, k);
      Seated(t) && |t.active| == |s.active| - 1 && (forall x :: x in t.active <==> x in s.active && x != s.active[k])
  {
    var n := |s.active|;
    var t := Withdraw(s, k);
    UnlinkRemoves(s.active, k);
    var prev, next := s.active[Before(k, n)], s.active[After(k, n)];
    assert prev in t.active && next in t.active;
    assert t.active[0] == (if k == 0 then prev else s.active[0]);
    forall i | 0 <= i < |t.active| ensures t.active[i] in t.seats && !t.seats[t.active[i]].folded {
      assert t.active[i] in s.active && t.active[i] != s.active[k];
    }
  }

  /** With two in the hand the other one wins. */
  lemma LastFoldSeated(s: State, k: nat, order: seq<nat>)
    requires Seated(s) && k < |s.active| && |s.active| == 2 && Enumerates(order, s.seats.Keys)
    ensures var t := EndGame(Withdraw(s, k), order); Seated(t) && t.active == []
  {
    EndGameSeated(Withdraw(s, k), order, s.active[1 - k]);
  }

  /** A fold removes exactly the folding player, and ends the hand exactly when one would be left. */
  lemma FoldSeated(s: State, id: nat, order: seq<nat>)
    requires Seated(s) && Enumerates(order, s.seats.Keys) && id in s.active
    ensures var t := Fold(s, id, order).state;
      && Seated(t)
      && (t.active == [] <==> |s.active| == 2)
      && (|s.active| > 2 ==> forall x :: x in t.active <==> x in s.active && x != id)
  {
    var k, n := IndexOf(s.active, id), |s.active|;
    assert s.active[Before(k, n)] == s.active[After(k, n)] <==> n == 2;
    if n == 2 { LastFoldSeated(s, k, order); } else { WithdrawSeated(s, k); }
  }

  lemma SmallerSet(ids: set<nat>, id: nat)
    requires id in ids
    ensures |ids - {id}| == |ids| - 1
  {
  }

  lemma NoSeatsNoHand(s: State)
    requires InHand(s)
    ensures s.seats.Keys == {} ==> s.active == []
  {
    if s.active != [] { assert s.active[0] in s.seats.Keys; }
  }

  /** Rebuilding repairs the full ring, the head and the blind, and leaves the active ring alone. */
  lemma RebuildSeated(s: State, order: seq<nat>)
    requires Enumerates(order, s.seats.Keys) && |s.seats| <= MAX_PLAYERS && InHand(s) && Turning(s)
    ensures Seated(Rebuild(s, order)) && Rebuild(s, order).active == s.active
  {
    if order == [] {
      assert s.seats.Keys == {};
      NoSeatsNoHand(s);
    } else {
      assert order[0] in s.seats.Keys;
    }
  }

  /** A leaver disappears from both rings. */
  lemma RemoveSeated(s: State, id: nat, order: seq<nat>, order': seq<nat>)
    requires Seated(s) && id in s.seats
    requires Enumerates(order, s.seats.Keys) && Enumerates(order', s.seats.Keys - {id})
    ensures var t := RemovePlayer(s, id, order, order').state;
      && Seated(t) && t.seats.Keys == s.seats.Keys - {id}
      && t.active == Fold(s, id, order).state.active
      && (s.active == [] ==> t.active == [])
  {
    var t := Fold(s, id, order).state;
    LeaverIsOut(s, id, order);
    SmallerSet(s.seats.Keys, id);
    var u := t.(seats := t.seats - {id},
                head := Moved(t.head, id, if NextIn(t.full, id) == Some(id) then None else NextIn(t.full, id)));
    assert u.seats.Keys == s.seats.Keys - {id};
    assert |u.seats| == |u.seats.Keys| && |s.seats| == |s.seats.Keys|;
    RebuildSeated(u, order');
  }

  lemma LeaverIsOut(s: State, id: nat, order: seq<nat>)
    requires Seated(s) && id in s.seats && Enumerates(order, s.seats.Keys)
    ensures var t := Fold(s, id, order).state;
      id !in t.active && InHand(t) && Turning(t) && (id !in s.active ==> t.active == s.active)
  {
    if id in s.active {
      FoldSeated(s, id, order);
    } else {
      assert IndexOf(s.active, id) == |s.active|;
    }
  }

  lemma AddSeated(s: State, id: nat, wallet: nat, folded: bool)
    requires Seated(s)
    ensures var t := AddPlayer(s, id, wallet, folded).state; Seated(t) && t.active == s.active
  {
    hide InsertAt, IndexOf, Enumerates;
    if id !in s.seats && |s.seats| < MAX_PLAYERS {
      assert |s.seats| == |s.seats.Keys|;
      if s.head.Some? {
        HeadPosition(s);
        InsertEnumerates(s.full, IndexOf(s.full, s.head.value), id, s.seats.Keys);
      } else {
        OnlySeat(id);
      }
      var t := AddPlayer(s, id, wallet, folded).state;
      assert t.seats.Keys == s.seats.Keys + {id};
      assert |t.seats| == |t.seats.Keys|;
    }
  }

  lemma HeadPosition(s: State)
    requires Seating(s) && s.head.Some?
    ensures IndexOf(s.full, s.head.value) < |s.full|
  {
  }

  lemma OnlySeat(id: nat)
    ensures Enumerates([id], {id})
  {
  }

  lemma InsertEnumerates(ring: seq<nat>, k: nat, id: nat, ids: set<nat>)
    requires Enumerates(ring, ids) && k <= |ring| && id !in ids
    ensures Enumerates(InsertAt(ring, k, id), ids + {id})
  {
    var r := InsertAt(ring, k, id);
    InsertDistinct(ring, k, id);
    forall i | 0 <= i < |r| ensures r[i] in ids + {id} {
      assert r[i] == id || r[i] == ring[if i < k then i else i - 1];
    }
    forall x | x in ids + {id} ensures x in r {
      if x != id {
        var i :| 0 <= i < |ring| && ring[i] == x;
        assert r[if i < k then i else i + 1] == x;
      } else {
        assert r[k] == id;
      }
    }
  }

  lemma InsertDistinct<T>(ring: seq<T>, k: nat, x: T)
    requires Distinct(ring) && k <= |ring| && x !in ring
    ensures var r := InsertAt(ring, k, x);
      Distinct(r) && |r| == |ring| + 1 && forall y :: y in r <==> y == x || y in ring
  {
    var r := InsertAt(ring, k, x);
    assert ring == ring[..k] + ring[k..];
    forall i, j | 0 <= i < j < |r| ensures r[i] != r[j] {
      assert r[i] == (if i < k then ring[i] else if i == k then x else ring[i - 1]);
      assert r[j] == (if j < k then ring[j] else if j == k then x else ring[j - 1]);
    }
  }

  lemma SeatedCoherent(s: State)
    requires Seated(s)
    ensures Coherent(s)
  {
  }

  /** Opening a round deals cards, or ends the hand when the last round is over. */
  lemma RoundSeated(s: State, order: seq<nat>)
    requires Seated(s) && s.active != [] && Enumerates(order, s.seats.Keys)
    ensures var r := RoundAction(s, order);
      && Seated(r.state)
      && (r.goesOn <==> s.game.round <= LastRound(s.game.kind))
      && (r.goesOn ==> r.state.active == s.active)
      && (r.goesOn ==> r.state.game.round == s.game.round && r.state.game.kind == s.game.kind)
      && (!r.goesOn ==> r.state.active == [] && r.state.pot == 0)
  {
    var r := OpenRound(s.game, s.seats, s.active);
    OpenRoundFrame(s.game, s.seats, s.active);
    var t := s.(game := r.game, seats := r.seats);
    if r.over {
      EndGameSeated(t, order, s.active[0]);
    }
  }

  lemma OpenRoundFrame(g: Game, seats: map<nat, Seat>, ring: seq<nat>)
    requires forall i :: 0 <= i < |ring| ==> ring[i] in seats
    ensures var r := OpenRound(g, seats, ring);
      && r.game.kind == g.kind && r.game.round == g.round
      && (forall id :: id in seats ==> r.seats[id] == seats[id].(hand := r.seats[id].hand))
      && (forall id :: id in seats && id !in ring ==> r.seats[id] == seats[id])
  {
    DealAroundFrame(g, seats, ring);
  }

  /** A round that goes on only deals: chips, stakes and markers stay. */
  lemma RoundFrame(s: State, order: seq<nat>)
    requires Enumerates(order, s.seats.Keys)
    requires forall i :: 0 <= i < |s.active| ==> s.active[i] in s.seats
    ensures var r := RoundAction(s, order); r.goesOn ==>
      && r.state == s.(game := r.state.game, seats := r.state.seats)
      && forall id :: id in s.seats ==> r.state.seats[id] == s.seats[id].(hand := r.state.seats[id].hand)
  {
    hide EndGame, OpenRound;
    OpenRoundFrame(s.game, s.seats, s.active);
  }

  lemma FinishUnfold(s: State, order: seq<nat>, steps: nat)
    requires Enumerates(order, s.seats.Keys)
    requires forall i :: 0 <= i < |s.active| ==> s.active[i] in s.seats
    ensures steps == 0 ==> FinishRounds(s, order, steps) == s
    ensures var r := RoundAction(s.(game := NextRound(s.game)), order);
      steps > 0 ==>
        FinishRounds(s, order, steps) == (if r.goesOn then FinishRounds(r.state, order, steps - 1) else r.state)
  {
    hide RoundAction;
  }

  /** The remaining rounds run out, whatever the game. */
  lemma {:induction false} FinishSeated(s: State, order: seq<nat>, steps: nat)
    requires Seated(s) && s.active != [] && Enumerates(order, s.seats.Keys)
    requires s.game.round + steps > LastRound(s.game.kind)
    ensures var t := FinishRounds(s, order, steps);
      && Seated(t)
      && (steps > 0 ==> t.active == [] && t.turn == None && t.pot == 0)
    decreases steps
  {
    hide RoundAction, FinishRounds, Enumerates, Distinct;
    FinishUnfold(s, order, steps);
    if steps > 0 {
      var next := s.(game := NextRound(s.game));
      RoundSeated(next, order);
      var r := RoundAction(next, order);
      if r.goesOn {
        FinishSeated(r.state, order, steps - 1);
      }
    }
  }

  lemma NextTurnSeated(s: State, k: nat)
    requires Seated(s) && 1 <= k < |s.active|
    ensures var t := s.(active := Rotate(s.active, k), turn := Some(s.active[k]));
      Seated(t) && |t.active| == |s.active| && t.active[0] == s.active[k]
  {
    RotateKeeps(s.active, k);
    var t := s.(active := Rotate(s.active, k), turn := Some(s.active[k]));
    assert forall i :: 0 <= i < |t.active| ==> t.active[i] in s.active;
  }

  /** Advancing the turn keeps the rings, and ends the hand or leaves it among the same players. */
  lemma AdvanceSeated(s: State, order: seq<nat>)
    requires Seated(s) && Enumerates(order, s.seats.Keys) && (s.active != [] ==> s.game.round <= LastRound(s.game.kind))
    ensures var t := AdvanceTurn(s, order);
      && Seated(t) && t.seats.Keys == s.seats.Keys
      && (t.active == [] || (|t.active| == |s.active| && t.game.round <= LastRound(t.game.kind)))
  {
    hide RoundAction, Evaluation.Evaluate, FinishRounds;
    if s.active != [] {
      var k := NextBetting(s, 1);
      if k == |s.active| {
        FinishSeated(s, order, 20);
      } else {
        NextTurnSeated(s, k);
        var t := s.(active := Rotate(s.active, k), turn := Some(s.active[k]));
        RoundSeated(t.(game := NextRound(s.game)), order);
      }
    }
  }

  /** What a turn command does keeps the rings, whether it is accepted or not. */
  lemma PlaySeated(s: State, id: nat, action: Action, order: seq<nat>)
    requires Seated(s) && s.turn == Some(id) && Enumerates(order, s.seats.Keys)
    ensures Seated(Play(s, id, action, order).state)
  {
    assert s.active[0] == id;
    if DrawRound(s.game) {
      ReplaceSeated(s, id, action);
    } else {
      match action
      case RaiseAction(amount) => if amount.Some? { RaiseSeated(s, id, amount.value); }
      case AllInAction => AllInSeated(s, id);
      case CheckAction => CheckSeated(s, id);
      case FoldAction => FoldSeated(s, id, order);
      case _ =>
    }
  }

  lemma {:induction false} CheckEachFrame(s: State, ids: seq<nat>)
    ensures var t := CheckEach(s, ids);
      && t == s.(seats := t.seats, pot := t.pot)
      && (forall id :: id in s.seats ==>
            t.seats[id] == s.seats[id].(wallet := t.seats[id].wallet, bet := t.seats[id].bet))
    decreases |ids|
  {
    if ids != [] {
      CheckEachFrame(Check(s, ids[0]).state, ids[1..]);
    }
  }

  /** With two or more seated a new hand starts with everybody in it and the blind as bettor. */
  lemma StartSeated(s: State, order: seq<nat>, deck: seq<Card>)
    requires Seated(s) && s.active == [] && |s.seats| >= 2 && Enumerates(order, s.seats.Keys)
    ensures var t := StartGame(s, order, deck);
      && Seated(t) && t.seats.Keys == s.seats.Keys && |t.active| == |s.seats|
      && t.bettor == DealtIn(s, order, deck).blind
      && t.active == Posted(DealtIn(s, order, deck)).active
      && t.game.round == 0 && t.game.kind == s.game.kind
  {
    hide OpenRound, Posted, DealtIn;
    var t := DealtIn(s, order, deck);
    DealtInSeating(s, order, deck);
    var u := Posted(t);
    PostedSeated(t);
    OpenRoundFrame(u.game, u.seats, u.active);
  }

  /** A hand about to start: everybody unfolded and in the ring, which is read from the blind. */
  ghost predicate ReadyToPost(t: State) {
    && Seating(t) && InHand(t) && |t.active| >= 2
    && t.blind == Some(t.active[0]) && t.showdown == None
    && (forall id :: id in t.seats ==> id in t.active)
  }

  lemma DealtInSeating(s: State, order: seq<nat>, deck: seq<Card>)
    requires Seated(s) && s.active == [] && |s.seats| >= 2 && Enumerates(order, s.seats.Keys)
    ensures var t := DealtIn(s, order, deck);
      ReadyToPost(t) && |t.active| == |s.seats| && t.game == Game(s.game.kind, 0, deck, []) && t.pot == 0 && t.bet == 0
      && t.seats == FreshSeats(s.seats)
  {
    RebuildSeated(s, order);
    EnumerationSize(order, s.seats.Keys);
    var r := Rebuild(s, order);
    var k := IndexOf(order, r.blind.value);
    assert r.blind.value in s.seats.Keys;
    RotateKeeps(order, k);
    var t := DealtIn(s, order, deck);
    forall i | 0 <= i < |t.active| ensures t.active[i] in t.seats && !t.seats[t.active[i]].folded {
      assert t.active[i] in order;
    }
    assert t.active[0] == order[k];
  }

  /** Posting moves chips, sets the bettor and the turn, and may pass the reading point to the next player. */
  lemma PostedFrame(t: State)
    requires ReadyToPost(t)
    ensures var u := Posted(t);
      && u == t.(seats := u.seats, active := u.active, turn := u.turn, bettor := t.blind, bet := u.bet, pot := u.pot)
      && u.active == (if IsAnte(t.game.kind) then t.active else Rotate(t.active, 1))
      && u.turn == Some(u.active[0])
    ensures forall id :: id in t.seats ==>
      Posted(t).seats[id].folded == t.seats[id].folded && Posted(t).seats[id].hand == t.seats[id].hand
  {
    hide CheckEach, Check, Seating;
    CheckEachFrame(Raise(t, t.active[0], BLIND).state, t.active);
  }

  lemma InHandRotated(t: State, u: State)
    requires InHand(t) && u.seats.Keys == t.seats.Keys
    requires u.active == t.active || (|t.active| > 1 && u.active == Rotate(t.active, 1))
    requires forall id :: id in t.seats ==> u.seats[id].folded == t.seats[id].folded
    ensures InHand(u) && |u.active| == |t.active| && forall x :: x in u.active <==> x in t.active
  {
    if u.active != t.active {
      RotateKeeps(t.active, 1);
      forall i | 0 <= i < |u.active| ensures u.active[i] in u.seats && !u.seats[u.active[i]].folded {
        var j :| 0 <= j < |t.active| && t.active[j] == u.active[i];
      }
    }
  }

  lemma PostedSeated(t: State)
    requires ReadyToPost(t)
    ensures var u := Posted(t); Seated(u) && |u.active| == |t.active| && u.bettor == t.blind && u.game == t.game
  {
    hide Posted, Rotate;
    PostedFrame(t);
    InHandRotated(t, Posted(t));
    assert t.active[0] in t.active;
  }
}
