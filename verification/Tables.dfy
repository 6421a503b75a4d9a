/** The betting table over linked player nodes; every method is proved against the step of the same name. */
module Tables {
  import opened Options
  import opened Sums
  import opened Sorting
  import opened Cards
  import opened Games
  import opened SidePots
  import opened Protocol
  import opened Rings
  import opened Nodes
  import Betting
  import Driver
  import HandRanks
  import Evaluation

  class Table {
    var players: map<nat, Node>
    var head: Node?
    var bettor: Node?
    var blind: Node?
    var turn: Node?
    var bet: nat
    var pot: nat
    const game: CardGame
    var showdown: Option<nat>
    var nextGamePlayers: set<nat>

    ghost var full: seq<Node>
    ghost var active: seq<Node>

    /** Both rings are linked through nodes of the table, and whoever is out of the hand has no active links. */
    ghost predicate Linked()
      reads this`players, this`full, this`active, full`nextf, full`prevf, full`next, full`prev
    {
      Roster(players, full, active) && FullLinks(full) && ActiveLinks(active) && LooseEnds(full, active)
    }

    /** A marker stands on a player of the map, or nowhere. */
    static ghost predicate StillMarks(players: map<nat, Node>, node: Node?) {
      node != null ==> node.id in players && players[node.id] == node
    }

    ghost predicate Marks(node: Node?)
      reads this`players
    {
      StillMarks(players, node)
    }

    ghost predicate Markers()
      reads this`players, this`head, this`bettor, this`blind, this`turn
    {
      Marks(head) && Marks(bettor) && Marks(blind) && Marks(turn)
    }

    ghost predicate Structure()
      reads this, full
    {
      Linked() && Markers()
    }

    function IdOf(node: Node?): Option<nat> {
      if node == null then None else Some(node.id)
    }

    ghost function Value(): State
      reads this, players.Values, game
    {
      State(SeatsOf(players), Ids(full), Ids(active), IdOf(turn), IdOf(head), IdOf(blind), IdOf(bettor), bet, pot,
            game.Value(), showdown, nextGamePlayers)
    }

    ghost predicate Valid()
      reads this, full, players.Values, game
    {
      Structure() && Driver.WellFormed(Value())
    }

    constructor (kind: Kind)
      ensures Valid() && Value() == Driver.EmptyTable(kind) && fresh(game)
    {
      players, head, bettor, blind, turn := map[], null, null, null, null;
      bet, pot, showdown, nextGamePlayers := 0, 0, None, {};
      game := new CardGame(kind);
      full, active := [], [];
    }

    lemma Fields(id: nat)
      ensures var v := Value();
        && v.seats == SeatsOf(players) && v.seats.Keys == players.Keys
        && (id in players ==> v.seats[id] == players[id].player)
        && v.full == Ids(full) && v.active == Ids(active) && v.turn == IdOf(turn) && v.head == IdOf(head)
        && v.blind == IdOf(blind) && v.bettor == IdOf(bettor) && v.bet == bet && v.pot == pot && v.game == game.Value()
        && v.showdown == showdown && v.staying == nextGamePlayers
    {
    }

    // ----- betting -----

    /** The value after one player's chips, the bet, the pot and the bettor have changed. */
    twostate lemma Staked(node: Node)
      requires Indexed(players) && node.id in players && players[node.id] == node
      requires unchanged(`players, `full, `active, `head, `blind, `turn, `showdown, `nextGamePlayers) && unchanged(game)
      requires forall id :: id in players && id != node.id ==> players[id].player == old(players[id].player)
      ensures var s := old(Value());
        Value() == s.(seats := s.seats[node.id := node.player], bettor := IdOf(bettor), bet := bet, pot := pot)
    {
      assert SeatsOf(players) == old(SeatsOf(players))[node.id := node.player];
    }

    twostate lemma MarkersKept()
      requires unchanged(`players, `head, `blind, `turn) && (bettor == old(bettor) || Marks(bettor))
      ensures old(Markers()) ==> Markers()
    {
    }

    method Raise(id: nat, amount: nat) returns (outcome: Outcome)
      requires Indexed(players)
      modifies `bettor, `bet, `pot, players.Values`player
      ensures Reply(Value(), outcome) == Protocol.Raise(old(Value()), id, amount)
      ensures old(Markers()) ==> Markers()
    {
      hide Value, SeatsOf, Ids, Markers;
      Fields(id);
      if amount == 0 {
        return Rejected(ZeroRaise);
      }
      if id !in players {
        return Rejected(PlayerNotFound);
      }
      var node := players[id];
      bettor := node;
      if node.player.wallet < amount {
        Staked(node);
        MarkersKept();
        assert old(Value()).seats[id := node.player] == old(Value()).seats;
        return Rejected(InsufficientFunds);
      }
      node.player := node.player.(wallet := node.player.wallet - amount, bet := node.player.bet + amount);
      pot := pot + amount;
      bet := node.player.bet;
      Staked(node);
      MarkersKept();
      outcome := Accepted;
    }

    method AllIn(id: nat) returns (outcome: Outcome)
      requires Indexed(players)
      modifies `bettor, `bet, `pot, players.Values`player
      ensures Reply(Value(), outcome) == Protocol.AllIn(old(Value()), id)
      ensures old(Markers()) ==> Markers()
    {
      hide Value, SeatsOf, Ids, Markers;
      Fields(id);
      if id !in players {
        return Rejected(PlayerNotFound);
      }
      var node := players[id];
      var amount := node.player.wallet;
      if amount == 0 {
        return Rejected(AlreadyAllIn);
      }
      node.player := node.player.(wallet := 0, bet := node.player.bet + amount);
      pot := pot + amount;
      if node.player.bet > bet {
        bet := node.player.bet;
        bettor := node;
      }
      Staked(node);
      MarkersKept();
      outcome := Accepted;
    }

    method Check(id: nat) returns (outcome: Outcome)
      requires Indexed(players)
      modifies `pot, players.Values`player
      ensures Reply(Value(), outcome) == Protocol.Check(old(Value()), id)
    {
      hide Value, SeatsOf, Ids;
      Fields(id);
      if id !in players {
        return Rejected(PlayerNotFound);
      }
      var node := players[id];
      if node.player.bet == bet {
        return Accepted;
      }
      if bet < node.player.bet {
        return Rejected(Underflow);
      }
      var diff := bet - node.player.bet;
      if node.player.wallet < diff {
        return Rejected(InsufficientFunds);
      }
      pot := pot + diff;
      node.player := node.player.(bet := bet, wallet := node.player.wallet - diff);
      Staked(node);
      outcome := Accepted;
    }

    // ----- leaving the hand -----

    /** Takes a node out of the active ring, if it is in it, and reports its former neighbours. */
    method Unhook(node: Node) returns (prevActive: Node?, nextActive: Node?)
      requires Linked() && node in full && |active| != 1
      modifies `active, full
      ensures unchanged(`players, `full, `head, `bettor, `blind, `turn, `bet, `pot, `showdown, `nextGamePlayers)
      ensures unchanged(game)
      ensures Linked() && Untouched(full)
      ensures SeatsOf(players) == old(SeatsOf(players))
      ensures node !in old(active) ==> active == old(active) && prevActive == null && nextActive == null
      ensures node in old(active) ==> active == RingWithout(old(active), node)
      ensures node in old(active) ==> prevActive == PrevOf(old(active), node) && nextActive == NextOf(old(active), node)
    {
      hide Roster, FullLinks, ActiveLinks, LooseEnds, PrevOf, NextOf, RingWithout, Spliced, WereLinked;
      hide WereLoose, Snapshot, SeatsOf;
      ghost var seats := SeatsOf(players);
      NodeLinks(node);
      ghost var was := Snapshot(full);
      prevActive, nextActive := Splice(node, was);
      FullUntouched();
      SameSeats(seats);
      Unhooked(players, full, active, node, was);
      if node in active {
        active := RingWithout(active, node);
      }
    }

    twostate lemma SameSeats(seats: map<nat, Seat>)
      requires Roster(players, full, active) && old(SeatsOf(players)) == seats && unchanged(`players, `full)
      requires Untouched(full)
      ensures SeatsOf(players) == seats
    {
      assert forall id :: id in players ==> players[id] in full;
    }

    twostate lemma FullUntouched()
      requires old(FullLinks(full)) && unchanged(`full) && Untouched(full)
      ensures FullLinks(full)
    {
    }

    /** A node's active links lead to others in the ring, or nowhere. */
    lemma NodeLinks(node: Node)
      requires Linked() && node in full && |active| != 1
      ensures WereLinked(active, Snapshot(full)) && WereLoose(full, active, Snapshot(full))
      ensures node !in active ==> node.prev == null && node.next == null
      ensures node in active ==>
        && |active| >= 2 && node.prev == PrevOf(active, node) && node.next == NextOf(active, node)
        && node.prev in full && node.prev != node && node.next in full && node.next != node
    {
      if node in active {
        var k, n := IndexOf(active, node), |active|;
        assert active[k] == node && active[k].next == active[After(k, n)];
        assert active[Before(k, n)] in active && active[After(k, n)] in active;
      }
    }

    /** Clears a node's active links and joins its neighbours to each other. */
    method Splice(node: Node, ghost was: map<Node, Links>) returns (prevActive: Node?, nextActive: Node?)
      requires node in full && was == Snapshot(full)
      requires node.prev != null ==> node.prev in full && node.prev != node
      requires node.next != null ==> node.next in full && node.next != node
      modifies full
      ensures unchanged(this) && unchanged(game)
      ensures Untouched(full)
      ensures prevActive == old(node.prev) && nextActive == old(node.next)
      ensures Spliced(full, node, was)
    {
      prevActive := node.prev;
      nextActive := node.next;
      node.prev := null;
      node.next := null;
      if prevActive != null { prevActive.next := nextActive; }
      if nextActive != null { nextActive.prev := prevActive; }
    }

    // ----- showdown -----

    /** One pass over the player map. */
    method CollectEntries(order: seq<nat>) returns (es: seq<Entry<HandRanks.HandRank>>)
      requires Enumerates(order, players.Keys) && Indexed(players)
      ensures es == Entries(Value(), order)
    {
      hide Value, EntryOf;
      ghost var s := Value();
      Fields(0);
      es := [];
      for i := 0 to |order|
        invariant |es| == i && forall j :: 0 <= j < i ==> es[j] == EntryOf(s, order[j])
      {
        Fields(order[i]);
        var p := players[order[i]].player;
        EntryIs(s, order[i]);
        var hand := if game.kind == TexasHoldem then p.hand + game.community else p.hand;
        es := es + [Entry(order[i], p.bet, p.folded, Evaluation.Evaluate(hand))];
      }
    }

    /** The levels are swept upwards, each to its winner; what is left goes to the best unfolded hand. */
    method PayShowdownPots(es: seq<Entry<HandRanks.HandRank>>, order: seq<nat>)
      requires Enumerates(order, players.Keys) && Indexed(players) && |es| == |order|
      modifies players.Values`player
      ensures PaidOut(players, order, old(Players(players, order)), Payouts(es, pot, HandRanks.Compare))
    {
      hide WinnerAt, Contributors, LayerPot, Total, PaidOut, Remaining, Swept, Levels, Players;
      var levels := Levels(es);
      var previous: nat, paid: nat := 0, 0;
      ghost var before, done := Players(players, order), Zeros(|es|);
      SweepStarts(es, levels, players, order);
      for i := 0 to |levels|
        invariant |done| == |es| && paid == Total(done)
        invariant Remaining(es, done, levels[i..], previous)
        invariant PaidOut(players, order, before, done)
      {
        var level := levels[i];
        var winner := WinnerAt(es, level, HandRanks.Compare);
        RemainingStep(es, done, levels[i..], previous);
        assert levels[i..][1..] == levels[i + 1..];
        if winner.Some? {
          var layer := (level - previous) * Contributors(es, level);
          CreditPlayer(order, winner.value, layer, before, done);
          SumCredited(done, winner.value, layer);
          done := Credited(done, winner.value, layer);
          paid := paid + layer;
        }
        previous := level;
      }
      SweepEnds(es, done, levels[|levels|..], previous);
      if paid < pot {
        var winner := WinnerAt(es, 0, HandRanks.Compare);
        if winner.Some? {
          CreditPlayer(order, winner.value, pot - paid, before, done);
        }
      }
    }

    method CreditPlayer(order: seq<nat>, w: nat, amount: nat, ghost before: seq<Seat>, ghost done: seq<nat>)
      requires Enumerates(order, players.Keys) && Indexed(players) && w < |order|
      requires |done| == |order| && PaidOut(players, order, before, done)
      modifies players.Values`player
      ensures PaidOut(players, order, before, Credited(done, w, amount))
    {
      var node := players[order[w]];
      node.player := node.player.(wallet := node.player.wallet + amount);
    }

    /** Clears every player's hand, stake and active links. */
    method ResetPlayers(order: seq<nat>, ghost before: seq<Seat>)
      requires Enumerates(order, players.Keys) && Roster(players, full, active)
      requires |before| == |order| && forall j :: 0 <= j < |order| ==> players[order[j]].player == before[j]
      modifies full
      ensures unchanged(this) && unchanged(game)
      ensures forall j :: 0 <= j < |order| ==> players[order[j]].player == Settle(before[j], 0)
      ensures forall n :: n in full ==> n.next == null && n.prev == null
      ensures forall n :: n in full ==> n.nextf == old(n.nextf) && n.prevf == old(n.prevf)
    {
      for i := 0 to |order|
        invariant forall j :: 0 <= j < i ==> Cleared(players[order[j]])
        invariant forall j :: 0 <= j < i ==> players[order[j]].player == Settle(before[j], 0)
        invariant forall j :: i <= j < |order| ==> players[order[j]].player == before[j]
        invariant forall n :: n in full ==> n.nextf == old(n.nextf) && n.prevf == old(n.prevf)
        invariant unchanged(this) && unchanged(game)
      {
        var node := players[order[i]];
        node.player := node.player.(hand := [], bet := 0, folded := true);
        node.next := null;
        node.prev := null;
      }
      forall n | n in full ensures Cleared(n) {
        var k :| 0 <= k < |full| && full[k] == n;
        var j :| 0 <= j < |order| && order[j] == n.id;
      }
    }

    /** Pays out the pot, then clears the table for the next hand. */
    method SettleAll(es: seq<Entry<HandRanks.HandRank>>, order: seq<nat>)
      requires Enumerates(order, players.Keys) && Linked() && |es| == |order|
      modifies full
      ensures unchanged(this) && unchanged(game)
      ensures FullLinks(full) && ActiveLinks([]) && LooseEnds(full, [])
      ensures SeatsOf(players) == SettledSeats(old(SeatsOf(players)), order, Payouts(es, pot, HandRanks.Compare))
    {
      hide Payouts, Players, PaidOut, SeatsOf, SettledSeats, Roster, FullLinks, ActiveLinks, LooseEnds;
      PlayersAmongNodes();
      ghost var seats, before := SeatsOf(players), Players(players, order);
      PlayersSeats(players, order);
      PayShowdownPots(es, order);
      PaidList(players, order, before, Payouts(es, pot, HandRanks.Compare));
      ghost var paid := Players(players, order);
      ResetPlayers(order, paid);
      SettledValue(players, order, seats, before, paid, Payouts(es, pot, HandRanks.Compare));
      LinksCleared();
    }

    twostate lemma LinksCleared()
      requires old(FullLinks(full)) && unchanged(`full)
      requires forall n :: n in full ==> n.next == null && n.prev == null
      requires forall n :: n in full ==> n.nextf == old(n.nextf) && n.prevf == old(n.prevf)
      ensures FullLinks(full) && ActiveLinks([]) && LooseEnds(full, [])
    {
    }

    lemma PlayersAmongNodes()
      requires Linked()
      ensures Indexed(players) && (forall n :: n in players.Values ==> n in full)
    {
    }

    /** The blind's successor in the full ring. */
    lemma NextBlind()
      requires Roster(players, full, []) && FullLinks(full) && blind != null && Marks(blind)
      ensures blind.nextf != null && Marks(blind.nextf) && NextIn(Ids(full), blind.id) == Some(blind.nextf.id)
    {
      var k := IndexOf(full, blind);
      assert full[k] == blind && full[k].nextf == full[After(k, |full|)];
      IndexOfNode(full, players, k);
    }

    method EndGame(order: seq<nat>)
      requires Structure() && Enumerates(order, players.Keys)
      modifies this, full
      ensures Structure() && players == old(players) && full == old(full)
      ensures Value() == Protocol.EndGame(old(Value()), order)
    {
      hide Roster, FullLinks, ActiveLinks, LooseEnds, WinnerAt, Payouts, Entries, SettledSeats, SeatsOf;
      hide Value, Protocol.EndGame, Enumerates;
      ghost var s := Value();
      PlayersAmongNodes();
      NoneActive();
      Fields(0);
      var es := CollectEntries(order);
      var winner := WinnerAt(es, 0, HandRanks.Compare);
      if winner.None? {
        Unchanged(s, order);
        return;
      }
      SettleAll(es, order);
      CloseHand(order, winner.value, s, es);
    }

    /** Records the showdown and resets the markers: the winner becomes head, the blind moves on. */
    method CloseHand(order: seq<nat>, w: nat, ghost s: State, ghost es: seq<Entry<HandRanks.HandRank>>)
      requires Roster(players, full, []) && FullLinks(full) && LooseEnds(full, []) && Markers()
      requires Enumerates(order, players.Keys) && players.Keys == s.seats.Keys
      requires es == Entries(s, order) && WinnerAt(es, 0, HandRanks.Compare) == Some(w)
      requires SeatsOf(players) == SettledSeats(s.seats, order, Payouts(es, s.pot, HandRanks.Compare))
      requires bet == s.bet && Ids(full) == s.full && game.Value() == s.game && IdOf(blind) == s.blind
      modifies `showdown, `nextGamePlayers, `head, `blind, `turn, `bettor, `pot, `active
      ensures Structure() && Value() == Protocol.EndGame(s, order)
    {
      hide Roster, FullLinks, LooseEnds, WinnerAt, Payouts, Entries, SettledSeats, SeatsOf, Value, Protocol.EndGame;
      ghost var seats := SeatsOf(players);
      if blind != null { NextBlind(); }
      WinnerNode(order, w);
      ResetMarkers(players[order[w]], seats);
      Ended(s, order, w);
    }

    lemma WinnerNode(order: seq<nat>, w: nat)
      requires Roster(players, full, []) && Enumerates(order, players.Keys) && w < |order|
      ensures order[w] in players && Marks(players[order[w]]) && players[order[w]].id == order[w]
    {
      assert order[w] in players.Keys;
    }

    method ResetMarkers(winner: Node, ghost seats: map<nat, Seat>)
      requires SeatsOf(players) == seats && FullLinks(full) && LooseEnds(full, [])
      modifies `showdown, `nextGamePlayers, `head, `blind, `turn, `bettor, `pot, `active
      ensures showdown == Some(winner.id) && nextGamePlayers == {} && head == winner
      ensures blind == (if old(blind) == null then null else old(blind.nextf))
      ensures active == [] && turn == null && bettor == null && pot == 0
      ensures SeatsOf(players) == seats && FullLinks(full) && LooseEnds(full, [])
    {
      showdown := Some(winner.id);
      nextGamePlayers := {};
      head := winner;
      if blind != null {
        blind := blind.nextf;
      }
      turn := null;
      bettor := null;
      pot := 0;
      active := [];
    }

    lemma Unchanged(s: State, order: seq<nat>)
      requires Enumerates(order, s.seats.Keys) && WinnerAt(Entries(s, order), 0, HandRanks.Compare).None?
      ensures Protocol.EndGame(s, order) == s
    {
      hide Entries, WinnerAt;
    }

    lemma Ended(s: State, order: seq<nat>, w: nat)
      requires Enumerates(order, s.seats.Keys) && WinnerAt(Entries(s, order), 0, HandRanks.Compare) == Some(w)
      requires SeatsOf(players) == SettledSeats(s.seats, order, Payouts(Entries(s, order), s.pot, HandRanks.Compare))
      requires active == [] && turn == null && bettor == null && pot == 0 && bet == s.bet && nextGamePlayers == {}
      requires IdOf(head) == Some(order[w]) == showdown && Ids(full) == s.full && game.Value() == s.game
      requires IdOf(blind) == if s.blind.Some? then NextIn(s.full, s.blind.value) else None
      ensures Value() == Protocol.EndGame(s, order)
    {
      hide Entries, WinnerAt, Payouts, SettledSeats, SeatsOf;
    }

    lemma NoneActive()
      requires Linked()
      ensures Roster(players, full, [])
    {
    }

    // ----- folding -----

    /** Takes a player out of the hand and moves the markers that stood on the player. */
    method TakeOut(node: Node) returns (prevActive: Node?, nextActive: Node?)
      requires Structure() && node in full && |active| != 1
      modifies this, full
      ensures Structure() && players == old(players) && full == old(full)
      ensures node !in old(active) ==> prevActive == null && nextActive == null
      ensures node !in old(active) ==> Value() == StepAside(old(Value()), node.id)
      ensures node in old(active) ==>
        && prevActive == PrevOf(old(active), node) && nextActive == NextOf(old(active), node)
        && Value() == Protocol.Withdraw(old(Value()), IndexOf(old(active), node))
    {
      hide Linked, Roster, PrevOf, NextOf, RingWithout, Value, SeatsOf;
      ghost var s, ring := Value(), active;
      Fields(node.id);
      NodeIndexed(node);
      prevActive, nextActive := Unhook(node);
      MarkFolded(node, s.seats);
      MoveMarkers(node, prevActive, nextActive);
      TakenOut(s, ring, node, prevActive, nextActive);
    }

    lemma NodeIndexed(node: Node)
      requires Linked() && node in full
      ensures Marks(node) && Indexed(players) && (forall n :: n in players.Values ==> n in full)
      ensures node in active ==> Marks(PrevOf(active, node)) && Marks(NextOf(active, node))
      ensures Roster(players, full, active)
    {
      var k :| 0 <= k < |full| && full[k] == node;
    }

    lemma TakenOut(s: State, ring: seq<Node>, node: Node, prevActive: Node?, nextActive: Node?)
      requires Roster(players, full, ring) && node in full && s.active == Ids(ring) && s.full == Ids(full)
      requires s.seats.Keys == players.Keys && SeatsOf(players) == s.seats[node.id := s.seats[node.id].(folded := true)]
      requires game.Value() == s.game && bet == s.bet && pot == s.pot && showdown == s.showdown
      requires nextGamePlayers == s.staying
      requires IdOf(head) == Moved(s.head, node.id, IdOf(nextActive))
      requires IdOf(bettor) == Moved(s.bettor, node.id, IdOf(prevActive))
      requires IdOf(blind) == Moved(s.blind, node.id, IdOf(prevActive))
      requires IdOf(turn) == Moved(s.turn, node.id, IdOf(prevActive))
      requires node !in ring ==> active == ring && prevActive == null && nextActive == null
      requires node in ring ==> active == RingWithout(ring, node)
      requires node in ring ==> prevActive == PrevOf(ring, node) && nextActive == NextOf(ring, node)
      ensures node !in ring ==> Value() == StepAside(s, node.id)
      ensures node in ring ==> Value() == Protocol.Withdraw(s, IndexOf(ring, node))
    {
      hide SeatsOf, Moved, Unlink, Ids;
      if node in ring {
        UnlinkIds(ring, IndexOf(ring, node));
      }
    }

    method MarkFolded(node: Node, ghost seats: map<nat, Seat>)
      requires Structure() && Marks(node) && SeatsOf(players) == seats
      modifies node`player
      ensures Structure() && node.id in seats && SeatsOf(players) == seats[node.id := seats[node.id].(folded := true)]
    {
      node.player := node.player.(folded := true);
    }

    method MoveMarkers(node: Node, prevActive: Node?, nextActive: Node?)
      requires Marks(node) && Marks(prevActive) && Marks(nextActive) && Structure()
      modifies `head, `bettor, `blind, `turn
      ensures Structure() && SeatsOf(players) == old(SeatsOf(players))
      ensures IdOf(head) == Moved(old(IdOf(head)), node.id, IdOf(nextActive))
      ensures IdOf(bettor) == Moved(old(IdOf(bettor)), node.id, IdOf(prevActive))
      ensures IdOf(blind) == Moved(old(IdOf(blind)), node.id, IdOf(prevActive))
      ensures IdOf(turn) == Moved(old(IdOf(turn)), node.id, IdOf(prevActive))
    {
      hide Linked, SeatsOf;
      if head == node { head := nextActive; }
      if bettor == node { bettor := prevActive; }
      if blind == node { blind := prevActive; }
      if turn == node { turn := prevActive; }
    }

    method Fold(id: nat, order: seq<nat>) returns (outcome: Outcome)
      requires Structure() && Enumerates(order, players.Keys) && |active| != 1
      modifies this, full
      ensures Structure() && players == old(players) && full == old(full)
      ensures Reply(Value(), outcome) == Protocol.Fold(old(Value()), id, order)
    {
      hide Value, Linked, PrevOf, NextOf, Enumerates, Protocol.EndGame, StepAside, Protocol.Withdraw;
      Fields(id);
      if id !in players {
        return Rejected(PlayerNotFound);
      }
      var node := players[id];
      PlayersAmongNodes();
      NodeIndexed(node);
      ghost var s, ring := Value(), active;
      var prevActive, nextActive := TakeOut(node);
      FoldCases(s, ring, node, order);
      if prevActive != null && nextActive != null && prevActive == nextActive {
        EndGame(order);
      }
      outcome := Accepted;
    }

    /** Which of the protocol's three cases a fold is, read off the nodes. */
    lemma FoldCases(s: State, ring: seq<Node>, node: Node, order: seq<nat>)
      requires Roster(players, full, ring) && node in full && s.active == Ids(ring) && s.seats.Keys == players.Keys
      requires Enumerates(order, players.Keys)
      ensures node !in ring ==> Protocol.Fold(s, node.id, order) == Accept(StepAside(s, node.id))
      ensures node in ring ==>
        IndexOf(ring, node) == IndexOf(s.active, node.id)
        && Protocol.Fold(s, node.id, order) == Accept(
             var t := Protocol.Withdraw(s, IndexOf(ring, node));
             if PrevOf(ring, node) == NextOf(ring, node) then Protocol.EndGame(t, order) else t)
    {
      hide Protocol.EndGame, StepAside, Protocol.Withdraw, Enumerates;
      var i :| 0 <= i < |full| && full[i] == node;
      NotInRing(ring, players, node);
      if node in ring {
        var k, n := IndexOf(ring, node), |ring|;
        IndexOfNode(ring, players, k);
        IndexOfNode(ring, players, Before(k, n));
        IndexOfNode(ring, players, After(k, n));
      }
    }

    // ----- seating -----

    /** Everything but the full ring: what must hold when it is about to be rebuilt. */
    ghost predicate ReadyToRebuild()
      reads this, players.Values
    {
      && Indexed(players) && Members(active, players) && Distinct(active) && ActiveLinks(active)
      && (forall n :: n in players.Values && n !in active ==> n.next == null && n.prev == null)
      && Marks(bettor) && Marks(turn) && Fits(head) && Fits(blind)
    }

    /** The node is of this table, or its id is not. */
    ghost predicate Fits(node: Node?)
      reads this`players
    {
      node != null && node.id in players ==> players[node.id] == node
    }

    /** Links all players into one ring along the iteration order, and finds a head and a blind if they have left. */
    method RebuildFullRing(order: seq<nat>)
      requires Enumerates(order, players.Keys) && ReadyToRebuild()
      modifies this, players.Values
      ensures Structure() && players == old(players) && active == old(active)
      ensures Value() == Rebuild(old(Value()), order)
    {
      hide Enumerates, Value, Linked, Markers, ReadyToRebuild, Ids, SeatsOf, FullLinks, ActiveLinks;
      hide LooseEnds, Roster, NodesIn, Rebuild;
      ghost var s := Value();
      Fields(0);
      if |order| == 0 {
        ClearTable();
        Rebuilt(s, order);
        return;
      }
      LinkPlayers(order, s);
    }

    method LinkPlayers(order: seq<nat>, ghost s: State)
      requires order != [] && Enumerates(order, players.Keys) && ReadyToRebuild() && s == Value()
      modifies `full, `head, `blind, players.Values
      ensures Structure() && Value() == Rebuild(s, order)
    {
      hide Enumerates, Value, Linked, Markers, ReadyToRebuild, Ids, SeatsOf, FullLinks, ActiveLinks;
      hide LooseEnds, Roster, NodesIn, Rebuild;
      Fields(0);
      RingReady(order);
      var nodes := LinkFull(order);
      AdoptRing(nodes, s.seats);
      Rebuilt(s, order);
    }

    /** The iteration order lists exactly the nodes of the table. */
    lemma RingReady(order: seq<nat>)
      requires Enumerates(order, players.Keys) && ReadyToRebuild()
      ensures Indexed(players) && (forall i :: 0 <= i < |order| ==> order[i] in players)
      ensures var nodes := NodesIn(players, order);
        Roster(players, nodes, active) && ActiveLinks(active) && LooseEnds(nodes, active) && Ids(nodes) == order
      ensures Marks(bettor) && Marks(turn) && Fits(head) && Fits(blind)
    {
      var nodes := NodesIn(players, order);
      forall id | id in players ensures players[id] in nodes {
        var i :| 0 <= i < |order| && order[i] == id;
        assert nodes[i] == players[id];
      }
      assert forall i, j :: 0 <= i < j < |nodes| ==> nodes[i].id != nodes[j].id;
      assert forall n :: n in active ==> n.id in players && players[n.id] == n;
    }

    method AdoptRing(nodes: seq<Node>, ghost seats: map<nat, Seat>)
      requires nodes != [] && Roster(players, nodes, active) && FullLinks(nodes) && ActiveLinks(active)
      requires LooseEnds(nodes, active)
      requires Marks(bettor) && Marks(turn) && Fits(head) && Fits(blind) && SeatsOf(players) == seats
      modifies `full, `head, `blind
      ensures Structure() && full == nodes && SeatsOf(players) == seats
      ensures IdOf(head) == old(if head != null && head.id in players then Some(head.id) else Some(nodes[0].id))
      ensures IdOf(blind) == if old(blind) != null && old(blind).id in players then Some(old(blind).id) else IdOf(head)
    {
      hide Roster, FullLinks, ActiveLinks, LooseEnds, SeatsOf;
      FirstNode(nodes);
      full := nodes;
      if !(head != null && head.id in players && players[head.id] == head) {
        head := nodes[0];
      }
      if !(blind != null && blind.id in players && players[blind.id] == blind) {
        blind := head;
      }
    }

    lemma FirstNode(nodes: seq<Node>)
      requires nodes != [] && Roster(players, nodes, active)
      ensures Marks(nodes[0])
    {
    }

    lemma Rebuilt(s: State, order: seq<nat>)
      requires Enumerates(order, s.seats.Keys)
      requires SeatsOf(players) == s.seats && Ids(full) == order && Ids(active) == s.active && game.Value() == s.game
      requires order == [] ==>
        && head == null && bettor == null && blind == null && turn == null && showdown == None
        && nextGamePlayers == {} && bet == 0 && pot == 0
      requires order != [] ==>
        && IdOf(turn) == s.turn && IdOf(bettor) == s.bettor && bet == s.bet && pot == s.pot
        && showdown == s.showdown && nextGamePlayers == s.staying
        && IdOf(head) == (if s.head.Some? && s.head.value in s.seats then s.head else Some(order[0]))
        && IdOf(blind) == (if s.blind.Some? && s.blind.value in s.seats then s.blind else IdOf(head))
      ensures Value() == Rebuild(s, order)
    {
      hide SeatsOf, Enumerates;
    }

    method ClearTable()
      requires Enumerates([], players.Keys) && ReadyToRebuild()
      modifies this
      ensures players == old(players) && active == old(active) && full == [] && Structure()
      ensures SeatsOf(players) == old(SeatsOf(players)) && game.Value() == old(game.Value())
      ensures head == null && bettor == null && blind == null && turn == null && showdown == None
      ensures nextGamePlayers == {}
      ensures bet == 0 && pot == 0
    {
      EnumerationSize([], players.Keys);
      assert players == map[];
      head, bettor, blind, turn := null, null, null, null;
      showdown := None;
      nextGamePlayers := {};
      bet := 0;
      pot := 0;
      full := [];
    }

    /** The linking loop: position i of the order gets its two neighbours, circularly. */
    method LinkFull(order: seq<nat>) returns (nodes: seq<Node>)
      requires Enumerates(order, players.Keys) && Indexed(players)
      modifies players.Values`nextf, players.Values`prevf
      ensures nodes == NodesIn(players, order) && FullLinks(nodes)
    {
      nodes := NodesIn(players, order);
      var len := |nodes|;
      assert forall i, j :: 0 <= i < j < len ==> nodes[i].id != nodes[j].id;
      for i := 0 to len
        invariant forall j {:trigger nodes[j].nextf} :: 0 <= j < i ==> nodes[j].nextf == nodes[After(j, len)]
        invariant forall j {:trigger nodes[j].prevf} :: 0 <= j < i ==> nodes[j].prevf == nodes[Before(j, len)]
      {
        nodes[i].prevf := nodes[Before(i, len)];
        nodes[i].nextf := nodes[After(i, len)];
      }
    }

    // ----- leaving and joining -----

    method RemovePlayer(id: nat, order: seq<nat>, order': seq<nat>) returns (outcome: Outcome)
      requires Valid() && Enumerates(order, players.Keys) && Enumerates(order', players.Keys - {id})
      modifies this, full
      ensures Structure() && Reply(Value(), outcome) == Protocol.RemovePlayer(old(Value()), id, order, order')
      ensures players == old(players) - {id} && (forall n :: n in full ==> n in old(full))
    {
      hide Enumerates, Value, Linked, Markers, Protocol.Fold, Protocol.RemovePlayer, Rebuild, Ids, SeatsOf;
      hide ReadyToRebuild, LeftTable, Driver.WellFormed;
      ghost var s := Value();
      Fields(id);
      RingSize();
      RemovalSteps(s, id, order, order');
      PlayersAmongNodes();
      if id !in players {
        return Rejected(PlayerNotFound);
      }
      outcome := Fold(id, order);
      var node := players[id];
      LeaverOut(s, node, order);
      Unseat(node);
      Fields(id);
      RebuildFullRing(order');
      FullAmong();
    }

    /** A removal in the protocol is a fold, a departure and a rebuilt ring. */
    lemma RemovalSteps(s: State, id: nat, order: seq<nat>, order': seq<nat>)
      requires Enumerates(order, s.seats.Keys) && Enumerates(order', s.seats.Keys - {id})
      ensures id in s.seats ==>
        var t := LeftTable(Protocol.Fold(s, id, order).state, id);
        && t.seats.Keys == s.seats.Keys - {id}
        && Protocol.RemovePlayer(s, id, order, order') == Accept(Rebuild(t, order'))
        && Protocol.Fold(s, id, order).outcome == Accepted
      ensures id !in s.seats ==> Protocol.RemovePlayer(s, id, order, order') == Reject(s, PlayerNotFound)
    {
      hide Rebuild, Protocol.EndGame, Protocol.Withdraw, StepAside;
    }

    lemma LeaverOut(s: State, node: Node, order: seq<nat>)
      requires Structure() && node.id in players && players[node.id] == node
      requires Driver.WellFormed(s) && node.id in s.seats && Enumerates(order, s.seats.Keys)
      requires Value() == Protocol.Fold(s, node.id, order).state
      ensures node in full && node !in active && turn != node && bettor != node
    {
      hide Protocol.Fold, SeatsOf;
      LeaverIsOut(s, node.id, order);
      NotInRing(active, players, node);
      Fields(node.id);
      assert Value().turn == None || Value().turn.value in Value().active;
    }

    lemma RingSize()
      requires Valid()
      ensures |active| != 1 && (Value().active == Ids(active)) && |Ids(active)| == |active|
    {
    }

    /** Takes a node that is out of the hand off the table: its ring neighbours close up and the map forgets it. */
    method Unseat(node: Node)
      requires Structure() && node in full && node !in active && turn != node && bettor != node
      modifies `head, `players, full
      ensures players == old(players) - {node.id} && ReadyToRebuild() && (forall n :: n in players.Values ==> n in full)
      ensures Value() == LeftTable(old(Value()), node.id)
    {
      hide Value, Linked, Markers, Ids, SeatsOf, ReadyToRebuild, LeftTable, Roster, ActiveLinks, LooseEnds;
      ghost var s := Value();
      SeatNeighbours(node);
      NodeIndexed(node);
      var prevf, nextf := Skip(node);
      SkipKeepsValue();
      Vacate(node, nextf, s);
    }

    lemma SeatNeighbours(node: Node)
      requires Linked() && node in full
      ensures node.prevf != null && node.prevf in full && node.nextf != null && node.nextf in full && Marks(node.nextf)
      ensures NextIn(Ids(full), node.id) == Some(node.nextf.id)
    {
      var k := IndexOf(full, node);
      assert full[k] == node && full[k].nextf == full[After(k, |full|)] && full[k].prevf == full[Before(k, |full|)];
      IndexOfNode(full, players, k);
    }

    /** Clears a node's full links and joins its neighbours. */
    method Skip(node: Node) returns (prevf: Node?, nextf: Node?)
      requires Structure() && node in full
      requires node.prevf != null && node.prevf in full && node.nextf != null && node.nextf in full
      modifies full
      ensures unchanged(this) && unchanged(game) && nextf == old(node.nextf)
      ensures forall n :: n in full ==> n.player == old(n.player) && n.next == old(n.next) && n.prev == old(n.prev)
    {
      prevf, nextf := node.prevf, node.nextf;
      node.prevf, node.nextf := null, null;
      prevf.nextf := nextf;
      nextf.prevf := prevf;
    }

    /** Bridging two neighbours of the full ring shows in no value. */
    twostate lemma SkipKeepsValue()
      requires old(Structure()) && unchanged(this) && unchanged(game)
      requires forall n :: n in full ==> n.player == old(n.player) && n.next == old(n.next) && n.prev == old(n.prev)
      ensures Roster(players, full, active) && ActiveLinks(active) && LooseEnds(full, active) && Markers()
      ensures Value() == old(Value())
    {
      assert SeatsOf(players) == old(SeatsOf(players)) by {
        assert forall id :: id in players ==> players[id] in full;
      }
    }

    /** Forgets the node, and moves the head off it. */
    method Vacate(node: Node, nextf: Node, ghost s: State)
      requires Roster(players, full, active) && ActiveLinks(active) && LooseEnds(full, active) && Markers()
      requires node in full && node !in active && s == Value() && turn != node && bettor != node
      requires NextIn(Ids(full), node.id) == Some(nextf.id) && Marks(nextf) && Marks(node)
      modifies `head, `players
      ensures players == old(players) - {node.id} && ReadyToRebuild() && (forall n :: n in players.Values ==> n in full)
      ensures Value() == LeftTable(s, node.id)
    {
      hide ActiveLinks, Ids, LooseEnds, SeatsOf, Roster, NextIn;
      Forgetting(node);
      if head == node {
        head := if nextf == head then null else nextf;
      }
      players := players - {node.id};
      LooseStill();
    }

    /** What the player map is like without one node that is out of the hand. */
    lemma Forgetting(node: Node)
      requires Roster(players, full, active) && node in full && node !in active && Marks(node)
      ensures var ps := players - {node.id};
        && Indexed(ps) && Members(active, ps) && Distinct(active) && (forall n :: n in ps.Values ==> n in full)
        && SeatsOf(ps) == SeatsOf(players) - {node.id}
        && (forall m: Node? :: m != null && m != node && Marks(m) ==> m.id in ps && ps[m.id] == m)
        && (forall m: Node? :: m != null && Marks(m) && m.id in ps ==> ps[m.id] == m)
    {
    }

    lemma LooseStill()
      requires LooseEnds(full, active) && (forall n :: n in players.Values ==> n in full)
      ensures forall n :: n in players.Values && n !in active ==> n.next == null && n.prev == null
    {
    }

    method AddPlayer(id: nat, wallet: nat, folded: bool) returns (outcome: Outcome)
      requires Valid()
      modifies this, full
      ensures Valid() && Reply(Value(), outcome) == Protocol.AddPlayer(old(Value()), id, wallet, folded)
      ensures forall n :: n in full ==> n in old(full) || fresh(n)
    {
      hide Value, Linked, Ids, SeatsOf, Driver.WellFormed, InsertAt;
      ghost var s := Value();
      Fields(id);
      Driver.StepWellFormed(s, Driver.Join(id, wallet, folded));
      if id in players {
        return Accepted;
      }
      SeatCount();
      if |players| >= MAX_PLAYERS {
        return Rejected(TableFull);
      }
      var node := new Node(id, wallet, folded);
      if head == null {
        NobodySeated();
        SeatFirst(node, s);
      } else {
        SeatBeforeHead(node, s);
      }
      outcome := Accepted;
    }

    lemma NobodySeated()
      requires Valid() && head == null
      ensures players == map[] && full == [] && active == []
    {
      hide SeatsOf;
      assert Value().seats.Keys == players.Keys;
      EnumerationSize(Ids(full), players.Keys);
      EnumerationSize(Ids(active), {});
    }

    method SeatFirst(node: Node, ghost s: State)
      requires Structure() && players == map[] && full == [] && active == [] && head == null && s == Value()
      requires node.next == null && node.prev == null
      modifies `head, `blind, `players, `full, node`nextf, node`prevf
      ensures Structure() && full == [node]
      ensures Value() == s.(seats := s.seats[node.id := node.player], full := [node.id],
                            head := Some(node.id), blind := Some(node.id))
    {
      hide Value, Linked, SeatsOf, Ids;
      Fields(0);
      head := node;
      blind := node;
      node.nextf := node;
      node.prevf := node;
      players := map[node.id := node];
      full := [node];
      AloneLinked(node);
      Fields(0);
    }

    lemma AloneLinked(node: Node)
      requires players == map[node.id := node] && full == [node] && active == []
      requires node.nextf == node.prevf == node && node.next == node.prev == null
      ensures Linked() && SeatsOf(players) == SeatsOf(map[])[node.id := node.player] && Ids(full) == [node.id]
    {
    }

    method SeatBeforeHead(node: Node, ghost s: State)
      requires Structure() && head != null && s == Value() && node !in full && node.id !in players
      requires node.next == null && node.prev == null
      modifies `players, `full, full, node
      ensures Structure() && (forall n :: n in full ==> n in old(full) || n == node)
      ensures var k := IndexOf(s.full, old(head).id);
        Value() == s.(seats := s.seats[node.id := old(node.player)], full := InsertAt(s.full, k, node.id))
    {
      hide Value, Roster, FullLinks, ActiveLinks, LooseEnds, SeatsOf, Bridged, Ids, InsertAt, IndexOf, WereLinked;
      ghost var k, was := IndexOf(full, head), FullSnapshot(full);
      HeadInRing();
      LinkIn(node, was);
      Extended(full, k, node, was);
      LinkInKeepsValue();
      Enrol(node, k, s);
    }

    lemma HeadInRing()
      requires Structure() && head != null
      ensures head in full && head.prevf == full[Before(IndexOf(full, head), |full|)] && head.prevf in full
      ensures WereLinked(full, FullSnapshot(full)) && Distinct(full)
    {
      var k := IndexOf(full, head);
      assert full[k].prevf == full[Before(k, |full|)];
    }

    /** The newcomer goes between the tail and the head. */
    method LinkIn(node: Node, ghost was: map<Node, Links>)
      requires head != null && head in full && head.prevf != null && head.prevf in full && node !in full
      requires was == FullSnapshot(full)
      modifies full, node
      ensures unchanged(this) && unchanged(game)
      ensures forall n :: n in full + [node] ==>
        n.player == old(n.player) && n.next == old(n.next) && n.prev == old(n.prev)
      ensures Bridged(full, node, head, was)
    {
      var existingTail := head.prevf;
      existingTail.nextf := node;
      node.prevf := existingTail;
      node.nextf := head;
      head.prevf := node;
    }

    twostate lemma LinkInKeepsValue()
      requires old(Structure()) && unchanged(this) && unchanged(game)
      requires forall n :: n in full ==> n.player == old(n.player) && n.next == old(n.next) && n.prev == old(n.prev)
      ensures Roster(players, full, active) && ActiveLinks(active) && LooseEnds(full, active) && Markers()
      ensures Value() == old(Value())
    {
      SkipKeepsValue();
    }

    /** Enters the newcomer in the player map and in the ring just before the head. */
    method Enrol(node: Node, ghost k: nat, ghost s: State)
      requires Roster(players, full, active) && ActiveLinks(active) && LooseEnds(full, active) && Markers()
      requires head != null && k == IndexOf(full, head) && k < |full| && s == Value()
      requires node !in full && node.id !in players && node.next == null && node.prev == null
      requires FullLinks(InsertAt(full, k, node))
      modifies `players, `full
      ensures Structure() && (forall n :: n in full ==> n in old(full) || n == node)
      ensures var j := IndexOf(s.full, head.id);
        Value() == s.(seats := s.seats[node.id := node.player], full := InsertAt(s.full, j, node.id))
    {
      hide ActiveLinks, FullLinks, LooseEnds, SeatsOf, Roster, Ids, Value, IndexOf, InsertAt;
      Fields(0);
      ghost var ring := InsertAt(full, k, node);
      EnrolledRoster(node, k);
      EnrolledValue(node, k);
      players := players[node.id := node];
      full := ring;
      Fields(0);
    }

    lemma EnrolledRoster(node: Node, k: nat)
      requires Roster(players, full, active) && LooseEnds(full, active) && Markers() && k < |full|
      requires node !in full && node.id !in players && node.next == null && node.prev == null
      ensures var ps, ring := players[node.id := node], InsertAt(full, k, node);
        && Roster(ps, ring, active) && LooseEnds(ring, active) && (forall n :: n in ring ==> n in full || n == node)
        && StillMarks(ps, head) && StillMarks(ps, bettor) && StillMarks(ps, blind) && StillMarks(ps, turn)
    {
      var ps, ring := players[node.id := node], InsertAt(full, k, node);
      InsertDistinct(full, k, node);
      assert Members(ring, ps) by {
        forall i | 0 <= i < |ring| ensures ring[i].id in ps && ps[ring[i].id] == ring[i] {
          assert ring[i] == (if i < k then full[i] else if i == k then node else full[i - 1]);
        }
      }
    }

    lemma EnrolledValue(node: Node, k: nat)
      requires Roster(players, full, active) && head != null && k == IndexOf(full, head) && k < |full|
      requires node.id !in players
      ensures SeatsOf(players[node.id := node]) == SeatsOf(players)[node.id := node.player]
      ensures IndexOf(Ids(full), head.id) == k && Ids(InsertAt(full, k, node)) == InsertAt(Ids(full), k, node.id)
    {
      hide InsertAt, Ids, IndexOf;
      IndexOfNode(full, players, k);
      IdsInsert(full, k, node);
    }

    lemma SeatCount()
      ensures |players| == |Value().seats|
    {
      assert |players| == |players.Keys| && |Value().seats| == |Value().seats.Keys|;
    }

    // ----- rounds and turns -----

    /** The players of the active ring, read from the nodes. */
    lemma ActiveSeats()
      requires Structure()
      ensures var s := Value();
        && Coherent(s) && |s.active| == |active|
        && (forall i :: 0 <= i < |active| ==> s.active[i] == active[i].id && s.seats[s.active[i]] == active[i].player)
    {
    }

    /** The first other player in ring order who can bet, or null when there is none. */
    method NextBettingNode(currentNode: Node) returns (found: Node?)
      requires Structure() && |active| >= 2 && active[0] == currentNode && Coherent(Value())
      ensures var k := NextBetting(Value(), 1);
        found == if k < |active| then active[k] else null
    {
      hide Value, Linked, Markers, SeatsOf;
      ActiveSeats();
      ActiveNodes();
      ghost var s, i := Value(), 1;
      assert active[0].next == active[1];
      var current := currentNode.next;
      while current != null
        invariant 1 <= i < |active| && current == active[i]
        invariant NextBetting(s, i) == NextBetting(s, 1)
        decreases |active| - i
      {
        var node := current;
        if !node.player.folded && node.player.wallet > 0 {
          return node;
        }
        var next := node.next;
        assert next == active[After(i, |active|)];
        if next != null && next == currentNode {
          OnlyOnce(i);
          break;
        }
        current := next;
        i := i + 1;
      }
      found := null;
    }

    /** The walk is back at the start only after the last position. */
    lemma OnlyOnce(i: nat)
      requires Linked() && |active| >= 2 && i < |active| && active[After(i, |active|)].id == active[0].id
      ensures i == |active| - 1
    {
    }

    /** Whether everybody but the player who has just acted is out of chips or has matched the table bet. */
    method AllMatched(currentNode: Node) returns (matched: bool)
      requires Structure() && |active| >= 2 && active[0] == currentNode && Coherent(Value())
      ensures matched == OthersMatched(Value())
    {
      hide Value, Linked, Markers, SeatsOf;
      ActiveSeats();
      ActiveNodes();
      ghost var s, i := Value(), 0;
      Fields(0);
      var current: Node? := currentNode;
      var firstPlayer := true;
      while current != null
        invariant 0 <= i < |active| && current == active[i] && (firstPlayer <==> i == 0)
        invariant forall j :: 1 <= j < i ==> s.seats[s.active[j]].wallet == 0 || s.seats[s.active[j]].bet == s.bet
        decreases |active| - i
      {
        var node := current;
        if !firstPlayer && node.player.wallet > 0 && node.player.bet != bet {
          return false;
        }
        current := node.next;
        firstPlayer := false;
        assert current == active[After(i, |active|)];
        if current != null && current.id == currentNode.id {
          OnlyOnce(i);
          break;
        }
        i := i + 1;
      }
      matched := true;
    }

    /** Opens the round at hand, or holds the showdown. */
    method RoundAction(order: seq<nat>) returns (goesOn: bool)
      requires Structure() && Enumerates(order, players.Keys) && |active| >= 2 && turn == active[0] && Coherent(Value())
      modifies this, full, game
      ensures Structure() && players == old(players) && full == old(full)
      ensures goesOn ==> active == old(active) && turn == old(turn)
      ensures RoundStep(Value(), goesOn) == Protocol.RoundAction(old(Value()), order)
    {
      hide Linked, Value, SeatsOf, Enumerates, Protocol.EndGame, OpenRound, Ids;
      ghost var s := Value();
      Fields(0);
      ActiveNodes();
      var over := game.HandleRoundAction(turn, active, players);
      Fields(0);
      if over {
        EndGame(order);
      }
      goesOn := !over;
    }

    lemma ActiveNodes()
      requires Structure()
      ensures Distinct(active) && Members(active, players) && Indexed(players) && ActiveLinks(active)
      ensures forall n :: n in active ==> n in full
    {
    }

    /** Moves the game on to its next round and opens it. */
    method OpenNextRound(order: seq<nat>) returns (goesOn: bool)
      requires Structure() && Enumerates(order, players.Keys) && |active| >= 2 && turn == active[0] && Coherent(Value())
      modifies this, full, game
      ensures Structure() && players == old(players) && full == old(full)
      ensures goesOn ==> active == old(active) && turn == old(turn)
      ensures var s := old(Value());
        RoundStep(Value(), goesOn) == Protocol.RoundAction(s.(game := NextRound(s.game)), order)
    {
      hide Linked, Value, SeatsOf, Enumerates, Ids, Protocol.RoundAction;
      Fields(0);
      game.AdvanceRound();
      Fields(0);
      goesOn := RoundAction(order);
    }

    method FinishRemainingRounds(order: seq<nat>)
      requires Structure() && Enumerates(order, players.Keys) && |active| >= 2 && turn == active[0] && Coherent(Value())
      modifies this, full, game
      ensures Structure() && players == old(players) && full == old(full)
      ensures Value() == FinishRounds(old(Value()), order, 20)
    {
      hide Linked, Value, SeatsOf, Enumerates, Ids, Protocol.RoundAction, FinishRounds;
      Fields(0);
      for i := 0 to 20
        invariant Structure() && players == old(players) && full == old(full)
        invariant |active| >= 2 && turn == active[0] && Enumerates(order, Value().seats.Keys) && Coherent(Value())
        invariant FinishRounds(Value(), order, 20 - i) == FinishRounds(old(Value()), order, 20)
      {
        FinishUnfold(Value(), order, 20 - i);
        var goesOn := OpenNextRound(order);
        if !goesOn {
          return;
        }
        ActiveSeats();
        Fields(0);
      }
      FinishUnfold(Value(), order, 0);
    }

    method AdvanceTurn(order: seq<nat>)
      requires Valid() && Enumerates(order, players.Keys)
      modifies this, full, game
      ensures Structure() && players == old(players) && full == old(full)
      ensures Value() == Protocol.AdvanceTurn(old(Value()), order)
    {
      hide Linked, Value, SeatsOf, Enumerates, Ids, Protocol.RoundAction, FinishRounds, Driver.WellFormed;
      hide LapComplete, OthersMatched, NextBetting, Protocol.AdvanceTurn, Markers, Rotate;
      ghost var s := Value();
      TurnFirst();
      ActiveSeats();
      AdvanceCases(s, order);
      if turn == null {
        return;
      }
      var currentNode := turn;
      var nextPlayer := NextBettingNode(currentNode);
      if nextPlayer == null {
        FinishRemainingRounds(order);
        return;
      }
      PassTurn(nextPlayer, NextBetting(s, 1), s);
      var isRoundComplete := RoundComplete(nextPlayer);
      var allMatched := AllMatched(currentNode);
      RereadRing(NextBetting(s, 1), s);
      if isRoundComplete && allMatched {
        var _ := OpenNextRound(order);
      }
    }

    /** The three ways a turn can advance. */
    lemma AdvanceCases(s: State, order: seq<nat>)
      requires Enumerates(order, s.seats.Keys) && Coherent(s)
      ensures s.active == [] ==> Protocol.AdvanceTurn(s, order) == s
      ensures s.active != [] ==>
        var k := NextBetting(s, 1);
        if k == |s.active| then Protocol.AdvanceTurn(s, order) == FinishRounds(s, order, 20)
        else
          var t := s.(active := Rotate(s.active, k), turn := Some(s.active[k]));
          Protocol.AdvanceTurn(s, order) ==
          if LapComplete(s, s.active[k]) && OthersMatched(s) then
            Protocol.RoundAction(t.(game := NextRound(t.game)), order).state
          else t
    {
      hide Protocol.RoundAction, FinishRounds, LapComplete, OthersMatched, NextBetting, Rotate;
    }

    /** During a hand the player on turn is the first of the active ring. */
    lemma TurnFirst()
      requires Valid()
      ensures turn == null <==> active == []
      ensures turn != null ==> |active| >= 2 && active[0] == turn
      ensures Value().seats.Keys == players.Keys && Coherent(Value()) && (Value().active == [] <==> active == [])
    {
      hide SeatsOf;
      ActiveSeats();
    }

    /** Hands the turn to the player at position k; the ring is read from there only once the lap has been judged. */
    method PassTurn(next: Node, ghost k: nat, ghost s: State)
      requires Structure() && Value() == s && Coherent(s) && k < |active| && next == active[k]
      modifies `turn
      ensures Structure() && |s.active| == |active| && turn == next
      ensures Value() == s.(turn := Some(s.active[k])) && Coherent(Value())
      ensures OthersMatched(Value()) == OthersMatched(s)
      ensures LapComplete(Value(), s.active[k]) == LapComplete(s, s.active[k])
    {
      hide SeatsOf;
      turn := next;
    }

    /** The turn has come to the bettor, or the bettor is all in. */
    method RoundComplete(next: Node) returns (complete: bool)
      requires Structure() && Coherent(Value())
      ensures complete == LapComplete(Value(), next.id)
    {
      hide Value, SeatsOf, Linked;
      Fields(if bettor == null then 0 else bettor.id);
      complete := next.id == (if bettor == null then 0 else bettor.id) || (bettor != null && bettor.player.wallet == 0);
    }

    /** The active ring, read from the new turn on. */
    ghost method RereadRing(k: nat, s: State)
      requires Structure() && Coherent(s) && k < |active| == |s.active|
      requires turn == active[k] && Value() == s.(turn := Some(s.active[k]))
      modifies `active
      ensures Structure() && |active| == old(|active|) && active[0] == turn
      ensures Value() == s.(active := Rotate(s.active, k), turn := Some(s.active[k])) && Coherent(Value())
    {
      hide SeatsOf, Roster, ActiveLinks, FullLinks, LooseEnds;
      RotatedRing(players, full, active, k);
      active := Rotate(active, k);
    }

    // ----- starting a hand -----

    /** One lap of the full ring deals everybody in and makes the active ring of it. */
    method SeatEverybody(start: Node, ghost ring: seq<Node>, ghost seats: map<nat, Seat>)
      requires |ring| >= 2 && ring[0] == start && Distinct(ring) && FullLinks(ring) && Sitting(ring, seats)
      modifies (set n | n in ring)`player, (set n | n in ring)`next, (set n | n in ring)`prev
      ensures TookPart(ring, seats)
    {
      var current: Node? := start;
      var firstIteration := true;
      ghost var i := 0;
      while current != null
        invariant 0 <= i <= |ring| && (firstIteration <==> i == 0)
        invariant current == if i < |ring| then ring[i] else null
        invariant forall j {:trigger ring[j].player} :: i <= j < |ring| ==> ring[j].player == old(ring[j].player)
        invariant forall j {:trigger ring[j].player} :: 0 <= j < i ==> ring[j].player == Fresh(old(ring[j].player))
        invariant forall j {:trigger ring[j].next} :: 0 <= j < i ==> ring[j].next == ring[j].nextf
        invariant forall j {:trigger ring[j].prev} :: 0 <= j < i ==> ring[j].prev == ring[j].prevf
        decreases |ring| - i
      {
        var node := current;
        node.player := node.player.(folded := false, hand := []);
        node.next := node.nextf;
        node.prev := node.prevf;
        current := node.nextf;
        i := i + 1;
        if current == start && !firstIteration {
          current := null;
        }
        firstIteration := false;
      }
    }

    /** One lap of the full ring in which everybody pays the ante they can. */
    method CollectAntes(start: Node, ghost ring: seq<Node>)
      requires Indexed(players) && Members(ring, players)
      requires |ring| >= 2 && ring[0] == start && Distinct(ring) && FullLinks(ring)
      modifies `pot, players.Values`player
      ensures Value() == CheckEach(old(Value()), Ids(ring))
    {
      hide Value, CheckEach, Protocol.Check;
      ghost var goal := CheckEach(Value(), Ids(ring));
      var current: Node? := start;
      var firstIteration := true;
      ghost var i := 0;
      while current != null
        invariant 0 <= i <= |ring| && (firstIteration <==> i == 0)
        invariant current == if i < |ring| then ring[i] else null
        invariant CheckEach(Value(), Ids(ring)[i..]) == goal
        decreases |ring| - i
      {
        var node := current;
        current := node.nextf;
        CheckFirst(Value(), Ids(ring), i);
        var _ := Check(node.id);
        i := i + 1;
        if current == start && !firstIteration {
          current := null;
        }
        firstIteration := false;
      }
      CheckNobody(Value(), Ids(ring));
    }

    /** Rebuilds the full ring and forgets the last showdown. */
    method PrepareRing(order: seq<nat>)
      requires Valid() && turn == null && |players| >= 2 && Enumerates(order, players.Keys)
      modifies this, full
      ensures Structure() && active == [] && head != null && blind != null && |full| >= 2 && players == old(players)
      ensures forall n :: n in full ==> n in old(full)
      ensures Value() == Rebuild(old(Value()), order).(showdown := None, staying := {})
    {
      hide Value, Structure, Enumerates, SeatsOf, Ids, Driver.WellFormed, Rebuild, ReadyToRebuild;
      TurnFirst();
      BeforeRebuild();
      EnumerationSize(order, players.Keys);
      assert |players| == |players.Keys|;
      RebuiltMarks(Value(), order);
      RebuildFullRing(order);
      FullAmong();
      Fields(0);
      ForgetShowdown();
    }

    method ForgetShowdown()
      requires Structure()
      modifies `showdown, `nextGamePlayers
      ensures Structure() && Value() == old(Value()).(showdown := None, staying := {})
    {
      hide Linked, Markers, SeatsOf;
      showdown := None;
      nextGamePlayers := {};
    }

    lemma RebuiltMarks(s: State, order: seq<nat>)
      requires Enumerates(order, s.seats.Keys) && order != []
      ensures var t := Rebuild(s, order); t.head.Some? && t.blind.Some? && t.full == order && t.seats == s.seats
    {
    }

    lemma BeforeRebuild()
      requires Structure() && active == []
      ensures ReadyToRebuild() && (forall n :: n in players.Values ==> n in full)
    {
    }

    lemma FullAmong()
      requires Structure()
      ensures forall n :: n in full ==> n in players.Values
    {
    }

    /** Deals everybody in; the active ring is the full ring, read from the blind. */
    method DealIn(deck: seq<Card>, ghost t: State)
      requires Structure() && Value() == t && active == [] && head != null && blind != null && |full| >= 2
      modifies this, full, game
      ensures Structure() && players == old(players) && full == old(full) && blind == old(blind)
      ensures |active| >= 2 && active[0] == blind && FullLinks(active)
      ensures Value() == t.(seats := FreshSeats(t.seats), active := Rotate(t.full, IndexOf(t.full, blind.id)),
                            bet := 0, pot := 0, game := Game(t.game.kind, 0, deck, []))
    {
      hide Linked, Value, SeatsOf, Ids, FullLinks, ActiveLinks, LooseEnds, Roster, Rotate, IndexOf;
      Fields(0);
      FromMarker(blind);
      TakePart(IndexOf(full, blind));
      OpenHand(deck, IndexOf(full, blind));
      Fields(0);
    }

    /** Resets bet and pot, shuffles, and reads the active ring from position k. */
    method OpenHand(deck: seq<Card>, ghost k: nat)
      requires Markers() && k < |full|
      requires FullLinks(full)
      requires var r := Rotate(full, k); Roster(players, full, r) && ActiveLinks(r) && LooseEnds(full, r)
      modifies `bet, `pot, `active, game
      ensures Structure() && active == Rotate(full, k) && bet == 0 && pot == 0
      ensures game.Value() == Game(game.kind, 0, deck, []) && SeatsOf(players) == old(SeatsOf(players))
    {
      hide SeatsOf, FullLinks, ActiveLinks, LooseEnds, Roster, Rotate;
      active := Rotate(full, k);
      bet := 0;
      pot := 0;
      game.StartGame(deck);
    }

    /** Everybody is dealt in; the full ring, read from any position, is now the active ring too. */
    method TakePart(ghost k: nat)
      requires Structure() && active == [] && head != null && |full| >= 2 && k < |full|
      modifies full
      ensures unchanged(this) && unchanged(game)
      ensures SeatsOf(players) == FreshSeats(old(SeatsOf(players))) && FullLinks(full)
      ensures var r := Rotate(full, k); Roster(players, full, r) && ActiveLinks(r) && LooseEnds(full, r) && FullLinks(r)
    {
      hide SeatsOf, Ids, FullLinks, ActiveLinks, LooseEnds, Roster, Rotate, IndexOf, Sitting, TookPart;
      FromMarker(head);
      ghost var seats, j := SeatsOf(players), IndexOf(full, head);
      SeatEverybody(head, Rotate(full, j), seats);
      EverybodyIn(seats, j, k);
    }

    /** The full ring, read from a marked player. */
    lemma FromMarker(start: Node)
      requires Structure() && Marks(start)
      ensures var k := IndexOf(full, start);
        && k < |full| && k == IndexOf(Ids(full), start.id)
        && var r := Rotate(full, k);
           && |r| == |full| && r[0] == start && Distinct(r) && FullLinks(r) && Members(r, players)
           && (forall n :: n in r ==> n in full) && Sitting(r, SeatsOf(players)) && Ids(r) == Rotate(Ids(full), k)
    {
      var k := IndexOf(full, start);
      IndexOfNode(full, players, k);
      RotatedFullLinks(full, k);
      RotatedMembers(players, full, k);
      RotateKeeps(full, k);
    }

    lemma EverybodyIn(seats: map<nat, Seat>, j: nat, k: nat)
      requires Roster(players, full, active) && FullLinks(full) && active == [] && j < |full| && k < |full|
      requires seats.Keys == players.Keys && TookPart(Rotate(full, j), seats)
      ensures SeatsOf(players) == FreshSeats(seats)
      ensures var r := Rotate(full, k); Roster(players, full, r) && ActiveLinks(r) && LooseEnds(full, r) && FullLinks(r)
    {
      hide ActiveLinks, FullLinks, LooseEnds, Rotate;
      RotateKeeps(full, j);
      assert forall n :: n in full ==> n in Rotate(full, j);
      AllActive(players, full, k);
      assert forall id :: id in players ==> players[id] in full;
    }

    /** The blind, the antes where the game has them, and whose turn it is. */
    method PostStakes(ghost t: State)
      requires Structure() && Value() == t && blind != null && |active| >= 2 && active[0] == blind && FullLinks(active)
      modifies this, full
      ensures Structure() && players == old(players) && full == old(full)
      ensures |active| >= 2 && turn == active[0] && Coherent(t) && t.blind.Some? && Value() == Posted(t)
      ensures Coherent(Value())
    {
      hide Value, Structure, SeatsOf, Ids, FullLinks, ActiveLinks, Rotate, Protocol.Raise, CheckEach;
      hide Coherent, Posted;
      ActiveSeats();
      Fields(0);
      PostedCases(t);
      PostBlind();
      ghost var v := Value();
      if IsAnte(game.kind) {
        PostAntes(v);
      } else {
        TurnAfterBlind(v);
      }
      ActiveSeats();
    }

    method PostBlind()
      requires Structure() && blind != null
      modifies `bettor, `bet, `pot, full
      ensures Structure() && (FullLinks(old(active)) <==> old(FullLinks(active)))
      ensures Value() == Protocol.Raise(old(Value()), blind.id, BLIND).state
    {
      hide Value, Linked, SeatsOf, Ids, FullLinks, ActiveLinks, Protocol.Raise;
      PlayersAmongNodes();
      var _ := Raise(blind.id, BLIND);
    }

    method PostAntes(ghost v: State)
      requires Structure() && Value() == v && blind != null && |active| >= 2 && active[0] == blind && FullLinks(active)
      modifies `turn, `pot, full
      ensures Structure() && turn == blind && Value() == CheckEach(v, v.active).(turn := Some(blind.id))
    {
      hide Value, Linked, SeatsOf, Ids, FullLinks, ActiveLinks, CheckEach, Members, Indexed, Distinct;
      ActiveNodes();
      PlayersAmongNodes();
      Fields(0);
      turn := blind;
      TurnSet(v);
      CollectAntes(blind, active);
      AntesKeepTurn(v, Some(blind.id), v.active);
    }

    method TurnAfterBlind(ghost v: State)
      requires Structure() && Value() == v && blind != null && |active| >= 2 && active[0] == blind
      modifies `turn, `active
      ensures Structure() && |active| >= 2 && turn == active[0] && |v.active| > 1
      ensures Value() == v.(active := Rotate(v.active, 1), turn := Some(v.active[1]))
    {
      hide Value, Linked, SeatsOf, Ids, Rotate;
      ActiveSeats();
      BlindNext();
      Fields(0);
      turn := blind.next;
      TurnSet(v);
      RereadRing(1, v);
    }

    lemma TurnSet(v: State)
      requires SeatsOf(players) == v.seats && Ids(full) == v.full && Ids(active) == v.active && IdOf(head) == v.head
      requires IdOf(blind) == v.blind && IdOf(bettor) == v.bettor && bet == v.bet && pot == v.pot
      requires game.Value() == v.game
      requires showdown == v.showdown && nextGamePlayers == v.staying
      ensures Value() == v.(turn := IdOf(turn))
    {
      hide SeatsOf, Ids;
    }

    lemma BlindNext()
      requires Structure() && |active| >= 2 && active[0] == blind
      ensures blind.next == active[1] && Marks(active[1])
    {
      assert active[0].next == active[After(0, |active|)];
    }

    method StartGame(order: seq<nat>, deck: seq<Card>)
      requires Valid() && turn == null && |players| >= 2 && Enumerates(order, players.Keys)
      modifies this, full, game
      ensures Valid() && players == old(players) && (forall n :: n in full ==> n in old(full))
      ensures Value() == Protocol.StartGame(old(Value()), order, deck)
    {
      hide Value, Structure, SeatsOf, Ids, FullLinks, Enumerates, Driver.WellFormed, Protocol.StartGame;
      hide DealtIn, Posted, Protocol.RoundAction, Coherent;
      ghost var s := Value();
      StartsSeated();
      StartIs(s, order, deck);
      Driver.StartWellFormed(s, order, deck);
      DealEverybodyIn(order, deck);
      assert forall i :: 0 <= i < |full| ==> full[i] in old(full);
      PostStakes(Value());
      Fields(0);
      var _ := RoundAction(order);
    }

    lemma StartsSeated()
      requires Valid() && turn == null && |players| >= 2
      ensures var s := Value(); Seated(s) && s.active == [] && |s.seats| >= 2 && s.seats.Keys == players.Keys
    {
      hide SeatsOf;
      SeatCount();
    }

    method DealEverybodyIn(order: seq<nat>, deck: seq<Card>)
      requires Valid() && turn == null && |players| >= 2 && Enumerates(order, players.Keys)
      modifies this, full, game
      ensures Structure() && players == old(players) && (forall n :: n in full ==> n in old(full))
      ensures blind != null && |active| >= 2 && active[0] == blind && FullLinks(active)
      ensures Value() == DealtIn(old(Value()), order, deck) && Value().blind == Some(blind.id)
    {
      hide Value, Structure, SeatsOf, Ids, FullLinks, Rotate, Enumerates, DealtIn, Rebuild;
      ghost var s := Value();
      Fields(0);
      PrepareRing(order);
      ghost var r := Value();
      Fields(0);
      DealtInIs(s, r, order, deck, blind.id);
      assert forall i :: 0 <= i < |full| ==> full[i] in old(full);
      DealIn(deck, r);
      Fields(0);
    }

    method KeepPlaying(id: nat) returns (outcome: Outcome)
      requires Structure()
      modifies `nextGamePlayers
      ensures Structure() && Reply(Value(), outcome) == Protocol.KeepPlaying(old(Value()), id)
    {
      hide Linked, Markers, SeatsOf;
      if showdown.None? {
        return Rejected(NoShowdown);
      }
      if id !in players {
        return Rejected(PlayerNotFound);
      }
      nextGamePlayers := nextGamePlayers + {id};
      outcome := Accepted;
    }

    // ----- commands -----

    /** In the draw round the game takes the command: cards to replace, and nothing else. */
    method GameActions(id: nat, action: Action) returns (outcome: Outcome)
      requires Structure()
      modifies full, game
      ensures Structure() && Reply(Value(), outcome) == Protocol.Replace(old(Value()), id, action)
    {
      hide Value, Linked, ReplaceCards;
      ghost var s := Value();
      Fields(id);
      PlayersAmongNodes();
      if id !in players {
        return Rejected(PlayerNotFound);
      }
      if !action.ReplaceAction? {
        return Rejected(ReplaceCardsExpected);
      }
      if action.cards.None? {
        return Rejected(InvalidCard);
      }
      var node := players[id];
      assert node in full;
      outcome := game.Replace(node, action.cards.value);
      SeatReplaced(node, s.seats);
      Fields(id);
    }

    /** One node's seat has changed; the others are as they were. */
    lemma SeatReplaced(node: Node, seats: map<nat, Seat>)
      requires Indexed(players) && node.id in players && players[node.id] == node && seats.Keys == players.Keys
      requires forall id :: id in players && id != node.id ==> players[id].player == seats[id]
      ensures SeatsOf(players) == seats[node.id := node.player]
      ensures node.player == seats[node.id] ==> SeatsOf(players) == seats
    {
    }

    /** What a command of the player on turn does before the turn advances. */
    method Play(id: nat, action: Action, order: seq<nat>) returns (outcome: Outcome)
      requires Structure() && Enumerates(order, players.Keys) && |active| != 1
      modifies this, full, game
      ensures Structure() && players == old(players) && full == old(full)
      ensures Reply(Value(), outcome) == Protocol.Play(old(Value()), id, action, order)
    {
      hide Value, Linked, Markers, SeatsOf, Enumerates, Protocol.Raise, Protocol.AllIn, Protocol.Check;
      hide Protocol.Fold, Protocol.Replace;
      Fields(id);
      PlayersAmongNodes();
      if game.kind == FiveCardDraw && game.round == 1 {
        outcome := GameActions(id, action);
        return;
      }
      match action
      case RaiseAction(amount) =>
        if amount.None? {
          return Rejected(InvalidAmount);
        }
        outcome := Raise(id, amount.value);
      case AllInAction =>
        outcome := AllIn(id);
      case CheckAction =>
        outcome := Check(id);
      case FoldAction =>
        outcome := Fold(id, order);
      case _ =>
        outcome := Rejected(InvalidCommand);
    }

    method RunAction(id: nat, action: Action, order: seq<nat>, order': seq<nat>) returns (outcome: Outcome)
      requires Valid() && Enumerates(order, players.Keys) && Enumerates(order', players.Keys - {id})
      modifies this, full, game
      ensures Valid() && Reply(Value(), outcome) == Driver.RunAction(old(Value()), id, action, order, order')
    {
      hide Value, Structure, SeatsOf, Enumerates, Protocol.Play, Protocol.RemovePlayer, Protocol.KeepPlaying;
      hide Protocol.AdvanceTurn, Driver.WellFormed;
      ghost var s := Value();
      Fields(id);
      RingSize();
      Driver.RunActionWellFormed(s, id, action, order, order');
      if action.Leave? {
        outcome := RemovePlayer(id, order, order');
        return;
      }
      if action.Update? {
        return if id in players then Accepted else Rejected(PlayerNotFound);
      }
      if action.KeepPlayingAction? {
        outcome := KeepPlaying(id);
        return;
      }
      if turn == null || turn.id != id {
        return Rejected(NotYourTurn);
      }
      Driver.PlayWellFormed(s, id, action, order);
      outcome := Play(id, action, order);
      if outcome == Accepted {
        AdvanceTurn(order);
      }
    }

    /** The monitor's step when a turn has run out of time. */
    method ExpireTurn(order: seq<nat>, order': seq<nat>)
      requires Valid() && turn != null && Enumerates(order, players.Keys)
      requires Enumerates(order', players.Keys - {turn.id})
      modifies this, full, game
      ensures old(Value()).turn == Some(old(turn).id)
      ensures Valid() && Value() == Driver.ExpireTurn(old(Value()), order, order')
    {
      hide Value, Structure, SeatsOf, Enumerates, Protocol.RemovePlayer, Protocol.AdvanceTurn, Driver.WellFormed;
      ghost var s := Value();
      Fields(0);
      Driver.StepWellFormed(s, Driver.Expire(order, order'));
      Driver.LeaveWellFormed(s, turn.id, order, order');
      var _ := RemovePlayer(turn.id, order, order');
      Fields(0);
      if turn != null {
        assert forall i :: 0 <= i < |full| ==> full[i] in old(full);
        AdvanceTurn(order');
      }
    }
  }

  function NodesIn(players: map<nat, Node>, order: seq<nat>): (nodes: seq<Node>)
    requires forall i :: 0 <= i < |order| ==> order[i] in players
    ensures |nodes| == |order| && forall i :: 0 <= i < |order| ==> nodes[i] == players[order[i]]
  {
    seq(|order|, i requires 0 <= i < |order| => players[order[i]])
  }

  ghost predicate Cleared(node: Node)
    reads node
  {
    node.next == null && node.prev == null
  }

  // ----- the sweep, one level at a time -----

  ghost function Players(players: map<nat, Node>, order: seq<nat>): (ps: seq<Seat>)
    requires forall i :: 0 <= i < |order| ==> order[i] in players
    reads players.Values
    ensures |ps| == |order| && forall i :: 0 <= i < |order| ==> ps[i] == players[order[i]].player
  {
    seq(|order|, i requires 0 <= i < |order| reads players.Values => players[order[i]].player)
  }

  /** Each player has been credited the listed amount, and nothing else about them has changed. */
  ghost predicate PaidOut(players: map<nat, Node>, order: seq<nat>, before: seq<Seat>, done: seq<nat>)
    reads players.Values`player
  {
    |before| == |order| == |done|
    && forall j :: 0 <= j < |order| ==> order[j] in players && players[order[j]].player == Credit(before[j], done[j])
  }

  /** What has been paid and what the remaining levels will pay add up to the whole sweep. */
  ghost predicate Remaining(es: seq<Entry<HandRanks.HandRank>>, done: seq<nat>, levels: seq<nat>, previous: nat) {
    && StrictlyAscending(levels) && (levels != [] ==> previous < levels[0]) && |done| == |es|
    && forall j :: 0 <= j < |es| ==>
         done[j] + Sweep(es, levels, previous, HandRanks.Compare)[j] == Swept(es, HandRanks.Compare)[j]
  }

  lemma PlayersSeats(players: map<nat, Node>, order: seq<nat>)
    requires forall i :: 0 <= i < |order| ==> order[i] in players
    ensures forall j :: 0 <= j < |order| ==> Players(players, order)[j] == SeatsOf(players)[order[j]]
  {
  }

  lemma PaidList(players: map<nat, Node>, order: seq<nat>, before: seq<Seat>, pay: seq<nat>)
    requires PaidOut(players, order, before, pay)
    ensures forall j :: 0 <= j < |order| ==> Players(players, order)[j] == Credit(before[j], pay[j])
  {
  }

  lemma SettledValue(players: map<nat, Node>, order: seq<nat>, seats: map<nat, Seat>, before: seq<Seat>,
                     paid: seq<Seat>, pay: seq<nat>)
    requires Enumerates(order, players.Keys) && seats.Keys == players.Keys
    requires |before| == |paid| == |pay| == |order|
    requires forall j :: 0 <= j < |order| ==> before[j] == seats[order[j]] && paid[j] == Credit(before[j], pay[j])
    requires forall j :: 0 <= j < |order| ==> players[order[j]].player == Settle(paid[j], 0)
    ensures SeatsOf(players) == SettledSeats(seats, order, pay)
  {
    forall id | id in players ensures players[id].player == Settle(seats[id], pay[IndexOf(order, id)]) {
      assert id in order;
    }
  }

  lemma SweepStarts(es: seq<Entry<HandRanks.HandRank>>, levels: seq<nat>, players: map<nat, Node>, order: seq<nat>)
    requires levels == Levels(es) && |es| == |order| && forall i :: 0 <= i < |order| ==> order[i] in players
    ensures Remaining(es, Zeros(|es|), levels, 0) && Total(Zeros(|es|)) == 0 && levels[0..] == levels
    ensures PaidOut(players, order, Players(players, order), Zeros(|es|))
  {
    hide Levels, Sweep, WinnerAt;
    SumZeros(|es|);
    assert levels != [] ==> levels[0] in levels;
  }

  lemma SweepEnds(es: seq<Entry<HandRanks.HandRank>>, done: seq<nat>, levels: seq<nat>, previous: nat)
    requires levels == [] && Remaining(es, done, levels, previous)
    ensures done == Swept(es, HandRanks.Compare)
  {
    hide Swept;
  }

  lemma RemainingStep(es: seq<Entry<HandRanks.HandRank>>, done: seq<nat>, levels: seq<nat>, previous: nat)
    requires levels != [] && Remaining(es, done, levels, previous)
    ensures previous < levels[0]
    ensures var w := WinnerAt(es, levels[0], HandRanks.Compare);
      var layer := (levels[0] - previous) * Contributors(es, levels[0]);
      Remaining(es, if w.Some? then Credited(done, w.value, layer) else done, levels[1..], levels[0])
  {
    hide WinnerAt, LayerPot, Swept, Contributors;
    LayerPotIsProduct(es, levels[0], levels[0] - previous);
  }

  function Credit(p: Seat, amount: nat): Seat { p.(wallet := p.wallet + amount) }

  lemma EntryIs(s: State, id: nat)
    requires id in s.seats
    ensures var p := s.seats[id];
      var hand := if s.game.kind == TexasHoldem then p.hand + s.game.community else p.hand;
      EntryOf(s, id) == Entry(id, p.bet, p.folded, Evaluation.Evaluate(hand))
  {
    hide Evaluation.Evaluate;
  }

  datatype Links = Links(next: Node?, prev: Node?)

  /** The active links of all nodes at one moment. */
  ghost function Snapshot(nodes: seq<Node>): map<Node, Links>
    reads nodes`next, nodes`prev
  {
    map n | n in nodes :: Links(n.next, n.prev)
  }

  /** Nothing about these nodes has changed except, perhaps, their active links. */
  twostate predicate Untouched(nodes: seq<Node>)
    reads nodes
  {
    && (forall n {:trigger n.player} :: n in nodes ==> n.player == old(n.player))
    && (forall n {:trigger n.nextf} :: n in nodes ==> n.nextf == old(n.nextf))
    && (forall n {:trigger n.prevf} :: n in nodes ==> n.prevf == old(n.prevf))
  }

  /** Since the snapshot the node's active links have gone, and its two neighbours point at each other instead. */
  ghost predicate Spliced(nodes: seq<Node>, node: Node, was: map<Node, Links>)
    reads nodes`next, nodes`prev, node
  {
    && node in was && (forall n :: n in nodes ==> n in was)
    && node.prev == null && node.next == null
    && (forall n {:trigger n.next} :: n in nodes && n != node ==>
          n.next == (if n == was[node].prev then was[node].next else was[n].next))
    && (forall n {:trigger n.prev} :: n in nodes && n != node ==>
          n.prev == (if n == was[node].next then was[node].prev else was[n].prev))
  }

  ghost predicate WereLinked(ring: seq<Node>, was: map<Node, Links>) {
    forall i {:trigger was[ring[i]]} :: 0 <= i < |ring| ==>
      ring[i] in was && was[ring[i]] == Links(ring[After(i, |ring|)], ring[Before(i, |ring|)])
  }

  ghost predicate WereLoose(full: seq<Node>, active: seq<Node>, was: map<Node, Links>) {
    forall n :: n in full && n !in active ==> n in was && was[n] == Links(null, null)
  }

  /** After a splice the ring without the node is again well linked. */
  lemma Unhooked(players: map<nat, Node>, full: seq<Node>, active: seq<Node>, node: Node, was: map<Node, Links>)
    requires Roster(players, full, active) && node in full && |active| != 1 && Spliced(full, node, was)
    requires WereLinked(active, was)
    requires WereLoose(full, active, was)
    ensures var ring := if node in active then RingWithout(active, node) else active;
      Roster(players, full, ring) && ActiveLinks(ring) && LooseEnds(full, ring)
  {
    hide Roster, WereLinked, WereLoose, ActiveLinks, LooseEnds, Distinct;
    ActiveDistinct(players, full, active);
    if node in active {
      RosterWithout(players, full, active, node);
      RingMended(active, IndexOf(active, node), was);
      LooseWithout(full, active, node, was);
    } else {
      UnhookedBeside(full, active, node, was);
    }
  }

  lemma ActiveDistinct(players: map<nat, Node>, full: seq<Node>, active: seq<Node>)
    requires Roster(players, full, active)
    ensures Distinct(active) && forall n :: n in active ==> n in full
  {
  }

  /** A splice beside the ring leaves it as it was. */
  lemma UnhookedBeside(full: seq<Node>, active: seq<Node>, node: Node, was: map<Node, Links>)
    requires node in full && node !in active && Spliced(full, node, was) && Distinct(active)
    requires WereLinked(active, was) && WereLoose(full, active, was) && (forall n :: n in active ==> n in full)
    ensures ActiveLinks(active) && LooseEnds(full, active)
  {
    assert was[node] == Links(null, null);
    forall i | 0 <= i < |active|
      ensures active[i].next == active[After(i, |active|)] && active[i].prev == active[Before(i, |active|)]
    {
      assert active[i] in active && was[active[i]] == Links(active[After(i, |active|)], active[Before(i, |active|)]);
    }
  }

  lemma LooseWithout(full: seq<Node>, active: seq<Node>, node: Node, was: map<Node, Links>)
    requires Distinct(active) && node in active && |active| != 1 && Spliced(full, node, was)
    requires WereLinked(active, was) && WereLoose(full, active, was)
    ensures LooseEnds(full, RingWithout(active, node))
  {
    var k, n := IndexOf(active, node), |active|;
    UnlinkRemoves(active, k);
    assert was[active[k]] == Links(active[After(k, n)], active[Before(k, n)]);
    assert active[After(k, n)] in active && active[Before(k, n)] in active;
  }

  lemma RosterWithout(players: map<nat, Node>, full: seq<Node>, active: seq<Node>, node: Node)
    requires Roster(players, full, active) && node in active
    ensures Roster(players, full, RingWithout(active, node))
  {
    var k := IndexOf(active, node);
    UnlinkRemoves(active, k);
    var ring := Unlink(active, k);
    forall i | 0 <= i < |ring| ensures ring[i].id in players && players[ring[i].id] == ring[i] {
      assert ring[i] in active;
      var j :| 0 <= j < |active| && active[j] == ring[i];
    }
  }

  /** A ring whose links skip exactly one node is the shortened ring. */
  lemma RingMended(ring: seq<Node>, k: nat, was: map<Node, Links>)
    requires Distinct(ring) && |ring| >= 2 && k < |ring| && WereLinked(ring, was)
    requires Spliced(ring, ring[k], was)
    ensures ActiveLinks(Unlink(ring, k))
  {
    var n := |ring|;
    var r := Unlink(ring, k);
    assert was[ring[k]] == Links(ring[After(k, n)], ring[Before(k, n)]);
    forall i | 0 <= i < |r| ensures r[i].next == r[After(i, |r|)] && r[i].prev == r[Before(i, |r|)] {
      UnlinkNeighbours(ring, k, i);
      var j := Origin(n, k, i);
      assert r[i] == ring[j] && was[ring[j]] == Links(ring[After(j, n)], ring[Before(j, n)]);
    }
  }

  /** Where position i of the shortened ring sat before. */
  function Origin(n: nat, k: nat, i: nat): nat
    requires k < n && i < n - 1
  {
    if k == 0 then (if i == 0 then n - 1 else i) else if i < k then i else i + 1
  }

  /** In the shortened ring everybody keeps their neighbours, except that the two beside the gap now meet. */
  lemma UnlinkNeighbours<T>(ring: seq<T>, k: nat, i: nat)
    requires k < |ring| && |ring| >= 2 && i < |ring| - 1
    ensures var r, n := Unlink(ring, k), |ring|; var j := Origin(n, k, i);
      && j < n && j != k && r[i] == ring[j]
      && r[After(i, n - 1)] == (if After(j, n) == k then ring[After(k, n)] else ring[After(j, n)])
      && r[Before(i, n - 1)] == (if Before(j, n) == k then ring[Before(k, n)] else ring[Before(j, n)])
  {
    Betting.UnlinkIndex(ring, k, i);
    Betting.UnlinkIndex(ring, k, After(i, |ring| - 1));
    Betting.UnlinkIndex(ring, k, Before(i, |ring| - 1));
  }

  /** The full links of all nodes at one moment. */
  ghost function FullSnapshot(nodes: seq<Node>): map<Node, Links>
    reads nodes`nextf, nodes`prevf
  {
    map n | n in nodes :: Links(n.nextf, n.prevf)
  }

  /** Since the snapshot the newcomer has come between `head` and what was its predecessor. */
  ghost predicate Bridged(nodes: seq<Node>, node: Node, head: Node, was: map<Node, Links>)
    reads nodes`nextf, nodes`prevf, node
  {
    && head in was && (forall n :: n in nodes ==> n in was)
    && node.prevf == was[head].prev && node.nextf == head
    && (forall n {:trigger n.nextf} :: n in nodes ==> n.nextf == (if n == was[head].prev then node else was[n].next))
    && (forall n {:trigger n.prevf} :: n in nodes ==> n.prevf == (if n == head then node else was[n].prev))
  }

  /** A ring bridged before position k is the ring with the newcomer inserted there. */
  lemma Extended(ring: seq<Node>, k: nat, node: Node, was: map<Node, Links>)
    requires Distinct(ring) && k < |ring| && node !in ring && WereLinked(ring, was) && Bridged(ring, node, ring[k], was)
    ensures FullLinks(InsertAt(ring, k, node))
  {
    hide InsertAt;
    var n := |ring|;
    var r := InsertAt(ring, k, node);
    InsertIndex(ring, k, node, k);
    assert was[ring[k]] == Links(ring[After(k, n)], ring[Before(k, n)]);
    forall i | 0 <= i < |r| ensures r[i].nextf == r[After(i, n + 1)] && r[i].prevf == r[Before(i, n + 1)] {
      InsertIndex(ring, k, node, i);
      InsertIndex(ring, k, node, After(i, n + 1));
      InsertIndex(ring, k, node, Before(i, n + 1));
      if i != k {
        var j := if i < k then i else i - 1;
        assert r[i] == ring[j] && was[ring[j]] == Links(ring[After(j, n)], ring[Before(j, n)]);
      }
    }
  }

  lemma InsertIndex<T>(ring: seq<T>, k: nat, x: T, i: nat)
    requires k <= |ring| && i <= |ring|
    ensures |InsertAt(ring, k, x)| == |ring| + 1
    ensures InsertAt(ring, k, x)[i] == (if i < k then ring[i] else if i == k then x else ring[i - 1])
  {
  }

  lemma UnlinkIds(ring: seq<Node>, k: nat)
    requires k < |ring|
    ensures Ids(Unlink(ring, k)) == Unlink(Ids(ring), k)
  {
  }

  lemma IdsInsert(ring: seq<Node>, k: nat, node: Node)
    requires k <= |ring|
    ensures Ids(InsertAt(ring, k, node)) == InsertAt(Ids(ring), k, node.id)
  {
  }

  /** A ring read from another position is the same ring. */
  lemma RotatedRing(players: map<nat, Node>, full: seq<Node>, active: seq<Node>, k: nat)
    requires Roster(players, full, active) && ActiveLinks(active) && LooseEnds(full, active) && k < |active|
    ensures var r := Rotate(active, k);
      && Roster(players, full, r) && ActiveLinks(r) && LooseEnds(full, r)
      && |r| == |active| && r[0] == active[k] && Ids(r) == Rotate(Ids(active), k)
  {
    hide Rotate, ActiveLinks, Distinct;
    RotatedLinks(active, k);
    RotatedMembers(players, active, k);
    RotateKeeps(active, k);
  }

  lemma RotatedMembers(players: map<nat, Node>, active: seq<Node>, k: nat)
    requires Members(active, players) && k < |active|
    ensures Members(Rotate(active, k), players) && Ids(Rotate(active, k)) == Rotate(Ids(active), k)
    ensures |Rotate(active, k)| == |active| && Rotate(active, k)[0] == active[k]
  {
  }

  lemma RotatedLinks(active: seq<Node>, k: nat)
    requires ActiveLinks(active) && k < |active|
    ensures ActiveLinks(Rotate(active, k))
  {
    var r, n := Rotate(active, k), |active|;
    forall i | 0 <= i < n ensures r[i].next == r[After(i, n)] && r[i].prev == r[Before(i, n)] {
      Betting.RotateIndex(active, k, i);
      Betting.RotateIndex(active, k, After(i, n));
      Betting.RotateIndex(active, k, Before(i, n));
      var j := if i + k < n then i + k else i + k - n;
      assert r[i] == active[j] && active[j].next == active[After(j, n)] && active[j].prev == active[Before(j, n)];
    }
  }

  /** The nodes hold exactly these seats. */
  ghost predicate Sitting(nodes: seq<Node>, seats: map<nat, Seat>)
    reads nodes`player
  {
    forall n :: n in nodes ==> n.id in seats && n.player == seats[n.id]
  }

  /** Everybody has been dealt in, and the active links follow the full ones. */
  ghost predicate TookPart(nodes: seq<Node>, seats: map<nat, Seat>)
    reads nodes
  {
    && (forall n {:trigger n.player} :: n in nodes ==> n.id in seats && n.player == Fresh(seats[n.id]))
    && (forall n {:trigger n.next} :: n in nodes ==> n.next == n.nextf)
    && (forall n {:trigger n.prev} :: n in nodes ==> n.prev == n.prevf)
  }

  function Fresh(p: Seat): Seat { p.(folded := false, hand := []) }

  lemma CheckFirst(s: State, ids: seq<nat>, i: nat)
    requires i < |ids|
    ensures CheckEach(s, ids[i..]) == CheckEach(Protocol.Check(s, ids[i]).state, ids[i + 1..])
  {
    hide Protocol.Check;
    assert ids[i..][1..] == ids[i + 1..];
  }

  lemma CheckNobody(s: State, ids: seq<nat>)
    ensures CheckEach(s, ids[|ids|..]) == s
  {
  }

  lemma RotatedFullLinks(full: seq<Node>, k: nat)
    requires FullLinks(full) && k < |full|
    ensures FullLinks(Rotate(full, k))
  {
    var r, n := Rotate(full, k), |full|;
    forall i | 0 <= i < n ensures r[i].nextf == r[After(i, n)] && r[i].prevf == r[Before(i, n)] {
      Betting.RotateIndex(full, k, i);
      Betting.RotateIndex(full, k, After(i, n));
      Betting.RotateIndex(full, k, Before(i, n));
      var j := if i + k < n then i + k else i + k - n;
      assert r[i] == full[j] && full[j].nextf == full[After(j, n)] && full[j].prevf == full[Before(j, n)];
    }
  }

  /** With everybody's active links the same as the full ones, the whole table is in the hand. */
  lemma AllActive(players: map<nat, Node>, full: seq<Node>, k: nat)
    requires Roster(players, full, []) && FullLinks(full) && k < |full|
    requires forall n :: n in full ==> n.next == n.nextf && n.prev == n.prevf
    ensures var r := Rotate(full, k);
      Roster(players, full, r) && ActiveLinks(r) && LooseEnds(full, r) && FullLinks(r)
  {
    hide Rotate, ActiveLinks, FullLinks, Distinct, Members;
    RotatedFullLinks(full, k);
    RotatedMembers(players, full, k);
    RotateKeeps(full, k);
    LinksAgree(Rotate(full, k));
  }

  lemma LinksAgree(ring: seq<Node>)
    requires FullLinks(ring) && forall n :: n in ring ==> n.next == n.nextf && n.prev == n.prevf
    ensures ActiveLinks(ring)
  {
    forall i | 0 <= i < |ring|
      ensures ring[i].next == ring[After(i, |ring|)] && ring[i].prev == ring[Before(i, |ring|)]
    {
      assert ring[i] in ring && ring[i].nextf == ring[After(i, |ring|)] && ring[i].prevf == ring[Before(i, |ring|)];
    }
  }

  lemma PostedCases(t: State)
    requires t.blind.Some? && Coherent(t)
    ensures var b := t.blind.value; var v := Protocol.Raise(t, b, BLIND).state;
      && v.active == t.active && v.blind == t.blind && v.game == t.game && v.seats.Keys == t.seats.Keys
      && (IsAnte(t.game.kind) ==> Posted(t) == CheckEach(v, t.active).(turn := Some(b)))
      && (!IsAnte(t.game.kind) && |t.active| > 1 ==>
            Posted(t) == v.(active := Rotate(v.active, 1), turn := Some(t.active[1])))
  {
    hide CheckEach, Rotate;
  }

  /** The antes do not depend on whose turn it is. */
  lemma {:induction false} AntesKeepTurn(v: State, turn: Option<nat>, ids: seq<nat>)
    ensures CheckEach(v.(turn := turn), ids) == CheckEach(v, ids).(turn := turn)
    decreases |ids|
  {
    if ids != [] {
      var w := Protocol.Check(v, ids[0]).state;
      assert Protocol.Check(v.(turn := turn), ids[0]).state == w.(turn := turn);
      AntesKeepTurn(w, turn, ids[1..]);
    }
  }

  lemma DealtInIs(s: State, r: State, order: seq<nat>, deck: seq<Card>, blind: nat)
    requires Enumerates(order, s.seats.Keys) && r == Rebuild(s, order).(showdown := None, staying := {})
    requires r.blind == Some(blind)
    ensures blind in order
    ensures DealtIn(s, order, deck) ==
      r.(seats := FreshSeats(r.seats), active := Rotate(r.full, IndexOf(r.full, blind)), bet := 0, pot := 0,
         game := Game(r.game.kind, 0, deck, []))
  {
  }

  /** Round 0 never ends a hand, so the hand starts with the first round's deal. */
  lemma StartIs(s: State, order: seq<nat>, deck: seq<Card>)
    requires Seated(s) && s.active == [] && |s.seats| >= 2 && Enumerates(order, s.seats.Keys)
    ensures var u := Posted(DealtIn(s, order, deck));
      Enumerates(order, u.seats.Keys) && Protocol.StartGame(s, order, deck) == Protocol.RoundAction(u, order).state
  {
    hide DealtIn, Posted, Protocol.EndGame;
    DealtInSeating(s, order, deck);
    PostedSeated(DealtIn(s, order, deck));
  }
}
