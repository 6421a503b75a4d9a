/** Player nodes with their links, and the game object that deals to them. */
module Nodes {
  import opened Sums
  import opened Cards
  import opened Games
  import opened Protocol

  class Node {
    const id: nat
    var player: Seat
    var nextf: Node?
    var prevf: Node?
    var next: Node?
    var prev: Node?

    constructor (id: nat, wallet: nat, folded: bool)
      ensures this.id == id && player == Seat(wallet, 0, folded, [])
      ensures nextf == null && prevf == null && next == null && prev == null
    {
      this.id := id;
      this.player := Seat(wallet, 0, folded, []);
      nextf, prevf, next, prev := null, null, null, null;
    }
  }

  // ----- rings of nodes -----

  /** `nextf` and `prevf` run once round `ring`. */
  ghost predicate FullLinks(ring: seq<Node>)
    reads ring`nextf, ring`prevf
  {
    && (forall i {:trigger ring[i].nextf} :: 0 <= i < |ring| ==> ring[i].nextf == ring[After(i, |ring|)])
    && (forall i {:trigger ring[i].prevf} :: 0 <= i < |ring| ==> ring[i].prevf == ring[Before(i, |ring|)])
  }

  /** `next` and `prev` run once round `ring`. */
  ghost predicate ActiveLinks(ring: seq<Node>)
    reads ring`next, ring`prev
  {
    && (forall i {:trigger ring[i].next} :: 0 <= i < |ring| ==> ring[i].next == ring[After(i, |ring|)])
    && (forall i {:trigger ring[i].prev} :: 0 <= i < |ring| ==> ring[i].prev == ring[Before(i, |ring|)])
  }

  function Ids(ring: seq<Node>): (ids: seq<nat>)
    ensures |ids| == |ring| && forall i :: 0 <= i < |ring| ==> ids[i] == ring[i].id
  {
    seq(|ring|, i requires 0 <= i < |ring| => ring[i].id)
  }

  /** The players of the table, each under its own id. */
  ghost predicate Indexed(players: map<nat, Node>) {
    forall id :: id in players ==> players[id].id == id
  }

  ghost predicate Members(ring: seq<Node>, players: map<nat, Node>) {
    forall i :: 0 <= i < |ring| ==> ring[i].id in players && players[ring[i].id] == ring[i]
  }

  function PrevOf(ring: seq<Node>, node: Node): Node
    requires node in ring
  {
    ring[Before(IndexOf(ring, node), |ring|)]
  }

  function NextOf(ring: seq<Node>, node: Node): Node
    requires node in ring
  {
    ring[After(IndexOf(ring, node), |ring|)]
  }

  function RingWithout(ring: seq<Node>, node: Node): seq<Node>
    requires node in ring
  {
    Unlink(ring, IndexOf(ring, node))
  }

  /** Both rings consist of players of the table, the full ring of all of them. */
  ghost predicate Roster(players: map<nat, Node>, full: seq<Node>, active: seq<Node>) {
    && Indexed(players)
    && Members(full, players) && Distinct(full) && (forall id :: id in players ==> players[id] in full)
    && Members(active, players) && Distinct(active)
    && (forall n :: n in active ==> n in full)
  }

  /** Whoever is out of the hand has no active links. */
  ghost predicate LooseEnds(full: seq<Node>, active: seq<Node>)
    reads full`next, full`prev
  {
    && (forall n :: n in full && n !in active ==> n.next == null)
    && (forall n :: n in full && n !in active ==> n.prev == null)
  }

  ghost function SeatsOf(players: map<nat, Node>): (seats: map<nat, Seat>)
    reads players.Values`player
    ensures seats.Keys == players.Keys
  {
    map id | id in players :: players[id].player
  }

  lemma IdsDistinct(ring: seq<Node>, players: map<nat, Node>)
    requires Members(ring, players) && Distinct(ring)
    ensures Distinct(Ids(ring))
  {
  }

  lemma IndexOfNode(ring: seq<Node>, players: map<nat, Node>, k: nat)
    requires Members(ring, players) && Distinct(ring) && k < |ring|
    ensures IndexOf(Ids(ring), ring[k].id) == k
  {
    IdsDistinct(ring, players);
    IndexOfAt(Ids(ring), k);
  }

  lemma NotInRing(ring: seq<Node>, players: map<nat, Node>, node: Node)
    requires Members(ring, players) && node.id in players && players[node.id] == node
    ensures node in ring <==> node.id in Ids(ring)
    ensures node !in ring ==> IndexOf(Ids(ring), node.id) == |ring|
  {
    if node in ring {
      var i :| 0 <= i < |ring| && ring[i] == node;
      assert Ids(ring)[i] == node.id;
    }
  }

  lemma DealStep(g: Game, seats: map<nat, Seat>, ids: seq<nat>, i: nat)
    requires i < |ids| && forall k :: 0 <= k < |ids| ==> ids[k] in seats
    ensures var d := DealTo(g, seats[ids[i]]);
      DealAround(g, seats, ids[i..]) == DealAround(d.game, seats[ids[i] := d.seat], ids[i + 1..])
  {
    assert ids[i..][1..] == ids[i + 1..];
  }

  // ----- the game object -----

  class CardGame {
    const kind: Kind
    var round: nat
    var deck: seq<Card>
    var community: seq<Card>

    constructor (kind: Kind)
      ensures this.kind == kind && Value() == Game(kind, 0, [], [])
    {
      this.kind := kind;
      round, deck, community := 0, [], [];
    }

    ghost function Value(): Game
      reads this
    {
      Game(kind, round, deck, community)
    }

    /** Cuts up to n cards off the tail of the deck. */
    method Deal(n: nat) returns (dealt: seq<Card>)
      modifies this`deck
      ensures dealt == DealtCards(old(deck), n) && deck == DeckAfter(old(deck), n)
      ensures deck + dealt == old(deck) && |dealt| == if n <= |old(deck)| then n else |old(deck)|
    {
      var keep := |deck| - (if n <= |deck| then n else |deck|);
      dealt := deck[keep..];
      deck := deck[..keep];
    }

    method DealFaceUp(n: nat) returns (dealt: seq<Card>)
      modifies this`deck
      ensures dealt == AllFaceUp(DealtCards(old(deck), n)) && deck == DeckAfter(old(deck), n)
    {
      var cards := Deal(n);
      dealt := AllFaceUp(cards);
    }

    method StartGame(shuffled: seq<Card>)
      modifies this
      ensures Value() == Game(kind, 0, shuffled, [])
    {
      round := 0;
      deck := shuffled;
      community := [];
    }

    method AdvanceRound()
      modifies this`round
      ensures Value() == NextRound(old(Value()))
    {
      round := round + 1;
    }

    method DealToPlayer(node: Node)
      modifies this`deck, node`player
      ensures var d := DealTo(old(Value()), old(node.player)); Value() == d.game && node.player == d.seat
    {
      if node.player.folded {
        return;
      }
      var (down, up) := DealCounts(kind, round);
      var cards := Deal(down);
      node.player := node.player.(hand := node.player.hand + cards);
      cards := DealFaceUp(up);
      node.player := node.player.(hand := node.player.hand + cards);
    }

    /** The walk round the active ring that deals to every player once. */
    method DealRing(head: Node, ghost ring: seq<Node>, ghost players: map<nat, Node>)
      requires |ring| >= 2 && ring[0] == head && Distinct(ring) && Members(ring, players) && Indexed(players)
      requires ActiveLinks(ring)
      modifies this`deck, (set n | n in ring)`player
      ensures var t := DealAround(old(Value()), old(SeatsOf(players)), Ids(ring));
        Value() == t.game && SeatsOf(players) == t.seats
    {
      ghost var goal := DealAround(Value(), SeatsOf(players), Ids(ring));
      var current: Node? := head;
      var firstIteration := true;
      ghost var i := 0;
      while current != null
        invariant 0 <= i <= |ring|
        invariant i < |ring| ==> current == ring[i]
        invariant i == |ring| ==> current == null
        invariant firstIteration <==> i == 0
        invariant forall k :: i <= k < |ring| ==> ring[k].id in players
        invariant DealAround(Value(), SeatsOf(players), Ids(ring)[i..]) == goal
        decreases |ring| - i
      {
        hide DealAround, DealTo;
        var node := current;
        ghost var game, seats := Value(), SeatsOf(players);
        DealStep(game, seats, Ids(ring), i);
        DealToPlayer(node);
        assert SeatsOf(players) == seats[node.id := node.player];
        current := node.next;
        i := i + 1;
        if current == head && !firstIteration {
          current := null;
        }
        firstIteration := false;
      }
    }

    /** Opens a round and says whether the showdown is due. */
    method HandleRoundAction(head: Node, ghost ring: seq<Node>, ghost players: map<nat, Node>) returns (over: bool)
      requires |ring| >= 2 && ring[0] == head && Distinct(ring) && Members(ring, players) && Indexed(players)
      requires ActiveLinks(ring)
      modifies this`deck, this`community, (set n | n in ring)`player
      ensures var r := OpenRound(old(Value()), old(SeatsOf(players)), Ids(ring));
        Value() == r.game && SeatsOf(players) == r.seats && over == r.over
    {
      match kind {
        case FiveCardDraw =>
          if round == 0 {
            DealRing(head, ring, players);
          } else if 2 < round {
            return true;
          }
        case SevenCardStud =>
          if 4 < round {
            return true;
          }
          DealRing(head, ring, players);
        case TexasHoldem =>
          if round == 0 {
            DealRing(head, ring, players);
          } else if round == 1 {
            var cards := DealFaceUp(3);
            community := community + cards;
          } else if round <= 3 {
            var cards := DealFaceUp(1);
            community := community + cards;
          } else {
            return true;
          }
      }
      over := false;
    }

    /** Replaces cards of a hand: all or nothing. */
    method Replace(node: Node, discard: seq<Card>) returns (outcome: Outcome)
      modifies this`deck, node`player
      ensures match ReplaceCards(old(Value()), old(node.player), discard)
        case Refused(reason) =>
          outcome == Rejected(reason) && Value() == old(Value()) && node.player == old(node.player)
        case Replaced(game, seat) => outcome == Accepted && Value() == game && node.player == seat
      ensures outcome == Accepted <==>
        && |discard| <= 4 && multiset(discard) <= multiset(old(node.player.hand))
        && (|discard| == 4 ==> AceStaysFirst(old(node.player.hand), discard))
    {
      ReplaceAcceptedIff(Value(), node.player, discard);
      if 4 < |discard| {
        return Rejected(TooManyDiscards);
      }
      var temp := node.player.hand;
      for i := 0 to |discard|
        invariant RemoveEach(temp, discard[i..]) == RemoveEach(node.player.hand, discard)
      {
        if discard[i] !in temp {
          return Rejected(CardNotInHand);
        }
        var k := IndexOf(temp, discard[i]);
        temp := temp[..k] + temp[k + 1..];
      }
      if |discard| == 4 {
        if temp == [] {
          return Rejected(EmptyHandPanic);
        }
        if Cards.Value(temp[0]) != 1 {
          return Rejected(LastCardMustBeAce);
        }
      }
      var newCards := Deal(|discard|);
      node.player := node.player.(hand := temp + newCards);
      outcome := Accepted;
    }
  }
}
