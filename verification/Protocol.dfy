/**
 The betting table as a state machine over values: one function per table operation
 (Server/src/lib.rs) and the driver that turns a client command into a step (Server/src/web.rs).
 The iteration order of the player map and the shuffled deck are parameters.
 */
module Protocol {
  import opened Options
  import opened Sums
  import opened Cards
  import opened Games
  import opened SidePots
  import HandRanks
  import Evaluation

  const MAX_PLAYERS := 5
  const BLIND := 50

  /**
   `full` is the ring of everybody seated. `active` is the ring of those still in the hand,
   read from the player whose turn it is; it is empty between hands.
   */
  datatype State = State(
    seats: map<nat, Seat>,
    full: seq<nat>,
    active: seq<nat>,
    turn: Option<nat>,
    head: Option<nat>,
    blind: Option<nat>,
    bettor: Option<nat>,
    bet: nat,
    pot: nat,
    game: Game,
    showdown: Option<nat>,
    staying: set<nat>)

  datatype Outcome = Accepted | Rejected(reason: Refusal)

  datatype Reply = Reply(state: State, outcome: Outcome)

  function Accept(s: State): Reply { Reply(s, Accepted) }
  function Reject(s: State, reason: Refusal): Reply { Reply(s, Rejected(reason)) }

  // ----- rings -----

  function After(k: nat, n: nat): nat { if k + 1 < n then k + 1 else 0 }
  function Before(k: nat, n: nat): nat
    requires n > 0
  {
    if k == 0 then n - 1 else k - 1
  }

  /** The ring read from position k on. */
  function Rotate<T>(ring: seq<T>, k: nat): seq<T>
    requires k <= |ring|
  {
    ring[k..] + ring[..k]
  }

  function NextIn(ring: seq<nat>, id: nat): Option<nat> {
    var k := IndexOf(ring, id);
    if k < |ring| then Some(ring[After(k, |ring|)]) else None
  }

  /** The active ring without position k. The turn of a leaver passes back to the predecessor. */
  function Unlink<T>(ring: seq<T>, k: nat): seq<T>
    requires k < |ring|
  {
    if k == 0 && |ring| > 1 then [ring[|ring| - 1]] + ring[1..|ring| - 1] else ring[..k] + ring[k + 1..]
  }

  /** The ring with a newcomer just before position k. */
  function InsertAt<T>(ring: seq<T>, k: nat, x: T): seq<T>
    requires k <= |ring|
  {
    ring[..k] + [x] + ring[k..]
  }

  function Moved(marker: Option<nat>, id: nat, to: Option<nat>): Option<nat> {
    if marker == Some(id) then to else marker
  }

  // ----- betting -----

  function Raise(s: State, id: nat, amount: nat): (r: Reply)
    ensures r.state.seats.Keys == s.seats.Keys
  {
    if amount == 0 then Reject(s, ZeroRaise)
    else if id !in s.seats then Reject(s, PlayerNotFound)
    else
      var p := s.seats[id];
      if p.wallet < amount then Reject(s.(bettor := Some(id)), InsufficientFunds)
      else Accept(s.(seats := s.seats[id := p.(wallet := p.wallet - amount, bet := p.bet + amount)],
                     bettor := Some(id), pot := s.pot + amount, bet := p.bet + amount))
  }

  function AllIn(s: State, id: nat): (r: Reply)
    ensures r.state.seats.Keys == s.seats.Keys
  {
    if id !in s.seats then Reject(s, PlayerNotFound)
    else
      var p := s.seats[id];
      if p.wallet == 0 then Reject(s, AlreadyAllIn)
      else
        var staked := p.bet + p.wallet;
        Accept(s.(seats := s.seats[id := p.(wallet := 0, bet := staked)], pot := s.pot + p.wallet,
                  bet := if staked > s.bet then staked else s.bet,
                  bettor := if staked > s.bet then Some(id) else s.bettor))
  }

  /** A bet above the table bet makes the program subtract below zero; see WrappedCheckIsUnpayable. */
  function Check(s: State, id: nat): (r: Reply)
    ensures r.state.seats.Keys == s.seats.Keys
  {
    if id !in s.seats then Reject(s, PlayerNotFound)
    else
      var p := s.seats[id];
      if p.bet == s.bet then Accept(s)
      else if p.bet > s.bet then Reject(s, Underflow)
      else if p.wallet < s.bet - p.bet then Reject(s, InsufficientFunds)
      else Accept(s.(seats := s.seats[id := p.(wallet := p.wallet - (s.bet - p.bet), bet := s.bet)],
                     pot := s.pot + (s.bet - p.bet)))
  }

  // ----- showdown -----

  function EntryOf(s: State, id: nat): Entry<HandRanks.HandRank>
    requires id in s.seats
  {
    var p := s.seats[id];
    Entry(id, p.bet, p.folded, Evaluation.Evaluate(ShowdownHand(s.game, p.hand)))
  }

  function Entries(s: State, order: seq<nat>): (es: seq<Entry<HandRanks.HandRank>>)
    requires forall i :: 0 <= i < |order| ==> order[i] in s.seats
    ensures |es| == |order| && forall i :: 0 <= i < |order| ==> es[i] == EntryOf(s, order[i])
  {
    seq(|order|, i requires 0 <= i < |order| => EntryOf(s, order[i]))
  }

  function Settle(p: Seat, credit: nat): Seat {
    Seat(p.wallet + credit, 0, true, [])
  }

  function SettledSeats(seats: map<nat, Seat>, order: seq<nat>, credit: seq<nat>): (m: map<nat, Seat>)
    requires Enumerates(order, seats.Keys) && |credit| == |order|
    ensures m.Keys == seats.Keys
  {
    map id | id in seats :: Settle(seats[id], credit[IndexOf(order, id)])
  }

  function EndGame(s: State, order: seq<nat>): (s': State)
    requires Enumerates(order, s.seats.Keys)
    ensures s'.seats.Keys == s.seats.Keys
  {
    var es := Entries(s, order);
    match WinnerAt(es, 0, HandRanks.Compare)
    case None => s
    case Some(w) =>
      s.(seats := SettledSeats(s.seats, order, Payouts(es, s.pot, HandRanks.Compare)),
         active := [], turn := None, head := Some(order[w]),
         blind := if s.blind.Some? then NextIn(s.full, s.blind.value) else None,
         bettor := None, pot := 0, showdown := Some(order[w]), staying := {})
  }

  /** The state once the player at position k of the active ring has been taken out of the hand. */
  function Withdraw(s: State, k: nat): (t: State)
    requires k < |s.active| && s.active[k] in s.seats
    ensures t.seats.Keys == s.seats.Keys
  {
    var id, n := s.active[k], |s.active|;
    var prev, next := s.active[Before(k, n)], s.active[After(k, n)];
    s.(seats := s.seats[id := s.seats[id].(folded := true)], active := Unlink(s.active, k),
       head := Moved(s.head, id, Some(next)), bettor := Moved(s.bettor, id, Some(prev)),
       blind := Moved(s.blind, id, Some(prev)), turn := Moved(s.turn, id, Some(prev)))
  }

  /** Folding by somebody who is not in the active ring; only a leaver does this. */
  function StepAside(s: State, id: nat): (t: State)
    requires id in s.seats
    ensures t.seats.Keys == s.seats.Keys
  {
    s.(seats := s.seats[id := s.seats[id].(folded := true)],
       head := Moved(s.head, id, None), bettor := Moved(s.bettor, id, None),
       blind := Moved(s.blind, id, None), turn := Moved(s.turn, id, None))
  }

  /** The hand is over when the two neighbours of the folding player are one and the same. */
  function Fold(s: State, id: nat, order: seq<nat>): (r: Reply)
    requires Enumerates(order, s.seats.Keys)
    ensures r.state.seats.Keys == s.seats.Keys
  {
    if id !in s.seats then Reject(s, PlayerNotFound)
    else
      var k, n := IndexOf(s.active, id), |s.active|;
      if k == n then Accept(StepAside(s, id))
      else if s.active[Before(k, n)] == s.active[After(k, n)] then Accept(EndGame(Withdraw(s, k), order))
      else Accept(Withdraw(s, k))
  }

  // ----- seating -----

  /** Rebuilds the full ring along an iteration order of the player map. */
  function Rebuild(s: State, order: seq<nat>): State
    requires Enumerates(order, s.seats.Keys)
  {
    if order == [] then
      s.(full := [], head := None, bettor := None, blind := None, turn := None, showdown := None, staying := {},
         bet := 0, pot := 0)
    else
      var head := if s.head.Some? && s.head.value in s.seats then s.head else Some(order[0]);
      s.(full := order, head := head, blind := if s.blind.Some? && s.blind.value in s.seats then s.blind else head)
  }

  /** The state without the leaver, before the full ring is rebuilt. */
  function LeftTable(t: State, id: nat): State {
    t.(seats := t.seats - {id},
       head := Moved(t.head, id, if NextIn(t.full, id) == Some(id) then None else NextIn(t.full, id)))
  }

  function RemovePlayer(s: State, id: nat, order: seq<nat>, order': seq<nat>): Reply
    requires Enumerates(order, s.seats.Keys) && Enumerates(order', s.seats.Keys - {id})
  {
    if id !in s.seats then Reject(s, PlayerNotFound)
    else
      var t := Fold(s, id, order).state;
      Accept(Rebuild(LeftTable(t, id), order'))
  }

  /** A newcomer is seated just before the head and takes no part in a running hand. */
  function AddPlayer(s: State, id: nat, wallet: nat, folded: bool): Reply {
    if id in s.seats then Accept(s)
    else if |s.seats| >= MAX_PLAYERS then Reject(s, TableFull)
    else
      var t := s.(seats := s.seats[id := Seat(wallet, 0, folded, [])]);
      match s.head
      case None => Accept(t.(full := [id], head := Some(id), blind := Some(id)))
      case Some(h) =>
        Accept(t.(full := InsertAt(s.full, IndexOf(s.full, h), id)))
  }

  function KeepPlaying(s: State, id: nat): Reply {
    if s.showdown.None? then Reject(s, NoShowdown)
    else if id !in s.seats then Reject(s, PlayerNotFound)
    else Accept(s.(staying := s.staying + {id}))
  }

  // ----- rounds and turns -----

  datatype RoundStep = RoundStep(state: State, goesOn: bool)

  function RoundAction(s: State, order: seq<nat>): (r: RoundStep)
    requires Enumerates(order, s.seats.Keys)
    requires forall i :: 0 <= i < |s.active| ==> s.active[i] in s.seats
    ensures r.state.seats.Keys == s.seats.Keys
    ensures r.goesOn ==> r.state == s.(game := r.state.game, seats := r.state.seats)
  {
    var r := OpenRound(s.game, s.seats, s.active);
    var t := s.(game := r.game, seats := r.seats);
    if r.over then RoundStep(EndGame(t, order), false) else RoundStep(t, true)
  }

  function NextRound(g: Game): Game { g.(round := g.round + 1) }

  function FinishRounds(s: State, order: seq<nat>, steps: nat): (t: State)
    requires Enumerates(order, s.seats.Keys)
    requires forall i :: 0 <= i < |s.active| ==> s.active[i] in s.seats
    ensures t.seats.Keys == s.seats.Keys
    decreases steps
  {
    if steps == 0 then s else
      var r := RoundAction(s.(game := NextRound(s.game)), order);
      if r.goesOn then FinishRounds(r.state, order, steps - 1) else r.state
  }

  predicate CanBet(p: Seat) { !p.folded && p.wallet > 0 }

  /** The first position from k on whose player can bet, or the length of the ring. */
  function NextBetting(s: State, k: nat): (j: nat)
    requires k <= |s.active|
    requires forall i :: 0 <= i < |s.active| ==> s.active[i] in s.seats
    ensures k <= j <= |s.active|
    ensures j < |s.active| ==> CanBet(s.seats[s.active[j]])
    ensures forall i :: k <= i < j ==> !CanBet(s.seats[s.active[i]])
    decreases |s.active| - k
  {
    if k == |s.active| || CanBet(s.seats[s.active[k]]) then k else NextBetting(s, k + 1)
  }

  /** The turn has come to the bettor, or the bettor is out of chips. */
  predicate LapComplete(s: State, next: nat)
    requires s.bettor.Some? ==> s.bettor.value in s.seats
  {
    next == (if s.bettor.Some? then s.bettor.value else 0)
    || (s.bettor.Some? && s.seats[s.bettor.value].wallet == 0)
  }

  /** Everybody but the player at position 0 has no chips or has matched the table bet. */
  predicate OthersMatched(s: State)
    requires forall i :: 0 <= i < |s.active| ==> s.active[i] in s.seats
  {
    forall i :: 1 <= i < |s.active| ==> s.seats[s.active[i]].wallet == 0 || s.seats[s.active[i]].bet == s.bet
  }

  predicate Coherent(s: State) {
    && (forall i :: 0 <= i < |s.active| ==> s.active[i] in s.seats)
    && (s.bettor.Some? ==> s.bettor.value in s.seats)
  }

  /** The advance closes the round: the lap is complete and everybody else is matched. */
  predicate Closes(s: State)
    requires Coherent(s)
  {
    s.active != [] &&
    var k := NextBetting(s, 1);
    k < |s.active| && LapComplete(s, s.active[k]) && OthersMatched(s)
  }

  function AdvanceTurn(s: State, order: seq<nat>): State
    requires Enumerates(order, s.seats.Keys) && Coherent(s)
  {
    if s.active == [] then s else
      var k := NextBetting(s, 1);
      if k == |s.active| then FinishRounds(s, order, 20)
      else
        var t := s.(active := Rotate(s.active, k), turn := Some(s.active[k]));
        if LapComplete(s, s.active[k]) && OthersMatched(s) then
          RoundAction(t.(game := NextRound(s.game)), order).state
        else t
  }

  // ----- starting a hand -----

  function FreshSeats(seats: map<nat, Seat>): (m: map<nat, Seat>)
    ensures m.Keys == seats.Keys
  {
    map id | id in seats :: seats[id].(folded := false, hand := [])
  }

  function CheckEach(s: State, ids: seq<nat>): (s': State)
    ensures s'.seats.Keys == s.seats.Keys && s'.active == s.active
    decreases |ids|
  {
    if ids == [] then s else CheckEach(Check(s, ids[0]).state, ids[1..])
  }

  /** The state in which the blind is posted: everybody dealt in, the ring read from the blind on. */
  function DealtIn(s: State, order: seq<nat>, deck: seq<Card>): (t: State)
    requires Enumerates(order, s.seats.Keys)
    ensures t.seats.Keys == s.seats.Keys
    ensures forall i :: 0 <= i < |t.active| ==> t.active[i] in t.seats
  {
    var t := Rebuild(s, order).(showdown := None, staying := {});
    if t.blind.None? then t.(active := []) else
      t.(seats := FreshSeats(t.seats), active := Rotate(order, IndexOf(order, t.blind.value)), bet := 0, pot := 0,
         game := Game(t.game.kind, 0, deck, []))
  }

  /** Posting the blind and, in the ante games, everybody's ante; then whose turn it is. */
  function Posted(s: State): (t: State)
    requires s.blind.Some?
    requires forall i :: 0 <= i < |s.active| ==> s.active[i] in s.seats
    ensures t.seats.Keys == s.seats.Keys
    ensures forall i :: 0 <= i < |t.active| ==> t.active[i] in t.seats
  {
    var b := s.blind.value;
    var v := Raise(s, b, BLIND).state;
    if IsAnte(s.game.kind) then CheckEach(v, s.active).(turn := Some(b))
    else if |s.active| > 1 then v.(active := Rotate(s.active, 1), turn := Some(s.active[1]))
    else v.(turn := Some(b))
  }

  function StartGame(s: State, order: seq<nat>, deck: seq<Card>): (t: State)
    requires Enumerates(order, s.seats.Keys)
  {
    var t := DealtIn(s, order, deck);
    if t.blind.None? then t else
      var u := Posted(t);
      var r := OpenRound(u.game, u.seats, u.active);
      u.(game := r.game, seats := r.seats)
  }

  // ----- the driver -----

  datatype Action =
    | Leave
    | Update
    | KeepPlayingAction
    | ReplaceAction(cards: Option<seq<Card>>)
    | RaiseAction(amount: Option<nat>)
    | AllInAction
    | CheckAction
    | FoldAction
    | UnknownAction

  /** Only the draw round of Five Card Draw takes cards instead of bets. */
  predicate DrawRound(g: Game) { g.kind == FiveCardDraw && g.round == 1 }

  function Replace(s: State, id: nat, action: Action): (r: Reply)
    ensures r.state.seats.Keys == s.seats.Keys
  {
    if id !in s.seats then Reject(s, PlayerNotFound)
    else if !action.ReplaceAction? then Reject(s, ReplaceCardsExpected)
    else if action.cards.None? then Reject(s, InvalidCard)
    else
      match ReplaceCards(s.game, s.seats[id], action.cards.value)
      case Refused(reason) => Reject(s, reason)
      case Replaced(game, seat) => Accept(s.(game := game, seats := s.seats[id := seat]))
  }

  /** What a turn command does before the turn advances. */
  function Play(s: State, id: nat, action: Action, order: seq<nat>): (r: Reply)
    requires Enumerates(order, s.seats.Keys)
    ensures r.state.seats.Keys == s.seats.Keys
  {
    if DrawRound(s.game) then Replace(s, id, action) else
      match action
      case RaiseAction(amount) => if amount.Some? then Raise(s, id, amount.value) else Reject(s, InvalidAmount)
      case AllInAction => AllIn(s, id)
      case CheckAction => Check(s, id)
      case FoldAction => Fold(s, id, order)
      case _ => Reject(s, InvalidCommand)
  }

  // ----- the shape of a reachable table -----

  /** Everybody seated is in the full ring, and head and blind are seated. */
  ghost predicate Seating(s: State) {
    && Enumerates(s.full, s.seats.Keys)
    && |s.seats| <= MAX_PLAYERS
    && (s.head.Some? <==> s.seats.Keys != {}) && (s.head.Some? ==> s.head.value in s.seats)
    && (s.blind.Some? <==> s.seats.Keys != {}) && (s.blind.Some? ==> s.blind.value in s.seats)
  }

  ghost predicate InHand(s: State) {
    && Distinct(s.active)
    && forall i :: 0 <= i < |s.active| ==> s.active[i] in s.seats && !s.seats[s.active[i]].folded
  }

  /** Between hands nobody is active; during a hand at least two are, the turn and the bettor among them. */
  ghost predicate Turning(s: State) {
    if s.active == [] then s.turn == None && s.bettor == None
    else
      && |s.active| >= 2 && s.turn == Some(s.active[0])
      && s.bettor.Some? && s.bettor.value in s.active && s.showdown == None
  }

  ghost predicate Seated(s: State) {
    Seating(s) && InHand(s) && Turning(s)
  }
}
