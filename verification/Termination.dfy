/** Every hand ends: each accepted action of a player in the hand lowers a lexicographic measure. */
module Termination {
  import opened Options
  import opened Sums
  import opened Games
  import opened Protocol
  import opened Rings
  import opened Driver
  import opened Betting

  /** The chips in the wallets of the listed players. */
  function Holdings(ids: seq<nat>, seats: map<nat, Seat>): nat {
    if ids == [] then 0 else (if ids[0] in seats then seats[ids[0]].wallet else 0) + Holdings(ids[1..], seats)
  }

  lemma {:induction false} HoldingsConcat(a: seq<nat>, b: seq<nat>, seats: map<nat, Seat>)
    ensures Holdings(a + b, seats) == Holdings(a, seats) + Holdings(b, seats)
  {
    if a == [] {
      assert a + b == b;
    } else {
      assert (a + b)[1..] == a[1..] + b;
      HoldingsConcat(a[1..], b, seats);
    }
  }

  lemma HoldingsRotate(ring: seq<nat>, k: nat, seats: map<nat, Seat>)
    requires k <= |ring|
    ensures Holdings(Rotate(ring, k), seats) == Holdings(ring, seats)
  {
    HoldingsConcat(ring[k..], ring[..k], seats);
    HoldingsConcat(ring[..k], ring[k..], seats);
    assert ring[..k] + ring[k..] == ring;
  }

  lemma {:induction false} HoldingsSame(ids: seq<nat>, seats: map<nat, Seat>, seats': map<nat, Seat>)
    requires forall i :: 0 <= i < |ids| ==>
      ids[i] in seats && ids[i] in seats' && seats'[ids[i]].wallet == seats[ids[i]].wallet
    ensures Holdings(ids, seats') == Holdings(ids, seats)
  {
    if ids != [] { HoldingsSame(ids[1..], seats, seats'); }
  }

  /** How far the bettor is ahead of the turn; a settled bettor on turn is a whole lap ahead. */
  function Lap(s: State): nat
    requires Coherent(s)
  {
    var b := if s.bettor.Some? then IndexOf(s.active, s.bettor.value) else |s.active|;
    if b == 0 && |s.active| > 0 && Settled(s, s.active[0]) then |s.active| else b
  }

  function RoundsLeft(g: Game): nat {
    if g.round <= LastRound(g.kind) then LastRound(g.kind) - g.round else 0
  }

  datatype Measure = Measure(players: nat, chips: nat, rounds: nat, lap: nat)

  function MeasureOf(s: State): Measure
    requires Coherent(s)
  {
    Measure(|s.active|, Holdings(s.active, s.seats), RoundsLeft(s.game), Lap(s))
  }

  predicate Below(a: Measure, b: Measure) {
    || a.players < b.players
    || (a.players == b.players && a.chips < b.chips)
    || (a.players == b.players && a.chips == b.chips && a.rounds < b.rounds)
    || (a.players == b.players && a.chips == b.chips && a.rounds == b.rounds && a.lap < b.lap)
  }

  // ----- passing the turn -----

  /** The bettor's distance after the turn has moved k places on. */
  lemma LapAfterPass(s: State, k: nat, b: nat)
    requires Seated(s) && 1 <= k < |s.active| && b < |s.active| && s.bettor == Some(s.active[b])
    ensures var t := s.(active := Rotate(s.active, k), turn := Some(s.active[k]));
      && Coherent(t)
      && IndexOf(t.active, s.active[b]) == (if b >= k then b - k else b + |s.active| - k)
  {
    var n := |s.active|;
    RotateKeeps(s.active, k);
    var j := if b >= k then b - k else b + n - k;
    RotateIndex(s.active, k, j);
    IndexOfAt(Rotate(s.active, k), j);
    NextTurnSeated(s, k);
  }

  /** Reaching or passing a settled bettor, with the arc settled, completes the round. */
  lemma PassedBettorCloses(s: State, k: nat, b: nat)
    requires Seated(s) && ArcSettled(s) && 0 < b <= k < |s.active| && s.bettor == Some(s.active[b])
    requires forall i :: 1 <= i < k ==> !CanBet(s.seats[s.active[i]])
    requires Settled(s, s.active[b])
    ensures LapComplete(s, s.active[k]) && OthersMatched(s)
  {
    forall i | 1 <= i < |s.active| ensures s.seats[s.active[i]].wallet == 0 || s.seats[s.active[i]].bet == s.bet {
      if i > b { assert PastBettor(s, i); }
    }
  }

  /** If the turn passes without closing the round, the bettor comes nearer. */
  lemma LapShrinks(s: State, k: nat)
    requires Seated(s) && s.active != [] && ArcSettled(s) && Settled(s, s.active[0])
    requires 1 <= k < |s.active| && CanBet(s.seats[s.active[k]])
    requires forall i :: 1 <= i < k ==> !CanBet(s.seats[s.active[i]])
    requires !(LapComplete(s, s.active[k]) && OthersMatched(s))
    ensures var t := s.(active := Rotate(s.active, k), turn := Some(s.active[k]));
      Coherent(s) && Coherent(t) && Lap(t) < Lap(s)
  {
    SeatedCoherent(s);
    var b := IndexOf(s.active, s.bettor.value);
    LapAfterPass(s, k, b);
    var t := s.(active := Rotate(s.active, k), turn := Some(s.active[k]));
    RotateIndex(s.active, k, 0);
    if 0 < b <= k && Settled(s, s.active[b]) {
      PassedBettorCloses(s, k, b);
    }
  }

  /** After a free action the hand ends, the round ends, or the bettor is nearer; the chips stay. */
  lemma AdvanceDescends(s: State, order: seq<nat>)
    requires WellFormed(s) && s.active != [] && ArcSettled(s) && Settled(s, s.active[0])
    requires Enumerates(order, s.seats.Keys)
    ensures var t := AdvanceTurn(s, order);
      t.active == [] || (Coherent(s) && Coherent(t) && Below(MeasureOf(t), MeasureOf(s)))
  {
    hide RoundAction, FinishRounds;
    SeatedCoherent(s);
    AdvanceSeated(s, order);
    SeatedCoherent(AdvanceTurn(s, order));
    AdvanceKeepsHoldings(s, order);
    var k := NextBetting(s, 1);
    if k == |s.active| {
      FinishSeated(s, order, 20);
    } else if LapComplete(s, s.active[k]) && OthersMatched(s) {
      NextTurnSeated(s, k);
      RoundSeated(s.(active := Rotate(s.active, k), turn := Some(s.active[k]), game := NextRound(s.game)), order);
    } else {
      LapShrinks(s, k);
    }
  }

  /** Advancing moves no chips between the players of the hand. */
  lemma AdvanceKeepsHoldings(s: State, order: seq<nat>)
    requires WellFormed(s) && s.active != [] && Enumerates(order, s.seats.Keys)
    ensures var t := AdvanceTurn(s, order);
      t.active == [] || (|t.active| == |s.active| && Holdings(t.active, t.seats) == Holdings(s.active, s.seats)
                         && t.game.kind == s.game.kind && t.game.round >= s.game.round)
  {
    hide RoundAction, FinishRounds;
    var k := NextBetting(s, 1);
    if k == |s.active| {
      FinishSeated(s, order, 20);
    } else {
      NextTurnSeated(s, k);
      HoldingsRotate(s.active, k, s.seats);
      var next := s.(active := Rotate(s.active, k), turn := Some(s.active[k]), game := NextRound(s.game));
      RoundFrame(next, order);
      RoundSeated(next, order);
      var r := RoundAction(next, order);
      if r.goesOn { HoldingsSame(next.active, next.seats, r.state.seats); }
    }
  }

  /** A payment by the player on turn leaves that player's hand with fewer chips. */
  lemma PayLowersHoldings(s: State, p: Seat)
    requires Seated(s) && s.active != [] && p.wallet < s.seats[s.active[0]].wallet
    ensures Holdings(s.active, s.seats[s.active[0] := p]) < Holdings(s.active, s.seats)
  {
    HoldingsSame(s.active[1..], s.seats, s.seats[s.active[0] := p]);
  }

  // ----- the theorem -----

  /** Betting actions and card replacement, by the player on turn. */
  predicate IsMove(action: Action) {
    action.ReplaceAction? || action.RaiseAction? || action.AllInAction? || action.CheckAction? || action.FoldAction?
  }

  /** The player on turn has put chips in. */
  ghost predicate Paid(s: State, p: State) {
    && p.active == s.active && p.game.kind == s.game.kind && p.game.round == s.game.round
    && Holdings(p.active, p.seats) < Holdings(s.active, s.seats)
  }

  /** The player on turn owed nothing and has paid nothing; at most a hand has changed. */
  ghost predicate Free(s: State, p: State) {
    && p.active == s.active && p.game.kind == s.game.kind && p.game.round == s.game.round
    && p.bettor == s.bettor && p.bet == s.bet && p.seats.Keys == s.seats.Keys
    && (forall x :: x in s.seats ==> p.seats[x] == s.seats[x].(hand := p.seats[x].hand))
    && s.active != [] && s.active[0] in p.seats && Settled(p, s.active[0])
  }

  lemma RaiseCase(s: State, amount: nat)
    requires Seated(s) && s.active != [] && Raise(s, s.active[0], amount).outcome == Accepted
    ensures Paid(s, Raise(s, s.active[0], amount).state)
  {
    PayLowersHoldings(s, Raise(s, s.active[0], amount).state.seats[s.active[0]]);
  }

  lemma AllInCase(s: State)
    requires Seated(s) && s.active != [] && AllIn(s, s.active[0]).outcome == Accepted
    ensures Paid(s, AllIn(s, s.active[0]).state)
  {
    PayLowersHoldings(s, AllIn(s, s.active[0]).state.seats[s.active[0]]);
  }

  lemma CheckCase(s: State)
    requires Seated(s) && s.active != [] && Check(s, s.active[0]).outcome == Accepted
    ensures var p := Check(s, s.active[0]).state; Paid(s, p) || Free(s, p)
  {
    var p := Check(s, s.active[0]).state;
    if p != s { PayLowersHoldings(s, p.seats[s.active[0]]); }
  }

  lemma ReplaceCase(s: State, action: Action)
    requires Seated(s) && s.active != [] && DrawRound(s.game) && Level(s)
    requires Replace(s, s.active[0], action).outcome == Accepted
    ensures Free(s, Replace(s, s.active[0], action).state)
  {
    ReplaceFrame(s.game, s.seats[s.active[0]], action.cards.value);
  }

  /** An accepted move other than a fold is paid for or free. */
  lemma MoveCases(s: State, id: nat, action: Action, order: seq<nat>)
    requires WellFormed(s) && Level(s) && s.turn == Some(id) && Enumerates(order, s.seats.Keys)
    requires !action.FoldAction? || DrawRound(s.game)
    requires Play(s, id, action, order).outcome == Accepted
    ensures var p := Play(s, id, action, order).state; Paid(s, p) || Free(s, p)
  {
    hide Replace, Raise, AllIn, Check, Paid, Free, Level;
    assert s.active[0] == id;
    if DrawRound(s.game) {
      ReplaceCase(s, action);
    } else {
      match action
      case RaiseAction(amount) => RaiseCase(s, amount.value);
      case AllInAction => AllInCase(s);
      case CheckAction => CheckCase(s);
      case _ =>
    }
  }

  lemma LapOfSame(s: State, p: State)
    requires Coherent(s) && Coherent(p) && p.active == s.active && p.bettor == s.bettor && p.bet == s.bet
    requires p.seats.Keys == s.seats.Keys
    requires forall x :: x in s.seats ==> p.seats[x] == s.seats[x].(hand := p.seats[x].hand)
    ensures Lap(p) == Lap(s)
  {
  }

  /** Each accepted move by the player on turn ends the hand or lowers the measure. */
  lemma MoveDescends(s: State, id: nat, action: Action, order: seq<nat>, order': seq<nat>)
    requires WellFormed(s) && Level(s) && s.turn == Some(id) && IsMove(action)
    requires Enumerates(order, s.seats.Keys) && Enumerates(order', s.seats.Keys - {id})
    requires RunAction(s, id, action, order, order').outcome == Accepted
    ensures var t := RunAction(s, id, action, order, order').state;
      t.active == [] || (Coherent(s) && Coherent(t) && Below(MeasureOf(t), MeasureOf(s)))
  {
    hide Play, AdvanceTurn, Holdings, Lap;
    SeatedCoherent(s);
    var p := Play(s, id, action, order).state;
    PlayWellFormed(s, id, action, order);
    SeatedCoherent(p);
    PlayLevel(s, id, action, order);
    var t := AdvanceTurn(p, order);
    SeatedCoherent(t);
    AdvanceSeated(p, order);
    if action.FoldAction? && !DrawRound(s.game) {
      FoldShrinks(s, id, action, order);
    } else {
      MoveCases(s, id, action, order);
      AdvanceKeepsHoldings(p, order);
      if Free(s, p) {
        HoldingsSame(s.active, s.seats, p.seats);
        AdvanceDescends(p, order);
        LapOfSame(s, p);
      }
    }
  }

  lemma FoldShrinks(s: State, id: nat, action: Action, order: seq<nat>)
    requires WellFormed(s) && s.turn == Some(id) && Enumerates(order, s.seats.Keys)
    requires action.FoldAction? && !DrawRound(s.game)
    ensures |Play(s, id, action, order).state.active| < |s.active|
  {
    LeaveShrinks(s, id, order);
  }

  /** A fold or leave by anybody in the hand takes a player out of it. */
  lemma LeaveShrinks(s: State, id: nat, order: seq<nat>)
    requires WellFormed(s) && id in s.active && Enumerates(order, s.seats.Keys)
    ensures |Fold(s, id, order).state.active| < |s.active|
  {
    hide EndGame;
    FoldSeated(s, id, order);
    if |s.active| > 2 { WithdrawSeated(s, IndexOf(s.active, id)); }
  }

  /** A command that carries the hand forward: an accepted move, a leave from the hand, or an expired turn. */
  ghost predicate Productive(s: State, c: Command)
    requires WellFormed(s) && Legal(s, c)
  {
    match c
    case Act(id, action, _, _) =>
      if action.Leave? then id in s.active
      else IsMove(action) && s.turn == Some(id) && Step(s, c).outcome == Accepted
    case Expire(_, _) => s.active != []
    case _ => false
  }

  lemma ProductiveDescends(s: State, c: Command)
    requires WellFormed(s) && Level(s) && Legal(s, c) && Productive(s, c) && s.active != []
    ensures var t := Step(s, c).state;
      t.active == [] || (Coherent(s) && Coherent(t) && Below(MeasureOf(t), MeasureOf(s)))
  {
    hide AdvanceTurn, RemovePlayer, RunAction, Lap, Holdings;
    StepWellFormed(s, c);
    SeatedCoherent(s);
    SeatedCoherent(Step(s, c).state);
    match c
    case Act(id, action, order, order') =>
      if action.Leave? {
        LeaveDescends(s, id, order, order');
      } else {
        MoveDescends(s, id, action, order, order');
      }
    case Expire(order, order') =>
      var id := s.turn.value;
      assert s.active[0] == id;
      LeaveShrinks(s, id, order);
      RemoveSeated(s, id, order, order');
      LeaveWellFormed(s, id, order, order');
      var t := RemovePlayer(s, id, order, order').state;
      if t.turn.Some? { AdvanceSeated(t, order'); }
    case _ =>
  }

  lemma LeaveDescends(s: State, id: nat, order: seq<nat>, order': seq<nat>)
    requires WellFormed(s) && id in s.active
    requires Enumerates(order, s.seats.Keys) && Enumerates(order', s.seats.Keys - {id})
    ensures |RunAction(s, id, Leave, order, order').state.active| < |s.active|
  {
    hide Fold, RemovePlayer;
    LeaveShrinks(s, id, order);
    RemoveSeated(s, id, order, order');
  }

  // ----- commands that do not carry the hand forward -----

  predicate AtMost(a: Measure, b: Measure) { a == b || Below(a, b) }

  /** A raise beyond the wallet, outside the draw round, by a settled player on turn who is not already the bettor. */
  predicate Stalls(s: State, c: Command) {
    && c.Act? && c.action.RaiseAction? && c.action.amount.Some? && s.turn == Some(c.id) && !DrawRound(s.game)
    && c.id in s.seats && s.seats[c.id].wallet < c.action.amount.value
    && Settled(s, c.id) && s.bettor != Some(c.id)
  }

  /** A refused raise moves the bettor away from the turn exactly for a settled player who is not yet the bettor. */
  lemma RefusedRaiseLap(s: State, amount: nat)
    requires Seated(s) && s.active != [] && s.seats[s.active[0]].wallet < amount
    ensures var t := Raise(s, s.active[0], amount).state;
      && t == s.(bettor := Some(s.active[0])) && Coherent(s) && Coherent(t)
      && (Lap(t) > Lap(s) <==> Settled(s, s.active[0]) && s.bettor != Some(s.active[0]))
  {
    assert s.active[0] in s.active;
  }

  /** Two states with the same ring, bettor, table bet and round, and the same chips in the ring. */
  lemma SameMeasure(s: State, t: State)
    requires Coherent(s) && Coherent(t) && t.active == s.active && t.bettor == s.bettor && t.bet == s.bet
    requires t.game.kind == s.game.kind && t.game.round == s.game.round
    requires forall i :: 0 <= i < |s.active| ==> t.seats[s.active[i]].wallet == s.seats[s.active[i]].wallet
    requires forall i :: 0 <= i < |s.active| ==> t.seats[s.active[i]].bet == s.seats[s.active[i]].bet
    ensures MeasureOf(t) == MeasureOf(s)
  {
    HoldingsSame(s.active, s.seats, t.seats);
  }

  /** A command that is not productive keeps the active ring, and sets the measure back exactly when it stalls. */
  lemma IdleStep(s: State, c: Command)
    requires WellFormed(s) && Legal(s, c) && s.active != [] && !Productive(s, c)
    ensures var t := Step(s, c).state;
      && t.active == s.active && Coherent(s) && Coherent(t)
      && (Below(MeasureOf(s), MeasureOf(t)) <==> Stalls(s, c))
      && (!Stalls(s, c) ==> AtMost(MeasureOf(t), MeasureOf(s)))
  {
    hide MeasureOf, RemovePlayer, AddPlayer, StartGame, RunAction, AdvanceTurn, Settled, Coherent;
    SeatedCoherent(s);
    StepWellFormed(s, c);
    SeatedCoherent(Step(s, c).state);
    match c
    case Join(id, wallet, folded) => IdleJoin(s, id, wallet, folded);
    case Act(id, action, order, order') => IdleAct(s, id, action, order, order');
    case Start(_, _) =>
    case Expire(_, _) =>
  }

  lemma IdleAct(s: State, id: nat, action: Action, order: seq<nat>, order': seq<nat>)
    requires WellFormed(s) && Coherent(s) && s.active != []
    requires Enumerates(order, s.seats.Keys) && Enumerates(order', s.seats.Keys - {id})
    requires !Productive(s, Act(id, action, order, order'))
    ensures var t := RunAction(s, id, action, order, order').state;
      var stall := Stalls(s, Act(id, action, order, order'));
      && t.active == s.active && Coherent(t)
      && (Below(MeasureOf(s), MeasureOf(t)) <==> stall)
      && (!stall ==> AtMost(MeasureOf(t), MeasureOf(s)))
  {
    hide MeasureOf, RemovePlayer, Play, AdvanceTurn, Settled;
    if action.Leave? {
      IdleLeave(s, id, order, order');
    } else if action.Update? || action.KeepPlayingAction? || s.turn != Some(id) {
      SameMeasure(s, KeepPlaying(s, id).state);
    } else {
      IdlePlay(s, id, action, order);
    }
  }

  lemma IdleJoin(s: State, id: nat, wallet: nat, folded: bool)
    requires WellFormed(s) && Coherent(s)
    ensures var t := AddPlayer(s, id, wallet, folded).state;
      t.active == s.active && Coherent(t) && MeasureOf(t) == MeasureOf(s)
  {
    hide MeasureOf, InsertAt, IndexOf, Seating;
    SameMeasure(s, AddPlayer(s, id, wallet, folded).state);
  }

  lemma IdleLeave(s: State, id: nat, order: seq<nat>, order': seq<nat>)
    requires WellFormed(s) && Coherent(s) && s.active != [] && id !in s.active
    requires Enumerates(order, s.seats.Keys) && Enumerates(order', s.seats.Keys - {id})
    ensures var t := RemovePlayer(s, id, order, order').state;
      t.active == s.active && Coherent(t) && MeasureOf(t) == MeasureOf(s)
  {
    hide MeasureOf, RemovePlayer;
    if id !in s.seats {
      MissingLeaver(s, id, order, order');
      return;
    }
    RemoveSeated(s, id, order, order');
    RemoveFields(s, id, order, order');
    RemoveKeepsRound(s, id, order, order');
    var t := RemovePlayer(s, id, order, order').state;
    SeatedCoherent(t);
    forall i | 0 <= i < |s.active| ensures t.seats[s.active[i]] == s.seats[s.active[i]] {
      assert s.active[i] in s.active;
    }
    SameMeasure(s, t);
  }

  lemma IdlePlay(s: State, id: nat, action: Action, order: seq<nat>)
    requires WellFormed(s) && Coherent(s) && s.turn == Some(id) && Enumerates(order, s.seats.Keys)
    requires !IsMove(action) || Play(s, id, action, order).outcome != Accepted
    ensures var r := Play(s, id, action, order); var t := r.state;
      var stall := Stalls(s, Act(id, action, order, order));
      && r.outcome != Accepted && t.active == s.active && Coherent(t)
      && (stall ==> Below(MeasureOf(s), MeasureOf(t)))
      && (!stall ==> AtMost(MeasureOf(t), MeasureOf(s)))
  {
    hide Lap, Holdings, EndGame, Settled, ReplaceCards;
    assert s.active[0] == id;
    if !DrawRound(s.game) && action.RaiseAction? && action.amount.Some? && s.seats[id].wallet < action.amount.value {
      RefusedRaiseLap(s, action.amount.value);
    }
  }

  /** A hand that never ends, whatever commands it meets. */
  ghost predicate Unending(states: nat -> State, commands: nat -> Command) {
    forall n: nat ::
      && WellFormed(states(n)) && Level(states(n)) && states(n).active != []
      && Legal(states(n), commands(n)) && states(n + 1) == Step(states(n), commands(n)).state
  }

  ghost predicate StallsNoMore(states: nat -> State, commands: nat -> Command, start: nat) {
    forall n: nat :: start <= n ==> !Stalls(states(n), commands(n))
  }

  ghost predicate QuietFrom(states: nat -> State, commands: nat -> Command, start: nat)
    requires Unending(states, commands)
  {
    forall n: nat :: start <= n ==> !Productive(states(n), commands(n))
  }

  /** Without stalling the measure never rises. */
  lemma {:induction false} MeasureNeverRises(states: nat -> State, commands: nat -> Command, m: nat, n: nat)
    requires Unending(states, commands) && m <= n && StallsNoMore(states, commands, m)
    ensures Coherent(states(m)) && Coherent(states(n)) && AtMost(MeasureOf(states(n)), MeasureOf(states(m)))
    decreases n - m
  {
    hide Step, MeasureOf, Level, Legal, Stalls, Productive;
    SeatedCoherent(states(m));
    SeatedCoherent(states(n));
    if m < n {
      if Productive(states(m), commands(m)) {
        ProductiveDescends(states(m), commands(m));
        assert states(m + 1).active != [];
      } else {
        IdleStep(states(m), commands(m));
        assert !Stalls(states(m), commands(m));
      }
      MeasureNeverRises(states, commands, m + 1, n);
    }
  }

  /**
   A hand that goes on without end and, from some moment on, without stalling, is from some moment on carried
   forward by no command at all.
   */
  lemma NoEndlessHand(states: nat -> State, commands: nat -> Command, start: nat) returns (quiet: nat)
    requires Unending(states, commands) && StallsNoMore(states, commands, start)
    ensures start <= quiet && QuietFrom(states, commands, quiet)
    decreases |states(start).active|, Holdings(states(start).active, states(start).seats),
      RoundsLeft(states(start).game), (SeatedCoherent(states(start)); Lap(states(start)))
  {
    hide Step, Lap, Holdings, Productive, Stalls, Level;
    if QuietFrom(states, commands, start) { return start; }
    var n: nat :| start <= n && Productive(states(n), commands(n));
    MeasureNeverRises(states, commands, start, n);
    ProductiveDescends(states(n), commands(n));
    assert states(n + 1).active != [];
    quiet := NoEndlessHand(states, commands, n + 1);
  }

  /** The player on turn always has an accepted move: fold, or replace no card in the draw round. */
  lemma AlwaysAMove(s: State, order: seq<nat>, order': seq<nat>)
    requires WellFormed(s) && s.turn.Some?
    requires Enumerates(order, s.seats.Keys) && Enumerates(order', s.seats.Keys - {s.turn.value})
    ensures var action := if DrawRound(s.game) then ReplaceAction(Some([])) else FoldAction;
      RunAction(s, s.turn.value, action, order, order').outcome == Accepted
  {
    hide EndGame, AdvanceTurn;
    assert s.active[0] in s.seats;
  }

  /**
   Why a refused raise is not a move: it still makes its player the bettor. Two players with chips who have
   both matched can go round for ever, each raising beyond their means and then checking.
   */
  lemma RefusedRaisesGoRound(s: State, a: nat, b: nat, order: seq<nat>, orderA: seq<nat>, orderB: seq<nat>)
    requires WellFormed(s) && s.active == [a, b] && s.bettor == Some(b) && !DrawRound(s.game)
    requires s.seats[a].wallet > 0 && s.seats[b].wallet > 0 && s.seats[a].bet == s.bet && s.seats[b].bet == s.bet
    requires Enumerates(order, s.seats.Keys)
    requires Enumerates(orderA, s.seats.Keys - {a}) && Enumerates(orderB, s.seats.Keys - {b})
    ensures var raiseA := RunAction(s, a, RaiseAction(Some(s.seats[a].wallet + 1)), order, orderA);
      raiseA == Reject(s.(bettor := Some(a)), InsufficientFunds)
    ensures var s1 := s.(bettor := Some(a));
      && WellFormed(s1)
      && RunAction(s1, a, CheckAction, order, orderA) == Accept(s1.(active := [b, a], turn := Some(b)))
    ensures var s2 := s.(bettor := Some(a), active := [b, a], turn := Some(b));
      && WellFormed(s2)
      && RunAction(s2, b, RaiseAction(Some(s.seats[b].wallet + 1)), order, orderB)
           == Reject(s2.(bettor := Some(b)), InsufficientFunds)
    ensures var s3 := s.(active := [b, a], turn := Some(b));
      && WellFormed(s3)
      && RunAction(s3, b, CheckAction, order, orderB) == Accept(s)
  {
    var s1 := s.(bettor := Some(a));
    var s2 := s.(bettor := Some(a), active := [b, a], turn := Some(b));
    var s3 := s.(active := [b, a], turn := Some(b));
    assert a == s.active[0] && b == s.active[1];
    assert [b, a][0] == b && [b, a][1] == a;
    CheckPasses(s1, order);
    CheckPasses(s3, order);
  }

  /** Between two matched players with chips, the second of them not the bettor, a check just passes the turn. */
  lemma CheckPasses(s: State, order: seq<nat>)
    requires WellFormed(s) && |s.active| == 2 && s.bettor == Some(s.active[0]) && Enumerates(order, s.seats.Keys)
    requires CanBet(s.seats[s.active[1]]) && s.seats[s.active[0]].wallet > 0
    ensures AdvanceTurn(s, order) == s.(active := [s.active[1], s.active[0]], turn := Some(s.active[1]))
  {
    hide RoundAction, FinishRounds;
    assert NextBetting(s, 1) == 1;
    assert Rotate(s.active, 1) == [s.active[1], s.active[0]];
  }

  /** The four commands of one such round trip, for ever. */
  function Refusals(s: State, a: nat, b: nat, order: seq<nat>, orderA: seq<nat>, orderB: seq<nat>): nat -> Command
    requires a in s.seats && b in s.seats
  {
    (n: nat) =>
      if n % 4 == 0 then Act(a, RaiseAction(Some(s.seats[a].wallet + 1)), order, orderA)
      else if n % 4 == 1 then Act(a, CheckAction, order, orderA)
      else if n % 4 == 2 then Act(b, RaiseAction(Some(s.seats[b].wallet + 1)), order, orderB)
      else Act(b, CheckAction, order, orderB)
  }

  function RoundTrip(s: State, a: nat, b: nat): nat -> State {
    (n: nat) =>
      if n % 4 == 0 then s
      else if n % 4 == 1 then s.(bettor := Some(a))
      else if n % 4 == 2 then s.(bettor := Some(a), active := [b, a], turn := Some(b))
      else s.(active := [b, a], turn := Some(b))
  }

  /** So stalling does defeat the ending: the hand goes on for ever, and every other command is an accepted check. */
  lemma RefusalsForEver(s: State, a: nat, b: nat, order: seq<nat>, orderA: seq<nat>, orderB: seq<nat>)
    requires WellFormed(s) && Level(s) && s.active == [a, b] && s.bettor == Some(b) && !DrawRound(s.game)
    requires s.seats[a].wallet > 0 && s.seats[b].wallet > 0 && s.seats[a].bet == s.bet && s.seats[b].bet == s.bet
    requires Enumerates(order, s.seats.Keys)
    requires Enumerates(orderA, s.seats.Keys - {a}) && Enumerates(orderB, s.seats.Keys - {b})
    ensures a in s.seats && b in s.seats
    ensures var states, commands := RoundTrip(s, a, b), Refusals(s, a, b, order, orderA, orderB);
      && states(0) == s && Unending(states, commands)
      && forall n: nat :: n % 4 == 1 || n % 4 == 3 ==> Productive(states(n), commands(n))
  {
    hide Level, Step, Productive, Legal, WellFormed;
    FourSteps(s, a, b, order, orderA, orderB);
    forall n: nat
      ensures WellFormed(RoundTrip(s, a, b)(n)) && Level(RoundTrip(s, a, b)(n)) && RoundTrip(s, a, b)(n).active != []
      ensures Legal(RoundTrip(s, a, b)(n), Refusals(s, a, b, order, orderA, orderB)(n))
      ensures RoundTrip(s, a, b)(n + 1)
           == Step(RoundTrip(s, a, b)(n), Refusals(s, a, b, order, orderA, orderB)(n)).state
      ensures n % 4 == 1 || n % 4 == 3 ==>
        Productive(RoundTrip(s, a, b)(n), Refusals(s, a, b, order, orderA, orderB)(n))
    {
      FourWays(n);
    }
  }

  /** The command is legal in the running hand and leads to the other state. */
  ghost predicate LeadsTo(s: State, c: Command, t: State) {
    WellFormed(s) && Level(s) && s.active != [] && Legal(s, c) && Step(s, c).state == t
  }

  /** The four steps of the round trip. */
  lemma FourSteps(s: State, a: nat, b: nat, order: seq<nat>, orderA: seq<nat>, orderB: seq<nat>)
    requires WellFormed(s) && Level(s) && s.active == [a, b] && s.bettor == Some(b) && !DrawRound(s.game)
    requires s.seats[a].wallet > 0 && s.seats[b].wallet > 0 && s.seats[a].bet == s.bet && s.seats[b].bet == s.bet
    requires Enumerates(order, s.seats.Keys)
    requires Enumerates(orderA, s.seats.Keys - {a}) && Enumerates(orderB, s.seats.Keys - {b})
    ensures a in s.seats && b in s.seats
    ensures var t, c := RoundTrip(s, a, b), Refusals(s, a, b, order, orderA, orderB);
      && LeadsTo(t(0), c(0), t(1)) && LeadsTo(t(1), c(1), t(2)) && Productive(t(1), c(1))
      && LeadsTo(t(2), c(2), t(3)) && LeadsTo(t(3), c(3), t(0)) && Productive(t(3), c(3))
  {
    hide Level, RunAction, Seating;
    assert s.active[0] == a && s.active[1] == b;
    RefusedRaisesGoRound(s, a, b, order, orderA, orderB);
    var t, c := RoundTrip(s, a, b), Refusals(s, a, b, order, orderA, orderB);
    StepLevel(t(0), c(0));
    StepLevel(t(1), c(1));
    StepLevel(t(2), c(2));
  }

  lemma FourWays(n: nat)
    ensures (n % 4 == 0 && (n + 1) % 4 == 1) || (n % 4 == 1 && (n + 1) % 4 == 2)
      || (n % 4 == 2 && (n + 1) % 4 == 3) || (n % 4 == 3 && (n + 1) % 4 == 0)
  {
  }
}
