/** Who gets a turn in a betting round, and exactly when a round closes over somebody who has had none. */
module Turns {
  import opened Options
  import opened Sums
  import opened Cards
  import opened Games
  import opened Protocol
  import opened Rings
  import opened Driver
  import opened Betting
  import opened Conservation
  import opened Dealing

  /** How a round stands: who has had an accepted command in it, and the table bet with which it opened. */
  datatype Rota = Rota(acted: set<nat>, level: nat)

  /** Those who have acted once the command is through. */
  ghost function ActedBy(s: State, r: Rota, c: Command): set<nat>
    requires WellFormed(s) && Legal(s, c)
  {
    if c.Act? && Advances(s, c) then r.acted + {c.id} else r.acted
  }

  /** A new hand and a new round start a new rota. */
  ghost function Follow(s: State, r: Rota, c: Command): Rota
    requires WellFormed(s) && Legal(s, c)
  {
    var t := Step(s, c).state;
    if s.active == [] || t.game.round != s.game.round then Rota({}, t.bet) else Rota(ActedBy(s, r, c), r.level)
  }

  /** Player x of the ring can bet and has not acted. */
  predicate Waits(s: State, acted: set<nat>, x: nat) {
    x in s.active && x in s.seats && CanBet(s.seats[x]) && x !in acted
  }

  /** Behind a player who has acted nobody waits; the player on turn is not asked. */
  ghost predicate InOrder(s: State, acted: set<nat>) {
    forall i, j :: 1 <= i < j < |s.active| && s.active[i] in acted ==> !Waits(s, acted, s.active[j])
  }

  /** Whoever waits has staked nothing or what the round opened with. */
  ghost predicate OpeningStakes(s: State, r: Rota) {
    && (forall x :: Waits(s, r.acted, x) ==> s.seats[x].bet == 0 || s.seats[x].bet == r.level)
    && (s.bet == 0 ==> r.level == 0)
  }

  ghost predicate InTurn(s: State, r: Rota) {
    s.active != [] ==> InOrder(s, r.acted) && OpeningStakes(s, r)
  }

  /** The same once the player on turn has acted, or has handed the turn back to the predecessor. */
  ghost predicate Turned(s: State, acted: set<nat>) {
    && InOrder(s, acted)
    && forall i :: 1 <= i < |s.active| && s.active[i] in acted ==> !Waits(s, acted, s.active[0])
  }

  // ----- what a command does before the turn advances -----

  /** A command of the player on turn leaves the others' chips and stakes alone. */
  lemma OthersKept(s: State, id: nat, action: Action, order: seq<nat>)
    requires WellFormed(s) && s.turn == Some(id) && Enumerates(order, s.seats.Keys)
    requires !action.FoldAction? || DrawRound(s.game)
    ensures var p := Play(s, id, action, order).state;
      && p.active == s.active && p.seats.Keys == s.seats.Keys
      && (forall x :: x in s.seats && x != id ==> p.seats[x] == s.seats[x])
      && (p.bet == s.bet || p.bet > 0)
  {
    hide ReplaceCards, Seating, Distinct;
    if DrawRound(s.game) && id in s.seats && action.ReplaceAction? && action.cards.Some? {
      ReplaceFrame(s.game, s.seats[id], action.cards.value);
    }
  }

  lemma ActorAdded(s: State, r: Rota)
    requires InHand(s) && InTurn(s, r) && s.active != []
    ensures InTurn(s, r.(acted := r.acted + {s.active[0]}))
  {
  }

  /** A withdrawal keeps the order; when the player on turn withdraws, the predecessor has the turn back. */
  lemma WithdrawTurned(s: State, r: Rota, k: nat)
    requires Seated(s) && InTurn(s, r) && k < |s.active| && |s.active| > 2
    ensures var t := Withdraw(s, k);
      InTurn(t, r) && (k == 0 ==> Turned(t, r.acted))
  {
    hide Unlink, Seating, Turning, OpeningStakes;
    var t, n := Withdraw(s, k), |s.active|;
    UnlinkRemoves(s.active, k);
    forall x | Waits(t, r.acted, x) ensures Waits(s, r.acted, x) && t.seats[x] == s.seats[x] {
    }
    forall i, j | 1 <= i < j < |t.active| && t.active[i] in r.acted ensures !Waits(t, r.acted, t.active[j]) {
      UnlinkIndex(s.active, k, i);
      UnlinkIndex(s.active, k, j);
      var i', j' := if i < k || k == 0 then i else i + 1, if j < k || k == 0 then j else j + 1;
      assert s.active[i'] == t.active[i] && s.active[j'] == t.active[j];
    }
    if k == 0 {
      forall i | 1 <= i < |t.active| && t.active[i] in r.acted ensures !Waits(t, r.acted, t.active[0]) {
        UnlinkIndex(s.active, k, i);
        UnlinkIndex(s.active, k, 0);
        assert s.active[i] == t.active[i] && s.active[n - 1] == t.active[0];
      }
    }
    StakesKept(s, t, r, r);
  }

  lemma StakesKept(s: State, t: State, r: Rota, r': Rota)
    requires OpeningStakes(s, r) && r'.level == r.level && (t.bet == s.bet || t.bet > 0)
    requires forall x :: Waits(t, r'.acted, x) ==> Waits(s, r.acted, x) && t.seats[x].bet == s.seats[x].bet
    ensures OpeningStakes(t, r')
  {
  }

  lemma FoldTurned(s: State, r: Rota, id: nat, order: seq<nat>)
    requires WellFormed(s) && InTurn(s, r) && id in s.active && Enumerates(order, s.seats.Keys)
    ensures var p := Fold(s, id, order).state;
      InTurn(p, r) && (p.active != [] && s.turn == Some(id) ==> Turned(p, r.acted))
  {
    hide EndGame, Withdraw, InTurn, Turned, Seating;
    var k := IndexOf(s.active, id);
    IndexOfAt(s.active, 0);
    FoldSeated(s, id, order);
    NoHandInTurn(Fold(s, id, order).state, r);
    if |s.active| > 2 { WithdrawTurned(s, r, k); }
  }

  lemma NoHandInTurn(s: State, r: Rota)
    ensures s.active == [] ==> InTurn(s, r)
  {
  }

  lemma PlayTurned(s: State, r: Rota, id: nat, action: Action, order: seq<nat>)
    requires WellFormed(s) && InTurn(s, r) && s.turn == Some(id) && Enumerates(order, s.seats.Keys)
    ensures var p := Play(s, id, action, order).state; var r' := r.(acted := r.acted + {id});
      p.active != [] ==> Turned(p, r'.acted) && OpeningStakes(p, r')
  {
    hide Play, Seating, Turned, OpeningStakes;
    OnTurn(s, id);
    ActorAdded(s, r);
    var p := Play(s, id, action, order).state;
    var r' := r.(acted := r.acted + {id});
    if !action.FoldAction? || DrawRound(s.game) {
      OthersKept(s, id, action, order);
      forall x | Waits(p, r'.acted, x) ensures Waits(s, r.acted, x) && p.seats[x] == s.seats[x] {
      }
      StakesKept(s, p, r, r');
      ActorDone(p, r'.acted);
    } else {
      FoldIsPlay(s, id, order);
      FoldTurned(s, r', id, order);
    }
  }

  lemma OnTurn(s: State, id: nat)
    requires Turning(s) && s.turn == Some(id)
    ensures s.active != [] && s.active[0] == id && id in s.active
  {
  }

  lemma ActorDone(p: State, acted: set<nat>)
    requires p.active != [] && p.active[0] in acted && InOrder(p, acted)
    ensures Turned(p, acted)
  {
  }

  lemma FoldIsPlay(s: State, id: nat, order: seq<nat>)
    requires Enumerates(order, s.seats.Keys) && !DrawRound(s.game)
    ensures Play(s, id, FoldAction, order) == Fold(s, id, order)
  {
  }

  lemma RemoveTurned(s: State, r: Rota, id: nat, order: seq<nat>, order': seq<nat>)
    requires WellFormed(s) && InTurn(s, r) && id in s.seats
    requires Enumerates(order, s.seats.Keys) && Enumerates(order', s.seats.Keys - {id})
    ensures var p := RemovePlayer(s, id, order, order').state;
      InTurn(p, r) && (p.active != [] && s.turn == Some(id) ==> Turned(p, r.acted))
  {
    hide Fold, RemovePlayer, Seating, Turning, OpeningStakes;
    var t, p := Fold(s, id, order).state, RemovePlayer(s, id, order, order').state;
    if id in s.active { FoldTurned(s, r, id, order); } else { AsideTurned(s, r, id, order); }
    LeaverIsOut(s, id, order);
    RemoveFields(s, id, order, order');
    if p.active != [] {
      forall x | Waits(p, r.acted, x) ensures Waits(t, r.acted, x) && p.seats[x] == t.seats[x] {
      }
      StakesKept(t, p, r, r);
    }
  }

  lemma AsideTurned(s: State, r: Rota, id: nat, order: seq<nat>)
    requires WellFormed(s) && InTurn(s, r) && id in s.seats && id !in s.active && Enumerates(order, s.seats.Keys)
    ensures InTurn(Fold(s, id, order).state, r) && s.turn != Some(id)
  {
    hide EndGame, Withdraw, Seating;
    var t := Fold(s, id, order).state;
    assert t.active == s.active;
  }

  lemma AdvancingTurned(s: State, r: Rota, c: Command)
    requires WellFormed(s) && InTurn(s, r) && Legal(s, c) && Advances(s, c)
    ensures var p := Advancing(s, c); var r' := r.(acted := ActedBy(s, r, c));
      p.active != [] ==> Turned(p, r'.acted) && OpeningStakes(p, r')
  {
    hide Play, RemovePlayer, Turned, OpeningStakes, InTurn;
    match c
    case Act(id, action, order, order') => PlayTurned(s, r, id, action, order);
    case Expire(order, order') =>
      OnTurn(s, s.turn.value);
      RemoveTurned(s, r, s.turn.value, order, order');
      InTurnStakes(RemovePlayer(s, s.turn.value, order, order').state, r);
  }

  lemma InTurnStakes(s: State, r: Rota)
    requires InTurn(s, r)
    ensures s.active != [] ==> OpeningStakes(s, r)
  {
  }

  // ----- the advance -----

  /** Passing the turn on keeps the order: those passed over on the way cannot bet. */
  lemma PassInTurn(p: State, r: Rota, k: nat)
    requires InHand(p) && Turned(p, r.acted) && OpeningStakes(p, r)
    requires 1 <= k < |p.active| && forall i :: 1 <= i < k ==> !CanBet(p.seats[p.active[i]])
    ensures InTurn(p.(active := Rotate(p.active, k), turn := Some(p.active[k])), r)
  {
    hide Rotate, OpeningStakes;
    var t, n := p.(active := Rotate(p.active, k), turn := Some(p.active[k])), |p.active|;
    RotateKeeps(p.active, k);
    StakesKept(p, t, r, r);
    forall i, j | 1 <= i < j < |t.active| && t.active[i] in r.acted ensures !Waits(t, r.acted, t.active[j]) {
      RotateIndex(p.active, k, i);
      RotateIndex(p.active, k, j);
      if j < n - k {
        assert p.active[i + k] in r.acted;
      } else if j == n - k {
        assert p.active[i + k] in r.acted;
      } else {
        assert 1 <= j - (n - k) < k;
      }
    }
  }

  /** A round that opens with everybody settled. */
  lemma OpenedInTurn(t: State)
    requires AllSettled(t)
    ensures InTurn(t, Rota({}, t.bet))
  {
  }

  lemma AdvanceInTurn(p: State, r: Rota, order: seq<nat>)
    requires WellFormed(p) && Level(p) && TurnDone(p) && p.active != [] && Enumerates(order, p.seats.Keys)
    requires Turned(p, r.acted) && OpeningStakes(p, r)
    ensures var t := AdvanceTurn(p, order);
      InTurn(t, if t.game.round != p.game.round then Rota({}, t.bet) else r)
  {
    hide RoundAction, FinishRounds, Turned, OpeningStakes, InTurn, Level, TurnDone, AllSettled;
    var t := AdvanceTurn(p, order);
    SeatedCoherent(p);
    ClosingSettled(p, order);
    var k := NextBetting(p, 1);
    if k == |p.active| {
      FinishSeated(p, order, 20);
      NoHandInTurn(t, if t.game.round != p.game.round then Rota({}, t.bet) else r);
    } else {
      NextTurnSeated(p, k);
      RoundSeated(p.(active := Rotate(p.active, k), turn := Some(p.active[k]), game := NextRound(p.game)), order);
      if t.game.round == p.game.round {
        PassInTurn(p, r, k);
        NoHandInTurn(t, r);
      } else if t.active != [] {
        OpenedInTurn(t);
      } else {
        NoHandInTurn(t, Rota({}, t.bet));
      }
    }
  }

  // ----- the start, and every step -----

  /** The antes leave every stake at nothing or at the blind. */
  lemma {:induction false} AntesEven(s: State, ids: seq<nat>)
    requires forall x :: x in s.seats ==> s.seats[x].bet == 0 || s.seats[x].bet == s.bet
    ensures var t := CheckEach(s, ids);
      t.bet == s.bet && forall x :: x in t.seats ==> t.seats[x].bet == 0 || t.seats[x].bet == t.bet
    decreases |ids|
  {
    if ids != [] { AntesEven(Check(s, ids[0]).state, ids[1..]); }
  }

  lemma NoStakes(s: State, id: nat)
    requires Funded(s) && s.active == [] && id in s.seats
    ensures s.seats[id].bet == 0
  {
    SumAtLeast(s.seats, id, StakeOf);
  }

  lemma PostedEven(d: State)
    requires ReadyToPost(d) && d.bet == 0 && forall x :: x in d.seats ==> d.seats[x].bet == 0
    ensures var u := Posted(d); forall x :: x in u.seats ==> u.seats[x].bet == 0 || u.seats[x].bet == u.bet
  {
    hide CheckEach, Seating, Turning, InHand;
    var v := Raise(d, d.active[0], BLIND).state;
    AntesEven(v, d.active);
  }

  lemma StartInTurn(s: State, order: seq<nat>, deck: seq<Card>)
    requires WellFormed(s) && Funded(s) && s.active == [] && |s.seats| >= 2 && Enumerates(order, s.seats.Keys)
    ensures var t := StartGame(s, order, deck); InTurn(t, Rota({}, t.bet))
  {
    hide OpenRound, DealtIn, Posted, Enumerates, Turning, Funded;
    var d := DealtIn(s, order, deck);
    DealtInSeating(s, order, deck);
    forall x | x in d.seats ensures d.seats[x].bet == 0 {
      NoStakes(s, x);
    }
    PostedEven(d);
    var u := Posted(d);
    OpenRoundFrame(u.game, u.seats, u.active);
  }

  lemma KeptInTurn(s: State, r: Rota, c: Command)
    requires WellFormed(s) && InTurn(s, r) && Legal(s, c) && s.active != [] && !Advances(s, c)
    ensures InTurn(Step(s, c).state, r)
  {
    hide RemovePlayer, AdvanceTurn, StartGame, ReplaceCards, EndGame, Seating, Turning, OpeningStakes;
    var t := Step(s, c).state;
    if c.Act? && c.action.Leave? {
      if c.id in s.seats {
        RemoveTurned(s, r, c.id, c.order, c.order');
      } else {
        MissingLeaver(s, c.id, c.order, c.order');
      }
    } else {
      IdleKept(s, c);
      StakesKept(s, t, r, r);
    }
  }

  lemma IdleKept(s: State, c: Command)
    requires WellFormed(s) && Legal(s, c) && s.active != [] && !Advances(s, c) && !(c.Act? && c.action.Leave?)
    ensures var t := Step(s, c).state;
      && t.active == s.active && t.bet == s.bet
      && forall x :: x in s.seats ==> x in t.seats && t.seats[x] == s.seats[x]
    ensures forall x :: x in s.active ==> x in s.seats
  {
    hide RemovePlayer, AdvanceTurn, StartGame, Seating;
    match c
    case Act(id, action, order, order') =>
      if s.turn == Some(id) { RefusedKeepsCards(s, id, action, order, 0); }
      RefusedFrame(s, id, action, order);
    case _ =>
  }

  lemma RefusedFrame(s: State, id: nat, action: Action, order: seq<nat>)
    requires Enumerates(order, s.seats.Keys)
    ensures var r := Play(s, id, action, order);
      r.outcome != Accepted ==> r.state.active == s.active && r.state.bet == s.bet
  {
    hide EndGame, ReplaceCards, Withdraw;
  }

  /** Every command keeps the rota in order. */
  lemma StepInTurn(s: State, r: Rota, c: Command)
    requires WellFormed(s) && Funded(s) && Level(s) && InTurn(s, r) && Legal(s, c)
    ensures InTurn(Step(s, c).state, Follow(s, r, c))
  {
    hide Step, Advances, Advancing, AdvanceTurn, StartGame, InTurn, Turned, OpeningStakes, Level, TurnDone, Funded;
    var t := Step(s, c).state;
    if s.active == [] {
      NoHandInTurn(t, Rota({}, t.bet));
      if t.active != [] {
        StaysIdle(s, c);
        StartIsStep(s, c);
        StartInTurn(s, c.order, c.deck);
      }
    } else if Advances(s, c) {
      var p := Advancing(s, c);
      AdvancingStep(s, c);
      AdvancingLevel(s, c);
      AdvancingTurned(s, r, c);
      NoHandStays(p, AdvanceOrder(c));
      NoHandInTurn(t, Follow(s, r, c));
      if p.active != [] { AdvanceInTurn(p, r.(acted := ActedBy(s, r, c)), AdvanceOrder(c)); }
    } else {
      SameRound(s, c);
      KeptInTurn(s, r, c);
    }
  }

  // ----- who is passed over -----

  /** Somebody who can bet has not acted. */
  ghost predicate Waiting(s: State, acted: set<nat>) {
    exists x :: Waits(s, acted, x)
  }

  /** The player to whom the turn would pass. */
  function NextUp(s: State): Option<nat>
    requires Coherent(s)
  {
    if s.active == [] || NextBetting(s, 1) == |s.active| then None else Some(s.active[NextBetting(s, 1)])
  }

  /** When the turn can pass, somebody waits exactly if the player to whom it passes does. */
  lemma NextWaits(p: State, acted: set<nat>)
    requires InHand(p) && Coherent(p) && Turned(p, acted)
    ensures NextUp(p).Some? ==> (Waiting(p, acted) <==> NextUp(p).value !in acted)
  {
    if NextUp(p).Some? {
      var k := NextBetting(p, 1);
      if p.active[k] !in acted {
        assert Waits(p, acted, p.active[k]);
      } else {
        forall x | x in p.active ensures !Waits(p, acted, x) {
          var j :| 0 <= j < |p.active| && p.active[j] == x;
        }
      }
    }
  }

  /** The command itself does not change who is next. */
  lemma NextKept(s: State, c: Command)
    requires WellFormed(s) && Legal(s, c) && Advances(s, c)
    ensures Coherent(s) && Coherent(Advancing(s, c)) && s.active != []
    ensures var n := NextUp(Advancing(s, c));
      n.Some? ==> NextUp(s) == n && (c.Act? ==> n.value != c.id)
  {
    hide Play, RemovePlayer, NextUp, Seating, Enumerates;
    AdvancingStep(s, c);
    SeatedCoherent(s);
    var p := Advancing(s, c);
    match c
    case Act(id, action, order, order') =>
      OnTurn(s, id);
      if !action.FoldAction? || DrawRound(s.game) {
        OthersKept(s, id, action, order);
        SameNext(s, p);
      } else {
        FoldIsPlay(s, id, order);
        WithdrawnNext(s, id, order);
        NobodyNext(p);
      }
    case Expire(order, order') =>
      OnTurn(s, s.turn.value);
      LeaverNext(s, order, order');
  }

  lemma NobodyNext(p: State)
    requires Coherent(p)
    ensures p.active == [] ==> NextUp(p) == None
  {
  }

  /** Two rings that agree behind the player on turn, as far as the shorter one goes. */
  lemma NextAgrees(s: State, p: State)
    requires Coherent(s) && Coherent(p) && s.active != [] && |p.active| <= |s.active|
    requires forall i :: 1 <= i < |p.active| ==>
      p.active[i] == s.active[i] && (CanBet(p.seats[p.active[i]]) <==> CanBet(s.seats[s.active[i]]))
    ensures NextUp(p).Some? ==> NextUp(s) == NextUp(p)
    ensures |p.active| == |s.active| ==> NextUp(s) == NextUp(p)
  {
  }

  lemma SameNext(s: State, p: State)
    requires InHand(s) && Coherent(s) && Coherent(p) && s.active != [] && p.active == s.active
    requires forall x :: x in s.seats && x != s.active[0] ==> x in p.seats && p.seats[x] == s.seats[x]
    ensures NextUp(p) == NextUp(s) && NextUp(p) != Some(s.active[0])
  {
    NextAgrees(s, p);
  }

  /** The player on turn withdraws: whoever is next before the predecessor stays next. */
  lemma WithdrawnNext(s: State, id: nat, order: seq<nat>)
    requires WellFormed(s) && s.turn == Some(id) && Enumerates(order, s.seats.Keys) && Coherent(s)
    ensures var p := Fold(s, id, order).state;
      Coherent(p) && (NextUp(p).Some? ==> NextUp(s) == NextUp(p) && NextUp(p).value != id)
  {
    hide EndGame, Withdraw, Seating, Enumerates;
    OnTurn(s, id);
    IndexOfAt(s.active, 0);
    FoldSeated(s, id, order);
    var p := Fold(s, id, order).state;
    SeatedCoherent(p);
    if |s.active| > 2 { WithdrawnBehind(s); }
    if p.active != [] { NextAgrees(s, p); }
  }

  lemma WithdrawnBehind(s: State)
    requires InHand(s) && |s.active| > 2
    ensures var p := Withdraw(s, 0);
      && |p.active| == |s.active| - 1
      && (forall i :: 1 <= i < |p.active| ==>
            p.active[i] == s.active[i] && p.seats[p.active[i]] == s.seats[s.active[i]])
      && (forall i :: 1 <= i < |p.active| ==> p.active[i] != s.active[0])
  {
    hide Unlink, Moved;
    UnlinkRemoves(s.active, 0);
    forall i | 1 <= i < |s.active| - 1 ensures Withdraw(s, 0).active[i] == s.active[i] {
      UnlinkIndex(s.active, 0, i);
    }
  }

  lemma LeaverNext(s: State, order: seq<nat>, order': seq<nat>)
    requires WellFormed(s) && Coherent(s) && Legal(s, Expire(order, order'))
    ensures var p := RemovePlayer(s, s.turn.value, order, order').state;
      Coherent(p) && (NextUp(p).Some? ==> NextUp(s) == NextUp(p))
  {
    hide Fold, RemovePlayer, Seating, Enumerates;
    var id := s.turn.value;
    OnTurn(s, id);
    WithdrawnNext(s, id, order);
    RemoveSeated(s, id, order, order');
    RemoveFields(s, id, order, order');
    LeaverIsOut(s, id, order);
    var t, p := Fold(s, id, order).state, RemovePlayer(s, id, order, order').state;
    SeatedCoherent(p);
    if p.active != [] { NextAgrees(t, p); }
  }

  /**
   A round closes over a player who can bet and has had no turn in it exactly when the player to whom the turn would
   pass has had none; whether that is so is known before the command.
   */
  lemma PassedOverIff(s: State, r: Rota, c: Command)
    requires WellFormed(s) && InTurn(s, r) && Legal(s, c) && Advances(s, c)
    ensures Coherent(s) && Coherent(Advancing(s, c))
    ensures var p := Advancing(s, c);
      Closes(p) ==> NextUp(s).Some? && (Waiting(p, ActedBy(s, r, c)) <==> NextUp(s).value !in r.acted)
  {
    hide Advances, Advancing, ActedBy, Step, Turned, OpeningStakes, InTurn, NextUp, Closes, Waiting, Seating, Turning;
    AdvancingStep(s, c);
    NextKept(s, c);
    AdvancingTurned(s, r, c);
    var p := Advancing(s, c);
    if Closes(p) {
      ClosesNext(p);
      NextWaits(p, ActedBy(s, r, c));
      ActedButNext(s, r, c, NextUp(p).value);
    }
  }

  lemma ActedButNext(s: State, r: Rota, c: Command, x: nat)
    requires WellFormed(s) && Legal(s, c) && (c.Act? ==> x != c.id)
    ensures x in ActedBy(s, r, c) <==> x in r.acted
  {
    hide Advances;
  }

  lemma ClosesNext(p: State)
    requires Coherent(p) && Closes(p)
    ensures NextUp(p).Some? && p.active != []
  {
  }

  /** What closing means for the round: it is over, whether the next one opens or the hand is shown down. */
  lemma ClosesIff(s: State, c: Command)
    requires WellFormed(s) && Legal(s, c) && Advances(s, c)
    ensures Coherent(Advancing(s, c))
    ensures var p, t := Advancing(s, c), Step(s, c).state;
      && (t.active != [] ==> (t.game.round != s.game.round <==> Closes(p)))
      && (p.active != [] && t.active == [] ==> Closes(p) || NextUp(p).None?)
  {
    hide Step, Advances, Advancing, AdvanceTurn, Closes, NextUp, Coherent, Seated;
    AdvancingStep(s, c);
    NoHandStays(Advancing(s, c), AdvanceOrder(c));
    AdvanceCloses(Advancing(s, c), AdvanceOrder(c));
  }

  lemma AdvanceCloses(p: State, order: seq<nat>)
    requires WellFormed(p) && Coherent(p) && Enumerates(order, p.seats.Keys)
    ensures var t := AdvanceTurn(p, order);
      p.active != [] ==>
        && (t.active != [] ==> (t.game.round != p.game.round <==> Closes(p)))
        && (t.active == [] ==> Closes(p) || NextUp(p).None?)
  {
    hide RoundAction, FinishRounds, LapComplete, OthersMatched, Rotate;
    if p.active != [] {
      var k := NextBetting(p, 1);
      if k < |p.active| {
        NextTurnSeated(p, k);
        RoundSeated(p.(active := Rotate(p.active, k), turn := Some(p.active[k]), game := NextRound(p.game)), order);
      } else {
        FinishSeated(p, order, 20);
      }
    }
  }

  /** Once the table bet is no longer the one the round opened with, nobody is passed over. */
  lemma RaisedPassesNobody(s: State, r: Rota, c: Command)
    requires WellFormed(s) && Level(s) && InTurn(s, r) && Legal(s, c) && Advances(s, c)
    ensures Coherent(Advancing(s, c))
    ensures var p := Advancing(s, c); Closes(p) && p.bet != r.level ==> !Waiting(p, ActedBy(s, r, c))
  {
    hide Advances, Advancing, Turned, InTurn, Level, LapComplete, Seating;
    AdvancingStep(s, c);
    AdvancingTurned(s, r, c);
    AdvancingLevel(s, c);
    var p := Advancing(s, c);
    if Closes(p) { LapSettles(p, NextBetting(p, 1)); }
  }

  /** With chips left the bettor is the player next, so the question is whether the bettor has acted. */
  lemma BettorPassedOverIff(s: State, r: Rota, c: Command)
    requires WellFormed(s) && InTurn(s, r) && Legal(s, c) && Advances(s, c)
    ensures Coherent(Advancing(s, c))
    ensures var p := Advancing(s, c);
      Closes(p) ==>
        && p.bettor.Some?
        && (p.seats[p.bettor.value].wallet > 0 ==>
              NextUp(p) == p.bettor && (Waiting(p, ActedBy(s, r, c)) <==> p.bettor.value !in r.acted))
  {
    hide Advances, Advancing, Turned, InTurn, Waiting, OthersMatched, Seating;
    AdvancingStep(s, c);
    NextKept(s, c);
    PassedOverIff(s, r, c);
  }

  /**
   With everybody settled, the next accepted check closes the round over somebody exactly when the next player has not
   acted and either is the bettor or the bettor is out of chips.
   */
  lemma CheckPassesOverIff(s: State, r: Rota, id: nat, order: seq<nat>, order': seq<nat>)
    requires WellFormed(s) && AllSettled(s) && InTurn(s, r) && s.turn == Some(id) && !DrawRound(s.game)
    requires Enumerates(order, s.seats.Keys) && Enumerates(order', s.seats.Keys - {id})
    ensures var c := Act(id, CheckAction, order, order'); var p := Check(s, id).state;
      && Coherent(s) && Coherent(p) && s.bettor.Some?
      && (Advances(s, c) <==> s.seats[id].bet == s.bet)
      && (Advances(s, c) ==>
            && (Closes(p) <==>
                  NextUp(s).Some? && (s.bettor == NextUp(s) || s.seats[s.bettor.value].wallet == 0))
            && (Closes(p) && Waiting(p, ActedBy(s, r, c)) <==>
                  && NextUp(s).Some? && NextUp(s).value !in r.acted
                  && (s.bettor == NextUp(s) || s.seats[s.bettor.value].wallet == 0)))
  {
    hide InTurn, Waiting, Enumerates, Seating;
    OnTurn(s, id);
    SeatedCoherent(s);
    var c := Act(id, CheckAction, order, order');
    if Advances(s, c) { PassedOverIff(s, r, c); }
  }

  // ----- over a run -----

  ghost function RotaOver(s: State, r: Rota, run: seq<Command>): Rota
    requires WellFormed(s) && LegalRun(s, run)
    decreases |run|
  {
    if run == [] then r else
      StepWellFormed(s, run[0]);
      RotaOver(Step(s, run[0]).state, Follow(s, r, run[0]), run[1..])
  }

  /** The rota before anything has happened. */
  const NO_ROUND := Rota({}, 0)
}
