/** When a betting round closes: the invariant on the arc from the bettor to the turn. */
module Betting {
  import opened Options
  import opened Sums
  import opened Cards
  import opened Games
  import opened Protocol
  import opened Rings
  import opened Driver

  /** Nothing more to put in: out of chips, or level with the table bet. */
  predicate Settled(s: State, id: nat)
    requires id in s.seats
  {
    s.seats[id].wallet == 0 || s.seats[id].bet == s.bet
  }

  /** Position i of the active ring lies strictly after the bettor and before the turn comes round again. */
  predicate PastBettor(s: State, i: nat) {
    i < |s.active| && exists b :: 0 < b < i && s.bettor == Some(s.active[b])
  }

  ghost predicate ArcSettled(s: State) {
    forall i :: 0 <= i < |s.active| && PastBettor(s, i) ==> s.active[i] in s.seats && Settled(s, s.active[i])
  }

  ghost predicate AllSettled(s: State) {
    forall i :: 0 <= i < |s.active| ==> s.active[i] in s.seats && Settled(s, s.active[i])
  }

  /** The betting invariant; the draw round of Five Card Draw, which has no betting, only starts when all is settled. */
  ghost predicate Level(s: State) {
    ArcSettled(s) && (DrawRound(s.game) ==> AllSettled(s))
  }

  /** The player on turn has acted: settled, unless the action made that player the bettor. */
  ghost predicate TurnDone(s: State) {
    s.active != [] && s.bettor != Some(s.active[0]) ==> s.active[0] in s.seats && Settled(s, s.active[0])
  }

  // ----- how the invariant moves through the operations -----

  lemma RotateIndex<T>(ring: seq<T>, k: nat, i: nat)
    requires k <= |ring| && i < |ring|
    ensures Rotate(ring, k)[i] == ring[if i < |ring| - k then i + k else i - (|ring| - k)]
  {
  }

  lemma SettledEverywhere(s: State)
    ensures AllSettled(s) ==> Level(s)
    ensures s.active == [] ==> AllSettled(s)
  {
  }

  /** Passing the turn to the next player who can bet keeps the arc settled. */
  lemma PassTurn(s: State, k: nat)
    requires Seated(s) && ArcSettled(s) && TurnDone(s)
    requires 1 <= k < |s.active| && forall i :: 1 <= i < k ==> !CanBet(s.seats[s.active[i]])
    ensures ArcSettled(s.(active := Rotate(s.active, k), turn := Some(s.active[k])))
  {
    var t := s.(active := Rotate(s.active, k), turn := Some(s.active[k]));
    var n := |s.active|;
    forall i | 0 <= i < |t.active| && PastBettor(t, i) ensures t.active[i] in t.seats && Settled(t, t.active[i]) {
      var b :| 0 < b < i && t.bettor == Some(t.active[b]);
      RotateIndex(s.active, k, i);
      RotateIndex(s.active, k, b);
      var i' := if i < n - k then i + k else i - (n - k);
      var b' := if b < n - k then b + k else b - (n - k);
      if i' > k {
        assert 0 < b' < i';
        assert PastBettor(s, i');
      } else if i' > 0 {
        assert 1 <= i' < k;
      } else {
        assert b' > 0;
      }
    }
  }

  /** A complete lap with the others matched leaves nobody who owes chips. */
  lemma LapSettles(s: State, k: nat)
    requires Seated(s) && TurnDone(s) && 1 <= k < |s.active|
    requires LapComplete(s, s.active[k]) && OthersMatched(s)
    ensures AllSettled(s)
  {
    assert s.active[0] != s.active[k];
    assert s.bettor.value in s.seats by {
      var j :| 0 <= j < |s.active| && s.active[j] == s.bettor.value;
    }
  }

  /** Settled or not does not depend on hands. */
  lemma RoundLevel(s: State, order: seq<nat>)
    requires Seated(s) && s.active != [] && AllSettled(s) && Enumerates(order, s.seats.Keys)
    ensures var r := RoundAction(s, order); Level(r.state) && (r.goesOn ==> AllSettled(r.state))
  {
    hide RoundAction;
    RoundFrame(s, order);
    RoundSeated(s, order);
    SettledEverywhere(RoundAction(s, order).state);
  }

  /**
   A round closes, or the hand ends, only when every active player who still holds chips has matched the
   table bet, or when at most one active player still holds chips.
   */
  lemma AdvanceLevel(s: State, order: seq<nat>)
    requires WellFormed(s) && Level(s) && TurnDone(s) && Enumerates(order, s.seats.Keys)
    ensures Level(AdvanceTurn(s, order))
    ensures var t := AdvanceTurn(s, order);
      s.active != [] && (t.active == [] || t.game.round != s.game.round) ==>
        AllSettled(s) || (t.active == [] && forall i :: 1 <= i < |s.active| ==> s.seats[s.active[i]].wallet == 0)
  {
    hide RoundAction, FinishRounds;
    if s.active != [] {
      var k := NextBetting(s, 1);
      if k == |s.active| {
        FinishSeated(s, order, 20);
      } else {
        NextTurnSeated(s, k);
        PassTurn(s, k);
        var t := s.(active := Rotate(s.active, k), turn := Some(s.active[k]));
        RotateSettled(s, k);
        if LapComplete(s, s.active[k]) && OthersMatched(s) {
          LapSettles(s, k);
          RoundLevel(t.(game := NextRound(s.game)), order);
        }
      }
    }
  }

  lemma RotateSettled(s: State, k: nat)
    requires 1 <= k < |s.active|
    ensures AllSettled(s) ==> AllSettled(s.(active := Rotate(s.active, k), turn := Some(s.active[k])))
  {
    var t := s.(active := Rotate(s.active, k), turn := Some(s.active[k]));
    forall i | AllSettled(s) && 0 <= i < |t.active| ensures t.active[i] in t.seats && Settled(t, t.active[i]) {
      RotateIndex(s.active, k, i);
    }
  }

  lemma UnlinkIndex<T>(ring: seq<T>, k: nat, i: nat)
    requires k < |ring| && |ring| > 1 && i < |ring| - 1
    ensures Unlink(ring, k)[i] ==
      (if k == 0 then (if i == 0 then ring[|ring| - 1] else ring[i]) else if i < k then ring[i] else ring[i + 1])
  {
  }

  /**
   A withdrawal, of the player on turn or of anybody else, keeps the arc settled: the mark of a withdrawing
   bettor falls back to the predecessor, and so does the turn.
   */
  lemma WithdrawLevel(s: State, k: nat)
    requires Seated(s) && Level(s) && k < |s.active| && |s.active| > 2
    ensures Level(Withdraw(s, k))
    ensures k == 0 ==> TurnDone(Withdraw(s, k))
  {
    var t, n := Withdraw(s, k), |s.active|;
    WithdrawSeated(s, k);
    forall i | 0 <= i < |t.active|
      ensures t.active[i] in t.seats && (Settled(s, t.active[i]) ==> Settled(t, t.active[i]))
    {
    }
    forall i | 0 <= i < |t.active| && PastBettor(t, i) ensures Settled(t, t.active[i]) {
      var b :| 0 < b < i && t.bettor == Some(t.active[b]);
      WithdrawnBettor(s, k, b);
      UnlinkIndex(s.active, k, i);
      var i' := if k == 0 || i < k then i else i + 1;
      assert PastBettor(s, i');
    }
    if k == 0 && t.bettor != Some(t.active[0]) {
      var j :| 0 <= j < n && s.active[j] == s.bettor.value;
      UnlinkIndex(s.active, 0, 0);
      assert PastBettor(s, n - 1);
    }
    if DrawRound(t.game) {
      forall i | 0 <= i < |t.active| ensures Settled(t, t.active[i]) {
        assert t.active[i] in s.active;
      }
    }
  }

  /** If the bettor sits at position b > 0 of the shortened ring, some bettor sat at or after it before. */
  lemma WithdrawnBettor(s: State, k: nat, b: nat)
    requires Seated(s) && k < |s.active| && |s.active| > 2
    requires 0 < b < |s.active| - 1 && Withdraw(s, k).bettor == Some(Withdraw(s, k).active[b])
    ensures if k == 0 then s.bettor == Some(s.active[b])
      else if b < k then s.bettor == Some(s.active[b]) || (b == k - 1 && s.bettor == Some(s.active[k]))
      else s.bettor == Some(s.active[b + 1])
  {
    UnlinkIndex(s.active, k, b);
    var n := |s.active|;
    assert s.active[Before(k, n)] == (if k == 0 then s.active[n - 1] else s.active[k - 1]);
  }

  lemma FoldLevel(s: State, id: nat, order: seq<nat>)
    requires WellFormed(s) && Level(s) && Enumerates(order, s.seats.Keys) && id in s.active
    ensures var t := Fold(s, id, order).state; Level(t) && (s.turn == Some(id) ==> TurnDone(t))
  {
    hide EndGame, Withdraw;
    var k, n := IndexOf(s.active, id), |s.active|;
    IndexOfAt(s.active, 0);
    FoldSeated(s, id, order);
    SettledEverywhere(Fold(s, id, order).state);
    if n > 2 {
      WithdrawLevel(s, k);
    }
  }

  /** After an accepted turn command the player on turn owes nothing, or is the new bettor. */
  lemma PlayLevel(s: State, id: nat, action: Action, order: seq<nat>)
    requires WellFormed(s) && Level(s) && s.turn == Some(id) && Enumerates(order, s.seats.Keys)
    ensures var r := Play(s, id, action, order); Level(r.state) && (r.outcome == Accepted ==> TurnDone(r.state))
  {
    hide Fold;
    assert s.active[0] == id;
    if DrawRound(s.game) {
      ReplaceLevel(s, id, action);
    } else {
      match action
      case RaiseAction(amount) => if amount.Some? { RaiseLevel(s, id, amount.value); }
      case AllInAction => AllInLevel(s, id);
      case CheckAction => CheckLevel(s, id);
      case FoldAction => FoldLevel(s, id, order);
      case _ =>
    }
  }

  /** With the bettor on turn the arc past the bettor is empty. */
  lemma BettorOnTurn(s: State)
    requires InHand(s) && s.active != [] && s.bettor == Some(s.active[0]) && !DrawRound(s.game)
    ensures Level(s) && TurnDone(s)
  {
  }

  lemma RaiseLevel(s: State, id: nat, amount: nat)
    requires WellFormed(s) && Level(s) && s.turn == Some(id) && !DrawRound(s.game)
    ensures var r := Raise(s, id, amount); Level(r.state) && (r.outcome == Accepted ==> TurnDone(r.state))
  {
    RaiseSeated(s, id, amount);
    if Raise(s, id, amount).state != s { BettorOnTurn(Raise(s, id, amount).state); }
  }

  lemma AllInLevel(s: State, id: nat)
    requires WellFormed(s) && Level(s) && s.turn == Some(id) && !DrawRound(s.game)
    ensures var r := AllIn(s, id); Level(r.state) && (r.outcome == Accepted ==> TurnDone(r.state))
  {
    var t := AllIn(s, id).state;
    AllInSeated(s, id);
    if t.bettor == Some(id) {
      BettorOnTurn(t);
    } else {
      forall i | 0 <= i < |t.active| && PastBettor(t, i) ensures Settled(t, t.active[i]) {
        assert PastBettor(s, i);
      }
    }
  }

  lemma CheckLevel(s: State, id: nat)
    requires WellFormed(s) && Level(s) && s.turn == Some(id) && !DrawRound(s.game)
    ensures var r := Check(s, id); Level(r.state) && (r.outcome == Accepted ==> TurnDone(r.state))
  {
    var t := Check(s, id).state;
    forall i | 0 <= i < |t.active| && PastBettor(t, i) ensures Settled(t, t.active[i]) {
      assert PastBettor(s, i);
    }
  }

  lemma ReplaceLevel(s: State, id: nat, action: Action)
    requires WellFormed(s) && Level(s) && s.turn == Some(id) && DrawRound(s.game)
    ensures var t := Replace(s, id, action).state; Level(t) && TurnDone(t)
  {
    hide ReplaceCards, PastBettor;
    if action.ReplaceAction? && action.cards.Some? {
      ReplaceFrame(s.game, s.seats[id], action.cards.value);
    }
    var t := Replace(s, id, action).state;
    assert AllSettled(t);
    SettledEverywhere(t);
  }

  lemma RemoveLevel(s: State, id: nat, order: seq<nat>, order': seq<nat>)
    requires WellFormed(s) && Level(s) && id in s.seats
    requires Enumerates(order, s.seats.Keys) && Enumerates(order', s.seats.Keys - {id})
    ensures var t := RemovePlayer(s, id, order, order').state;
      Level(t) && (s.turn == Some(id) ==> TurnDone(t))
  {
    hide Fold;
    var t := Fold(s, id, order).state;
    if id in s.active { FoldLevel(s, id, order); }
    LeaverIsOut(s, id, order);
    RemoveSeated(s, id, order, order');
    var u := RemovePlayer(s, id, order, order').state;
    RemoveFields(s, id, order, order');
    StepAsideLevel(s, id, order);
    forall i | 0 <= i < |u.active|
      ensures u.active[i] in u.seats && (Settled(t, u.active[i]) ==> Settled(u, u.active[i]))
    {
    }
    forall i | 0 <= i < |u.active| && PastBettor(u, i) ensures Settled(u, u.active[i]) {
      assert PastBettor(t, i);
    }
  }

  lemma StepAsideLevel(s: State, id: nat, order: seq<nat>)
    requires WellFormed(s) && Level(s) && id in s.seats && Enumerates(order, s.seats.Keys)
    ensures id !in s.active ==> Level(Fold(s, id, order).state)
  {
    var t := StepAside(s, id);
    if id !in s.active {
      forall i | 0 <= i < |t.active| && PastBettor(t, i) ensures Settled(t, t.active[i]) {
        assert PastBettor(s, i);
      }
    }
  }

  /** Apart from the seats and the markers head and blind, a removal is just the leaver's fold. */
  lemma RemoveFields(s: State, id: nat, order: seq<nat>, order': seq<nat>)
    requires WellFormed(s) && id in s.seats
    requires Enumerates(order, s.seats.Keys) && Enumerates(order', s.seats.Keys - {id})
    ensures var t := Fold(s, id, order).state; var u := RemovePlayer(s, id, order, order').state;
      && u.seats == t.seats - {id} && u.game == t.game
      && (u.active == [] || (u.active == t.active && u.bettor == t.bettor && u.bet == t.bet))
  {
    hide Fold;
    RemoveSeated(s, id, order, order');
    EnumerationSize(order', s.seats.Keys - {id});
    if order' == [] {
      NoSeatsNoHand(RemovePlayer(s, id, order, order').state);
    }
  }

  lemma StartLevel(s: State, order: seq<nat>, deck: seq<Card>)
    requires WellFormed(s) && s.active == [] && |s.seats| >= 2 && Enumerates(order, s.seats.Keys)
    ensures Level(StartGame(s, order, deck))
  {
    hide StartGame, Posted, DealtIn, Seating, Turning;
    StartSeated(s, order, deck);
    BlindFirstOrLast(s, order, deck);
    BettorAtEnd(StartGame(s, order, deck));
  }

  /** The opening bettor acts first (antes) or last. */
  lemma BlindFirstOrLast(s: State, order: seq<nat>, deck: seq<Card>)
    requires WellFormed(s) && s.active == [] && |s.seats| >= 2 && Enumerates(order, s.seats.Keys)
    ensures var d := DealtIn(s, order, deck); var ring := Posted(d).active;
      |ring| >= 2 && (d.blind == Some(ring[0]) || d.blind == Some(ring[|ring| - 1]))
  {
    hide Posted, DealtIn;
    var d := DealtIn(s, order, deck);
    DealtInSeating(s, order, deck);
    PostedFrame(d);
    RotateIndex(d.active, 1, |d.active| - 1);
  }

  lemma BettorAtEnd(s: State)
    requires InHand(s) && s.active != [] && s.game.round == 0
    requires s.bettor == Some(s.active[0]) || s.bettor == Some(s.active[|s.active| - 1])
    ensures Level(s)
  {
    assert forall i :: 0 <= i < |s.active| ==> !PastBettor(s, i);
  }

  /** The betting invariant holds through every step, short raises and leaves included. */
  lemma StepLevel(s: State, c: Command)
    requires WellFormed(s) && Level(s) && Legal(s, c)
    ensures Level(Step(s, c).state)
  {
    hide RemovePlayer, AdvanceTurn, StartGame, Play, AddPlayer;
    match c
    case Join(id, wallet, folded) => AddLevel(s, id, wallet, folded);
    case Act(id, action, order, order') => ActLevel(s, id, action, order, order');
    case Start(order, deck) => if |s.seats| >= 2 && s.turn.None? { StartLevel(s, order, deck); }
    case Expire(order, order') =>
      var id := s.turn.value;
      assert s.active[0] == id;
      RemoveLevel(s, id, order, order');
      LeaveWellFormed(s, id, order, order');
      var t := RemovePlayer(s, id, order, order').state;
      RemoveSeated(s, id, order, order');
      if t.turn.Some? { AdvanceLevel(t, order'); }
  }

  lemma AddLevel(s: State, id: nat, wallet: nat, folded: bool)
    requires WellFormed(s) && Level(s)
    ensures Level(AddPlayer(s, id, wallet, folded).state)
  {
    var t := AddPlayer(s, id, wallet, folded).state;
    AddSeated(s, id, wallet, folded);
    forall i | 0 <= i < |t.active| && PastBettor(t, i) ensures Settled(t, t.active[i]) {
      assert PastBettor(s, i);
    }
  }

  lemma ActLevel(s: State, id: nat, action: Action, order: seq<nat>, order': seq<nat>)
    requires WellFormed(s) && Level(s)
    requires Enumerates(order, s.seats.Keys) && Enumerates(order', s.seats.Keys - {id})
    ensures Level(RunAction(s, id, action, order, order').state)
  {
    hide AdvanceTurn, Play, RemovePlayer;
    if action.Leave? {
      if id in s.seats { RemoveLevel(s, id, order, order'); } else { MissingLeaver(s, id, order, order'); }
    } else if !action.Update? && !action.KeepPlayingAction? && s.turn == Some(id) {
      PlayLevel(s, id, action, order);
      PlayWellFormed(s, id, action, order);
      if Play(s, id, action, order).outcome == Accepted {
        AdvanceLevel(Play(s, id, action, order).state, order);
      }
    } else {
      KeepPlayingLevel(s, id);
    }
  }

  lemma MissingLeaver(s: State, id: nat, order: seq<nat>, order': seq<nat>)
    requires Enumerates(order, s.seats.Keys) && Enumerates(order', s.seats.Keys - {id}) && id !in s.seats
    ensures RemovePlayer(s, id, order, order').state == s
  {
  }

  lemma KeepPlayingLevel(s: State, id: nat)
    requires Level(s)
    ensures Level(KeepPlaying(s, id).state)
  {
    var t := KeepPlaying(s, id).state;
    forall i | 0 <= i < |t.active| && PastBettor(t, i) ensures t.active[i] in t.seats && Settled(t, t.active[i]) {
      assert PastBettor(s, i);
    }
  }

  lemma AdvancingLevel(s: State, c: Command)
    requires WellFormed(s) && Level(s) && Legal(s, c) && Advances(s, c)
    ensures Level(Advancing(s, c)) && TurnDone(Advancing(s, c))
  {
    hide Play, RemovePlayer, Level, TurnDone;
    match c
    case Act(id, action, order, order') => PlayLevel(s, id, action, order);
    case Expire(order, order') =>
      assert s.active[0] == s.turn.value;
      RemoveLevel(s, s.turn.value, order, order');
  }

  lemma SameRound(s: State, c: Command)
    requires WellFormed(s) && Legal(s, c) && s.active != [] && !Advances(s, c)
    ensures Step(s, c).state.game == s.game
  {
    hide AdvanceTurn, RemovePlayer, AddPlayer, StartGame, EndGame, ReplaceCards;
    match c
    case Join(id, wallet, folded) => AddKeepsGame(s, id, wallet, folded);
    case Act(id, action, order, order') =>
      if action.Leave? {
        if id in s.seats { RemoveKeepsRound(s, id, order, order'); } else { MissingLeaver(s, id, order, order'); }
      }
    case _ =>
  }

  /**
   Whatever the command, a round that closes with the hand still running leaves no active player owing chips; and
   when the advance ends the hand, nobody owed any, or nobody but the player who has just acted had chips.
   */
  lemma RoundClosesSettled(s: State, c: Command)
    requires WellFormed(s) && Level(s) && Legal(s, c)
    ensures var t := Step(s, c).state;
      s.active != [] && t.active != [] && t.game.round != s.game.round ==> AllSettled(t)
    ensures Advances(s, c) && Advancing(s, c).active != [] && Step(s, c).state.active == [] ==>
      var p := Advancing(s, c);
      AllSettled(p) || forall i :: 1 <= i < |p.active| ==> p.active[i] in p.seats && p.seats[p.active[i]].wallet == 0
  {
    hide Step, Advances, Advancing, AdvanceTurn, AllSettled, Level, TurnDone;
    if Advances(s, c) {
      AdvancingStep(s, c);
      AdvancingLevel(s, c);
      AdvanceLevel(Advancing(s, c), AdvanceOrder(c));
      ClosingSettled(Advancing(s, c), AdvanceOrder(c));
    } else if s.active != [] {
      SameRound(s, c);
    }
  }

  lemma ClosingSettled(p: State, order: seq<nat>)
    requires WellFormed(p) && Level(p) && TurnDone(p) && Enumerates(order, p.seats.Keys)
    ensures var t := AdvanceTurn(p, order); t.active != [] && t.game.round != p.game.round ==> AllSettled(t)
  {
    hide AdvanceTurn, Level, AllSettled;
    AdvanceLevel(p, order);
    if AllSettled(p) { AdvanceKeepsSettled(p, order); }
    NoHandStays(p, order);
  }

  lemma NoHandStays(p: State, order: seq<nat>)
    requires WellFormed(p) && Enumerates(order, p.seats.Keys)
    ensures p.active == [] ==> AdvanceTurn(p, order) == p
  {
  }

  lemma AdvanceKeepsSettled(s: State, order: seq<nat>)
    requires WellFormed(s) && Level(s) && Enumerates(order, s.seats.Keys) && AllSettled(s)
    ensures AllSettled(AdvanceTurn(s, order))
  {
    hide RoundAction, FinishRounds;
    if s.active != [] {
      var k := NextBetting(s, 1);
      AdvanceSeated(s, order);
      if k == |s.active| {
        FinishSeated(s, order, 20);
        SettledEverywhere(FinishRounds(s, order, 20));
      } else {
        NextTurnSeated(s, k);
        RotateSettled(s, k);
        RoundLevel(s.(active := Rotate(s.active, k), turn := Some(s.active[k]), game := NextRound(s.game)), order);
        RoundSeated(s.(active := Rotate(s.active, k), turn := Some(s.active[k]), game := NextRound(s.game)), order);
        SettledEverywhere(AdvanceTurn(s, order));
      }
    }
  }
}
