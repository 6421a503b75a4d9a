/** Chip conservation: wallets plus pot, over every step and every run. */
module Conservation {
  import opened Options
  import opened Sums
  import opened Cards
  import opened Games
  import opened SidePots
  import opened Protocol
  import opened Rings
  import opened Driver
  import HandRanks
  import Evaluation

  function WalletOf(p: Seat): nat { p.wallet }
  function StakeOf(p: Seat): nat { p.bet }

  ghost function Wallets(s: State): nat { Sum(s.seats, WalletOf) }
  ghost function Stakes(s: State): nat { Sum(s.seats, StakeOf) }

  /** Every chip at the table. */
  ghost function Chips(s: State): nat { Wallets(s) + s.pot }

  /** The pot holds at least what the seated players staked, and is empty between hands. */
  ghost predicate Funded(s: State) {
    Stakes(s) <= s.pot && (s.active == [] ==> s.pot == 0)
  }

  lemma MoveChips(s: State, id: nat, p: Seat, amount: nat)
    requires id in s.seats && amount <= s.seats[id].wallet
    requires p.wallet == s.seats[id].wallet - amount && p.bet == s.seats[id].bet + amount
    ensures Sum(s.seats[id := p], WalletOf) == Wallets(s) - amount
    ensures Sum(s.seats[id := p], StakeOf) == Stakes(s) + amount
  {
    SumUpdate(s.seats, id, p, WalletOf);
    SumUpdate(s.seats, id, p, StakeOf);
  }

  lemma RaiseChips(s: State, id: nat, amount: nat)
    ensures var t := Raise(s, id, amount).state; Chips(t) == Chips(s) && t.pot - Stakes(t) == s.pot - Stakes(s)
  {
    if amount > 0 && id in s.seats && amount <= s.seats[id].wallet {
      var p := s.seats[id];
      MoveChips(s, id, p.(wallet := p.wallet - amount, bet := p.bet + amount), amount);
    }
  }

  lemma AllInChips(s: State, id: nat)
    ensures var t := AllIn(s, id).state; Chips(t) == Chips(s) && t.pot - Stakes(t) == s.pot - Stakes(s)
  {
    if id in s.seats && s.seats[id].wallet > 0 {
      var p := s.seats[id];
      MoveChips(s, id, p.(wallet := 0, bet := p.bet + p.wallet), p.wallet);
    }
  }

  lemma CheckChips(s: State, id: nat)
    ensures var t := Check(s, id).state; Chips(t) == Chips(s) && t.pot - Stakes(t) == s.pot - Stakes(s)
  {
    if id in s.seats && s.seats[id].bet < s.bet && s.bet - s.seats[id].bet <= s.seats[id].wallet {
      var p := s.seats[id];
      var diff := s.bet - p.bet;
      MoveChips(s, id, p.(wallet := p.wallet - diff, bet := s.bet), diff);
    }
  }

  lemma {:induction false} CheckEachChips(s: State, ids: seq<nat>)
    ensures var t := CheckEach(s, ids); Chips(t) == Chips(s) && t.pot - Stakes(t) == s.pot - Stakes(s)
    decreases |ids|
  {
    hide Check;
    if ids != [] {
      CheckChips(s, ids[0]);
      CheckEachChips(Check(s, ids[0]).state, ids[1..]);
    }
  }

  // ----- showdown -----

  function Stakes'(es: seq<Entry<HandRanks.HandRank>>): seq<nat> {
    if es == [] then [] else [es[0].bet] + Stakes'(es[1..])
  }

  lemma {:induction false} StakesOfEntries(es: seq<Entry<HandRanks.HandRank>>)
    ensures |Stakes'(es)| == |es| && forall i :: 0 <= i < |es| ==> Stakes'(es)[i] == es[i].bet
    ensures Total(Stakes'(es)) == SumSeq(es, BetOf<HandRanks.HandRank>)
  {
    if es != [] { StakesOfEntries(es[1..]); }
  }

  /** The stakes seen along any iteration order add up to the stakes at the table. */
  lemma EntriesStakes(s: State, order: seq<nat>)
    requires Enumerates(order, s.seats.Keys)
    ensures SumSeq(Entries(s, order), BetOf<HandRanks.HandRank>) == Stakes(s)
  {
    hide Evaluation.Evaluate;
    var es := Entries(s, order);
    StakesOfEntries(es);
    SumEnumerated(s.seats, order, StakeOf, Stakes'(es));
  }

  function Added(a: seq<nat>, b: seq<nat>): (c: seq<nat>)
    requires |a| == |b|
    ensures |c| == |a| && forall i :: 0 <= i < |a| ==> c[i] == a[i] + b[i]
  {
    if a == [] then [] else [a[0] + b[0]] + Added(a[1..], b[1..])
  }

  lemma {:induction false} TotalAdded(a: seq<nat>, b: seq<nat>)
    requires |a| == |b|
    ensures Total(Added(a, b)) == Total(a) + Total(b)
  {
    if a != [] { TotalAdded(a[1..], b[1..]); }
  }

  function WalletList(seats: map<nat, Seat>, order: seq<nat>): (w: seq<nat>)
    requires forall i :: 0 <= i < |order| ==> order[i] in seats
    ensures |w| == |order| && forall i :: 0 <= i < |order| ==> w[i] == seats[order[i]].wallet
  {
    seq(|order|, i requires 0 <= i < |order| => seats[order[i]].wallet)
  }

  /** Settling credits each seat once. */
  lemma SettledWallets(seats: map<nat, Seat>, order: seq<nat>, credit: seq<nat>)
    requires Enumerates(order, seats.Keys) && |credit| == |order|
    ensures Sum(SettledSeats(seats, order, credit), WalletOf) == Sum(seats, WalletOf) + Total(credit)
    ensures Sum(SettledSeats(seats, order, credit), StakeOf) == 0
  {
    var m := SettledSeats(seats, order, credit);
    var w := WalletList(seats, order);
    SumEnumerated(seats, order, WalletOf, w);
    forall i | 0 <= i < |order| ensures Added(w, credit)[i] == WalletOf(m[order[i]]) {
      IndexOfAt(order, i);
    }
    SumEnumerated(m, order, WalletOf, Added(w, credit));
    TotalAdded(w, credit);
    SumZero(m, StakeOf);
  }

  /** The showdown moves the whole pot into the wallets. */
  lemma EndGameChips(s: State, order: seq<nat>, id: nat)
    requires Enumerates(order, s.seats.Keys) && id in s.seats && !s.seats[id].folded
    requires Stakes(s) <= s.pot
    ensures var t := EndGame(s, order); Chips(t) == Chips(s) && Stakes(t) == 0 && t.pot == 0
  {
    hide Evaluation.Evaluate, Payouts, WinnerAt;
    var es := Entries(s, order);
    EntriesStakes(s, order);
    var k := IndexOf(order, id);
    SomebodyLeads(es, k, HandRanks.Compare);
    PayoutsConserve(es, s.pot, k, HandRanks.Compare);
    SettledWallets(s.seats, order, Payouts(es, s.pot, HandRanks.Compare));
  }

  lemma RefoldChips(s: State, id: nat)
    requires id in s.seats
    ensures Sum(s.seats[id := s.seats[id].(folded := true)], WalletOf) == Wallets(s)
    ensures Sum(s.seats[id := s.seats[id].(folded := true)], StakeOf) == Stakes(s)
  {
    SumUpdate(s.seats, id, s.seats[id].(folded := true), WalletOf);
    SumUpdate(s.seats, id, s.seats[id].(folded := true), StakeOf);
  }

  lemma FoldChips(s: State, id: nat, order: seq<nat>)
    requires WellFormed(s) && Funded(s) && Enumerates(order, s.seats.Keys)
    ensures var t := Fold(s, id, order).state; Chips(t) == Chips(s) && Funded(t)
  {
    hide EndGame;
    if id in s.seats {
      RefoldChips(s, id);
      var k, n := IndexOf(s.active, id), |s.active|;
      if k < n {
        FoldSeated(s, id, order);
        if n == 2 { EndGameChips(Withdraw(s, k), order, s.active[1 - k]); }
      }
    }
  }

  /** A leave takes away exactly the leaver's wallet, after any settlement. */
  lemma RemoveChips(s: State, id: nat, order: seq<nat>, order': seq<nat>)
    requires WellFormed(s) && Funded(s) && id in s.seats
    requires Enumerates(order, s.seats.Keys) && Enumerates(order', s.seats.Keys - {id})
    ensures var t := RemovePlayer(s, id, order, order').state;
      Chips(t) + Fold(s, id, order).state.seats[id].wallet == Chips(s) && Funded(t)
  {
    hide Fold;
    var t := Fold(s, id, order).state;
    FoldChips(s, id, order);
    SumRemove(t.seats, id, WalletOf);
    SumRemove(t.seats, id, StakeOf);
    RemoveSeated(s, id, order, order');
    EmptyRebuild(s, id, order, order');
  }

  lemma EmptyRebuild(s: State, id: nat, order: seq<nat>, order': seq<nat>)
    requires WellFormed(s) && Funded(s) && id in s.seats
    requires Enumerates(order, s.seats.Keys) && Enumerates(order', s.seats.Keys - {id})
    ensures var t := Fold(s, id, order).state; var u := RemovePlayer(s, id, order, order').state;
      u.seats == t.seats - {id} && u.active == t.active && u.pot == t.pot
  {
    hide Fold;
    RemoveSeated(s, id, order, order');
    FoldChips(s, id, order);
    EnumerationSize(order', s.seats.Keys - {id});
    if order' == [] {
      assert RemovePlayer(s, id, order, order').state.seats.Keys == {};
      NoSeatsNoHand(RemovePlayer(s, id, order, order').state);
    }
  }

  lemma AddChips(s: State, id: nat, wallet: nat, folded: bool)
    requires Funded(s)
    ensures var r := AddPlayer(s, id, wallet, folded);
      && Funded(r.state)
      && Chips(r.state) == Chips(s) + (if r.outcome == Accepted && id !in s.seats then wallet else 0)
  {
    SumUpdate(s.seats, id, Seat(wallet, 0, folded, []), WalletOf);
    SumUpdate(s.seats, id, Seat(wallet, 0, folded, []), StakeOf);
  }

  // ----- rounds and turns -----

  lemma OpenRoundChips(g: Game, seats: map<nat, Seat>, ring: seq<nat>)
    requires forall i :: 0 <= i < |ring| ==> ring[i] in seats
    ensures Sum(OpenRound(g, seats, ring).seats, WalletOf) == Sum(seats, WalletOf)
    ensures Sum(OpenRound(g, seats, ring).seats, StakeOf) == Sum(seats, StakeOf)
  {
    hide OpenRound;
    OpenRoundFrame(g, seats, ring);
    SumSame(seats, OpenRound(g, seats, ring).seats, WalletOf);
    SumSame(seats, OpenRound(g, seats, ring).seats, StakeOf);
  }

  lemma RoundChips(s: State, order: seq<nat>)
    requires Seated(s) && s.active != [] && Stakes(s) <= s.pot && Enumerates(order, s.seats.Keys)
    ensures var t := RoundAction(s, order).state; Chips(t) == Chips(s) && Funded(t)
  {
    hide EndGame, OpenRound;
    var r := OpenRound(s.game, s.seats, s.active);
    OpenRoundChips(s.game, s.seats, s.active);
    OpenRoundFrame(s.game, s.seats, s.active);
    if r.over {
      EndGameChips(s.(game := r.game, seats := r.seats), order, s.active[0]);
    }
  }

  lemma {:induction false} FinishChips(s: State, order: seq<nat>, steps: nat)
    requires Seated(s) && s.active != [] && Stakes(s) <= s.pot && Enumerates(order, s.seats.Keys)
    ensures var t := FinishRounds(s, order, steps); Chips(t) == Chips(s) && Funded(t)
    decreases steps
  {
    hide RoundAction, FinishRounds;
    FinishUnfold(s, order, steps);
    if steps > 0 {
      var next := s.(game := NextRound(s.game));
      assert Chips(next) == Chips(s) && Stakes(next) == Stakes(s);
      assert Seated(next);
      RoundChips(next, order);
      RoundSeated(next, order);
      var r := RoundAction(next, order);
      if r.goesOn { FinishChips(r.state, order, steps - 1); }
    }
  }

  lemma AdvanceChips(s: State, order: seq<nat>)
    requires WellFormed(s) && Funded(s) && Enumerates(order, s.seats.Keys)
    ensures var t := AdvanceTurn(s, order); Chips(t) == Chips(s) && Funded(t)
  {
    hide RoundAction, FinishRounds;
    if s.active != [] {
      var k := NextBetting(s, 1);
      if k == |s.active| {
        FinishChips(s, order, 20);
      } else {
        NextTurnSeated(s, k);
        RoundChips(s.(active := Rotate(s.active, k), turn := Some(s.active[k]), game := NextRound(s.game)), order);
      }
    }
  }

  lemma PlayChips(s: State, id: nat, action: Action, order: seq<nat>)
    requires WellFormed(s) && Funded(s) && s.turn == Some(id) && Enumerates(order, s.seats.Keys)
    ensures var t := Play(s, id, action, order).state; Chips(t) == Chips(s) && Funded(t)
  {
    hide Fold, Raise, AllIn, Check;
    PlaySeated(s, id, action, order);
    if DrawRound(s.game) {
      ReplaceChips(s, id, action);
    } else {
      match action
      case RaiseAction(amount) =>
        if amount.Some? {
          RaiseChips(s, id, amount.value);
          RaiseSeated(s, id, amount.value);
          RaiseRing(s, id, amount.value);
        }
      case AllInAction => AllInChips(s, id); AllInRing(s, id);
      case CheckAction => CheckChips(s, id); CheckRing(s, id);
      case FoldAction => FoldChips(s, id, order);
      case _ =>
    }
  }

  lemma RaiseRing(s: State, id: nat, amount: nat)
    ensures Raise(s, id, amount).state.active == s.active
  {
  }

  lemma AllInRing(s: State, id: nat)
    ensures AllIn(s, id).state.active == s.active
  {
  }

  lemma CheckRing(s: State, id: nat)
    ensures Check(s, id).state.active == s.active
  {
  }

  lemma ReplaceChips(s: State, id: nat, action: Action)
    requires Funded(s)
    ensures var t := Replace(s, id, action).state; Chips(t) == Chips(s) && Funded(t)
  {
    if id in s.seats && action.ReplaceAction? && action.cards.Some? {
      ReplaceFrame(s.game, s.seats[id], action.cards.value);
      var t := Replace(s, id, action).state;
      SumUpdate(s.seats, id, t.seats[id], WalletOf);
      SumUpdate(s.seats, id, t.seats[id], StakeOf);
    }
  }

  lemma StartChips(s: State, order: seq<nat>, deck: seq<Card>)
    requires WellFormed(s) && Funded(s) && s.active == [] && |s.seats| >= 2 && Enumerates(order, s.seats.Keys)
    ensures var t := StartGame(s, order, deck); Chips(t) == Chips(s) && Funded(t)
  {
    hide OpenRound, Posted, DealtIn, FreshSeats;
    var d := DealtIn(s, order, deck);
    DealtInSeating(s, order, deck);
    FreshChips(s.seats);
    var u := Posted(d);
    PostedChips(d);
    PostedSeated(d);
    OpenRoundChips(u.game, u.seats, u.active);
  }

  lemma FreshChips(seats: map<nat, Seat>)
    ensures Sum(FreshSeats(seats), WalletOf) == Sum(seats, WalletOf)
    ensures Sum(FreshSeats(seats), StakeOf) == Sum(seats, StakeOf)
  {
    SumSame(seats, FreshSeats(seats), WalletOf);
    SumSame(seats, FreshSeats(seats), StakeOf);
  }

  lemma PostedChips(d: State)
    requires ReadyToPost(d)
    ensures var u := Posted(d); Chips(u) == Chips(d) && u.pot - Stakes(u) == d.pot - Stakes(d)
  {
    hide Raise, CheckEach;
    RaiseChips(d, d.active[0], BLIND);
    CheckEachChips(Raise(d, d.active[0], BLIND).state, d.active);
  }

  // ----- every step, every run -----

  /** The chips a command brings to the table, less those it carries off. */
  ghost function Flow(s: State, c: Command): int
    requires WellFormed(s) && Legal(s, c)
  {
    match c
    case Join(id, wallet, folded) => if id !in s.seats && |s.seats| < MAX_PLAYERS then wallet else 0
    case Act(id, action, order, _) =>
      if action.Leave? && id in s.seats then 0 - (Fold(s, id, order).state.seats[id].wallet as int) else 0
    case Start(_, _) => 0
    case Expire(order, _) =>
      var id := s.turn.value;
      if id in s.seats then 0 - (Fold(s, id, order).state.seats[id].wallet as int) else 0
  }

  lemma StepChips(s: State, c: Command)
    requires WellFormed(s) && Funded(s) && Legal(s, c)
    ensures var t := Step(s, c).state; Funded(t) && Chips(t) == Chips(s) + Flow(s, c)
  {
    hide RemovePlayer, AdvanceTurn, StartGame, Play, Fold;
    match c
    case Join(id, wallet, folded) => AddChips(s, id, wallet, folded);
    case Act(id, action, order, order') => ActChips(s, id, action, order, order');
    case Start(order, deck) => if |s.seats| >= 2 && s.turn.None? { StartChips(s, order, deck); }
    case Expire(order, order') =>
      var id := s.turn.value;
      assert s.active[0] == id;
      RemoveChips(s, id, order, order');
      LeaveWellFormed(s, id, order, order');
      var t := RemovePlayer(s, id, order, order').state;
      RemoveSeated(s, id, order, order');
      if t.turn.Some? { AdvanceChips(t, order'); }
  }

  lemma ActChips(s: State, id: nat, action: Action, order: seq<nat>, order': seq<nat>)
    requires WellFormed(s) && Funded(s)
    requires Enumerates(order, s.seats.Keys) && Enumerates(order', s.seats.Keys - {id})
    ensures var t := RunAction(s, id, action, order, order').state;
      Funded(t) && Chips(t) == Chips(s) + Flow(s, Act(id, action, order, order'))
  {
    hide AdvanceTurn, Play, Fold;
    if action.Leave? {
      if id in s.seats { RemoveChips(s, id, order, order'); }
    } else if !action.Update? && !action.KeepPlayingAction? && s.turn == Some(id) {
      PlayChips(s, id, action, order);
      PlayWellFormed(s, id, action, order);
      AdvanceChips(Play(s, id, action, order).state, order);
    }
  }

  ghost function TotalFlow(s: State, run: seq<Command>): int
    requires WellFormed(s) && LegalRun(s, run)
    decreases |run|
  {
    if run == [] then 0 else
      StepWellFormed(s, run[0]);
      Flow(s, run[0]) + TotalFlow(Step(s, run[0]).state, run[1..])
  }

  /** Over any run the chips at the table change only by what joins and leaves carry. */
  lemma {:induction false} RunChips(s: State, run: seq<Command>)
    requires WellFormed(s) && Funded(s) && LegalRun(s, run)
    ensures Funded(Run(s, run)) && Chips(Run(s, run)) == Chips(s) + TotalFlow(s, run)
    decreases |run|
  {
    hide Step, Flow;
    if run != [] {
      StepWellFormed(s, run[0]);
      StepChips(s, run[0]);
      RunChips(Step(s, run[0]).state, run[1..]);
    }
  }
}
