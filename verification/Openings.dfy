/** Up to five players sit down and a hand with antes begins. */
module Openings {
  import opened Options
  import opened Sums
  import opened Cards
  import opened Games
  import opened Protocol
  import opened Rings
  import opened Driver
  import opened Witnesses
  import opened Turns

  // ----- runs together with their rota -----

  /** The run reaches the state, and the round there stands as the rota says. */
  ghost predicate Tracks(kind: Kind, run: seq<Command>, s: State, r: Rota) {
    Reaches(kind, run, s) && RotaOver(EmptyTable(kind), NO_ROUND, run) == r
  }

  lemma {:induction false} RotaThen(s: State, r: Rota, run: seq<Command>, c: Command)
    requires WellFormed(s) && LegalRun(s, run) && Legal(Run(s, run), c)
    ensures LegalRun(s, run + [c]) && RotaOver(s, r, run + [c]) == Follow(Run(s, run), RotaOver(s, r, run), c)
    decreases |run|
  {
    hide Step, Legal, Follow;
    RunThen(s, run, c);
    if run == [] {
      assert run + [c] == [c];
      assert [c][1..] == [];
    } else {
      StepWellFormed(s, run[0]);
      RotaThen(Step(s, run[0]).state, Follow(s, r, run[0]), run[1..], c);
      assert (run + [c])[1..] == run[1..] + [c] && (run + [c])[0] == run[0];
    }
  }

  lemma TracksThen(kind: Kind, run: seq<Command>, s: State, r: Rota, c: Command)
    requires Tracks(kind, run, s, r) && WellFormed(s) && Legal(s, c)
    ensures Tracks(kind, run + [c], Step(s, c).state, Follow(s, r, c)) && WellFormed(Step(s, c).state)
  {
    hide Step, Legal, Follow, RotaOver;
    ReachesThen(kind, run, s, c);
    RotaThen(EmptyTable(kind), NO_ROUND, run, c);
  }

  lemma TracksReaches(kind: Kind, run: seq<Command>, s: State, r: Rota)
    requires Tracks(kind, run, s, r)
    ensures Reaches(kind, run, s)
  {
  }

  lemma TracksSome(kind: Kind, run: seq<Command>, s: State) returns (r: Rota)
    requires Reaches(kind, run, s)
    ensures Tracks(kind, run, s, r)
  {
    hide RotaOver;
    r := RotaOver(EmptyTable(kind), NO_ROUND, run);
  }

  /** Between hands every command leaves a new rota. */
  lemma IdleTracks(kind: Kind, run: seq<Command>, s: State, c: Command)
    requires Reaches(kind, run, s) && WellFormed(s) && Legal(s, c) && s.active == []
    ensures Tracks(kind, run + [c], Step(s, c).state, Rota({}, Step(s, c).state.bet))
  {
    hide Step, Legal, Reaches, Tracks;
    var r := TracksSome(kind, run, s);
    TracksThen(kind, run, s, r, c);
  }

  // ----- sitting down -----

  /** The players 1 to n. */
  function Ids(n: nat): (r: seq<nat>)
    ensures |r| == n && forall i :: 0 <= i < n ==> r[i] == i + 1
  {
    seq(n, i => i + 1)
  }

  lemma IdsEnumerate(n: nat, ids: set<nat>)
    requires forall x :: x in ids <==> 1 <= x <= n
    ensures Enumerates(Ids(n), ids) && |ids| == n
  {
    forall x | x in ids ensures x in Ids(n) {
      assert Ids(n)[x - 1] == x;
    }
    EnumerationSize(Ids(n), ids);
  }

  /** What player x brings; the first player brings w chips. */
  function Brought(x: nat, w: nat): nat { if x == 1 then w else 1000 }

  /** The players 1 to n sit at the table, and no hand has begun. */
  ghost predicate Gathered(s: State, kind: Kind, n: nat, w: nat) {
    && WellFormed(s) && s.active == [] && s.showdown == None && s.game.kind == kind
    && s.head == Some(1) && s.blind == Some(1)
    && (forall x :: x in s.seats <==> 1 <= x <= n)
    && forall x :: x in s.seats ==> s.seats[x] == Seat(Brought(x, w), 0, false, [])
  }

  function Arrivals(n: nat, w: nat): seq<Command> {
    if n == 0 then [] else Arrivals(n - 1, w) + [Join(n, Brought(n, w), false)]
  }

  lemma FirstArrives(kind: Kind, w: nat)
    ensures Gathered(AddPlayer(EmptyTable(kind), 1, w, false).state, kind, 1, w)
  {
    hide InsertAt, IndexOf;
    AddSeated(EmptyTable(kind), 1, w, false);
  }

  lemma NextArrives(s: State, kind: Kind, n: nat, w: nat)
    requires Gathered(s, kind, n, w) && 1 <= n < MAX_PLAYERS
    ensures Gathered(AddPlayer(s, n + 1, 1000, false).state, kind, n + 1, w)
  {
    hide InsertAt, IndexOf, Seating, Turning, Enumerates;
    IdsEnumerate(n, s.seats.Keys);
    assert |s.seats| == |s.seats.Keys|;
    AddSeated(s, n + 1, 1000, false);
    AddKeepsGame(s, n + 1, 1000, false);
  }

  lemma {:induction false} Arrive(kind: Kind, n: nat, w: nat) returns (s: State)
    requires 1 <= n <= MAX_PLAYERS
    ensures Reaches(kind, Arrivals(n, w), s) && Gathered(s, kind, n, w)
  {
    hide Reaches, Gathered, AddPlayer, WellFormed;
    var c := Join(n, Brought(n, w), false);
    if n == 1 {
      NothingRun(kind);
      FirstArrives(kind, w);
      ReachesThen(kind, [], EmptyTable(kind), c);
      assert Arrivals(0, w) == [];
      s := Step(EmptyTable(kind), c).state;
    } else {
      var before := Arrive(kind, n - 1, w);
      GatheredWell(before, kind, n - 1, w);
      NextArrives(before, kind, n - 1, w);
      ReachesThen(kind, Arrivals(n - 1, w), before, c);
      s := Step(before, c).state;
    }
  }

  lemma GatheredWell(s: State, kind: Kind, n: nat, w: nat)
    requires Gathered(s, kind, n, w)
    ensures WellFormed(s)
  {
  }

  // ----- the antes -----

  /** Everybody who can pays up to the blind. */
  lemma {:induction false} AntesPaid(v: State, ids: seq<nat>)
    requires v.bet == BLIND
    requires forall i :: 0 <= i < |ids| ==>
      && ids[i] in v.seats
      && (v.seats[ids[i]].bet == BLIND || (v.seats[ids[i]].bet == 0 && v.seats[ids[i]].wallet >= BLIND))
    ensures var t := CheckEach(v, ids);
      forall x :: x in v.seats ==>
        t.seats[x] == if x in ids then v.seats[x].(wallet := v.seats[x].wallet + v.seats[x].bet - BLIND, bet := BLIND)
                      else v.seats[x]
    decreases |ids|
  {
    if ids != [] {
      var v' := Check(v, ids[0]).state;
      forall i | 0 <= i < |ids[1..]| ensures
        && ids[1..][i] in v'.seats
        && (v'.seats[ids[1..][i]].bet == BLIND
            || (v'.seats[ids[1..][i]].bet == 0 && v'.seats[ids[1..][i]].wallet >= BLIND))
      {
        assert ids[1..][i] == ids[i + 1];
      }
      AntesPaid(v', ids[1..]);
      assert forall x :: x in ids <==> x == ids[0] || x in ids[1..];
    }
  }

  /** The seats once the blind and the antes are posted. */
  function Anted(n: nat, w: nat): map<nat, Seat>
    requires w >= BLIND
  {
    map x: nat | 1 <= x <= n :: Seat(Brought(x, w) - BLIND, BLIND, false, [])
  }

  lemma DealtInGathered(s: State, kind: Kind, n: nat, w: nat, deck: seq<Card>)
    requires Gathered(s, kind, n, w) && 2 <= n <= MAX_PLAYERS && w >= BLIND
    ensures Enumerates(Ids(n), s.seats.Keys) && |s.seats| == n
    ensures var d := DealtIn(s, Ids(n), deck);
      && d.active == Ids(n) && d.blind == Some(1) && d.seats == s.seats && d.bet == 0
      && d.game == Game(kind, 0, deck, []) && d.showdown == None
  {
    IdsEnumerate(n, s.seats.Keys);
    assert |s.seats| == |s.seats.Keys|;
    assert IndexOf(Ids(n), 1) == 0;
    assert Rotate(Ids(n), 0) == Ids(n);
    assert FreshSeats(s.seats) == s.seats;
  }

  lemma PostedEvenly(d: State, n: nat, w: nat)
    requires d.active == Ids(n) && d.blind == Some(1) && IsAnte(d.game.kind) && n >= 1 && w >= BLIND
    requires forall x :: x in d.seats <==> 1 <= x <= n
    requires forall x :: x in d.seats ==> d.seats[x] == Seat(Brought(x, w), 0, false, [])
    ensures var u := Posted(d);
      && u.active == Ids(n) && u.bettor == Some(1) && u.turn == Some(1) && u.bet == BLIND
      && u.seats == Anted(n, w) && u.game == d.game
  {
    hide CheckEach, Ids;
    var v := Raise(d, 1, BLIND).state;
    AntesPaid(v, Ids(n));
    CheckEachFrame(v, Ids(n));
    forall x | x in d.seats ensures x in Ids(n) {
      assert Ids(n)[x - 1] == x;
    }
  }

  lemma PostedGathered(s: State, kind: Kind, n: nat, w: nat, deck: seq<Card>)
    requires Gathered(s, kind, n, w) && IsAnte(kind) && 2 <= n <= MAX_PLAYERS && w >= BLIND
    ensures Enumerates(Ids(n), s.seats.Keys) && DealtIn(s, Ids(n), deck).blind.Some?
    ensures var u := Posted(DealtIn(s, Ids(n), deck));
      && u.active == Ids(n) && u.bettor == Some(1) && u.turn == Some(1) && u.bet == BLIND
      && u.seats == Anted(n, w) && u.game == Game(kind, 0, deck, [])
  {
    hide DealtIn, Posted, Enumerates, WellFormed;
    DealtInGathered(s, kind, n, w, deck);
    PostedEvenly(DealtIn(s, Ids(n), deck), n, w);
  }

  /** The hand that begins with this deck. */
  function FirstHand(kind: Kind, n: nat, w: nat, deck: seq<Card>): RoundResult
    requires w >= BLIND
  {
    OpenRound(Game(kind, 0, deck, []), Anted(n, w), Ids(n))
  }

  /** A hand with antes begins: everybody has staked the blind, and the first player is bettor and on turn. */
  ghost predicate Begun(s: State, kind: Kind, n: nat, w: nat, deck: seq<Card>)
    requires w >= BLIND
  {
    && WellFormed(s) && s.active == Ids(n) && s.turn == Some(1) && s.bettor == Some(1) && s.bet == BLIND
    && s.game == FirstHand(kind, n, w, deck).game && s.seats == FirstHand(kind, n, w, deck).seats
    && s.game.kind == kind && s.game.round == 0
    && (forall x :: x in s.seats <==> 1 <= x <= n)
    && forall x :: x in s.seats ==> s.seats[x] == Anted(n, w)[x].(hand := s.seats[x].hand)
  }

  function Opening(n: nat, w: nat, deck: seq<Card>): seq<Command> {
    Arrivals(n, w) + [Start(Ids(n), deck)]
  }

  lemma BeginsHand(s: State, kind: Kind, n: nat, w: nat, deck: seq<Card>)
    requires Gathered(s, kind, n, w) && IsAnte(kind) && 2 <= n <= MAX_PLAYERS && w >= BLIND
    requires multiset(deck) == multiset(NewDeck())
    ensures WellFormed(s) && s.active == [] && Legal(s, Start(Ids(n), deck))
    ensures Begun(Step(s, Start(Ids(n), deck)).state, kind, n, w, deck)
  {
    hide OpenRound, Posted, DealtIn, Enumerates, Seating;
    DealtInGathered(s, kind, n, w, deck);
    PostedGathered(s, kind, n, w, deck);
    StepWellFormed(s, Start(Ids(n), deck));
    OpenRoundFrame(Game(kind, 0, deck, []), Anted(n, w), Ids(n));
  }

  lemma Begin(kind: Kind, n: nat, w: nat, deck: seq<Card>) returns (t: State)
    requires IsAnte(kind) && 2 <= n <= MAX_PLAYERS && w >= BLIND && multiset(deck) == multiset(NewDeck())
    ensures Tracks(kind, Opening(n, w, deck), t, Rota({}, BLIND)) && Begun(t, kind, n, w, deck)
  {
    hide Reaches, Tracks, Gathered, WellFormed, Step, Legal;
    var s := Arrive(kind, n, w);
    BeginsHand(s, kind, n, w, deck);
    IdleTracks(kind, Arrivals(n, w), s, Start(Ids(n), deck));
    t := Step(s, Start(Ids(n), deck)).state;
  }
}
