/** The cards shown as making a hand (Poker/src/hand.rs, cards_used and cards_used_against). */
module Highlights {
  import opened Options
  import opened Sums
  import opened Sorting
  import opened Cards
  import opened HandRanks
  import opened Straights
  import opened Evaluation

  /** The value by which cards are picked: the ace counts 14. */
  function Height(c: Card): nat { AceHigh(Value(c)) }

  function HeightKey(c: Card): int { Height(c) }

  function ByHeight(source: seq<Card>): seq<Card> { Sort(source, HeightKey) }

  function Having(cards: seq<Card>, target: nat): seq<Card> {
    if cards == [] then []
    else if Height(cards[0]) == target then [cards[0]] + Having(cards[1..], target)
    else Having(cards[1..], target)
  }

  function Take<T>(s: seq<T>, limit: nat): seq<T> { if limit < |s| then s[..limit] else s }

  function TakeValue(source: seq<Card>, target: nat, limit: nat): seq<Card> {
    Take(Having(ByHeight(source), target), limit)
  }

  /** The first card of the height that is not yet in `taken`. */
  function Find(cards: seq<Card>, target: nat, taken: seq<Card>): Option<Card> {
    if cards == [] then None
    else if Height(cards[0]) == target && cards[0] !in taken then Some(cards[0])
    else Find(cards[1..], target, taken)
  }

  function StraightHeights(top: nat): seq<nat>
    requires top >= 4
  {
    if top == 5 then [5, 4, 3, 2, 14] else [top, top - 1, top - 2, top - 3, top - 4]
  }

  function FindEach(cards: seq<Card>, targets: seq<nat>): seq<Card> {
    if targets == [] then [] else
      match Find(cards, targets[0], [])
      case None => FindEach(cards, targets[1..])
      case Some(c) => [c] + FindEach(cards, targets[1..])
  }

  function TakeStraight(source: seq<Card>, top: nat): seq<Card>
    requires top >= 4
  {
    FindEach(ByHeight(source), StraightHeights(top))
  }

  /** A straight below four would make the program subtract below zero. */
  predicate Counts(r: HandRank) {
    match r
    case Straight(top, _) => top >= 4
    case StraightFlush(top, _) => top >= 4
    case _ => true
  }

  function CardsUsed(r: HandRank, source: seq<Card>): seq<Card>
    requires Counts(r)
  {
    match r
    case NoCards => []
    case HighCard(_, _) => Take(ByHeight(source), 1)
    case OnePair(pair, _, _) => TakeValue(source, pair, 2)
    case TwoPair(high, low, _, _) => TakeValue(source, high, 2) + TakeValue(source, low, 2)
    case ThreeOfAKind(three, _, _) => TakeValue(source, three, 3)
    case Straight(top, _) => TakeStraight(source, top)
    case Flush(_, _) => Take(ByHeight(source), 5)
    case FullHouse(three, pair, _) => TakeValue(source, three, 3) + TakeValue(source, pair, 2)
    case FourOfAKind(four, _, _) => TakeValue(source, four, 4)
    case StraightFlush(top, _) => TakeStraight(source, top)
    case RoyalFlush(_) => TakeStraight(source, 14)
  }

  // ----- kickers -----

  /** The first position at which the two lists differ, or their common length. */
  function FirstDifference(own: seq<nat>, other: seq<nat>): (d: nat)
    ensures d <= |own| && d <= |other| && forall k :: 0 <= k < d ==> own[k] == other[k]
    ensures d < |own| && d < |other| ==> own[d] != other[d]
  {
    if own == [] || other == [] || own[0] != other[0] then 0
    else 1 + FirstDifference(own[1..], other[1..])
  }

  /** How many of the own kickers it takes against one opponent. */
  function NeededAgainst(own: seq<nat>, other: seq<nat>): (n: nat)
    ensures n <= |own| && n <= |other|
  {
    var d := FirstDifference(own, other);
    if d < |own| && d < |other| then d + 1 else d
  }

  function Needed(own: seq<nat>, others: seq<seq<nat>>): (n: nat)
    ensures n <= |own|
  {
    if others == [] then 0 else Max(NeededAgainst(own, others[0]), Needed(own, others[1..]))
  }

  /** Own kickers up to the first difference from every opponent. */
  method NeededKickers(own: seq<nat>, others: seq<seq<nat>>) returns (kickers: seq<nat>)
    ensures kickers == own[..Needed(own, others)]
  {
    var needed: nat := 0;
    for i := 0 to |others|
      invariant needed <= |own|
      invariant Max(needed, Needed(own, others[i..])) == Needed(own, others)
    {
      var other := others[i];
      assert others[i..][0] == other && others[i..][1..] == others[i + 1..];
      ghost var before := needed;
      var index: nat := 0;
      while index < |own| && index < |other|
        invariant index <= |own| && index <= |other| && forall k :: 0 <= k < index ==> own[k] == other[k]
        invariant needed == Max(before, index)
      {
        needed := Max(needed, index + 1);
        if own[index] != other[index] {
          break;
        }
        index := index + 1;
      }
      DifferenceAt(own, other, index);
    }
    kickers := own[..needed];
  }

  lemma DifferenceAt(own: seq<nat>, other: seq<nat>, index: nat)
    requires index <= |own| && index <= |other| && forall k :: 0 <= k < index ==> own[k] == other[k]
    requires index == |own| || index == |other| || own[index] != other[index]
    ensures FirstDifference(own, other) == index
  {
  }

  /** The prefix shown is as long as the longest any one opponent calls for, and no longer. */
  lemma {:induction false} NeededIsMaximum(own: seq<nat>, others: seq<seq<nat>>)
    ensures forall i :: 0 <= i < |others| ==> NeededAgainst(own, others[i]) <= Needed(own, others)
    ensures others == [] ==> Needed(own, others) == 0
    ensures others != [] ==> exists i :: 0 <= i < |others| && NeededAgainst(own, others[i]) == Needed(own, others)
  {
    if others != [] {
      var rest := others[1..];
      NeededIsMaximum(own, rest);
      if Needed(own, others) == NeededAgainst(own, others[0]) {
      } else {
        var i :| 0 <= i < |rest| && NeededAgainst(own, rest[i]) == Needed(own, rest);
        assert others[i + 1] == rest[i];
      }
      forall i | 0 <= i < |others| ensures NeededAgainst(own, others[i]) <= Needed(own, others) {
        assert i > 0 ==> others[i] == rest[i - 1];
      }
    }
  }

  /** It separates the player from every opponent who differs within the common length. */
  lemma NeededSeparates(own: seq<nat>, others: seq<seq<nat>>, i: nat, k: nat)
    requires i < |others| && k < |own| && k < |others[i]| && own[k] != others[i][k]
    ensures var shown := own[..Needed(own, others)]; !(shown <= others[i])
  {
    NeededIsMaximum(own, others);
    var d := FirstDifference(own, others[i]);
    assert own[..Needed(own, others)][d] == own[d];
  }

  /** Adds, for each listed value, the first card of that height not already shown. */
  function WithKickers(shown: seq<Card>, source: seq<Card>, values: seq<nat>): seq<Card>
    decreases |values|
  {
    if values == [] then shown else
      match Find(ByHeight(source), values[0], shown)
      case None => WithKickers(shown, source, values[1..])
      case Some(c) => WithKickers(shown + [c], source, values[1..])
  }

  method AddKickers(shown: seq<Card>, source: seq<Card>, values: seq<nat>) returns (cards: seq<Card>)
    ensures cards == WithKickers(shown, source, values)
  {
    cards := shown;
    for i := 0 to |values|
      invariant WithKickers(cards, source, values[i..]) == WithKickers(shown, source, values)
    {
      assert values[i..][1..] == values[i + 1..];
      var found := Find(ByHeight(source), values[i], cards);
      if found.Some? {
        cards := cards + [found.value];
      }
    }
  }

  /** Whether two ranks of one category tie up to their kickers. */
  predicate SamePrimaries(r: HandRank, other: HandRank) {
    match (r, other)
    case (HighCard(_, _), HighCard(_, _)) => true
    case (OnePair(p, _, _), OnePair(p', _, _)) => p == p'
    case (TwoPair(h, l, _, _), TwoPair(h', l', _, _)) => h == h' && l == l'
    case (ThreeOfAKind(t, _, _), ThreeOfAKind(t', _, _)) => t == t'
    case (FourOfAKind(f, _, _), FourOfAKind(f', _, _)) => f == f'
    case (_, _) => false
  }

  /** The kickers of the opponents who tie up to theirs. */
  function RivalKickers(r: HandRank, ranks: seq<HandRank>): seq<seq<nat>> {
    if ranks == [] then []
    else if SamePrimaries(r, ranks[0]) then [KeyOf(ranks[0]).kickers] + RivalKickers(r, ranks[1..])
    else RivalKickers(r, ranks[1..])
  }

  predicate HasKickers(r: HandRank) {
    r.HighCard? || r.OnePair? || r.TwoPair? || r.ThreeOfAKind? || r.FourOfAKind?
  }

  /** The cards shown before any kicker. */
  function Base(r: HandRank, source: seq<Card>): seq<Card>
    requires Counts(r)
  {
    if r.HighCard? then [] else CardsUsed(r, source)
  }

  /** The kickers that the opponents call for. */
  function CalledFor(r: HandRank, ranks: seq<HandRank>): seq<nat> {
    KeyOf(r).kickers[..Needed(KeyOf(r).kickers, RivalKickers(r, ranks))]
  }

  predicate SameCategory(r: HandRank, ranks: seq<HandRank>) {
    exists i :: 0 <= i < |ranks| && ranks[i].RankValue() == r.RankValue()
  }

  function CardsUsedAgainst(r: HandRank, source: seq<Card>, ranks: seq<HandRank>): seq<Card>
    requires Counts(r)
  {
    if !SameCategory(r, ranks) || !HasKickers(r) then CardsUsed(r, source)
    else WithKickers(Base(r, source), source, CalledFor(r, ranks))
  }

  /**
   For the rank of a hand of different deck cards: different cards of that hand, those that make it first, then one
   card of its own for each kicker called for that is not an ace.
   */
  method SelectCards(r: HandRank, source: seq<Card>, ranks: seq<HandRank>) returns (cards: seq<Card>)
    requires Counts(r)
    ensures cards == CardsUsedAgainst(r, source, ranks)
    ensures DeckHand(source) && r == Evaluate(source) ==> Shows(cards, source, ranks)
  {
    hide Evaluate, Shows, CardsUsed, DeckHand;
    if DeckHand(source) && r == Evaluate(source) { ShownKickers(source, ranks); }
    cards := CardsUsed(r, source);
    if !SameCategory(r, ranks) || !HasKickers(r) {
      return;
    }
    if r.HighCard? {
      cards := [];
    }
    var kickers := NeededKickers(KeyOf(r).kickers, RivalKickers(r, ranks));
    cards := AddKickers(cards, source, kickers);
  }

  // ----- the cards shown are cards of the hand, each once -----

  /** Different cards of the deck, whatever their flags. */
  predicate DeckHand(hand: seq<Card>) {
    DistinctFaces(hand) && forall i :: 0 <= i < |hand| ==> IsDeckFace(Face(hand[i]))
  }

  /** Cards of the hand, none twice. */
  ghost predicate Picks(cards: seq<Card>, hand: seq<Card>) {
    Distinct(cards) && forall c :: c in cards ==> c in hand
  }

  lemma PicksAreDeckHand(cards: seq<Card>, hand: seq<Card>)
    requires DeckHand(hand) && Picks(cards, hand)
    ensures DeckHand(cards)
  {
    forall i | 0 <= i < |cards| ensures IsDeckFace(Face(cards[i])) {
      assert cards[i] in hand;
    }
    forall i, j | 0 <= i < j < |cards| ensures Face(cards[i]) != Face(cards[j]) {
      assert cards[i] in hand && cards[j] in hand;
      var k :| 0 <= k < |hand| && hand[k] == cards[i];
      var l :| 0 <= l < |hand| && hand[l] == cards[j];
      assert k != l;
      assert if k < l then Face(hand[k]) != Face(hand[l]) else Face(hand[l]) != Face(hand[k]);
    }
  }

  lemma ByHeightPicks(hand: seq<Card>)
    requires Distinct(hand)
    ensures Picks(ByHeight(hand), hand) && |ByHeight(hand)| == |hand|
  {
    DistinctSorted(hand, HeightKey);
    SortMembers(hand, HeightKey);
    SortSorted(hand, HeightKey);
  }

  lemma DeckHandDistinct(hand: seq<Card>)
    requires DeckHand(hand)
    ensures Distinct(hand)
  {
    forall i, j | 0 <= i < j < |hand| ensures hand[i] != hand[j] {
      assert Face(hand[i]) != Face(hand[j]);
    }
  }

  lemma {:induction false} HavingPicks(cards: seq<Card>, target: nat)
    requires Distinct(cards)
    ensures Picks(Having(cards, target), cards)
    ensures forall c :: c in Having(cards, target) ==> Height(c) == target
  {
    if cards != [] {
      var rest := cards[1..];
      HavingPicks(rest, target);
      assert cards[0] !in rest;
      assert cards == [cards[0]] + rest;
    }
  }

  /** Of deck cards, exactly those with the value have its height. */
  lemma {:induction false} HavingCount(cards: seq<Card>, v: nat)
    requires 1 <= v <= 13 && forall i :: 0 <= i < |cards| ==> 1 <= Value(cards[i]) <= 13
    ensures |Having(cards, AceHigh(v))| == CountOf(Values(cards), v)
  {
    if cards != [] {
      HavingCount(cards[1..], v);
      assert Values(cards) == [Value(cards[0])] + Values(cards[1..]);
    }
  }

  lemma CountForgetsOrder(hand: seq<Card>, cards: seq<Card>, v: nat)
    requires multiset(hand) == multiset(cards)
    ensures CountOf(Values(hand), v) == CountOf(Values(cards), v)
  {
    MapPermuted(hand, cards, Value);
  }

  /** Taking as many cards of a value as there are takes exactly those. */
  lemma TakeAll(hand: seq<Card>, v: nat, n: nat)
    requires DeckHand(hand) && 1 <= v <= 13 && CountOf(Values(hand), v) == n
    ensures var u := TakeValue(hand, AceHigh(v), n);
      |u| == n && Picks(u, hand) && forall c :: c in u ==> Value(c) == v
  {
    DeckHandDistinct(hand);
    ByHeightPicks(hand);
    var sorted := ByHeight(hand);
    SortSorted(hand, HeightKey);
    PicksAreDeckHand(sorted, hand);
    forall i | 0 <= i < |sorted| ensures 1 <= Value(sorted[i]) <= 13 {
      DeckCardValue(sorted[i]);
    }
    HavingPicks(sorted, AceHigh(v));
    HavingCount(sorted, v);
    CountForgetsOrder(hand, sorted, v);
    var u := Having(sorted, AceHigh(v));
    forall c | c in u ensures Value(c) == v {
      assert c in sorted;
      var i :| 0 <= i < |sorted| && sorted[i] == c;
    }
  }

  lemma TakePrefix<T>(s: seq<T>, n: nat)
    ensures Take(s, n) <= s && |Take(s, n)| == if n < |s| then n else |s|
  {
  }

  lemma {:induction false} FindMeaning(cards: seq<Card>, target: nat, taken: seq<Card>)
    ensures var f := Find(cards, target, taken);
      && (f.Some? ==> f.value in cards && f.value !in taken && Height(f.value) == target)
      && (f.None? ==> forall c :: c in cards && Height(c) == target ==> c in taken)
  {
    if cards != [] {
      FindMeaning(cards[1..], target, taken);
      assert cards == [cards[0]] + cards[1..];
    }
  }

  /** With every height present, one card of each is found. */
  lemma {:induction false} FindEachMeaning(cards: seq<Card>, targets: seq<nat>)
    requires forall i :: 0 <= i < |targets| ==> exists c :: c in cards && Height(c) == targets[i]
    ensures var u := FindEach(cards, targets);
      |u| == |targets| && forall i :: 0 <= i < |u| ==> u[i] in cards && Height(u[i]) == targets[i]
  {
    if targets != [] {
      FindMeaning(cards, targets[0], []);
      var rest := targets[1..];
      forall i | 0 <= i < |rest| ensures exists c :: c in cards && Height(c) == rest[i] {
        assert rest[i] == targets[i + 1];
      }
      FindEachMeaning(cards, rest);
    }
  }

  // ----- evaluated alone, the cards shown make the same hand -----

  ghost predicate AllOf(cards: seq<Card>, v: nat, n: nat) {
    |cards| == n && forall c :: c in cards ==> Value(c) == v
  }

  lemma {:induction false} CountAll(cards: seq<Card>, v: nat, w: nat)
    requires forall c :: c in cards ==> Value(c) == v
    ensures CountOf(Values(cards), w) == if w == v then |cards| else 0
  {
    if cards != [] {
      CountAll(cards[1..], v, w);
      assert Values(cards) == [Value(cards[0])] + Values(cards[1..]);
    }
  }

  lemma CountBoth(a: seq<Card>, b: seq<Card>, v: nat, w: nat, x: nat)
    requires v != w && AllOf(a, v, |a|) && AllOf(b, w, |b|)
    ensures CountOf(Values(a + b), x) == if x == v then |a| else if x == w then |b| else 0
  {
    CountAll(a, v, x);
    CountAll(b, w, x);
    assert Values(a + b) == Values(a) + Values(b);
  }

  /** Two cards of one value differ in suit. */
  lemma SuitsDiffer(cards: seq<Card>)
    requires DeckHand(cards) && |cards| >= 2 && Value(cards[0]) == Value(cards[1])
    ensures !NeighboursMatch(cards)
  {
    FaceDetermined(cards[0], cards[1]);
    assert Face(cards[0]) != Face(cards[1]);
  }

  lemma HeldHeight(values: seq<nat>, v: nat, w: nat, h: nat)
    requires forall x :: x in values ==> x == v || x == w
    ensures Holds(values, h) ==> h == AceHigh(v) || h == AceHigh(w)
  {
    forall i | 0 <= i < |values| && AceHigh(values[i]) == h ensures h == AceHigh(v) || h == AceHigh(w) {
      assert values[i] in values;
    }
  }

  lemma WheelHolds(values: seq<nat>)
    ensures Wheel(values) ==> forall v: nat :: v in values <==> 1 <= v <= 5
  {
    if Wheel(values) {
      forall v: nat ensures v in values <==> 1 <= v <= 5 {
        assert v in values <==> v in multiset(WHEEL);
      }
    }
  }

  /** Two values make no straight. */
  lemma TooFewForStraight(values: seq<nat>, v: nat, w: nat)
    requires forall x :: x in values ==> x == v || x == w
    ensures StraightTop(values) == None
  {
    StraightTopMeaning(values);
    WheelHolds(values);
    assert Wheel(values) ==> 5 in values && 4 in values && 3 in values;
    forall top: nat ensures !Run(values, top) {
      HeldHeight(values, v, w, top);
      if top >= 2 {
        HeldHeight(values, v, w, top - 1);
        HeldHeight(values, v, w, top - 2);
      }
    }
  }

  lemma ValuesAmong(cards: seq<Card>, v: nat, w: nat)
    requires forall c :: c in cards ==> Value(c) == v || Value(c) == w
    ensures forall x :: x in Values(cards) ==> x == v || x == w
  {
    forall x | x in Values(cards) ensures x == v || x == w {
      var i :| 0 <= i < |cards| && Values(cards)[i] == x;
      assert cards[i] in cards;
    }
  }

  /** Two, three or four cards of one value. */
  lemma EvaluateGroup(u: seq<Card>, v: nat, n: nat)
    requires DeckHand(u) && 2 <= n <= 4 && AllOf(u, v, n)
    ensures var r := Evaluate(u);
      && (n == 2 ==> r.OnePair? && r.pair == AceHigh(v))
      && (n == 3 ==> r.ThreeOfAKind? && r.three == AceHigh(v))
      && (n == 4 ==> r.FourOfAKind? && r.four == AceHigh(v))
  {
    var values := Values(u);
    var p := Profile(values);
    assert u[0] in u && u[1] in u;
    SuitsDiffer(u);
    ValuesAmong(u, v, v);
    TooFewForStraight(values, v, v);
    NibbleValues(u);
    ProfileMeaning(values);
    CountAll(u, v, v);
    assert |p| > 0 && p[0].value == v && p[0].count == n;
    assert |p| <= 1;
  }

  /** Two or three cards of one value and two of another. */
  lemma EvaluateTwoGroups(a: seq<Card>, b: seq<Card>, v: nat, w: nat)
    requires DeckHand(a + b) && v != w && (|a| == 2 || |a| == 3) && AllOf(a, v, |a|) && AllOf(b, w, 2)
    requires 1 <= v <= 13 && 1 <= w <= 13
    ensures var r := Evaluate(a + b);
      && (|a| == 2 ==> r.TwoPair? && r.high == Max(AceHigh(v), AceHigh(w)) && r.low == Min(AceHigh(v), AceHigh(w)))
      && (|a| == 3 ==> r.FullHouse? && r.three == AceHigh(v) && r.pair == AceHigh(w))
  {
    hide Profile, StraightTop, KickersBut, Sort, Map, CardKey;
    var u := a + b;
    var values := Values(u);
    var p := Profile(values);
    assert u[0] == a[0] && u[1] == a[1] && a[0] in a && a[1] in a;
    SuitsDiffer(u);
    ValuesAmong(u, v, w);
    TooFewForStraight(values, v, w);
    NibbleValues(u);
    ProfileMeaning(values);
    CountBoth(a, b, v, w, v);
    CountBoth(a, b, v, w, w);
    LeaderOf(values, p, v, w);
  }

  lemma LeaderOf(values: seq<nat>, p: seq<Tally>, v: nat, w: nat)
    requires v != w && CountOf(values, v) > 0 && CountOf(values, w) > 0 && forall x :: x in values ==> x == v || x == w
    requires |p| > 0 && Leads(values, p[0].value, p[0].count)
    requires |p| > 1 ==> Follows(values, p[0].value, p[1].value, p[1].count)
    requires |p| <= 1 ==> forall x, y :: x in values && y in values ==> x == y
    ensures |p| > 1
    ensures CountOf(values, v) > CountOf(values, w) ==>
      p[0] == Tally(CountOf(values, v), v) && p[1] == Tally(CountOf(values, w), w)
    ensures CountOf(values, v) == CountOf(values, w) ==>
      && p[0].count == p[1].count == CountOf(values, v)
      && ((p[0].value == v && p[1].value == w) || (p[0].value == w && p[1].value == v))
  {
    assert v in values && w in values;
    assert p[0].value in values;
    assert |p| > 1 ==> p[1].value in values;
  }

  // ----- straights -----

  lemma HeldByCard(cards: seq<Card>, h: nat)
    ensures Holds(Values(cards), h) <==> exists c :: c in cards && Height(c) == h
  {
    if Holds(Values(cards), h) {
      var i :| 0 <= i < |cards| && AceHigh(Values(cards)[i]) == h;
      assert cards[i] in cards && Height(cards[i]) == h;
    }
    if c :| c in cards && Height(c) == h {
      var i :| 0 <= i < |cards| && cards[i] == c;
      assert AceHigh(Values(cards)[i]) == h;
    }
  }

  lemma HeightsMeaning(top: nat, h: nat)
    requires top >= 5
    ensures h in StraightHeights(top) <==> if top == 5 then 2 <= h <= 5 || h == 14 else top - 4 <= h <= top
  {
    var s := StraightHeights(top);
    if top == 5 {
      assert s[0] == 5 && s[1] == 4 && s[2] == 3 && s[3] == 2 && s[4] == 14;
    } else {
      assert s[0] == top && s[1] == top - 1 && s[2] == top - 2 && s[3] == top - 3 && s[4] == top - 4;
    }
  }

  /** The heights of the hand's straight are all held. */
  lemma StraightHolds(values: seq<nat>, top: nat, h: nat)
    requires StraightTo(values, top)
    ensures top >= 5 && (top == 5 <==> Wheel(values))
    ensures h in StraightHeights(top) ==> Holds(values, h)
  {
    WheelHolds(values);
    if top >= 5 { HeightsMeaning(top, h); }
    if Wheel(values) && (2 <= h <= 5 || h == 14) {
      var v: nat := if h == 14 then 1 else h;
      assert v in values;
      var k :| 0 <= k < |values| && values[k] == v;
      assert AceHigh(values[k]) == h;
    }
  }

  /** A card of every height of the hand's straight is in the hand. */
  lemma StraightHeld(hand: seq<Card>, top: nat)
    requires StraightTo(Values(hand), top)
    ensures top >= 5
    ensures forall i :: 0 <= i < 5 ==> exists c :: c in hand && Height(c) == StraightHeights(top)[i]
  {
    hide StraightTo;
    StraightHolds(Values(hand), top, 0);
    forall i | 0 <= i < 5 ensures exists c :: c in hand && Height(c) == StraightHeights(top)[i] {
      var h := StraightHeights(top)[i];
      StraightHolds(Values(hand), top, h);
      HeldByCard(hand, h);
    }
  }

  /** Five cards of the five heights of a straight. */
  ghost predicate Fills(u: seq<Card>, top: nat) {
    top >= 5 && |u| == 5 && forall i :: 0 <= i < 5 ==> Height(u[i]) == StraightHeights(top)[i] && 1 <= Value(u[i]) <= 13
  }

  lemma FilledHolds(u: seq<Card>, top: nat, h: nat)
    requires Fills(u, top)
    ensures Holds(Values(u), h) <==> if top == 5 then 2 <= h <= 5 || h == 14 else top - 4 <= h <= top
  {
    hide StraightHeights;
    HeightsCount(top);
    HeldByCard(u, h);
    HeightsMeaning(top, h);
    if h in StraightHeights(top) {
      var i :| 0 <= i < 5 && StraightHeights(top)[i] == h;
      assert u[i] in u;
    }
  }

  lemma FilledWheel(u: seq<Card>)
    requires Fills(u, 5)
    ensures Wheel(Values(u))
  {
    var s := StraightHeights(5);
    assert s[0] == 5 && s[1] == 4 && s[2] == 3 && s[3] == 2 && s[4] == 14;
    assert Values(u) == WHEEL;
  }

  lemma NoWheel(u: seq<Card>, top: nat)
    requires Fills(u, top) && top != 5
    ensures !Wheel(Values(u))
  {
    hide Fills, Values;
    WheelHolds(Values(u));
    FilledHolds(u, top, 14);
    FilledHolds(u, top, 5);
    OfValue(Values(u), 1);
    OfValue(Values(u), 5);
  }

  lemma OfValue(values: seq<nat>, v: nat)
    ensures v in values ==> Holds(values, AceHigh(v))
  {
    if v in values {
      var k :| 0 <= k < |values| && values[k] == v;
    }
  }

  /** Five such cards make that straight and no higher one. */
  lemma FilledStraight(u: seq<Card>, top: nat)
    requires Fills(u, top)
    ensures StraightTo(Values(u), top)
  {
    hide Fills, Values, Wheel, Holds;
    if top == 5 {
      FilledWheel(u);
    } else {
      NoWheel(u, top);
      FilledRun(u, top);
      forall higher: nat | higher > top ensures !Run(Values(u), higher) {
        FilledHolds(u, top, higher);
      }
    }
  }

  lemma FilledRun(u: seq<Card>, top: nat)
    requires Fills(u, top) && top != 5
    ensures Run(Values(u), top)
  {
    hide Values, Holds;
    FilledHolds(u, top, top);
    FilledHolds(u, top, top - 1);
    FilledHolds(u, top, top - 2);
    FilledHolds(u, top, top - 3);
    FilledHolds(u, top, top - 4);
  }

  /** The cards taken for a straight are five cards of the hand, and the same straight. */
  lemma StraightTaken(hand: seq<Card>, top: nat)
    requires DeckHand(hand) && StraightTo(Values(hand), top)
    ensures 5 <= top
    ensures var u := TakeStraight(hand, top);
      Fills(u, top) && Picks(u, hand) && StraightTo(Values(u), top)
  {
    hide StraightHeights, StraightTo, Height;
    StraightHeld(hand, top);
    var sorted := ByHeight(hand);
    SortMembers(hand, HeightKey);
    var u := TakeStraight(hand, top);
    HeightsCount(top);
    FindEachMeaning(sorted, StraightHeights(top));
    forall i | 0 <= i < 5 ensures 1 <= Value(u[i]) <= 13 && u[i] in hand {
      assert u[i] in sorted;
      var k :| 0 <= k < |hand| && hand[k] == u[i];
      DeckCardValue(hand[k]);
    }
    FilledStraight(u, top);
  }

  lemma HeightsCount(top: nat)
    requires top >= 5
    ensures |StraightHeights(top)| == 5 && Distinct(StraightHeights(top))
  {
  }

  lemma SingleValues(values: seq<nat>)
    requires Distinct(values) && values != [] && Nibbles(values)
    ensures |Profile(values)| > 0 && Profile(values)[0].count == 1
  {
    ProfileMeaning(values);
    DistinctCount(values);
  }

  lemma FilledDistinct(u: seq<Card>, top: nat)
    requires Fills(u, top)
    ensures Distinct(Values(u))
  {
    hide StraightHeights;
    HeightsCount(top);
    forall i, j | 0 <= i < j < 5 ensures Values(u)[i] != Values(u)[j] {
      assert Height(u[i]) != Height(u[j]);
    }
  }

  /** Five cards that fill a straight are evaluated as one. */
  lemma EvaluateFilled(u: seq<Card>, top: nat)
    requires Fills(u, top) && StraightTo(Values(u), top)
    ensures var r := Evaluate(u);
      if !NeighboursMatch(u) then r.Straight? && r.top == top
      else if top == 14 then r.RoyalFlush? else r.StraightFlush? && r.top == top
  {
    hide Profile, Values, NeighboursMatch, StraightTop, StraightTo, StraightHeights;
    StraightTopMeaning(Values(u));
    FilledDistinct(u, top);
    NibbleValues(u);
    SingleValues(Values(u));
  }

  // ----- flushes -----

  lemma SuitKept(cards: seq<Card>, hand: seq<Card>)
    requires NeighboursMatch(hand) && forall c :: c in cards ==> c in hand
    ensures NeighboursMatch(cards)
  {
    NeighboursMatchIsOneSuit(hand);
    NeighboursMatchIsOneSuit(cards);
  }

  lemma SuitDistinct(cards: seq<Card>)
    requires DeckHand(cards) && NeighboursMatch(cards)
    ensures Distinct(Values(cards))
  {
    NeighboursMatchIsOneSuit(cards);
    forall i, j | 0 <= i < j < |cards| ensures Values(cards)[i] != Values(cards)[j] {
      assert cards[i] in cards && cards[j] in cards;
      assert Face(cards[i]) != Face(cards[j]);
      FaceDetermined(cards[i], cards[j]);
    }
  }

  lemma HighestFive(hand: seq<Card>)
    requires DeckHand(hand)
    ensures var u := Take(ByHeight(hand), 5);
      Picks(u, hand) && DeckHand(u) && |u| == if |hand| < 5 then |hand| else 5
  {
    DeckHandDistinct(hand);
    ByHeightPicks(hand);
    var u := Take(ByHeight(hand), 5);
    TakePrefix(ByHeight(hand), 5);
    assert forall c :: c in u ==> c in ByHeight(hand);
    PicksAreDeckHand(u, hand);
  }

  lemma HoldsKept(cards: seq<Card>, hand: seq<Card>, h: nat)
    requires forall c :: c in cards ==> c in hand
    ensures Holds(Values(cards), h) ==> Holds(Values(hand), h)
  {
    hide Values, Holds;
    HeldByCard(cards, h);
    HeldByCard(hand, h);
  }

  lemma RunKept(cards: seq<Card>, hand: seq<Card>, top: nat)
    requires forall c :: c in cards ==> c in hand
    ensures Run(Values(cards), top) ==> Run(Values(hand), top)
  {
    hide Values, Holds;
    if top >= 4 {
      HoldsKept(cards, hand, top);
      HoldsKept(cards, hand, top - 1);
      HoldsKept(cards, hand, top - 2);
      HoldsKept(cards, hand, top - 3);
      HoldsKept(cards, hand, top - 4);
    }
  }

  /** The five highest of six or more suited cards are never the wheel: its two has nothing below it. */
  lemma FiveOfSixNoWheel(hand: seq<Card>)
    requires DeckHand(hand) && NeighboursMatch(hand) && |hand| > 5
    ensures !Wheel(Values(Take(ByHeight(hand), 5)))
  {
    var sorted := ByHeight(hand);
    DeckHandDistinct(hand);
    ByHeightPicks(hand);
    PicksAreDeckHand(sorted, hand);
    SuitKept(sorted, hand);
    SuitDistinct(sorted);
    SortSorted(hand, HeightKey);
    var u := Take(sorted, 5);
    WheelHolds(Values(u));
    if 2 in Values(u) {
      var i :| 0 <= i < 5 && Values(u)[i] == 2;
      assert u[i] == sorted[i] && HeightKey(sorted[i]) >= HeightKey(sorted[5]);
      DeckCardValue(sorted[5]);
      assert Values(sorted)[i] != Values(sorted)[5];
    }
  }

  lemma FiveHighestNoStraight(hand: seq<Card>)
    requires DeckHand(hand) && NeighboursMatch(hand) && StraightTop(Values(hand)) == None
    ensures StraightTop(Values(Take(ByHeight(hand), 5))) == None
  {
    var u := Take(ByHeight(hand), 5);
    HighestFive(hand);
    if |hand| <= 5 {
      SortSorted(hand, HeightKey);
      MapPermuted(hand, u, Value);
      StraightForgetsOrder(Values(hand), Values(u));
    } else {
      hide Values, StraightTop, Run, Wheel;
      StraightTopMeaning(Values(hand));
      StraightTopMeaning(Values(u));
      FiveOfSixNoWheel(hand);
      forall top: nat ensures !Run(Values(u), top) {
        RunKept(u, hand, top);
      }
    }
  }

  /** The five highest cards of a flush are a flush. */
  lemma EvaluateHighestFive(hand: seq<Card>)
    requires DeckHand(hand) && Evaluate(hand).Flush?
    ensures Evaluate(Take(ByHeight(hand), 5)).Flush?
  {
    hide Profile, Values, NeighboursMatch, StraightTop, ByHeight;
    var u := Take(ByHeight(hand), 5);
    HighestFive(hand);
    SuitKept(u, hand);
    SuitDistinct(u);
    FiveHighestNoStraight(hand);
    NibbleValues(u);
    SingleValues(Values(u));
  }

  // ----- the whole selection -----

  function TopOf(r: HandRank): Option<nat> {
    match r
    case Straight(top, _) => Some(top)
    case StraightFlush(top, _) => Some(top)
    case RoyalFlush(_) => Some(14)
    case _ => None
  }

  /**
   The same category and primary values; a straight keeps its height and may turn out suited, and the one card of a
   high card, looked at alone, is suited with itself.
   */
  predicate SameHand(r: HandRank, s: HandRank) {
    match r
    case NoCards => s.NoCards?
    case HighCard(_, _) => s.Flush?
    case OnePair(p, _, _) => s.OnePair? && s.pair == p
    case TwoPair(h, l, _, _) => s.TwoPair? && s.high == h && s.low == l
    case ThreeOfAKind(t, _, _) => s.ThreeOfAKind? && s.three == t
    case Straight(top, _) => TopOf(s) == Some(top)
    case Flush(_, _) => s.Flush?
    case FullHouse(t, p, _) => s.FullHouse? && s.three == t && s.pair == p
    case FourOfAKind(f, _, _) => s.FourOfAKind? && s.four == f
    case StraightFlush(top, _) => s.StraightFlush? && s.top == top
    case RoyalFlush(_) => s.RoyalFlush?
  }

  predicate AllHeight(cards: seq<Card>, h: nat, n: nat) {
    |cards| == n && forall i :: 0 <= i < n ==> Height(cards[i]) == h
  }

  /** The heights of the cards shown, in order, where the rank alone fixes them. */
  function ShownHeights(r: HandRank): seq<nat>
    requires Counts(r)
  {
    match r
    case OnePair(p, _, _) => [p, p]
    case TwoPair(h, l, _, _) => [h, h, l, l]
    case ThreeOfAKind(t, _, _) => [t, t, t]
    case Straight(top, _) => if top == 5 then [5, 4, 3, 2, 14] else [top, top - 1, top - 2, top - 3, top - 4]
    case FullHouse(t, p, _) => [t, t, t, p, p]
    case FourOfAKind(f, _, _) => [f, f, f, f]
    case StraightFlush(top, _) => if top == 5 then [5, 4, 3, 2, 14] else [top, top - 1, top - 2, top - 3, top - 4]
    case RoyalFlush(_) => [14, 13, 12, 11, 10]
    case _ => []
  }

  /** The n highest cards of the hand, or all of a smaller one, in falling height. */
  ghost predicate Topmost(cards: seq<Card>, hand: seq<Card>, n: nat) {
    && |cards| == (if |hand| < n then |hand| else n)
    && (forall i, j :: 0 <= i < j < |cards| ==> Height(cards[i]) >= Height(cards[j]))
    && forall c, d :: c in cards && d in hand && d !in cards ==> Height(d) <= Height(c)
  }

  lemma TakeTopmost(hand: seq<Card>, n: nat)
    ensures Topmost(Take(ByHeight(hand), n), hand, n)
  {
    SortSorted(hand, HeightKey);
    SortMembers(hand, HeightKey);
    var sorted := ByHeight(hand);
    var u := Take(sorted, n);
    forall i, j | 0 <= i < j < |u| ensures Height(u[i]) >= Height(u[j]) {
      assert HeightKey(sorted[i]) >= HeightKey(sorted[j]);
    }
    forall c, d | c in u && d in hand && d !in u ensures Height(d) <= Height(c) {
      assert d in sorted;
      var i :| 0 <= i < |u| && u[i] == c;
      var j :| 0 <= j < |sorted| && sorted[j] == d;
      assert j >= |u| && HeightKey(sorted[i]) >= HeightKey(sorted[j]);
    }
  }

  /** What is shown for a rank of the hand. */
  ghost predicate ShownRight(r: HandRank, cards: seq<Card>, hand: seq<Card>)
    requires Counts(r)
  {
    match r
    case NoCards => cards == []
    case HighCard(_, _) => Topmost(cards, hand, 1)
    case Flush(_, _) => Topmost(cards, hand, 5)
    case _ => Heights(cards) == ShownHeights(r)
  }

  /** One value taken n times. */
  lemma GroupTaken(hand: seq<Card>, n: nat, primary: nat, kickers: seq<nat>)
    requires DeckHand(hand) && 2 <= n <= 4 && Group(Values(hand), n, primary, kickers)
    ensures var u := TakeValue(hand, primary, n);
      && Picks(u, hand) && DeckHand(u) && AllHeight(u, primary, n)
      && var r := Evaluate(u);
         && (n == 2 ==> r.OnePair? && r.pair == primary)
         && (n == 3 ==> r.ThreeOfAKind? && r.three == primary)
         && (n == 4 ==> r.FourOfAKind? && r.four == primary)
  {
    hide TakeValue, Evaluate, OthersInOrder;
    var v :| Leads(Values(hand), v, n) && primary == AceHigh(v);
    DeckValues(hand, v);
    TakeAll(hand, v, n);
    var u := TakeValue(hand, primary, n);
    PicksAreDeckHand(u, hand);
    EvaluateGroup(u, v, n);
  }

  /** Two values taken, n cards of the one and two of the other. */
  lemma BothTaken(hand: seq<Card>, v: nat, w: nat, n: nat)
    requires DeckHand(hand) && (n == 2 || n == 3) && v in Values(hand) && w in Values(hand) && v != w
    requires CountOf(Values(hand), v) == n && CountOf(Values(hand), w) == 2
    ensures AllHeight(TakeValue(hand, AceHigh(v), n), AceHigh(v), n)
    ensures AllHeight(TakeValue(hand, AceHigh(w), 2), AceHigh(w), 2)
    ensures var u := TakeValue(hand, AceHigh(v), n) + TakeValue(hand, AceHigh(w), 2);
      && Picks(u, hand)
      && var r := Evaluate(u);
         && (n == 2 ==> r.TwoPair? && r.high == Max(AceHigh(v), AceHigh(w)) && r.low == Min(AceHigh(v), AceHigh(w)))
         && (n == 3 ==> r.FullHouse? && r.three == AceHigh(v) && r.pair == AceHigh(w))
  {
    hide TakeValue, Evaluate;
    DeckValues(hand, v);
    DeckValues(hand, w);
    TakeAll(hand, v, n);
    TakeAll(hand, w, 2);
    var a, b := TakeValue(hand, AceHigh(v), n), TakeValue(hand, AceHigh(w), 2);
    assert Picks(a + b, hand) by {
      forall i, j | 0 <= i < |a| && 0 <= j < |b| ensures a[i] != b[j] {
        assert a[i] in a && b[j] in b;
      }
    }
    PicksAreDeckHand(a + b, hand);
    EvaluateTwoGroups(a, b, v, w);
  }

  lemma GroupsTaken(hand: seq<Card>, n: nat, first: nat, second: nat, kickers: seq<nat>)
    requires DeckHand(hand) && (n == 2 || n == 3) && Groups(Values(hand), n, 2, first, second, kickers)
    ensures AllHeight(TakeValue(hand, first, n), first, n) && AllHeight(TakeValue(hand, second, 2), second, 2)
    ensures var u := TakeValue(hand, first, n) + TakeValue(hand, second, 2);
      && Picks(u, hand)
      && var r := Evaluate(u);
         && (n == 2 ==> r.TwoPair? && r.high == Max(first, second) && r.low == Min(first, second))
         && (n == 3 ==> r.FullHouse? && r.three == first && r.pair == second)
    ensures n == 2 ==>
      var u := TakeValue(hand, second, n) + TakeValue(hand, first, 2);
      && Picks(u, hand)
      && var r := Evaluate(u); r.TwoPair? && r.high == Max(first, second) && r.low == Min(first, second)
  {
    hide TakeValue, Evaluate, OthersInOrder;
    var v, w :| Leads(Values(hand), v, n) && Follows(Values(hand), v, w, 2)
      && first == AceHigh(v) && second == AceHigh(w);
    BothTaken(hand, v, w, n);
    if n == 2 { BothTaken(hand, w, v, n); }
  }

  lemma StraightTakenAlone(hand: seq<Card>, top: nat)
    requires DeckHand(hand) && StraightTo(Values(hand), top)
    ensures top >= 5 && Picks(TakeStraight(hand, top), hand) && Fills(TakeStraight(hand, top), top)
    ensures var r := Evaluate(TakeStraight(hand, top));
      && TopOf(r) == Some(top)
      && (NeighboursMatch(hand) ==> if top == 14 then r.RoyalFlush? else r.StraightFlush?)
  {
    hide Evaluate, TakeStraight, NeighboursMatch, StraightTo, Fills;
    StraightTaken(hand, top);
    var u := TakeStraight(hand, top);
    EvaluateFilled(u, top);
    if NeighboursMatch(hand) { SuitKept(u, hand); }
  }

  /** What the rank of a hand of different deck cards says about the hand. */
  lemma RankRead(hand: seq<Card>)
    requires DeckHand(hand)
    ensures var r := Evaluate(hand);
      && Describes(Values(hand), r) && (r.NoCards? <==> hand == [])
      && (r.StraightFlush? ==> NeighboursMatch(hand) && r.top != 14) && (r.RoyalFlush? ==> NeighboursMatch(hand))
  {
    hide Values, Profile, NeighboursMatch, StraightTop, Describes, Classify;
    EvaluateDescribes(hand);
    ClassifyRead(Values(hand), Arranged(hand), NeighboursMatch(hand), StraightTop(Values(hand)), Profile(Values(hand)));
  }

  lemma ClassifyRead(values: seq<nat>, cards: seq<Card>, flush: bool, top: Option<nat>, p: seq<Tally>)
    ensures var r := Classify(values, cards, flush, top, p);
      !r.NoCards? && (r.StraightFlush? ==> flush && r.top != 14) && (r.RoyalFlush? ==> flush)
  {
  }

  /**
   The cards shown for a hand of different deck cards are different cards of that hand, and evaluated
   alone they have the same category and primary values.
   */
  lemma ShownAlone(hand: seq<Card>)
    requires DeckHand(hand)
    ensures var r := Evaluate(hand);
      && Counts(r) && Picks(CardsUsed(r, hand), hand) && SameHand(r, Evaluate(CardsUsed(r, hand)))
      && ShownRight(r, CardsUsed(r, hand), hand)
      && (r.HighCard? ==> Highest(CardsUsed(r, hand), hand))
  {
    RankRead(hand);
    ShownByRank(hand, Evaluate(hand));
    if Evaluate(hand).HighCard? { HighestShown(hand); }
  }

  /** One card, and none of the hand is higher. */
  predicate Highest(cards: seq<Card>, hand: seq<Card>) {
    |cards| == 1 && forall c :: c in hand ==> Height(c) <= Height(cards[0])
  }

  lemma HighestShown(hand: seq<Card>)
    requires hand != []
    ensures Highest(Take(ByHeight(hand), 1), hand) && Evaluate(Take(ByHeight(hand), 1)).Flush?
  {
    hide Evaluate;
    SortSorted(hand, HeightKey);
    SortMembers(hand, HeightKey);
    var u := Take(ByHeight(hand), 1);
    forall c | c in hand ensures Height(c) <= Height(u[0]) {
      var i :| 0 <= i < |ByHeight(hand)| && ByHeight(hand)[i] == c;
      assert HeightKey(ByHeight(hand)[0]) >= HeightKey(ByHeight(hand)[i]);
    }
    ValuesAmong(u, Value(u[0]), Value(u[0]));
    TooFewForStraight(Values(u), Value(u[0]), Value(u[0]));
    SuitedSingles(u);
  }

  /** A suited hand of different values without a straight is a flush. */
  lemma SuitedSingles(hand: seq<Card>)
    requires hand != [] && NeighboursMatch(hand) && Distinct(Values(hand)) && StraightTop(Values(hand)) == None
    ensures Evaluate(hand).Flush? && Evaluate(hand).RankValue() == 6
  {
    hide Profile, Values, NeighboursMatch, StraightTop;
    NibbleValues(hand);
    SingleValues(Values(hand));
  }

  lemma ShownByRank(hand: seq<Card>, r: HandRank)
    requires DeckHand(hand) && r == Evaluate(hand) && Describes(Values(hand), r) && (r.NoCards? <==> hand == [])
    requires (r.StraightFlush? ==> NeighboursMatch(hand) && r.top != 14) && (r.RoyalFlush? ==> NeighboursMatch(hand))
    ensures Counts(r) && Picks(CardsUsed(r, hand), hand) && SameHand(r, Evaluate(CardsUsed(r, hand)))
    ensures ShownRight(r, CardsUsed(r, hand), hand)
  {
    hide Evaluate, Values, TakeValue, TakeStraight, Group, Groups, StraightTo, NeighboursMatch, DeckHand;
    hide ByHeight, SortedList, Topmost, Height;
    match r
    case NoCards =>
      EvaluateNothing();
    case HighCard(_, _) =>
      HighestPicks(hand, 1);
      HighestShown(hand);
      TakeTopmost(hand, 1);
    case OnePair(p, k, _) => GroupTaken(hand, 2, p, k);
    case ThreeOfAKind(t, k, _) => GroupTaken(hand, 3, t, k);
    case FourOfAKind(f, k, _) => GroupTaken(hand, 4, f, k);
    case TwoPair(h, l, k, _) =>
      if Groups(Values(hand), 2, 2, h, l, k) {
        GroupsTaken(hand, 2, h, l, k);
      } else {
        GroupsTaken(hand, 2, l, h, k);
      }
    case FullHouse(t, p, _) =>
      var k :| Groups(Values(hand), 3, 2, t, p, k);
      GroupsTaken(hand, 3, t, p, k);
    case Flush(_, _) =>
      HighestFive(hand);
      EvaluateHighestFive(hand);
      TakeTopmost(hand, 5);
    case Straight(top, _) => StraightTakenAlone(hand, top);
    case StraightFlush(top, _) => StraightTakenAlone(hand, top);
    case RoyalFlush(_) => StraightTakenAlone(hand, 14);
  }

  lemma EvaluateNothing()
    ensures Evaluate([]) == NoCards
  {
  }

  lemma HighestPicks(hand: seq<Card>, n: nat)
    requires DeckHand(hand)
    ensures Picks(Take(ByHeight(hand), n), hand)
  {
    DeckHandDistinct(hand);
    ByHeightPicks(hand);
    TakePrefix(ByHeight(hand), n);
    assert forall c :: c in Take(ByHeight(hand), n) ==> c in ByHeight(hand);
  }

  // ----- against opponents -----

  /** Adding kickers never repeats a card and never leaves the hand. */
  lemma {:induction false} KickersPicked(shown: seq<Card>, source: seq<Card>, values: seq<nat>)
    requires Picks(shown, source)
    ensures Picks(WithKickers(shown, source, values), source)
    ensures shown <= WithKickers(shown, source, values)
    decreases |values|
  {
    if values != [] {
      SortMembers(source, HeightKey);
      FindMeaning(ByHeight(source), values[0], shown);
      match Find(ByHeight(source), values[0], shown)
      case None => KickersPicked(shown, source, values[1..]);
      case Some(c) => KickersPicked(shown + [c], source, values[1..]);
    }
  }

  /** Whatever the opponents hold, the cards shown are different cards of the player's own hand. */
  lemma ShownAgainst(hand: seq<Card>, ranks: seq<HandRank>)
    requires DeckHand(hand)
    ensures Counts(Evaluate(hand)) && Picks(CardsUsedAgainst(Evaluate(hand), hand, ranks), hand)
    ensures !Evaluate(hand).HighCard? ==>
      CardsUsed(Evaluate(hand), hand) <= CardsUsedAgainst(Evaluate(hand), hand, ranks)
  {
    hide Evaluate, CardsUsed, SameHand, WithKickers, Needed, RivalKickers;
    ShownAlone(hand);
    var r := Evaluate(hand);
    var own := KeyOf(r).kickers;
    var needed := own[..Needed(own, RivalKickers(r, ranks))];
    KickersPicked(CardsUsed(r, hand), hand, needed);
    KickersPicked([], hand, needed);
  }

  /** The rivals are the opponents of the same category and primary values. */
  lemma {:induction false} RivalsListed(r: HandRank, ranks: seq<HandRank>, k: seq<nat>)
    ensures k in RivalKickers(r, ranks) <==>
      exists i :: 0 <= i < |ranks| && SamePrimaries(r, ranks[i]) && KeyOf(ranks[i]).kickers == k
  {
    if ranks != [] {
      var rest := ranks[1..];
      RivalsListed(r, rest, k);
      assert ranks == [ranks[0]] + rest;
      if i :| 0 <= i < |ranks| && SamePrimaries(r, ranks[i]) && KeyOf(ranks[i]).kickers == k {
        assert i > 0 ==> rest[i - 1] == ranks[i];
      }
      if i :| 0 <= i < |rest| && SamePrimaries(r, rest[i]) && KeyOf(rest[i]).kickers == k {
        assert ranks[i + 1] == rest[i];
      }
    }
  }

  /** The kickers called for tell the player apart from every rival who differs within the common length. */
  lemma KickersTellApart(r: HandRank, ranks: seq<HandRank>, i: nat, k: nat)
    requires i < |ranks| && SamePrimaries(r, ranks[i])
    requires var own, other := KeyOf(r).kickers, KeyOf(ranks[i]).kickers; k < |own| && k < |other| && own[k] != other[k]
    ensures var own := KeyOf(r).kickers; !(own[..Needed(own, RivalKickers(r, ranks))] <= KeyOf(ranks[i]).kickers)
  {
    var own, rivals := KeyOf(r).kickers, RivalKickers(r, ranks);
    RivalsListed(r, ranks, KeyOf(ranks[i]).kickers);
    var j :| 0 <= j < |rivals| && rivals[j] == KeyOf(ranks[i]).kickers;
    NeededSeparates(own, rivals, j, k);
  }

  // ----- which kickers the cards shown contain -----

  /** The values without the aces, which kickers list as 1. */
  function NonAces(values: seq<nat>): seq<nat> {
    if values == [] then []
    else if values[0] == 1 then NonAces(values[1..])
    else [values[0]] + NonAces(values[1..])
  }

  function Heights(cards: seq<Card>): (r: seq<nat>)
    ensures |r| == |cards| && forall i :: 0 <= i < |cards| ==> r[i] == Height(cards[i])
  {
    Map(cards, Height)
  }

  /** How many cards of the height are not yet shown. */
  function Free(source: seq<Card>, shown: seq<Card>, h: nat): nat {
    if source == [] then 0
    else (if Height(source[0]) == h && source[0] !in shown then 1 else 0) + Free(source[1..], shown, h)
  }

  lemma {:induction false} FreeExists(source: seq<Card>, shown: seq<Card>, h: nat)
    ensures Free(source, shown, h) > 0 ==> exists c :: c in source && Height(c) == h && c !in shown
  {
    if source != [] && !(Height(source[0]) == h && source[0] !in shown) {
      FreeExists(source[1..], shown, h);
      assert forall c :: c in source[1..] ==> c in source;
    }
  }

  /** Showing one more card of one height uses up one of that height and none of another. */
  lemma {:induction false} FreeAfter(source: seq<Card>, shown: seq<Card>, c: Card, h: nat)
    requires Distinct(source)
    ensures Height(c) != h || c !in source ==> Free(source, shown + [c], h) == Free(source, shown, h)
    ensures Height(c) == h && c in source && c !in shown ==> Free(source, shown + [c], h) == Free(source, shown, h) - 1
  {
    if source != [] {
      FreeAfter(source[1..], shown, c, h);
      assert source[0] !in source[1..];
      assert source[0] in shown + [c] <==> source[0] in shown || source[0] == c;
    }
  }

  /** With none of its cards shown, all cards of a height are free. */
  lemma {:induction false} FreeIsHaving(source: seq<Card>, shown: seq<Card>, h: nat)
    requires forall c :: c in shown ==> Height(c) != h
    ensures Free(source, shown, h) == |Having(source, h)|
  {
    if source != [] { FreeIsHaving(source[1..], shown, h); }
  }

  lemma HeightNeverOne(c: Card)
    ensures Height(c) != 1
  {
  }

  /** There are enough cards not yet shown for every listed value but the ace. */
  ghost predicate Enough(source: seq<Card>, shown: seq<Card>, values: seq<nat>) {
    forall v :: v in values && v != 1 ==> CountOf(values, v) <= Free(source, shown, v)
  }

  lemma CountTail(values: seq<nat>, w: nat)
    requires values != []
    ensures CountOf(values, w) == (if values[0] == w then 1 else 0) + CountOf(values[1..], w)
  {
    assert values == [values[0]] + values[1..];
  }

  /** The first listed value finds a card unless it is the ace, and leaves enough for the rest. */
  lemma KickerFound(source: seq<Card>, shown: seq<Card>, values: seq<nat>)
    requires Distinct(source) && values != [] && Enough(source, shown, values)
    ensures var f := Find(ByHeight(source), values[0], shown);
      && (f.None? <==> values[0] == 1)
      && (f.None? ==> Enough(source, shown, values[1..]))
      && (f.Some? ==> Height(f.value) == values[0] && Enough(source, shown + [f.value], values[1..]))
  {
    hide Free, Find, CountOf;
    var v, rest := values[0], values[1..];
    SortMembers(source, HeightKey);
    FindMeaning(ByHeight(source), v, shown);
    FreeExists(source, shown, v);
    CountTail(values, v);
    var f := Find(ByHeight(source), v, shown);
    if f.Some? { HeightNeverOne(f.value); }
    forall w | w in rest && w != 1
      ensures f.None? ==> CountOf(rest, w) <= Free(source, shown, w)
      ensures f.Some? ==> CountOf(rest, w) <= Free(source, shown + [f.value], w)
    {
      CountTail(values, w);
      if f.Some? { FreeAfter(source, shown, f.value, w); }
    }
  }

  /** Every listed value but the ace adds a card of its own, as long as there are enough of them. */
  lemma {:induction false} KickersAdded(shown: seq<Card>, source: seq<Card>, values: seq<nat>)
    requires Distinct(source) && Enough(source, shown, values)
    ensures var cards := WithKickers(shown, source, values);
      shown <= cards && Heights(cards[|shown|..]) == NonAces(values)
    decreases |values|
  {
    hide Free, Find, CountOf, Enough, ByHeight, Height;
    if values != [] {
      KickerFound(source, shown, values);
      match Find(ByHeight(source), values[0], shown)
      case None => KickersAdded(shown, source, values[1..]);
      case Some(c) =>
        KickersAdded(shown + [c], source, values[1..]);
        var cards := WithKickers(shown, source, values);
        assert cards[|shown|..] == [c] + cards[|shown| + 1..];
    }
  }

  lemma TakenHeights(source: seq<Card>, target: nat, limit: nat)
    ensures forall c :: c in TakeValue(source, target, limit) ==> Height(c) == target
  {
    HavingHeights(ByHeight(source), target);
    var having := Having(ByHeight(source), target);
    TakePrefix(having, limit);
    assert forall c :: c in Take(having, limit) ==> c in having;
  }

  lemma {:induction false} HavingHeights(cards: seq<Card>, target: nat)
    ensures forall c :: c in Having(cards, target) ==> Height(c) == target
  {
    if cards != [] { HavingHeights(cards[1..], target); }
  }

  lemma {:induction false} KickersAreOthers(values: seq<nat>, a: nat, b: nat, v: nat)
    ensures v in KickersBut(values, a, b) <==> v in values && v != a && v != b
    ensures CountOf(KickersBut(values, a, b), v) <= CountOf(values, v)
  {
    KickersMultiset(values, a, b, v);
    assert v in KickersBut(values, a, b) <==> v in multiset(KickersBut(values, a, b));
    assert v in values <==> v in multiset(values);
  }

  /** No card of a kicker's height is among the cards shown before, and the hand has as many as the kickers call for. */
  lemma KickersFree(hand: seq<Card>, v: nat)
    requires DeckHand(hand) && HasKickers(Evaluate(hand)) && v != 1 && v in KeyOf(Evaluate(hand)).kickers
    ensures Counts(Evaluate(hand)) && (forall c :: c in Base(Evaluate(hand), hand) ==> Height(c) != v)
    ensures v in Values(hand) && CountOf(KeyOf(Evaluate(hand)).kickers, v) <= CountOf(Values(hand), v)
  {
    hide Evaluate, TakeValue, DeckHand, Values;
    RankRead(hand);
    KickersFreeFor(hand, Evaluate(hand), v);
  }

  lemma KickersFreeFor(hand: seq<Card>, r: HandRank, v: nat)
    requires DeckHand(hand) && Describes(Values(hand), r) && HasKickers(r) && v != 1 && v in KeyOf(r).kickers
    ensures Counts(r) && (forall c :: c in Base(r, hand) ==> Height(c) != v)
    ensures v in Values(hand) && CountOf(KeyOf(r).kickers, v) <= CountOf(Values(hand), v)
  {
    hide Evaluate, TakeValue, Values, OthersInOrder, Leads, Follows;
    match r
    case HighCard(vs, _) =>
      assert v in vs <==> v in multiset(vs);
      assert v in Values(hand) <==> v in multiset(Values(hand));
    case OnePair(p, k, _) => GroupFree(hand, 2, p, k, v);
    case ThreeOfAKind(p, k, _) => GroupFree(hand, 3, p, k, v);
    case FourOfAKind(p, k, _) => GroupFree(hand, 4, p, k, v);
    case TwoPair(h, l, k, _) =>
      if Groups(Values(hand), 2, 2, h, l, k) { GroupsFree(hand, h, l, k, v); } else { GroupsFree(hand, l, h, k, v); }
  }

  lemma GroupFree(hand: seq<Card>, n: nat, primary: nat, kickers: seq<nat>, v: nat)
    requires DeckHand(hand) && Group(Values(hand), n, primary, kickers) && v != 1 && v in kickers
    ensures forall c :: c in TakeValue(hand, primary, n) ==> Height(c) != v
    ensures v in Values(hand) && CountOf(kickers, v) <= CountOf(Values(hand), v)
  {
    hide TakeValue, Values, KickersBut, OthersInOrder, Leads;
    var w :| Leads(Values(hand), w, n) && primary == AceHigh(w) && OthersInOrder(Values(hand), w, w, kickers);
    OthersAreKickers(Values(hand), w, w, kickers);
    KickersAreOthers(Values(hand), w, w, v);
    TakenHeights(hand, primary, n);
    OtherHeight(hand, v, w);
  }

  lemma GroupsFree(hand: seq<Card>, first: nat, second: nat, kickers: seq<nat>, v: nat)
    requires DeckHand(hand) && Groups(Values(hand), 2, 2, first, second, kickers) && v != 1 && v in kickers
    ensures forall c :: c in TakeValue(hand, first, 2) || c in TakeValue(hand, second, 2) ==> Height(c) != v
    ensures v in Values(hand) && CountOf(kickers, v) <= CountOf(Values(hand), v)
  {
    hide TakeValue, Values, KickersBut, OthersInOrder, Leads, Follows;
    var w, x :| Leads(Values(hand), w, 2) && Follows(Values(hand), w, x, 2)
      && first == AceHigh(w) && second == AceHigh(x)
      && OthersInOrder(Values(hand), w, x, kickers);
    OthersAreKickers(Values(hand), w, x, kickers);
    KickersAreOthers(Values(hand), w, x, v);
    TakenHeights(hand, first, 2);
    TakenHeights(hand, second, 2);
    OtherHeight(hand, v, w);
    OtherHeight(hand, v, x);
  }

  lemma OtherHeight(hand: seq<Card>, v: nat, w: nat)
    requires DeckHand(hand) && v in Values(hand) && v != w && v != 1
    ensures AceHigh(w) != v
  {
    DeckValues(hand, v);
  }

  /** The prefix of a list calls for no more of a value than the list. */
  lemma PrefixCount(values: seq<nat>, n: nat, v: nat)
    requires n <= |values|
    ensures CountOf(values[..n], v) <= CountOf(values, v)
    ensures v in values[..n] ==> v in values
  {
    assert values == values[..n] + values[n..];
  }

  lemma EnoughCards(hand: seq<Card>, n: nat)
    requires DeckHand(hand) && HasKickers(Evaluate(hand)) && n <= |KeyOf(Evaluate(hand)).kickers|
    ensures Counts(Evaluate(hand)) && Enough(hand, Base(Evaluate(hand), hand), KeyOf(Evaluate(hand)).kickers[..n])
  {
    hide Evaluate, Base, CountOf, Free, DeckHand;
    ShownAlone(hand);
    var r := Evaluate(hand);
    var kickers := KeyOf(r).kickers;
    forall v | v in kickers[..n] && v != 1 ensures CountOf(kickers[..n], v) <= Free(hand, Base(r, hand), v) {
      PrefixCount(kickers, n, v);
      KickersFree(hand, v);
      FreeIsHaving(hand, Base(r, hand), v);
      CardsOfValue(hand, v);
    }
  }

  lemma CardsOfValue(hand: seq<Card>, v: nat)
    requires DeckHand(hand) && v in Values(hand) && v != 1
    ensures |Having(hand, v)| == CountOf(Values(hand), v)
  {
    hide Values, CountOf;
    DeckValues(hand, v);
    forall i | 0 <= i < |hand| ensures 1 <= Value(hand[i]) <= 13 {
      DeckCardValue(hand[i]);
    }
    HavingCount(hand, v);
  }

  /** What the cards shown for a hand against its opponents are. */
  ghost predicate Shows(cards: seq<Card>, hand: seq<Card>, ranks: seq<HandRank>)
    requires Counts(Evaluate(hand))
  {
    var r := Evaluate(hand);
    && Picks(cards, hand)
    && if SameCategory(r, ranks) && HasKickers(r) then
         Base(r, hand) <= cards && Heights(cards[|Base(r, hand)|..]) == NonAces(CalledFor(r, ranks))
       else
         cards == CardsUsed(r, hand)
  }

  /**
   For a hand of different deck cards each kicker called for adds a card of its own of that height exactly when it is
   not an ace; the added cards come in the order of the kickers, after the cards that make the hand.
   */
  lemma ShownKickers(hand: seq<Card>, ranks: seq<HandRank>)
    requires DeckHand(hand)
    ensures Counts(Evaluate(hand)) && Shows(CardsUsedAgainst(Evaluate(hand), hand, ranks), hand, ranks)
  {
    hide Evaluate, CardsUsed, WithKickers, Needed, RivalKickers, Picks, DeckHand, Enough, SameHand;
    ShownAlone(hand);
    ShownAgainst(hand, ranks);
    var r := Evaluate(hand);
    if SameCategory(r, ranks) && HasKickers(r) {
      DeckHandDistinct(hand);
      EnoughCards(hand, |CalledFor(r, ranks)|);
      KickersAdded(Base(r, hand), hand, CalledFor(r, ranks));
    }
  }

  // ----- when the cards shown tell a rival apart -----

  lemma {:induction false} NonAcesConcat(a: seq<nat>, b: seq<nat>)
    ensures NonAces(a + b) == NonAces(a) + NonAces(b)
  {
    if a == [] {
      assert a + b == b;
    } else {
      assert (a + b)[1..] == a[1..] + b;
      NonAcesConcat(a[1..], b);
    }
  }

  lemma PrefixAfter<T>(p: seq<T>, a: seq<T>, b: seq<T>)
    ensures p + a <= p + b <==> a <= b
  {
    if p + a <= p + b {
      assert forall i :: 0 <= i < |a| ==> a[i] == (p + a)[|p| + i] == (p + b)[|p| + i] == b[i];
    }
  }

  /** Where two lists share their first d values, dropping aces compares them from there on. */
  lemma AfterCommon(own: seq<nat>, other: seq<nat>, d: nat, n: nat)
    requires d <= n <= |own| && d <= |other| && own[..d] == other[..d]
    ensures NonAces(own[..n]) <= NonAces(other) <==> NonAces(own[d..n]) <= NonAces(other[d..])
  {
    assert own[..n] == own[..d] + own[d..n] && other == other[..d] + other[d..];
    NonAcesConcat(own[..d], own[d..n]);
    NonAcesConcat(other[..d], other[d..]);
    PrefixAfter(NonAces(own[..d]), NonAces(own[d..n]), NonAces(other[d..]));
  }

  /** A rival: the same category and primary values, in a category with kickers. */
  predicate Rival(r: HandRank, other: HandRank) { Even(r, other) && HasKickers(r) }

  lemma RivalsAreEven(r: HandRank, other: HandRank)
    ensures SamePrimaries(r, other) <==> Rival(r, other)
  {
  }

  /** The two lists agree up to position k, and both go on there. */
  predicate AgreeUpTo(own: seq<nat>, other: seq<nat>, k: nat) {
    k < |own| && k < |other| && forall j :: 0 <= j < k ==> own[j] == other[j]
  }

  lemma NeededBeyond(own: seq<nat>, other: seq<nat>, k: nat)
    ensures k < NeededAgainst(own, other) <==> AgreeUpTo(own, other, k)
  {
  }

  /** A kicker is called for exactly when some rival has the same kickers before it and one in its place. */
  lemma CalledForIff(r: HandRank, ranks: seq<HandRank>, k: nat)
    ensures CalledFor(r, ranks) <= Kickers(r)
    ensures k < |CalledFor(r, ranks)| <==>
      exists i :: 0 <= i < |ranks| && Rival(r, ranks[i]) && AgreeUpTo(Kickers(r), Kickers(ranks[i]), k)
  {
    hide Needed, NeededAgainst, Rival, SamePrimaries, AgreeUpTo, RivalKickers;
    var own, rivals := KeyOf(r).kickers, RivalKickers(r, ranks);
    NeededIsMaximum(own, rivals);
    assert own == Kickers(r);
    if k < Needed(own, rivals) {
      var j :| 0 <= j < |rivals| && NeededAgainst(own, rivals[j]) == Needed(own, rivals);
      RivalsListed(r, ranks, rivals[j]);
      var i :| 0 <= i < |ranks| && SamePrimaries(r, ranks[i]) && KeyOf(ranks[i]).kickers == rivals[j];
      RivalsAreEven(r, ranks[i]);
      NeededBeyond(own, rivals[j], k);
      assert KeyOf(ranks[i]).kickers == Kickers(ranks[i]);
    }
    if i :| 0 <= i < |ranks| && Rival(r, ranks[i]) && AgreeUpTo(Kickers(r), Kickers(ranks[i]), k) {
      RivalsAreEven(r, ranks[i]);
      assert KeyOf(ranks[i]).kickers == Kickers(ranks[i]);
      RivalsListed(r, ranks, Kickers(ranks[i]));
      var j :| 0 <= j < |rivals| && rivals[j] == Kickers(ranks[i]);
      NeededBeyond(own, rivals[j], k);
    }
  }

  /** The heights shown do not occur at the front of the rival's kickers, aces left out. */
  predicate ToldApart(shown: seq<Card>, rival: HandRank) {
    !(Heights(shown) <= NonAces(KeyOf(rival).kickers))
  }

  /**
   Against a rival of equal primary values whose kickers first differ at d, the kickers shown tell the two apart
   exactly when they do so from d on with the aces left out: always when neither differing kicker is an ace, never
   when the own one is an ace and the last called for.
   */
  lemma ShownTellApartIff(hand: seq<Card>, ranks: seq<HandRank>, i: nat)
    requires DeckHand(hand) && i < |ranks| && SamePrimaries(Evaluate(hand), ranks[i])
    requires var own, other := KeyOf(Evaluate(hand)).kickers, KeyOf(ranks[i]).kickers;
      FirstDifference(own, other) < |own| && FirstDifference(own, other) < |other|
    ensures var r := Evaluate(hand); var own, other := KeyOf(r).kickers, KeyOf(ranks[i]).kickers;
      var d := FirstDifference(own, other); var n := |CalledFor(r, ranks)|;
      && Counts(r) && d < n
      && var cards := CardsUsedAgainst(r, hand, ranks);
         && Base(r, hand) <= cards
         && var shown := cards[|Base(r, hand)|..];
            && (ToldApart(shown, ranks[i]) <==> !(NonAces(own[d..n]) <= NonAces(other[d..])))
            && (own[d] != 1 && other[d] != 1 ==> ToldApart(shown, ranks[i]))
            && (own[d] == 1 && n == d + 1 ==> !ToldApart(shown, ranks[i]))
  {
    hide Evaluate, CardsUsedAgainst, Base, Needed, RivalKickers, FirstDifference, DeckHand, Counts, Picks;
    ShownKickers(hand, ranks);
    var r := Evaluate(hand);
    var own, other := KeyOf(r).kickers, KeyOf(ranks[i]).kickers;
    var d, n := FirstDifference(own, other), |CalledFor(r, ranks)|;
    SameRankValue(r, ranks[i]);
    RivalNeeded(r, ranks, i);
    assert own[..d] == other[..d];
    AfterCommon(own, other, d, n);
    NonAcesFrom(own[d..n]);
    NonAcesFrom(other[d..]);
    if own[d] == 1 && n == d + 1 { assert own[d..n] == [1]; }
  }

  lemma NonAcesFrom(values: seq<nat>)
    ensures values != [] && values[0] != 1 ==> NonAces(values) != [] && NonAces(values)[0] == values[0]
    ensures values == [1] ==> NonAces(values) == []
  {
  }

  lemma SameRankValue(r: HandRank, other: HandRank)
    requires SamePrimaries(r, other)
    ensures other.RankValue() == r.RankValue() && HasKickers(r)
  {
  }

  lemma RivalNeeded(r: HandRank, ranks: seq<HandRank>, i: nat)
    requires i < |ranks| && SamePrimaries(r, ranks[i])
    requires var own, other := KeyOf(r).kickers, KeyOf(ranks[i]).kickers;
      FirstDifference(own, other) < |own| && FirstDifference(own, other) < |other|
    ensures FirstDifference(KeyOf(r).kickers, KeyOf(ranks[i]).kickers) < |CalledFor(r, ranks)|
  {
    hide FirstDifference, Needed;
    var own, rivals := KeyOf(r).kickers, RivalKickers(r, ranks);
    RivalsListed(r, ranks, KeyOf(ranks[i]).kickers);
    var j :| 0 <= j < |rivals| && rivals[j] == KeyOf(ranks[i]).kickers;
    NeededIsMaximum(own, rivals);
    assert NeededAgainst(own, rivals[j]) <= Needed(own, rivals);
  }
}
