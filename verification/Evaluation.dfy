/** Classifying a hand of any length (Poker/src/hand.rs, evaluate and count_values). */
module Evaluation {
  import opened Options
  import opened Sums
  import Orders
  import opened Sorting
  import opened Cards
  import opened HandRanks
  import opened Straights
  import opened Sieves

  function Values(hand: seq<Card>): (values: seq<nat>)
    ensures |values| == |hand| && forall i :: 0 <= i < |hand| ==> values[i] == Value(hand[i])
  {
    Map(hand, Value)
  }

  /** Value first, then suit. */
  function CardKey(c: Card): int { Value(c) * 4 + Suit(c) }

  function Arranged(hand: seq<Card>): seq<Card> { Sort(hand, CardKey) }

  /** Every card agrees in suit with its neighbour. */
  predicate NeighboursMatch(hand: seq<Card>) {
    forall i :: 0 <= i < |hand| - 1 ==> Suit(hand[i]) == Suit(hand[i + 1])
  }

  function CountOf(values: seq<nat>, v: nat): nat { multiset(values)[v] }

  /** The tally of values, one increment per card. */
  method CountValues(values: seq<nat>) returns (counts: map<nat, nat>)
    ensures counts.Keys == set v | v in values
    ensures forall v :: v in counts ==> counts[v] == CountOf(values, v)
  {
    counts := map[];
    for i := 0 to |values|
      invariant counts.Keys == set v | v in values[..i]
      invariant forall v :: v in counts ==> counts[v] == CountOf(values[..i], v)
    {
      var v := values[i];
      assert values[..i + 1] == values[..i] + [v];
      counts := counts[v := (if v in counts then counts[v] else 0) + 1];
    }
    assert values[..|values|] == values;
  }

  datatype Tally = Tally(count: nat, value: nat)

  /** Larger counts first, then larger values. */
  function TallyKey(t: Tally): int { t.count * 16 + t.value }

  function TallyOf(values: seq<nat>): nat -> Tally {
    (v: nat) => Tally(CountOf(values, v), v)
  }

  function Tallies(values: seq<nat>, order: seq<nat>): (ts: seq<Tally>)
    ensures |ts| == |order| && forall i :: 0 <= i < |order| ==> ts[i] == Tally(CountOf(values, order[i]), order[i])
  {
    Map(order, TallyOf(values))
  }

  /** The distinct values in one particular order; the map of the program hands them out in any order. */
  function DistinctValues(values: seq<nat>): seq<nat> { Dedup(Sort(values, Ident)) }

  function Profile(values: seq<nat>): seq<Tally> {
    Sort(Tallies(values, DistinctValues(values)), TallyKey)
  }

  function KickersBut(values: seq<nat>, a: nat, b: nat): seq<nat> {
    if values == [] then []
    else if values[0] != a && values[0] != b then [values[0]] + KickersBut(values[1..], a, b)
    else KickersBut(values[1..], a, b)
  }

  function Max(a: nat, b: nat): nat { if a > b then a else b }
  function Min(a: nat, b: nat): nat { if a > b then b else a }

  /** The branches of the program after the straights and flushes have been looked up. */
  function Classify(values: seq<nat>, cards: seq<Card>, flush: bool, top: Option<nat>, profile: seq<Tally>): HandRank {
    if flush && top == Some(14) then RoyalFlush(cards)
    else if flush && top.Some? then StraightFlush(top.value, cards)
    else if |profile| > 0 && profile[0].count == 4 then
      FourOfAKind(AceHigh(profile[0].value), KickersBut(values, profile[0].value, profile[0].value), cards)
    else if |profile| > 1 && profile[0].count == 3 && profile[1].count == 2 then
      FullHouse(AceHigh(profile[0].value), AceHigh(profile[1].value), cards)
    else if flush then Flush(Sort(values, Ident), cards)
    else if top.Some? then Straight(top.value, cards)
    else if |profile| > 0 && profile[0].count == 3 then
      ThreeOfAKind(AceHigh(profile[0].value), KickersBut(values, profile[0].value, profile[0].value), cards)
    else if |profile| > 1 && profile[0].count == 2 && profile[1].count == 2 then
      TwoPair(Max(AceHigh(profile[0].value), AceHigh(profile[1].value)),
              Min(AceHigh(profile[0].value), AceHigh(profile[1].value)),
              KickersBut(values, profile[0].value, profile[1].value), cards)
    else if |profile| > 0 && profile[0].count == 2 then
      OnePair(AceHigh(profile[0].value), KickersBut(values, profile[0].value, profile[0].value), cards)
    else HighCard(Sort(values, Ident), cards)
  }

  function Evaluate(hand: seq<Card>): HandRank {
    if hand == [] then NoCards else
      var values := Values(hand);
      Classify(values, Arranged(hand), NeighboursMatch(hand), StraightTop(values), Profile(values))
  }

  // ----- the declarative specification -----

  ghost predicate OneSuit(hand: seq<Card>) {
    forall a, b :: a in hand && b in hand ==> Suit(a) == Suit(b)
  }

  /** `v` occurs c times; everything else occurs less often, or as often with a smaller value. */
  ghost predicate Leads(values: seq<nat>, v: nat, c: nat) {
    && c == CountOf(values, v) > 0
    && forall w :: w in values && w != v ==> CountOf(values, w) < c || (CountOf(values, w) == c && w < v)
  }

  /** The same among the values other than `v`. */
  ghost predicate Follows(values: seq<nat>, v: nat, w: nat, c: nat) {
    && w != v && c == CountOf(values, w) > 0
    && forall x :: x in values && x != v && x != w ==> CountOf(values, x) < c || (CountOf(values, x) == c && x < w)
  }

  ghost predicate IsStraight(values: seq<nat>) { exists top: nat :: StraightTo(values, top) }

  ghost predicate LeadCount(values: seq<nat>, c: nat) { exists v :: Leads(values, v, c) }

  ghost predicate Shape(values: seq<nat>, c: nat, d: nat) {
    exists v, w :: Leads(values, v, c) && Follows(values, v, w, d)
  }

  /** What a non-empty hand shows, category by category and independently of the others. */
  datatype Traits = Traits(
    oneSuit: bool, straight: bool, aceHigh: bool,
    quads: bool, full: bool, trips: bool, pairs: bool, pair: bool)

  ghost function TraitsOf(hand: seq<Card>): Traits {
    var values := Values(hand);
    Traits(OneSuit(hand), IsStraight(values), StraightTo(values, 14), LeadCount(values, 4), Shape(values, 3, 2),
           LeadCount(values, 3), Shape(values, 2, 2), LeadCount(values, 2))
  }

  /** The condition of each category, excluding the ones above it. */
  predicate Qualifies(empty: bool, t: Traits, category: nat) {
    if empty then category == 0 else
      match category
      case 10 => t.oneSuit && t.aceHigh
      case 9 => t.oneSuit && t.straight && !t.aceHigh
      case 8 => t.quads && !(t.oneSuit && t.straight)
      case 7 => t.full && !(t.oneSuit && t.straight)
      case 6 => t.oneSuit && !t.straight && !t.quads && !t.full
      case 5 => t.straight && !t.oneSuit && !t.quads && !t.full
      case 4 => t.trips && !t.full && !t.oneSuit && !t.straight
      case 3 => t.pairs && !t.oneSuit && !t.straight
      case 2 => t.pair && !t.pairs && !t.oneSuit && !t.straight
      case 1 => !t.oneSuit && !t.straight && !t.quads && !t.trips && !t.pair
      case _ => false
  }

  /** The same cards, largest value first and larger suits before smaller ones. */
  ghost predicate SortedCards(hand: seq<Card>, cards: seq<nat>) {
    && multiset(cards) == multiset(hand)
    && forall i, j :: 0 <= i < j < |cards| ==>
         && cards[i] < 256 && cards[j] < 256
         && (Value(cards[i]) > Value(cards[j])
             || (Value(cards[i]) == Value(cards[j]) && Suit(cards[i]) >= Suit(cards[j])))
  }

  /** Which positions hold neither of the two values. */
  function OtherMask(values: seq<nat>, a: nat, b: nat): (mask: seq<bool>)
    ensures |mask| == |values| && forall i :: 0 <= i < |values| ==> (mask[i] <==> values[i] != a && values[i] != b)
  {
    seq(|values|, i requires 0 <= i < |values| => values[i] != a && values[i] != b)
  }

  /** The values other than the two, in hand order: each stands behind as many as come before it in the hand. */
  ghost predicate OthersInOrder(values: seq<nat>, a: nat, b: nat, kickers: seq<nat>) {
    Sifted(values, OtherMask(values, a, b), kickers)
  }

  lemma {:induction false} KickersInOrder(values: seq<nat>, a: nat, b: nat)
    ensures OthersInOrder(values, a, b, KickersBut(values, a, b))
  {
    if values != [] {
      KickersInOrder(values[1..], a, b);
      var mask := OtherMask(values, a, b);
      assert mask[1..] == OtherMask(values[1..], a, b);
      if mask[0] {
        SiftedFront(values, mask, KickersBut(values[1..], a, b));
      } else {
        assert values[..0] + values[1..] == values[1..] && mask[..0] + mask[1..] == mask[1..];
        SiftedSkip(values, mask, 0, KickersBut(values[1..], a, b));
      }
    }
  }

  lemma OthersAreKickers(values: seq<nat>, a: nat, b: nat, kickers: seq<nat>)
    requires OthersInOrder(values, a, b, kickers)
    ensures kickers == KickersBut(values, a, b)
  {
    KickersInOrder(values, a, b);
    SiftedUnique(values, OtherMask(values, a, b), kickers, KickersBut(values, a, b));
  }

  /** The leading value occurs c times; its ace-high form and the other values, in hand order. */
  ghost predicate Group(values: seq<nat>, c: nat, primary: nat, kickers: seq<nat>) {
    exists v :: Leads(values, v, c) && primary == AceHigh(v) && OthersInOrder(values, v, v, kickers)
  }

  ghost predicate Groups(values: seq<nat>, c: nat, d: nat, first: nat, second: nat, kickers: seq<nat>) {
    exists v, w :: Leads(values, v, c) && Follows(values, v, w, d) && first == AceHigh(v) && second == AceHigh(w)
      && OthersInOrder(values, v, w, kickers)
  }

  ghost predicate SortedList(values: seq<nat>, vs: seq<nat>) {
    Falling(vs) && multiset(vs) == multiset(values)
  }

  /** What the primary values and kickers of a rank say about the values of the hand. */
  ghost predicate Describes(values: seq<nat>, r: HandRank) {
    match r
    case NoCards => values == []
    case HighCard(vs, _) => SortedList(values, vs)
    case Flush(vs, _) => SortedList(values, vs)
    case OnePair(p, k, _) => Group(values, 2, p, k)
    case ThreeOfAKind(t, k, _) => Group(values, 3, t, k)
    case FourOfAKind(f, k, _) => Group(values, 4, f, k)
    case TwoPair(h, l, k, _) => h > l && (Groups(values, 2, 2, h, l, k) || Groups(values, 2, 2, l, h, k))
    case FullHouse(t, p, _) => exists k :: Groups(values, 3, 2, t, p, k)
    case Straight(top, _) => StraightTo(values, top)
    case StraightFlush(top, _) => StraightTo(values, top)
    case RoyalFlush(_) => StraightTo(values, 14)
  }

  // ----- the profile -----

  lemma {:induction false} NeighboursMatchIsOneSuit(hand: seq<Card>)
    ensures NeighboursMatch(hand) <==> OneSuit(hand)
  {
    if |hand| >= 2 {
      var rest := hand[1..];
      NeighboursMatchIsOneSuit(rest);
      assert hand == [hand[0]] + rest;
      if NeighboursMatch(hand) {
        forall i | 0 <= i < |rest| - 1 ensures Suit(rest[i]) == Suit(rest[i + 1]) {
          assert Suit(hand[i + 1]) == Suit(hand[i + 2]);
        }
        assert Suit(hand[0]) == Suit(hand[1]) && hand[1] == rest[0];
        assert forall a :: a in rest ==> Suit(a) == Suit(rest[0]);
      }
    }
  }

  lemma DistinctValuesMeaning(values: seq<nat>)
    ensures var d := DistinctValues(values); Distinct(d) && forall v :: v in d <==> v in values
  {
    SortFalls(values);
    DedupDescending(Sort(values, Ident));
    DedupKeepsMembers(Sort(values, Ident));
    SortMembers(values, Ident);
  }

  ghost predicate Nibbles(values: seq<nat>) { forall v :: v in values ==> v < 16 }

  /** Every distinct value has exactly its own tally in the profile, and the tallies descend. */
  lemma ProfileTallies(values: seq<nat>)
    requires Nibbles(values)
    ensures var p := Profile(values);
      && (forall i :: 0 <= i < |p| ==> p[i].value in values && p[i].count == CountOf(values, p[i].value))
      && (forall v :: v in values ==> Tally(CountOf(values, v), v) in p)
      && Descending(p, TallyKey)
      && (forall i, j :: 0 <= i < j < |p| ==> p[i].value != p[j].value)
  {
    var d := DistinctValues(values);
    DistinctValuesMeaning(values);
    var ts := Tallies(values, d);
    SortSorted(ts, TallyKey);
    SortMembers(ts, TallyKey);
    var p := Profile(values);
    forall i | 0 <= i < |p| ensures p[i].value in values && p[i].count == CountOf(values, p[i].value) {
      assert p[i] in ts;
    }
    forall v | v in values ensures Tally(CountOf(values, v), v) in p {
      var k :| 0 <= k < |d| && d[k] == v;
      assert ts[k] in ts;
    }
    DistinctSorted(ts, TallyKey);
    forall i, j | 0 <= i < j < |p| ensures p[i].value != p[j].value {
      assert p[i] != p[j];
    }
  }

  lemma {:induction false} DistinctCount<T>(s: seq<T>)
    ensures Distinct(s) <==> forall x :: multiset(s)[x] == (if x in s then 1 else 0)
  {
    if s != [] {
      var rest := s[1..];
      DistinctCount(rest);
      assert s == [s[0]] + rest;
      if Distinct(s) {
        assert s[0] !in rest;
        assert Distinct(rest);
      }
      if forall x :: multiset(s)[x] == (if x in s then 1 else 0) {
        assert multiset(s)[s[0]] == 1;
        forall x ensures multiset(rest)[x] == (if x in rest then 1 else 0) {
          assert multiset(s)[x] == multiset(rest)[x] + (if x == s[0] then 1 else 0);
        }
      }
    }
  }

  lemma DistinctSorted<T>(s: seq<T>, key: T -> int)
    requires Distinct(s)
    ensures Distinct(Sort(s, key))
  {
    SortSorted(s, key);
    SortMembers(s, key);
    DistinctCount(s);
    DistinctCount(Sort(s, key));
  }

  lemma SmallerKey(a: Tally, b: Tally)
    requires a.value < 16 && b.value < 16 && a.value != b.value
    ensures TallyKey(a) >= TallyKey(b) <==> b.count < a.count || (b.count == a.count && b.value < a.value)
  {
  }

  /** The first two tallies are the leader and the runner-up. */
  lemma ProfileMeaning(values: seq<nat>)
    requires Nibbles(values)
    ensures var p := Profile(values);
      && (p == [] <==> values == [])
      && (|p| > 0 ==> Leads(values, p[0].value, p[0].count))
      && (|p| > 1 ==> Follows(values, p[0].value, p[1].value, p[1].count))
      && (|p| <= 1 ==> forall v, w :: v in values && w in values ==> v == w)
  {
    var p := Profile(values);
    ProfileTallies(values);
    if values != [] { assert Tally(CountOf(values, values[0]), values[0]) in p; }
    forall w | w in values && |p| > 0 && w != p[0].value
      ensures CountOf(values, w) < p[0].count || (CountOf(values, w) == p[0].count && w < p[0].value)
    {
      var k :| 0 <= k < |p| && p[k] == Tally(CountOf(values, w), w);
      SmallerKey(p[0], p[k]);
    }
    forall w | w in values && |p| > 1 && w != p[0].value && w != p[1].value
      ensures CountOf(values, w) < p[1].count || (CountOf(values, w) == p[1].count && w < p[1].value)
    {
      var k :| 0 <= k < |p| && p[k] == Tally(CountOf(values, w), w);
      SmallerKey(p[1], p[k]);
    }
    if |p| <= 1 {
      forall v, w | v in values && w in values ensures v == w {
        assert Tally(CountOf(values, v), v) in p && Tally(CountOf(values, w), w) in p;
      }
    }
  }

  lemma LeadsUnique(values: seq<nat>, v: nat, c: nat, v': nat, c': nat)
    requires Leads(values, v, c) && Leads(values, v', c')
    ensures v == v' && c == c'
  {
    assert v in values && v' in values;
  }

  lemma FollowsUnique(values: seq<nat>, v: nat, w: nat, c: nat, w': nat, c': nat)
    requires Follows(values, v, w, c) && Follows(values, v, w', c')
    ensures w == w' && c == c'
  {
    assert w in values && w' in values;
  }

  /** Lead counts and shapes can be read off the profile. */
  lemma ShapeByProfile(values: seq<nat>, c: nat, d: nat)
    requires Nibbles(values) && values != []
    ensures var p := Profile(values);
      && |p| > 0
      && (LeadCount(values, c) <==> p[0].count == c)
      && (Shape(values, c, d) <==> |p| > 1 && p[0].count == c && p[1].count == d)
  {
    var p := Profile(values);
    ProfileMeaning(values);
    if v :| Leads(values, v, c) {
      LeadsUnique(values, v, c, p[0].value, p[0].count);
    }
    if v, w :| Leads(values, v, c) && Follows(values, v, w, d) {
      LeadsUnique(values, v, c, p[0].value, p[0].count);
      assert v in values && w in values;
      FollowsUnique(values, v, w, d, p[1].value, p[1].count);
    }
  }

  lemma ArrangedSorted(hand: seq<Card>)
    ensures SortedCards(hand, Arranged(hand))
  {
    SortSorted(hand, CardKey);
  }

  lemma SortedValues(values: seq<nat>)
    ensures Falling(Sort(values, Ident)) && multiset(Sort(values, Ident)) == multiset(values)
  {
    SortSorted(values, Ident);
    SortFalls(values);
  }

  lemma NibbleValues(hand: seq<Card>)
    ensures Nibbles(Values(hand))
  {
  }

  /** The traits, as the program reads them off its intermediate results. */
  lemma TraitsRead(hand: seq<Card>)
    requires hand != []
    ensures var values := Values(hand); var p := Profile(values); var top := StraightTop(values);
      && |p| > 0
      && TraitsOf(hand) == Traits(NeighboursMatch(hand), top.Some?, top == Some(14), p[0].count == 4,
                                  |p| > 1 && p[0].count == 3 && p[1].count == 2, p[0].count == 3,
                                  |p| > 1 && p[0].count == 2 && p[1].count == 2, p[0].count == 2)
  {
    var values := Values(hand);
    NeighboursMatchIsOneSuit(hand);
    StraightTopMeaning(values);
    NibbleValues(hand);
    ShapeByProfile(values, 4, 0);
    ShapeByProfile(values, 3, 2);
    ShapeByProfile(values, 2, 2);
    assert IsStraight(values) <==> StraightTop(values).Some?;
  }

  lemma ClassifyCategory(values: seq<nat>, cards: seq<Card>, flush: bool, top: Option<nat>, p: seq<Tally>,
                         category: nat)
    requires |p| > 0
    ensures Classify(values, cards, flush, top, p).RankValue() == category <==>
      Qualifies(false, Traits(flush, top.Some?, top == Some(14), p[0].count == 4,
                              |p| > 1 && p[0].count == 3 && p[1].count == 2, p[0].count == 3,
                              |p| > 1 && p[0].count == 2 && p[1].count == 2, p[0].count == 2), category)
  {
  }

  /** A hand gets a category exactly when it meets that category's condition. */
  lemma EvaluateCategory(hand: seq<Card>, category: nat)
    ensures Evaluate(hand).RankValue() == category <==> Qualifies(hand == [], TraitsOf(hand), category)
  {
    if hand != [] {
      TraitsRead(hand);
      var values := Values(hand);
      ClassifyCategory(values, Arranged(hand), NeighboursMatch(hand), StraightTop(values), Profile(values), category);
    }
  }

  lemma ClassifyDescribes(values: seq<nat>, cards: seq<Card>, flush: bool, top: Option<nat>, p: seq<Tally>)
    requires top.Some? ==> StraightTo(values, top.value)
    requires |p| > 0 && Group(values, p[0].count, AceHigh(p[0].value), KickersBut(values, p[0].value, p[0].value))
    requires |p| > 1 ==> AceHigh(p[0].value) != AceHigh(p[1].value)
    requires |p| > 1 ==> Groups(values, p[0].count, p[1].count, AceHigh(p[0].value), AceHigh(p[1].value),
                                KickersBut(values, p[0].value, p[1].value))
    requires SortedList(values, Sort(values, Ident))
    ensures Describes(values, Classify(values, cards, flush, top, p))
  {
  }

  /** The fields of the rank are what they claim to be, for hands of deck cards. */
  lemma EvaluateDescribes(hand: seq<Card>)
    requires forall i :: 0 <= i < |hand| ==> IsDeckFace(Face(hand[i]))
    ensures Describes(Values(hand), Evaluate(hand))
    ensures hand != [] ==> SortedCards(hand, KeyOf(Evaluate(hand)).cards)
  {
    if hand != [] {
      var values := Values(hand);
      var p := Profile(values);
      NibbleValues(hand);
      ProfileMeaning(values);
      ArrangedSorted(hand);
      StraightTopMeaning(values);
      SortedValues(values);
      KickersInOrder(values, p[0].value, p[0].value);
      if |p| > 1 {
        PairValuesDiffer(hand, p[0].value, p[1].value);
        KickersInOrder(values, p[0].value, p[1].value);
      }
      ClassifyDescribes(values, Arranged(hand), NeighboursMatch(hand), StraightTop(values), p);
      ClassifyCards(values, Arranged(hand), NeighboursMatch(hand), StraightTop(values), p);
    }
  }

  lemma DeckValues(hand: seq<Card>, v: nat)
    requires forall i :: 0 <= i < |hand| ==> IsDeckFace(Face(hand[i]))
    requires v in Values(hand)
    ensures 1 <= v <= 13
  {
    var i :| 0 <= i < |hand| && Values(hand)[i] == v;
    DeckCardValue(hand[i]);
  }

  lemma PairValuesDiffer(hand: seq<Card>, v: nat, w: nat)
    requires forall i :: 0 <= i < |hand| ==> IsDeckFace(Face(hand[i]))
    requires v != w && v in Values(hand) && w in Values(hand)
    ensures AceHigh(v) != AceHigh(w)
  {
    DeckValues(hand, v);
    DeckValues(hand, w);
  }

  // ----- what does not depend on any order -----

  /** The tallies come out the same whatever order the value map is read in. */
  lemma ProfileForgetsMapOrder(values: seq<nat>, order: seq<nat>)
    requires Nibbles(values)
    requires Distinct(order) && forall v :: v in order <==> v in values
    ensures Sort(Tallies(values, order), TallyKey) == Profile(values)
  {
    var d := DistinctValues(values);
    DistinctValuesMeaning(values);
    var a, b := Tallies(values, order), Tallies(values, d);
    SameDistinct(order, d);
    MapPermuted(order, d, TallyOf(values));
    TallyKeysDetermine(values, order);
    SortForgetsOrder(a, b, TallyKey);
  }

  lemma TallyKeysDetermine(values: seq<nat>, order: seq<nat>)
    requires Nibbles(order)
    ensures KeyDetermines(Tallies(values, order), TallyKey)
  {
    var a := Tallies(values, order);
    forall i, j | 0 <= i < |a| && 0 <= j < |a| && TallyKey(a[i]) == TallyKey(a[j]) ensures a[i] == a[j] {
      assert order[i] in order && order[j] in order;
      assert a[i] == Tally(CountOf(values, order[i]), order[i]) && a[j] == Tally(CountOf(values, order[j]), order[j]);
    }
  }

  lemma SameDistinct(a: seq<nat>, b: seq<nat>)
    requires Distinct(a) && Distinct(b) && forall v :: v in a <==> v in b
    ensures multiset(a) == multiset(b)
  {
    DistinctCount(a);
    DistinctCount(b);
    forall v ensures multiset(a)[v] == multiset(b)[v] {
      assert v in a <==> v in b;
    }
  }

  lemma ProfileOfPermutation(a: seq<nat>, b: seq<nat>)
    requires multiset(a) == multiset(b)
    ensures Profile(a) == Profile(b)
  {
    SortForgetsOrder(a, b, Ident);
    assert Tallies(a, DistinctValues(a)) == Tallies(b, DistinctValues(b));
  }

  predicate DistinctFaces(hand: seq<Card>) {
    forall i, j :: 0 <= i < j < |hand| ==> Face(hand[i]) != Face(hand[j])
  }

  lemma ArrangedOfPermutation(a: seq<Card>, b: seq<Card>)
    requires multiset(a) == multiset(b) && DistinctFaces(a)
    ensures Arranged(a) == Arranged(b)
  {
    forall i, j | 0 <= i < |a| && 0 <= j < |a| && CardKey(a[i]) == CardKey(a[j]) ensures a[i] == a[j] {
      FaceDetermined(a[i], a[j]);
    }
    SortForgetsOrder(a, b, CardKey);
  }

  lemma OneSuitOfPermutation(a: seq<Card>, b: seq<Card>)
    requires multiset(a) == multiset(b)
    ensures NeighboursMatch(a) == NeighboursMatch(b)
  {
    NeighboursMatchIsOneSuit(a);
    NeighboursMatchIsOneSuit(b);
    assert forall c :: c in a <==> c in multiset(a);
    assert forall c :: c in b <==> c in multiset(b);
  }

  /** Equal category, primary values and tie-break cards; only the order of kickers may differ. */
  predicate SameButKickerOrder(r: HandRank, s: HandRank) {
    match (r, s)
    case (OnePair(p, k, c), OnePair(p', k', c')) => p == p' && c == c' && multiset(k) == multiset(k')
    case (TwoPair(h, l, k, c), TwoPair(h', l', k', c')) => h == h' && l == l' && c == c' && multiset(k) == multiset(k')
    case (ThreeOfAKind(t, k, c), ThreeOfAKind(t', k', c')) => t == t' && c == c' && multiset(k) == multiset(k')
    case (FourOfAKind(f, k, c), FourOfAKind(f', k', c')) => f == f' && c == c' && multiset(k) == multiset(k')
    case (_, _) => r == s
  }

  lemma {:induction false} KickersMultiset(values: seq<nat>, a: nat, b: nat, v: nat)
    ensures multiset(KickersBut(values, a, b))[v] == if v == a || v == b then 0 else multiset(values)[v]
  {
    if values != [] {
      KickersMultiset(values[1..], a, b, v);
      assert values == [values[0]] + values[1..];
    }
  }

  lemma KickersOfPermutation(values: seq<nat>, values': seq<nat>, a: nat, b: nat)
    requires multiset(values) == multiset(values')
    ensures multiset(KickersBut(values, a, b)) == multiset(KickersBut(values', a, b))
  {
    forall v ensures multiset(KickersBut(values, a, b))[v] == multiset(KickersBut(values', a, b))[v] {
      KickersMultiset(values, a, b, v);
      KickersMultiset(values', a, b, v);
    }
  }

  /** Rearranging a hand of distinct cards changes at most the order of its kickers. */
  lemma EvaluateOfPermutation(a: seq<Card>, b: seq<Card>)
    requires multiset(a) == multiset(b) && DistinctFaces(a)
    ensures SameButKickerOrder(Evaluate(a), Evaluate(b))
  {
    assert |multiset(a)| == |multiset(b)|;
    if a != [] {
      var va, vb := Values(a), Values(b);
      MapPermuted(a, b, Value);
      ArrangedOfPermutation(a, b);
      OneSuitOfPermutation(a, b);
      StraightForgetsOrder(va, vb);
      ProfileOfPermutation(va, vb);
      SortForgetsOrder(va, vb, Ident);
      ClassifyOfPermutation(va, vb, Arranged(a), NeighboursMatch(a), StraightTop(va), Profile(va));
    }
  }

  lemma ClassifyOfPermutation(va: seq<nat>, vb: seq<nat>, cards: seq<Card>, flush: bool, top: Option<nat>,
                              p: seq<Tally>)
    requires multiset(va) == multiset(vb) && Sort(va, Ident) == Sort(vb, Ident)
    ensures SameButKickerOrder(Classify(va, cards, flush, top, p), Classify(vb, cards, flush, top, p))
  {
    hide KickersBut, Sort, AceHigh, Max, Min;
    if |p| > 0 {
      KickersOfPermutation(va, vb, p[0].value, p[0].value);
      if |p| > 1 { KickersOfPermutation(va, vb, p[0].value, p[1].value); }
    }
  }

  /** Hands of different cards never tie. */
  lemma DifferentCardsDifferentRanks(a: seq<Card>, b: seq<Card>)
    requires a != [] && multiset(a) != multiset(b)
    ensures Compare(Evaluate(a), Evaluate(b)) != Orders.Equal
  {
    CompareEqual(Evaluate(a), Evaluate(b));
    EvaluateCards(a);
    if b != [] { EvaluateCards(b); }
  }

  lemma EvaluateCards(hand: seq<Card>)
    requires hand != []
    ensures Evaluate(hand) != NoCards && multiset(KeyOf(Evaluate(hand)).cards) == multiset(hand)
  {
    SortSorted(hand, CardKey);
    var values := Values(hand);
    ClassifyCards(values, Arranged(hand), NeighboursMatch(hand), StraightTop(values), Profile(values));
  }

  lemma ClassifyCards(values: seq<nat>, cards: seq<Card>, flush: bool, top: Option<nat>, p: seq<Tally>)
    ensures Classify(values, cards, flush, top, p) != NoCards
    ensures KeyOf(Classify(values, cards, flush, top, p)).cards == cards
  {
  }
}
