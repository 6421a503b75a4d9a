/** Hand ranks and their order (Poker/src/hand.rs). */
module HandRanks {
  import opened Orders
  import opened Sorting

  datatype HandRank =
    | NoCards
    | HighCard(values: seq<nat>, cards: seq<nat>)
    | OnePair(pair: nat, kickers: seq<nat>, cards: seq<nat>)
    | TwoPair(high: nat, low: nat, kickers: seq<nat>, cards: seq<nat>)
    | ThreeOfAKind(three: nat, kickers: seq<nat>, cards: seq<nat>)
    | Straight(top: nat, cards: seq<nat>)
    | Flush(values: seq<nat>, cards: seq<nat>)
    | FullHouse(three: nat, pair: nat, cards: seq<nat>)
    | FourOfAKind(four: nat, kickers: seq<nat>, cards: seq<nat>)
    | StraightFlush(top: nat, cards: seq<nat>)
    | RoyalFlush(cards: seq<nat>)
  {
    function RankValue(): nat {
      match this
      case NoCards => 0
      case HighCard(_, _) => 1
      case OnePair(_, _, _) => 2
      case TwoPair(_, _, _, _) => 3
      case ThreeOfAKind(_, _, _) => 4
      case Straight(_, _) => 5
      case Flush(_, _) => 6
      case FullHouse(_, _, _) => 7
      case FourOfAKind(_, _, _) => 8
      case StraightFlush(_, _) => 9
      case RoyalFlush(_) => 10
    }
  }

  /** Kickers are compared from the back of the list. */
  function CompareValues(a: seq<nat>, b: seq<nat>): Ordering {
    CompareSeq(Reverse(a), Reverse(b))
  }

  /** The comparison of two ranks of one category. */
  function CompareWithin(a: HandRank, b: HandRank): Ordering
    requires a.RankValue() == b.RankValue()
  {
    match (a, b)
    case (NoCards, NoCards) => Equal
    case (HighCard(v, c), HighCard(v', c')) => CompareValues(v, v').Then(CompareSeq(c, c'))
    case (OnePair(p, k, c), OnePair(p', k', c')) =>
      CompareInt(p, p').Then(CompareValues(k, k')).Then(CompareSeq(c, c'))
    case (TwoPair(h, l, k, c), TwoPair(h', l', k', c')) =>
      CompareInt(h, h').Then(CompareInt(l, l')).Then(CompareValues(k, k')).Then(CompareSeq(c, c'))
    case (ThreeOfAKind(t, k, c), ThreeOfAKind(t', k', c')) =>
      CompareInt(t, t').Then(CompareValues(k, k')).Then(CompareSeq(c, c'))
    case (Straight(t, c), Straight(t', c')) => CompareInt(t, t').Then(CompareSeq(c, c'))
    case (Flush(v, c), Flush(v', c')) => CompareValues(v, v').Then(CompareSeq(c, c'))
    case (FullHouse(t, p, c), FullHouse(t', p', c')) =>
      CompareInt(t, t').Then(CompareInt(p, p')).Then(CompareSeq(c, c'))
    case (FourOfAKind(f, k, c), FourOfAKind(f', k', c')) =>
      CompareInt(f, f').Then(CompareValues(k, k')).Then(CompareSeq(c, c'))
    case (StraightFlush(t, c), StraightFlush(t', c')) => CompareInt(t, t').Then(CompareSeq(c, c'))
    case (RoyalFlush(c), RoyalFlush(c')) => CompareSeq(c, c')
  }

  function Compare(a: HandRank, b: HandRank): Ordering {
    if a.RankValue() != b.RankValue() then CompareInt(a.RankValue(), b.RankValue())
    else CompareWithin(a, b)
  }

  lemma CompareValuesEqual(a: seq<nat>, b: seq<nat>)
    ensures CompareValues(a, b) == Equal <==> a == b
  {
    CompareSeqEqual(Reverse(a), Reverse(b));
    if Reverse(a) == Reverse(b) { ReverseInjective(a, b); }
  }

  /** The four fields that any rank can carry, in the order in which they are compared. */
  datatype Key = Key(first: nat, second: nat, kickers: seq<nat>, cards: seq<nat>)

  function KeyOf(r: HandRank): Key {
    match r
    case NoCards => Key(0, 0, [], [])
    case HighCard(v, c) => Key(0, 0, v, c)
    case OnePair(p, k, c) => Key(p, 0, k, c)
    case TwoPair(h, l, k, c) => Key(h, l, k, c)
    case ThreeOfAKind(t, k, c) => Key(t, 0, k, c)
    case Straight(t, c) => Key(t, 0, [], c)
    case Flush(v, c) => Key(0, 0, v, c)
    case FullHouse(t, p, c) => Key(t, p, [], c)
    case FourOfAKind(f, k, c) => Key(f, 0, k, c)
    case StraightFlush(t, c) => Key(t, 0, [], c)
    case RoyalFlush(c) => Key(0, 0, [], c)
  }

  function CompareKeys(a: Key, b: Key): Ordering {
    CompareInt(a.first, b.first).Then(CompareInt(a.second, b.second))
      .Then(CompareValues(a.kickers, b.kickers)).Then(CompareSeq(a.cards, b.cards))
  }

  /** Every arm of the comparison is the lexicographic order of the four key fields. */
  lemma CompareByKey(a: HandRank, b: HandRank)
    ensures Compare(a, b) == CompareInt(a.RankValue(), b.RankValue()).Then(CompareKeys(KeyOf(a), KeyOf(b)))
  {
    assert CompareValues([], []) == Equal;
    assert CompareInt(0, 0) == Equal;
  }

  lemma CompareKeysEqual(a: Key, b: Key)
    ensures CompareKeys(a, b) == Equal <==> a == b
  {
    CompareValuesEqual(a.kickers, b.kickers);
    CompareSeqEqual(a.cards, b.cards);
  }

  lemma CompareKeysChained(a: Key, b: Key, c: Key)
    ensures Chained(CompareKeys(a, b), CompareKeys(b, c), CompareKeys(a, c))
  {
    CompareSeqTransitive(Reverse(a.kickers), Reverse(b.kickers), Reverse(c.kickers));
    CompareSeqTransitive(a.cards, b.cards, c.cards);
  }

  lemma KeysSeparate(a: HandRank, b: HandRank)
    requires a.RankValue() == b.RankValue() && KeyOf(a) == KeyOf(b)
    ensures a == b
  {
  }

  /** Equal means structurally equal. */
  lemma CompareEqual(a: HandRank, b: HandRank)
    ensures Compare(a, b) == Equal <==> a == b
  {
    CompareByKey(a, b);
    CompareKeysEqual(KeyOf(a), KeyOf(b));
    if Compare(a, b) == Equal { KeysSeparate(a, b); }
  }

  lemma CompareFlip(a: HandRank, b: HandRank)
    ensures Compare(b, a) == Compare(a, b).Flip()
  {
    CompareByKey(a, b);
    CompareByKey(b, a);
    var k, l := KeyOf(a), KeyOf(b);
    CompareSeqFlip(Reverse(k.kickers), Reverse(l.kickers));
    CompareSeqFlip(k.cards, l.cards);
  }

  lemma CompareChained(a: HandRank, b: HandRank, c: HandRank)
    ensures Chained(Compare(a, b), Compare(b, c), Compare(a, c))
  {
    CompareByKey(a, b);
    CompareByKey(b, c);
    CompareByKey(a, c);
    CompareKeysChained(KeyOf(a), KeyOf(b), KeyOf(c));
  }

  /** The order on hand ranks is total: what the side pots need of it. */
  lemma CompareIsTotalOrder()
    ensures TotalPreorder(Compare)
    ensures forall a, b :: Compare(a, b) == Equal <==> a == b
  {
    forall a, b ensures Compare(a, b) == Equal <==> a == b {
      CompareEqual(a, b);
    }
    forall a, b ensures Compare(b, a) == Compare(a, b).Flip() {
      CompareFlip(a, b);
    }
    forall a, b, c | Compare(a, b) != Greater && Compare(b, c) != Greater
      ensures Compare(a, c) != Greater && (Compare(a, c) == Equal ==> Compare(a, b) == Equal && Compare(b, c) == Equal)
    {
      CompareChained(a, b, c);
    }
  }

  // ----- what decides a comparison -----

  /** One category, and the same primary values in it. */
  predicate Even(a: HandRank, b: HandRank) {
    match (a, b)
    case (NoCards, NoCards) => true
    case (HighCard(_, _), HighCard(_, _)) => true
    case (OnePair(p, _, _), OnePair(p', _, _)) => p == p'
    case (TwoPair(h, l, _, _), TwoPair(h', l', _, _)) => h == h' && l == l'
    case (ThreeOfAKind(t, _, _), ThreeOfAKind(t', _, _)) => t == t'
    case (Straight(t, _), Straight(t', _)) => t == t'
    case (Flush(_, _), Flush(_, _)) => true
    case (FullHouse(t, p, _), FullHouse(t', p', _)) => t == t' && p == p'
    case (FourOfAKind(f, _, _), FourOfAKind(f', _, _)) => f == f'
    case (StraightFlush(t, _), StraightFlush(t', _)) => t == t'
    case (RoyalFlush(_), RoyalFlush(_)) => true
    case (_, _) => false
  }

  /** The values compared after the primary ones. */
  function Kickers(r: HandRank): seq<nat> {
    match r
    case HighCard(v, _) => v
    case Flush(v, _) => v
    case OnePair(_, k, _) => k
    case TwoPair(_, _, k, _) => k
    case ThreeOfAKind(_, k, _) => k
    case FourOfAKind(_, k, _) => k
    case _ => []
  }

  function CardsOf(r: HandRank): seq<nat> {
    if r.NoCards? then [] else r.cards
  }

  /** The category decides first. */
  lemma CategoryDecides(a: HandRank, b: HandRank)
    ensures a.RankValue() < b.RankValue() ==> Compare(a, b) == Less
    ensures a.RankValue() > b.RankValue() ==> Compare(a, b) == Greater
  {
  }

  /** Within a category the primary values decide: of two pairs the higher first, of a full house the three first. */
  lemma PrimariesDecide(a: HandRank, b: HandRank)
    ensures a.OnePair? && b.OnePair? && a.pair < b.pair ==> Compare(a, b) == Less && Compare(b, a) == Greater
    ensures a.TwoPair? && b.TwoPair? && (a.high < b.high || (a.high == b.high && a.low < b.low)) ==>
      Compare(a, b) == Less && Compare(b, a) == Greater
    ensures a.ThreeOfAKind? && b.ThreeOfAKind? && a.three < b.three ==>
      Compare(a, b) == Less && Compare(b, a) == Greater
    ensures a.Straight? && b.Straight? && a.top < b.top ==> Compare(a, b) == Less && Compare(b, a) == Greater
    ensures a.FullHouse? && b.FullHouse? && (a.three < b.three || (a.three == b.three && a.pair < b.pair)) ==>
      Compare(a, b) == Less && Compare(b, a) == Greater
    ensures a.FourOfAKind? && b.FourOfAKind? && a.four < b.four ==> Compare(a, b) == Less && Compare(b, a) == Greater
    ensures a.StraightFlush? && b.StraightFlush? && a.top < b.top ==> Compare(a, b) == Less && Compare(b, a) == Greater
  {
  }

  /** Between even ranks the last kicker that differs decides, whatever stands before it. */
  lemma LastKickerDecides(a: HandRank, b: HandRank, p: seq<nat>, q: seq<nat>, x: nat, y: nat, tail: seq<nat>)
    requires Even(a, b) && Kickers(a) == p + [x] + tail && Kickers(b) == q + [y] + tail && x != y
    ensures Compare(a, b) == if x < y then Less else Greater
  {
    ReverseAround(p, x, tail);
    ReverseAround(q, y, tail);
    CompareSeqAt(Reverse(tail), x, y, Reverse(p), Reverse(q));
    EvenByKey(a, b);
  }

  lemma ReverseAround(p: seq<nat>, x: nat, tail: seq<nat>)
    ensures Reverse(p + [x] + tail) == Reverse(tail) + [x] + Reverse(p)
  {
  }

  /** A kicker list that only ends the other is the smaller one. */
  lemma FewerKickersLose(a: HandRank, b: HandRank, p: seq<nat>)
    requires Even(a, b) && p != [] && Kickers(b) == p + Kickers(a)
    ensures Compare(a, b) == Less && Compare(b, a) == Greater
  {
    assert Reverse(p + Kickers(a)) == Reverse(Kickers(a)) + Reverse(p);
    CompareSeqPrefix(Reverse(Kickers(a)), Reverse(p));
    EvenByKey(a, b);
    CompareFlip(a, b);
  }

  /** With the same kickers the first card that differs decides, and of equal beginnings the shorter hand loses. */
  lemma FirstCardDecides(a: HandRank, b: HandRank, p: seq<nat>, x: nat, y: nat, s: seq<nat>, t: seq<nat>)
    requires Even(a, b) && Kickers(a) == Kickers(b) && x != y
    requires CardsOf(a) == p + [x] + s && CardsOf(b) == p + [y] + t
    ensures Compare(a, b) == if x < y then Less else Greater
  {
    CompareSeqAt(p, x, y, s, t);
    CompareValuesEqual(Kickers(a), Kickers(b));
    EvenByKey(a, b);
  }

  lemma FewerCardsLose(a: HandRank, b: HandRank, s: seq<nat>)
    requires Even(a, b) && Kickers(a) == Kickers(b) && s != [] && CardsOf(b) == CardsOf(a) + s
    ensures Compare(a, b) == Less && Compare(b, a) == Greater
  {
    CompareSeqPrefix(CardsOf(a), s);
    CompareValuesEqual(Kickers(a), Kickers(b));
    EvenByKey(a, b);
    CompareFlip(a, b);
  }

  lemma EvenByKey(a: HandRank, b: HandRank)
    requires Even(a, b)
    ensures Compare(a, b) == CompareValues(Kickers(a), Kickers(b)).Then(CompareSeq(CardsOf(a), CardsOf(b)))
  {
    assert CompareValues([], []) == Equal;
  }
}
