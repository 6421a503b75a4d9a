/** Which of several cards of one height are shown: always the first of the hand that are not shown yet. */
module PickOrder {
  import opened Sums
  import opened Sorting
  import opened Cards
  import opened HandRanks
  import opened Straights
  import opened Evaluation
  import opened Highlights

  /** The card is not among those shown, and every earlier card of its height in the hand is. */
  ghost predicate FirstUnused(hand: seq<Card>, c: Card, shown: seq<Card>) {
    && c !in shown
    && exists j :: 0 <= j < |hand| && hand[j] == c && EarlierIn(hand, j, shown)
  }

  predicate EarlierIn(hand: seq<Card>, j: nat, shown: seq<Card>)
    requires j < |hand|
  {
    forall k :: 0 <= k < j && Height(hand[k]) == Height(hand[j]) ==> hand[k] in shown
  }

  ghost predicate InHandOrder(cards: seq<Card>, hand: seq<Card>) {
    forall i :: 0 <= i < |cards| ==> FirstUnused(hand, cards[i], cards[..i])
  }

  // ----- sorting by height keeps cards of one height in hand order -----

  lemma {:induction false} HavingInsert(x: Card, s: seq<Card>, h: nat)
    ensures Having(Insert(x, s, HeightKey), h) == Having([x] + s, h)
  {
    assert ([x] + s)[1..] == s;
    if s != [] && HeightKey(x) < HeightKey(s[0]) {
      HavingInsert(x, s[1..], h);
      assert ([x] + s[1..])[1..] == s[1..];
      assert Insert(x, s, HeightKey)[1..] == Insert(x, s[1..], HeightKey);
    }
  }

  lemma {:induction false} HavingSorted(s: seq<Card>, h: nat)
    ensures Having(ByHeight(s), h) == Having(s, h)
  {
    if s != [] {
      HavingInsert(s[0], ByHeight(s[1..]), h);
      HavingSorted(s[1..], h);
      assert ([s[0]] + ByHeight(s[1..]))[1..] == ByHeight(s[1..]);
    }
  }

  lemma {:induction false} HavingConcat(a: seq<Card>, b: seq<Card>, h: nat)
    ensures Having(a + b, h) == Having(a, h) + Having(b, h)
  {
    if a == [] {
      assert a + b == b;
    } else {
      assert (a + b)[1..] == a[1..] + b;
      HavingConcat(a[1..], b, h);
    }
  }

  lemma {:induction false} HavingMembers(s: seq<Card>, h: nat)
    ensures forall c :: c in Having(s, h) <==> c in s && Height(c) == h
  {
    if s != [] {
      HavingMembers(s[1..], h);
      assert s == [s[0]] + s[1..];
    }
  }

  lemma HavingOne(c: Card)
    ensures Having([c], Height(c)) == [c]
  {
    assert [c][1..] == [];
  }

  /** What stands before a card among those of its height. */
  lemma HavingAround(s: seq<Card>, i: nat)
    requires i < |s|
    ensures var h := Height(s[i]); Having(s, h) == Having(s[..i], h) + [s[i]] + Having(s[i + 1..], h)
  {
    hide Height, Having;
    var h := Height(s[i]);
    HavingJoin(s[..i], s[i], s[i + 1..], h);
    JoinAt(s, i);
    HavingOne(s[i]);
  }

  lemma JoinAt(s: seq<Card>, i: nat)
    requires i < |s|
    ensures s[..i] + [s[i]] + s[i + 1..] == s
  {
  }

  lemma HavingJoin(a: seq<Card>, c: Card, b: seq<Card>, h: nat)
    ensures Having(a + [c] + b, h) == Having(a, h) + Having([c], h) + Having(b, h)
  {
    hide Having;
    HavingConcat(a + [c], b, h);
    HavingConcat(a, [c], h);
  }

  lemma SplitUnique(a: seq<Card>, b: seq<Card>, p: seq<Card>, q: seq<Card>, c: Card)
    requires a + [c] + b == p + [c] + q && Distinct(a + [c] + b)
    ensures a == p
  {
    var s := a + [c] + b;
    assert s[|a|] == c && s[|p|] == c;
    assert |a| == |p|;
    assert a == s[..|a|] && p == s[..|p|];
  }

  /** In two arrangements that agree on each height, a card is preceded by the same cards of its height. */
  lemma SameBefore(s: seq<Card>, t: seq<Card>, i: nat, j: nat)
    requires Distinct(s) && i < |s| && j < |t| && s[i] == t[j]
    requires Having(s, Height(s[i])) == Having(t, Height(s[i]))
    ensures Having(s[..i], Height(s[i])) == Having(t[..j], Height(s[i]))
  {
    var h := Height(s[i]);
    HavingAround(s, i);
    HavingAround(t, j);
    HavingPicks(s, h);
    SplitUnique(Having(s[..i], h), Having(s[i + 1..], h), Having(t[..j], h), Having(t[j + 1..], h), s[i]);
  }

  /** Taking from the front of such an arrangement takes the first unused. */
  lemma FrontInOrder(hand: seq<Card>, t: seq<Card>, i: nat, shown: seq<Card>)
    requires Distinct(hand) && Distinct(t) && i < |t| && t[i] in hand
    requires Having(hand, Height(t[i])) == Having(t, Height(t[i]))
    requires (forall c :: c in t[..i] ==> c in shown) && t[i] !in shown
    ensures FirstUnused(hand, t[i], shown)
  {
    var c, h := t[i], Height(t[i]);
    var j :| 0 <= j < |hand| && hand[j] == c;
    SameBefore(hand, t, j, i);
    HavingMembers(hand[..j], h);
    HavingMembers(t[..i], h);
    forall k | 0 <= k < j && Height(hand[k]) == h ensures hand[k] in shown {
      assert hand[k] in hand[..j];
    }
  }

  // ----- the selections -----

  lemma TopInOrder(hand: seq<Card>, n: nat)
    requires Distinct(hand)
    ensures InHandOrder(Take(ByHeight(hand), n), hand)
  {
    ByHeightPicks(hand);
    var sorted := ByHeight(hand);
    var u := Take(sorted, n);
    forall i | 0 <= i < |u| ensures FirstUnused(hand, u[i], u[..i]) {
      HavingSorted(hand, Height(u[i]));
      assert u[..i] == sorted[..i] && sorted[i] in sorted;
      FrontInOrder(hand, sorted, i, u[..i]);
    }
  }

  /** Cards of one height, behind cards of other heights. */
  lemma ValueInOrder(hand: seq<Card>, h: nat, n: nat, shown: seq<Card>, i: nat)
    requires Distinct(hand) && i < |TakeValue(hand, h, n)| && forall c :: c in shown ==> Height(c) != h
    ensures FirstUnused(hand, TakeValue(hand, h, n)[i], shown + TakeValue(hand, h, n)[..i])
  {
    HavingSorted(hand, h);
    HavingPicks(hand, h);
    var t := Having(hand, h);
    var u := TakeValue(hand, h, n);
    assert u[i] == t[i] && u[..i] == t[..i] && t[i] in t;
    HavingWhole(t, h);
    FrontInOrder(hand, t, i, shown + u[..i]);
  }

  lemma {:induction false} HavingWhole(t: seq<Card>, h: nat)
    requires forall c :: c in t ==> Height(c) == h
    ensures Having(t, h) == t
  {
    if t != [] { HavingWhole(t[1..], h); }
  }

  lemma ValuesInOrder(hand: seq<Card>, h: nat, n: nat, g: nat, m: nat)
    requires Distinct(hand) && h != g
    ensures InHandOrder(TakeValue(hand, h, n), hand)
    ensures InHandOrder(TakeValue(hand, h, n) + TakeValue(hand, g, m), hand)
  {
    var a, b := TakeValue(hand, h, n), TakeValue(hand, g, m);
    TakeValueHeights(hand, h, n);
    forall i | 0 <= i < |a| ensures FirstUnused(hand, a[i], a[..i]) {
      ValueInOrder(hand, h, n, [], i);
      assert [] + a[..i] == a[..i];
    }
    forall i | 0 <= i < |a + b| ensures FirstUnused(hand, (a + b)[i], (a + b)[..i]) {
      if i < |a| {
        assert (a + b)[..i] == a[..i];
      } else {
        ValueInOrder(hand, g, m, a, i - |a|);
        assert (a + b)[..i] == a + b[..i - |a|];
      }
    }
  }

  lemma TakeValueHeights(hand: seq<Card>, h: nat, n: nat)
    ensures forall c :: c in TakeValue(hand, h, n) ==> Height(c) == h
  {
    HavingMembers(ByHeight(hand), h);
    TakePrefix(Having(ByHeight(hand), h), n);
    forall c | c in TakeValue(hand, h, n) ensures Height(c) == h {
      assert c in Having(ByHeight(hand), h);
    }
  }

  /** The card found is the first unused one of its height. */
  lemma FoundInOrder(hand: seq<Card>, h: nat, shown: seq<Card>)
    requires Distinct(hand)
    ensures var f := Find(ByHeight(hand), h, shown);
      f.Some? ==> FirstUnused(hand, f.value, shown) && Height(f.value) == h
  {
    var f, sorted := Find(ByHeight(hand), h, shown), ByHeight(hand);
    FindMeaning(sorted, h, shown);
    ByHeightPicks(hand);
    if f.Some? {
      var i := FoundAt(sorted, h, shown);
      HavingSorted(hand, h);
      var j :| 0 <= j < |hand| && hand[j] == f.value;
      SameBefore(hand, sorted, j, i);
      HavingMembers(hand[..j], h);
      HavingMembers(sorted[..i], h);
      forall k | 0 <= k < j && Height(hand[k]) == h ensures hand[k] in shown {
        assert hand[k] in hand[..j];
        assert hand[k] in sorted[..i];
      }
    }
  }

  lemma {:induction false} FoundAt(cards: seq<Card>, h: nat, shown: seq<Card>) returns (i: nat)
    requires Find(cards, h, shown).Some?
    ensures i < |cards| && cards[i] == Find(cards, h, shown).value
    ensures forall c :: c in cards[..i] && Height(c) == h ==> c in shown
  {
    if Height(cards[0]) == h && cards[0] !in shown {
      i := 0;
    } else {
      i := FoundAt(cards[1..], h, shown);
      i := i + 1;
      assert cards[..i] == [cards[0]] + cards[1..][..i - 1];
    }
  }

  lemma {:induction false} KickersInHandOrder(shown: seq<Card>, hand: seq<Card>, values: seq<nat>)
    requires Distinct(hand) && InHandOrder(shown, hand)
    ensures InHandOrder(WithKickers(shown, hand, values), hand)
    decreases |values|
  {
    if values != [] {
      var f := Find(ByHeight(hand), values[0], shown);
      FoundInOrder(hand, values[0], shown);
      if f.Some? {
        var next := shown + [f.value];
        forall i | 0 <= i < |next| ensures FirstUnused(hand, next[i], next[..i]) {
          assert next[..i] == shown[..i];
        }
        KickersInHandOrder(next, hand, values[1..]);
      } else {
        KickersInHandOrder(shown, hand, values[1..]);
      }
    }
  }

  /** One card of each of several heights. */
  lemma {:induction false} EachInOrder(hand: seq<Card>, targets: seq<nat>)
    requires Distinct(hand) && Distinct(targets)
    ensures InHandOrder(FindEach(ByHeight(hand), targets), hand)
    ensures forall c :: c in FindEach(ByHeight(hand), targets) ==> Height(c) in targets
  {
    if targets != [] {
      EachInOrder(hand, targets[1..]);
      FoundInOrder(hand, targets[0], []);
      var f, rest := Find(ByHeight(hand), targets[0], []), FindEach(ByHeight(hand), targets[1..]);
      if f.Some? {
        var u := [f.value] + rest;
        forall i | 0 <= i < |u| ensures FirstUnused(hand, u[i], u[..i]) {
          if i > 0 {
            assert u[..i] == [f.value] + rest[..i - 1];
            assert rest[i - 1] in rest && targets[0] !in targets[1..];
          }
        }
      }
    }
  }

  /** Every card shown, alone or against opponents, is the first of its height in the hand that is not shown yet. */
  lemma ShownInHandOrder(hand: seq<Card>, ranks: seq<HandRank>)
    requires DeckHand(hand)
    ensures Counts(Evaluate(hand))
    ensures InHandOrder(CardsUsed(Evaluate(hand), hand), hand)
    ensures InHandOrder(CardsUsedAgainst(Evaluate(hand), hand, ranks), hand)
  {
    hide Evaluate, InHandOrder, TakeValue, Take, FindEach, WithKickers, Describes, Picks, SameHand;
    DeckHandDistinct(hand);
    ShownAlone(hand);
    UsedInOrder(hand, Evaluate(hand));
    var r := Evaluate(hand);
    NothingInOrder(hand);
    KickersInHandOrder(Base(r, hand), hand, CalledFor(r, ranks));
  }

  lemma NothingInOrder(hand: seq<Card>)
    ensures InHandOrder([], hand)
  {
  }

  lemma UsedInOrder(hand: seq<Card>, r: HandRank)
    requires Distinct(hand) && DeckHand(hand) && r == Evaluate(hand)
    ensures Counts(r) && InHandOrder(CardsUsed(r, hand), hand)
  {
    hide Evaluate, InHandOrder, TakeValue, Take, FindEach, Group, Groups, SortedList, StraightTo, StraightHeights;
    hide Values, ByHeight;
    RankRead(hand);
    NothingInOrder(hand);
    match r
    case NoCards =>
    case HighCard(_, _) => TopInOrder(hand, 1);
    case OnePair(p, _, _) => ValuesInOrder(hand, p, 2, p + 1, 0);
    case TwoPair(h, l, _, _) => ValuesInOrder(hand, h, 2, l, 2);
    case ThreeOfAKind(t, _, _) => ValuesInOrder(hand, t, 3, t + 1, 0);
    case Straight(top, _) => StraightInOrder(hand, top);
    case Flush(_, _) => TopInOrder(hand, 5);
    case FullHouse(t, p, _) =>
      FullDiffer(hand, t, p);
      ValuesInOrder(hand, t, 3, p, 2);
    case FourOfAKind(f, _, _) => ValuesInOrder(hand, f, 4, f + 1, 0);
    case StraightFlush(top, _) => StraightInOrder(hand, top);
    case RoyalFlush(_) => StraightInOrder(hand, 14);
  }

  lemma StraightInOrder(hand: seq<Card>, top: nat)
    requires Distinct(hand) && StraightTo(Values(hand), top)
    ensures top >= 5 && InHandOrder(TakeStraight(hand, top), hand)
  {
    hide FindEach, StraightHeights, InHandOrder;
    StraightHolds(Values(hand), top, 0);
    HeightsCount(top);
    EachInOrder(hand, StraightHeights(top));
  }

  lemma FullDiffer(hand: seq<Card>, t: nat, p: nat)
    requires DeckHand(hand) && exists k :: Groups(Values(hand), 3, 2, t, p, k)
    ensures t != p
  {
    hide OthersInOrder, Leads, Follows, Values;
    var k :| Groups(Values(hand), 3, 2, t, p, k);
    var v, w :| Leads(Values(hand), v, 3) && Follows(Values(hand), v, w, 2) && t == AceHigh(v) && p == AceHigh(w);
    ShapeHeld(Values(hand), v, w);
    PairValuesDiffer(hand, v, w);
  }

  lemma ShapeHeld(values: seq<nat>, v: nat, w: nat)
    requires Leads(values, v, 3) && Follows(values, v, w, 2)
    ensures v != w && v in values && w in values
  {
  }
}
