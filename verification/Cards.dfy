/** One-byte cards: four bits of value, two bits of suit, and a face-up flag in bit 6. */
module Cards {
  import opened Sorting

  type Card = c: nat | c < 256

  function Encode(suit: nat, value: nat): Card
    requires suit < 4 && value < 16
  {
    suit * 16 + value
  }

  function Suit(c: Card): nat { (c / 16) % 4 }
  function Value(c: Card): nat { c % 16 }

  lemma DecodeEncode(suit: nat, value: nat)
    requires suit < 4 && value < 16
    ensures var c := Encode(suit, value);
      && Suit(c) == suit && Value(c) == value && Face(c) == c && !IsFaceUp(c)
  {
  }

  /** A value with the ace (1) counted above the king. */
  function AceHigh(value: nat): nat { if value == 1 then 14 else value }

  /** The card without its flag: what identifies it within the deck. */
  function Face(c: Card): nat { c % 64 }

  predicate IsFaceUp(c: Card) { c / 64 != 0 }

  function FaceUp(c: Card): Card {
    if (c / 64) % 2 == 1 then c else c + 64
  }

  lemma FaceUpKeepsFace(c: Card)
    ensures Face(FaceUp(c)) == Face(c) && IsFaceUp(FaceUp(c))
    ensures Suit(FaceUp(c)) == Suit(c) && Value(FaceUp(c)) == Value(c)
  {
  }

  /** The face is the suit and the value together. */
  lemma FaceDetermined(a: Card, b: Card)
    ensures Face(a) == Face(b) <==> Suit(a) == Suit(b) && Value(a) == Value(b)
  {
    assert Face(a) == Suit(a) * 16 + Value(a);
    assert Face(b) == Suit(b) * 16 + Value(b);
  }

  /** One unshuffled deck, suit by suit, ace to king. */
  function NewDeck(): (deck: seq<Card>)
    ensures |deck| == 52
  {
    seq(52, (i: int) requires 0 <= i < 52 => Encode(i / 13, 1 + i % 13))
  }

  predicate IsDeckFace(f: nat) {
    f < 64 && 1 <= f % 16 <= 13
  }

  lemma DeckCardValue(c: Card)
    ensures IsDeckFace(Face(c)) <==> 1 <= Value(c) <= 13
  {
    assert Face(c) % 16 == Value(c);
  }

  /** How many cards of the list show the face `f`, whatever their flags. */
  function Copies(cards: seq<Card>, f: nat): nat {
    if cards == [] then 0 else (if Face(cards[0]) == f then 1 else 0) + Copies(cards[1..], f)
  }

  lemma {:induction false} CopiesConcat(a: seq<Card>, b: seq<Card>, f: nat)
    ensures Copies(a + b, f) == Copies(a, f) + Copies(b, f)
  {
    if a == [] {
      assert a + b == b;
    } else {
      assert (a + b)[1..] == a[1..] + b;
      CopiesConcat(a[1..], b, f);
    }
  }

  lemma {:induction false} CopiesRemove(cards: seq<Card>, k: nat, f: nat)
    requires k < |cards|
    ensures Copies(cards, f) == Copies(cards[..k] + cards[k + 1..], f) + (if Face(cards[k]) == f then 1 else 0)
  {
    assert cards == cards[..k] + ([cards[k]] + cards[k + 1..]);
    CopiesConcat(cards[..k], [cards[k]] + cards[k + 1..], f);
    CopiesConcat([cards[k]], cards[k + 1..], f);
    CopiesConcat(cards[..k], cards[k + 1..], f);
  }

  lemma {:induction false} CopiesPositive(cards: seq<Card>, k: nat)
    requires k < |cards|
    ensures Copies(cards, Face(cards[k])) >= 1
  {
    CopiesRemove(cards, k, Face(cards[k]));
  }

  /** Equal multisets show equal faces. */
  lemma {:induction false} CopiesOfPermutation(a: seq<Card>, b: seq<Card>, f: nat)
    requires multiset(a) == multiset(b)
    ensures Copies(a, f) == Copies(b, f)
  {
    hide Copies;
    if a == [] {
      assert |multiset(b)| == 0;
    } else {
      var k := Matching(a, b);
      CopiesOfPermutation(a[1..], b[..k] + b[k + 1..], f);
      CopiesRemove(a, 0, f);
      CopiesRemove(b, k, f);
    }
  }

  lemma {:induction false} PrefixCopies(n: nat, f: nat)
    requires n <= 52
    ensures Copies(NewDeck()[..n], f) == if exists i :: 0 <= i < n && i / 13 * 16 + 1 + i % 13 == f then 1 else 0
  {
    if n > 0 {
      var d := NewDeck();
      PrefixCopies(n - 1, f);
      assert d[..n] == d[..n - 1] + [d[n - 1]];
      CopiesConcat(d[..n - 1], [d[n - 1]], f);
      var top := (n - 1) / 13 * 16 + 1 + (n - 1) % 13;
      assert d[n - 1] == top && Face(d[n - 1]) == top;
      assert forall i :: 0 <= i < n - 1 ==> i / 13 * 16 + 1 + i % 13 < top;
    }
  }

  /** A fresh deck holds each of the 52 faces exactly once, and nothing else. */
  lemma NewDeckCopies(f: nat)
    ensures Copies(NewDeck(), f) == if IsDeckFace(f) then 1 else 0
  {
    var d := NewDeck();
    PrefixCopies(52, f);
    assert d[..52] == d;
    if IsDeckFace(f) {
      var i := f / 16 * 13 + f % 16 - 1;
      assert 0 <= i < 52 && i / 13 == f / 16 && i % 13 == f % 16 - 1;
      assert i / 13 * 16 + 1 + i % 13 == f;
    }
  }

  // ----- dealing -----

  function AllFaceUp(cards: seq<Card>): (up: seq<Card>)
    ensures |up| == |cards| && forall i :: 0 <= i < |cards| ==> up[i] == FaceUp(cards[i])
  {
    seq(|cards|, i requires 0 <= i < |cards| => FaceUp(cards[i]))
  }

  lemma {:induction false} AllFaceUpCopies(cards: seq<Card>, f: nat)
    ensures Copies(AllFaceUp(cards), f) == Copies(cards, f)
  {
    if cards != [] {
      AllFaceUpCopies(cards[1..], f);
      assert AllFaceUp(cards)[1..] == AllFaceUp(cards[1..]);
      FaceUpKeepsFace(cards[0]);
    }
  }

  /** The number of cards a request for n takes from the tail of the deck. */
  function Dealt(deck: seq<Card>, n: nat): nat { if n <= |deck| then n else |deck| }

  function DealtCards(deck: seq<Card>, n: nat): seq<Card> { deck[|deck| - Dealt(deck, n)..] }

  function DeckAfter(deck: seq<Card>, n: nat): seq<Card> { deck[..|deck| - Dealt(deck, n)] }

  lemma DealSplits(deck: seq<Card>, n: nat, f: nat)
    ensures Copies(DeckAfter(deck, n), f) + Copies(DealtCards(deck, n), f) == Copies(deck, f)
  {
    CopiesConcat(DeckAfter(deck, n), DealtCards(deck, n), f);
    assert DeckAfter(deck, n) + DealtCards(deck, n) == deck;
  }
}
