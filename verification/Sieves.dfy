/** Lists that keep some of the elements of another list, in their order. */
module Sieves {

  /** How many positions are marked. */
  function Marks(mask: seq<bool>): nat {
    if mask == [] then 0 else (if mask[0] then 1 else 0) + Marks(mask[1..])
  }

  lemma {:induction false} MarksConcat(a: seq<bool>, b: seq<bool>)
    ensures Marks(a + b) == Marks(a) + Marks(b)
  {
    if a == [] {
      assert a + b == b;
    } else {
      assert (a + b)[1..] == a[1..] + b;
      MarksConcat(a[1..], b);
    }
  }

  lemma MarksBefore(mask: seq<bool>, i: nat)
    requires i < |mask| && mask[i]
    ensures Marks(mask[..i]) < Marks(mask)
  {
    assert mask == mask[..i] + ([true] + mask[i + 1..]);
    MarksConcat(mask[..i], [true] + mask[i + 1..]);
    MarksConcat([true], mask[i + 1..]);
  }

  /** `r` holds the marked elements of `s`: each stands behind as many as are marked before it. */
  ghost predicate Sifted<T(!new)>(s: seq<T>, mask: seq<bool>, r: seq<T>) {
    && |mask| == |s| && |r| == Marks(mask)
    && forall i :: 0 <= i < |s| && mask[i] ==> Marks(mask[..i]) < |r| && r[Marks(mask[..i])] == s[i]
  }

  /** An unmarked element makes no difference. */
  lemma SiftedSkip<T(!new)>(s: seq<T>, mask: seq<bool>, k: nat, r: seq<T>)
    requires k < |s| == |mask| && !mask[k]
    requires Sifted(s[..k] + s[k + 1..], mask[..k] + mask[k + 1..], r)
    ensures Sifted(s, mask, r)
  {
    var t, m := s[..k] + s[k + 1..], mask[..k] + mask[k + 1..];
    assert mask == mask[..k] + ([false] + mask[k + 1..]);
    MarksConcat(mask[..k], [false] + mask[k + 1..]);
    MarksConcat([false], mask[k + 1..]);
    MarksConcat(mask[..k], mask[k + 1..]);
    forall i | 0 <= i < |s| && mask[i] ensures Marks(mask[..i]) < |r| && r[Marks(mask[..i])] == s[i] {
      if i < k {
        assert m[i] && t[i] == s[i] && m[..i] == mask[..i];
      } else {
        assert m[i - 1] && t[i - 1] == s[i] && m[..i - 1] == mask[..k] + mask[k + 1..i];
        assert mask[..i] == mask[..k] + ([false] + mask[k + 1..i]);
        MarksConcat(mask[..k], [false] + mask[k + 1..i]);
        MarksConcat([false], mask[k + 1..i]);
        MarksConcat(mask[..k], mask[k + 1..i]);
      }
    }
  }

  /** A marked element at the front comes first. */
  lemma SiftedFront<T(!new)>(s: seq<T>, mask: seq<bool>, r: seq<T>)
    requires s != [] && |mask| == |s| && mask[0] && Sifted(s[1..], mask[1..], r)
    ensures Sifted(s, mask, [s[0]] + r)
  {
    forall i | 0 <= i < |s| && mask[i]
      ensures Marks(mask[..i]) < |r| + 1 && ([s[0]] + r)[Marks(mask[..i])] == s[i]
    {
      if i > 0 {
        assert mask[1..][i - 1] && s[1..][i - 1] == s[i];
        assert mask[..i][1..] == mask[1..][..i - 1];
      }
    }
  }

  /** Every place is taken by a marked element. */
  lemma {:induction false} PlaceOf(mask: seq<bool>, n: nat) returns (i: nat)
    requires n < Marks(mask)
    ensures i < |mask| && mask[i] && Marks(mask[..i]) == n
  {
    if mask[0] && n == 0 {
      i := 0;
    } else {
      var j := PlaceOf(mask[1..], if mask[0] then n - 1 else n);
      i := j + 1;
      assert mask[..i][1..] == mask[1..][..j];
    }
  }

  /** There is only one such list. */
  lemma SiftedUnique<T(!new)>(s: seq<T>, mask: seq<bool>, r: seq<T>, r': seq<T>)
    requires Sifted(s, mask, r) && Sifted(s, mask, r')
    ensures r == r'
  {
    forall n | 0 <= n < |r| ensures r[n] == r'[n] {
      var i := PlaceOf(mask, n);
    }
  }

  /** Everything marked is the list itself. */
  lemma {:induction false} SiftedWhole<T(!new)>(s: seq<T>, mask: seq<bool>)
    requires |mask| == |s| && forall i :: 0 <= i < |s| ==> mask[i]
    ensures Sifted(s, mask, s)
  {
    if s != [] {
      SiftedWhole(s[1..], mask[1..]);
      SiftedFront(s, mask, s[1..]);
      assert [s[0]] + s[1..] == s;
    }
  }

  lemma {:induction false} NoMarks(mask: seq<bool>)
    requires forall i :: 0 <= i < |mask| ==> !mask[i]
    ensures Marks(mask) == 0
  {
    if mask != [] { NoMarks(mask[1..]); }
  }
}
