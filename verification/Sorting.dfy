/** The standard library calls the evaluator relies on: stable sort, dedup and reverse. */
module Sorting {

  /** Inserts in front of every element whose key is not larger, so that equal keys keep their order. */
  function Insert<T>(x: T, s: seq<T>, key: T -> int): seq<T> {
    if s == [] || key(x) >= key(s[0]) then [x] + s else [s[0]] + Insert(x, s[1..], key)
  }

  /** Stable sort by descending key. */
  function Sort<T>(s: seq<T>, key: T -> int): seq<T> {
    if s == [] then [] else Insert(s[0], Sort(s[1..], key), key)
  }

  ghost predicate Descending<T>(s: seq<T>, key: T -> int) {
    forall i, j :: 0 <= i < j < |s| ==> key(s[i]) >= key(s[j])
  }

  lemma {:induction false} InsertSorted<T>(x: T, s: seq<T>, key: T -> int)
    requires Descending(s, key)
    ensures Descending(Insert(x, s, key), key)
  {
    if s != [] && key(x) < key(s[0]) {
      InsertSorted(x, s[1..], key);
      InsertMembers(x, s[1..], key);
      var t := Insert(x, s[1..], key);
      forall i | 0 <= i < |t| ensures key(s[0]) >= key(t[i]) {
        assert t[i] == x || t[i] in s[1..];
      }
    }
  }

  lemma {:induction false} InsertPermutes<T>(x: T, s: seq<T>, key: T -> int)
    ensures multiset(Insert(x, s, key)) == multiset{x} + multiset(s)
  {
    if s != [] && key(x) < key(s[0]) {
      InsertPermutes(x, s[1..], key);
      assert s == [s[0]] + s[1..];
    }
  }

  lemma InsertMembers<T>(x: T, s: seq<T>, key: T -> int)
    ensures forall i :: 0 <= i < |Insert(x, s, key)| ==> Insert(x, s, key)[i] == x || Insert(x, s, key)[i] in s
  {
    InsertPermutes(x, s, key);
    var t := Insert(x, s, key);
    forall i | 0 <= i < |t| ensures t[i] == x || t[i] in s {
      assert t[i] in multiset(t);
    }
  }

  lemma {:induction false} SortSorted<T>(s: seq<T>, key: T -> int)
    ensures Descending(Sort(s, key), key)
    ensures multiset(Sort(s, key)) == multiset(s)
    ensures |Sort(s, key)| == |s|
  {
    if s != [] {
      SortSorted(s[1..], key);
      InsertSorted(s[0], Sort(s[1..], key), key);
      InsertPermutes(s[0], Sort(s[1..], key), key);
      assert s == [s[0]] + s[1..];
      assert |multiset(Sort(s, key))| == |multiset(s)|;
    }
  }

  lemma SortMembers<T>(s: seq<T>, key: T -> int)
    ensures forall x :: x in Sort(s, key) <==> x in s
  {
    SortSorted(s, key);
    forall x ensures x in Sort(s, key) <==> x in s {
      assert x in Sort(s, key) <==> x in multiset(Sort(s, key));
      assert x in s <==> x in multiset(s);
    }
  }

  /** Among the elements of `s`, equal keys mean equal elements. */
  ghost predicate KeyDetermines<T>(s: seq<T>, key: T -> int) {
    forall i, j :: 0 <= i < |s| && 0 <= j < |s| && key(s[i]) == key(s[j]) ==> s[i] == s[j]
  }

  /** Two descending arrangements of the same elements agree when equal keys mean equal elements. */
  lemma {:induction false} DescendingUnique<T>(a: seq<T>, b: seq<T>, key: T -> int)
    requires Descending(a, key) && Descending(b, key)
    requires multiset(a) == multiset(b)
    requires KeyDetermines(a, key)
    ensures a == b
  {
    assert |multiset(a)| == |multiset(b)|;
    if a != [] {
      assert a[0] in multiset(a) && b[0] in multiset(b);
      assert a[0] in b && b[0] in a;
      assert key(a[0]) == key(b[0]);
      assert a == [a[0]] + a[1..] && b == [b[0]] + b[1..];
      assert multiset(a[1..]) == multiset(a) - multiset{a[0]};
      assert multiset(b[1..]) == multiset(b) - multiset{b[0]};
      DescendingUnique(a[1..], b[1..], key);
    }
  }

  /** Sorting forgets the arrangement of its input when equal keys mean equal elements. */
  lemma SortForgetsOrder<T>(a: seq<T>, b: seq<T>, key: T -> int)
    requires multiset(a) == multiset(b)
    requires KeyDetermines(a, key)
    ensures Sort(a, key) == Sort(b, key)
  {
    SortSorted(a, key);
    SortSorted(b, key);
    var s := Sort(a, key);
    forall i, j | 0 <= i < |s| && 0 <= j < |s| && key(s[i]) == key(s[j]) ensures s[i] == s[j] {
      assert s[i] in multiset(a) && s[j] in multiset(a);
    }
    DescendingUnique(s, Sort(b, key), key);
  }

  /** Sorting yields a given descending list exactly for its rearrangements. */
  lemma SortsTo(values: seq<nat>, t: seq<nat>)
    requires Descending(t, Ident)
    ensures Sort(values, Ident) == t <==> multiset(values) == multiset(t)
  {
    SortSorted(values, Ident);
    if multiset(values) == multiset(t) {
      DescendingUnique(Sort(values, Ident), t, Ident);
    }
  }

  lemma SortFalls(values: seq<nat>)
    ensures Falling(Sort(values, Ident))
  {
    SortSorted(values, Ident);
    var s := Sort(values, Ident);
    forall i, j | 0 <= i < j < |s| ensures s[i] >= s[j] {
      assert Ident(s[i]) >= Ident(s[j]);
    }
  }

  function Map<T, U>(s: seq<T>, f: T -> U): (r: seq<U>)
    ensures |r| == |s| && forall i :: 0 <= i < |s| ==> r[i] == f(s[i])
  {
    if s == [] then [] else [f(s[0])] + Map(s[1..], f)
  }

  lemma {:induction false} MapWithout<T, U>(s: seq<T>, k: nat, f: T -> U)
    requires k < |s|
    ensures multiset(Map(s, f)) == multiset{f(s[k])} + multiset(Map(s[..k] + s[k + 1..], f))
  {
    if k == 0 {
      assert s[..0] + s[1..] == s[1..];
    } else {
      MapWithout(s[1..], k - 1, f);
      assert (s[..k] + s[k + 1..])[1..] == s[1..][..k - 1] + s[1..][k..];
    }
  }

  lemma Without<T>(s: seq<T>, k: nat)
    requires k < |s|
    ensures multiset(s[..k] + s[k + 1..]) == multiset(s) - multiset{s[k]}
  {
    assert s == s[..k] + ([s[k]] + s[k + 1..]);
  }

  /** The first element of one arrangement has a counterpart in the other; without the pair they still match. */
  lemma Matching<T>(a: seq<T>, b: seq<T>) returns (k: nat)
    requires multiset(a) == multiset(b) && a != []
    ensures k < |b| && b[k] == a[0] && multiset(a[1..]) == multiset(b[..k] + b[k + 1..])
    ensures a[..0] + a[1..] == a[1..]
  {
    assert a[0] in multiset(b);
    k :| 0 <= k < |b| && b[k] == a[0];
    Without(a, 0);
    Without(b, k);
    assert a[..0] + a[1..] == a[1..];
  }

  lemma {:induction false} MapPermuted<T, U>(a: seq<T>, b: seq<T>, f: T -> U)
    requires multiset(a) == multiset(b)
    ensures multiset(Map(a, f)) == multiset(Map(b, f))
  {
    if a == [] {
      assert |multiset(b)| == 0;
    } else {
      var k := Matching(a, b);
      MapPermuted(a[1..], b[..k] + b[k + 1..], f);
      MapWithout(b, k, f);
    }
  }

  function Reverse<T>(s: seq<T>): (r: seq<T>)
    ensures |r| == |s|
    ensures forall i :: 0 <= i < |s| ==> r[i] == s[|s| - 1 - i]
  {
    if s == [] then [] else Reverse(s[1..]) + [s[0]]
  }

  lemma {:induction false} ReverseInjective<T>(a: seq<T>, b: seq<T>)
    requires Reverse(a) == Reverse(b)
    ensures a == b
  {
    assert |a| == |b|;
    forall i | 0 <= i < |a| ensures a[i] == b[i] {
      assert Reverse(a)[|a| - 1 - i] == a[i];
      assert Reverse(b)[|a| - 1 - i] == b[i];
    }
  }

  /** Drops every element equal to its predecessor. */
  function Dedup(s: seq<nat>): seq<nat> {
    if |s| < 2 then s
    else if s[0] == s[1] then Dedup(s[1..])
    else [s[0]] + Dedup(s[1..])
  }

  lemma {:induction false} DedupKeepsMembers(s: seq<nat>)
    ensures forall x :: x in Dedup(s) <==> x in s
    ensures s != [] ==> Dedup(s) != [] && Dedup(s)[0] == s[0]
  {
    if |s| >= 2 {
      DedupKeepsMembers(s[1..]);
      assert s == [s[0]] + s[1..];
    }
  }

  function Ident(x: nat): int { x }
  function Opposite(x: nat): int { 0 - (x as int) }

  ghost predicate StrictlyDescending(s: seq<nat>) {
    forall i, j :: 0 <= i < j < |s| ==> s[i] > s[j]
  }

  ghost predicate Falling(s: seq<nat>) {
    forall i, j :: 0 <= i < j < |s| ==> s[i] >= s[j]
  }

  ghost predicate StrictlyAscending(s: seq<nat>) {
    forall i, j :: 0 <= i < j < |s| ==> s[i] < s[j]
  }

  lemma {:induction false} DedupDescending(s: seq<nat>)
    requires Falling(s)
    ensures StrictlyDescending(Dedup(s))
  {
    if |s| >= 2 {
      DedupDescending(s[1..]);
      DedupKeepsMembers(s[1..]);
      var t := Dedup(s[1..]);
      if s[0] != s[1] {
        forall i | 0 <= i < |t| ensures t[i] < s[0] {
          assert t[i] in s[1..];
        }
      }
    }
  }

  lemma {:induction false} DedupAscending(s: seq<nat>)
    requires forall i, j :: 0 <= i < j < |s| ==> s[i] <= s[j]
    ensures StrictlyAscending(Dedup(s))
  {
    if |s| >= 2 {
      DedupAscending(s[1..]);
      DedupKeepsMembers(s[1..]);
      var t := Dedup(s[1..]);
      if s[0] != s[1] {
        forall i | 0 <= i < |t| ensures s[0] < t[i] {
          assert t[i] in s[1..];
        }
      }
    }
  }
}
