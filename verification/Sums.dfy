/** Optional values and sums over sequences and seats, shared by every other module. */
module Options {
  datatype Option<+T> = None | Some(value: T)
}

module Sums {

  /** The sum of `g` over a list. */
  function SumSeq<T>(s: seq<T>, g: T -> nat): nat {
    if s == [] then 0 else g(s[0]) + SumSeq(s[1..], g)
  }

  function Total(s: seq<nat>): nat {
    if s == [] then 0 else s[0] + Total(s[1..])
  }

  /** The sum of `g` over the values of a map, in no particular order. */
  ghost function Sum<T>(m: map<nat, T>, g: T -> nat): nat
    decreases |m|
  {
    if m == map[] then 0 else
      var k :| k in m;
      g(m[k]) + Sum(m - {k}, g)
  }

  lemma {:induction false} SumRemove<T>(m: map<nat, T>, k: nat, g: T -> nat)
    requires k in m
    ensures Sum(m, g) == g(m[k]) + Sum(m - {k}, g)
    decreases |m|
  {
    var c :| c in m && Sum(m, g) == g(m[c]) + Sum(m - {c}, g);
    if c != k {
      SumRemove(m - {c}, k, g);
      SumRemove(m - {k}, c, g);
      assert m - {c} - {k} == m - {k} - {c};
    }
  }

  lemma SumUpdate<T>(m: map<nat, T>, k: nat, v: T, g: T -> nat)
    ensures Sum(m[k := v], g) == Sum(m, g) - (if k in m then g(m[k]) else 0) + g(v)
  {
    SumRemove(m[k := v], k, g);
    if k in m {
      SumRemove(m, k, g);
      assert m[k := v] - {k} == m - {k};
    } else {
      assert m[k := v] - {k} == m;
    }
  }

  lemma {:induction false} SumAtLeast<T>(m: map<nat, T>, k: nat, g: T -> nat)
    requires k in m
    ensures g(m[k]) <= Sum(m, g)
  {
    SumRemove(m, k, g);
  }

  lemma {:induction false} SumSame<T>(m: map<nat, T>, m': map<nat, T>, g: T -> nat)
    requires m.Keys == m'.Keys && forall k :: k in m ==> g(m[k]) == g(m'[k])
    ensures Sum(m, g) == Sum(m', g)
    decreases |m|
  {
    if m != map[] {
      var k :| k in m;
      SumRemove(m, k, g);
      SumRemove(m', k, g);
      SumSame(m - {k}, m' - {k}, g);
    }
  }

  lemma {:induction false} SumZero<T>(m: map<nat, T>, g: T -> nat)
    requires forall k :: k in m ==> g(m[k]) == 0
    ensures Sum(m, g) == 0
    decreases |m|
  {
    if m != map[] {
      var k :| k in m;
      SumRemove(m, k, g);
      SumZero(m - {k}, g);
    }
  }

  predicate Distinct<T(==)>(q: seq<T>) {
    forall i, j :: 0 <= i < j < |q| ==> q[i] != q[j]
  }

  /** `q` lists every member of `ids` exactly once. */
  predicate Enumerates(q: seq<nat>, ids: set<nat>) {
    && Distinct(q)
    && (forall i :: 0 <= i < |q| ==> q[i] in ids)
    && (forall x :: x in ids ==> x in q)
  }

  lemma {:induction false} EnumerationSize(q: seq<nat>, ids: set<nat>)
    requires Enumerates(q, ids)
    ensures |q| == |ids|
  {
    if q == [] {
      assert ids == {};
    } else {
      assert forall x :: x in ids - {q[0]} ==> x in q[1..];
      EnumerationSize(q[1..], ids - {q[0]});
    }
  }

  /** The position of `x` in `q`, or |q| when it is absent. */
  function IndexOf<T(==)>(q: seq<T>, x: T): (k: nat)
    ensures k <= |q|
    ensures k < |q| ==> q[k] == x
    ensures x !in q[..k]
    ensures x in q <==> k < |q|
  {
    if q == [] then 0 else if q[0] == x then 0 else 1 + IndexOf(q[1..], x)
  }

  lemma IndexOfAt<T>(q: seq<T>, k: nat)
    requires Distinct(q) && k < |q|
    ensures IndexOf(q, q[k]) == k
  {
  }

  /** Summing over the map is summing along any enumeration of its keys. */
  lemma {:induction false} SumEnumerated<T>(m: map<nat, T>, order: seq<nat>, g: T -> nat, values: seq<nat>)
    requires Enumerates(order, m.Keys)
    requires |values| == |order| && forall i :: 0 <= i < |order| ==> values[i] == g(m[order[i]])
    ensures Sum(m, g) == Total(values)
  {
    if order == [] {
      assert m.Keys == {};
      assert m == map[];
    } else {
      SumRemove(m, order[0], g);
      var rest := m - {order[0]};
      assert Enumerates(order[1..], rest.Keys) by {
        assert forall x :: x in rest.Keys ==> x in order[1..];
      }
      SumEnumerated(rest, order[1..], g, values[1..]);
    }
  }
}
