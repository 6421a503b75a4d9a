/** Three-way comparisons and the laws of a total order. */
module Orders {
  datatype Ordering = Less | Equal | Greater {
    /** The comparison with its arguments swapped. */
    function Flip(): Ordering {
      match this
      case Less => Greater
      case Equal => Equal
      case Greater => Less
    }

    /** Lexicographic combination: the first verdict that is not Equal. */
    function Then(next: Ordering): Ordering {
      if this == Equal then next else this
    }
  }

  function CompareInt(a: int, b: int): Ordering {
    if a < b then Less else if a == b then Equal else Greater
  }

  /** Lexicographic comparison of lists; a proper prefix is smaller. */
  function CompareSeq(a: seq<nat>, b: seq<nat>): Ordering {
    if a == [] then (if b == [] then Equal else Less)
    else if b == [] then Greater
    else CompareInt(a[0], b[0]).Then(CompareSeq(a[1..], b[1..]))
  }

  ghost predicate TotalPreorder<R(!new)>(cmp: (R, R) -> Ordering) {
    && (forall a :: cmp(a, a) == Equal)
    && (forall a, b :: cmp(b, a) == cmp(a, b).Flip())
    && (forall a, b, c :: cmp(a, b) != Greater && cmp(b, c) != Greater ==>
         cmp(a, c) != Greater && (cmp(a, c) == Equal ==> cmp(a, b) == Equal && cmp(b, c) == Equal))
  }

  lemma {:induction false} CompareSeqEqual(a: seq<nat>, b: seq<nat>)
    ensures CompareSeq(a, b) == Equal <==> a == b
  {
    if a != [] && b != [] {
      CompareSeqEqual(a[1..], b[1..]);
      assert a == [a[0]] + a[1..] && b == [b[0]] + b[1..];
    }
  }

  lemma {:induction false} CompareSeqFlip(a: seq<nat>, b: seq<nat>)
    ensures CompareSeq(b, a) == CompareSeq(a, b).Flip()
  {
    if a != [] && b != [] {
      CompareSeqFlip(a[1..], b[1..]);
    }
  }

  lemma {:induction false} CompareSeqTransitive(a: seq<nat>, b: seq<nat>, c: seq<nat>)
    ensures Chained(CompareSeq(a, b), CompareSeq(b, c), CompareSeq(a, c))
  {
    if a != [] && b != [] && c != [] {
      CompareSeqTransitive(a[1..], b[1..], c[1..]);
    }
  }

  /** The first difference decides, whatever follows it. */
  lemma {:induction false} CompareSeqAt(p: seq<nat>, x: nat, y: nat, s: seq<nat>, t: seq<nat>)
    requires x != y
    ensures CompareSeq(p + [x] + s, p + [y] + t) == if x < y then Less else Greater
  {
    if p != [] {
      CompareSeqAt(p[1..], x, y, s, t);
      assert (p + [x] + s)[1..] == p[1..] + [x] + s && (p + [y] + t)[1..] == p[1..] + [y] + t;
    }
  }

  /** A proper prefix is smaller. */
  lemma {:induction false} CompareSeqPrefix(p: seq<nat>, s: seq<nat>)
    requires s != []
    ensures CompareSeq(p, p + s) == Less
  {
    if p == [] {
      assert p + s == s;
    } else {
      CompareSeqPrefix(p[1..], s);
      assert (p + s)[1..] == p[1..] + s;
    }
  }

  /** How the verdict on (a, c) follows from those on (a, b) and (b, c), in both directions. */
  predicate Chained(ab: Ordering, bc: Ordering, ac: Ordering) {
    && (ab == Equal ==> ac == bc)
    && (bc == Equal ==> ac == ab)
    && (ab == bc ==> ac == ab)
  }
}
