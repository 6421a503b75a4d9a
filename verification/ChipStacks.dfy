/** Breaking an amount into chips (Server/src/web/app.js, chipBreakdown). */
module ChipStacks {
  import opened Options
  import opened Sums
  import opened Sorting
  import opened Evaluation

  const DENOMINATIONS: seq<nat> := [500, 100, 25, 10]

  /** Chips of the four denominations that add up to the total. */
  ghost predicate Stack(chips: seq<nat>, total: nat) {
    (forall c :: c in chips ==> c in DENOMINATIONS) && Total(chips) == total
  }

  ghost predicate Payable(total: nat) { exists chips :: Stack(chips, total) }

  /** A stack for the total, and no stack for it has fewer chips. */
  ghost predicate Fewest(chips: seq<nat>, total: nat) {
    Stack(chips, total) && forall other :: Stack(other, total) ==> |chips| <= |other|
  }

  /** The right table entry for a value: a smallest stack, or none because there is none. */
  ghost predicate Solved(entry: Option<seq<nat>>, value: nat) {
    if entry.Some? then Fewest(entry.value, value) else !Payable(value)
  }

  lemma {:induction false} TotalAppend(s: seq<nat>, c: nat)
    ensures Total(s + [c]) == Total(s) + c
  {
    if s == [] {
      assert s + [c] == [c];
    } else {
      assert (s + [c])[1..] == s[1..] + [c];
      TotalAppend(s[1..], c);
    }
  }

  lemma StackAppend(s: seq<nat>, total: nat, c: nat)
    requires Stack(s, total) && c in DENOMINATIONS
    ensures Stack(s + [c], total + c)
  {
    TotalAppend(s, c);
  }

  /** The entry reached so far is at most one chip worse than every solved entry below it that has been tried. */
  ghost predicate Tried(entry: Option<seq<nat>>, below: seq<Option<seq<nat>>>, value: nat, j: nat)
    requires j <= |DENOMINATIONS| && value <= |below|
  {
    && (entry.Some? ==> Stack(entry.value, value))
    && forall i :: 0 <= i < j && DENOMINATIONS[i] <= value ==>
         var b := below[value - DENOMINATIONS[i]];
         b.Some? ==> entry.Some? && |entry.value| <= |b.value| + 1
  }

  /** Once every denomination has been tried on top of solved entries, the entry is solved. */
  lemma TriedIsSolved(entry: Option<seq<nat>>, below: seq<Option<seq<nat>>>, value: nat)
    requires 0 < value <= |below| && Tried(entry, below, value, |DENOMINATIONS|)
    requires forall v :: 0 <= v < value ==> Solved(below[v], v)
    ensures Solved(entry, value)
  {
    forall other | Stack(other, value) ensures entry.Some? && |entry.value| <= |other| {
      var c, rest := other[0], other[1..];
      assert c in other;
      var i :| 0 <= i < |DENOMINATIONS| && DENOMINATIONS[i] == c;
      assert Stack(rest, value - c);
      assert Solved(below[value - c], value - c);
    }
  }

  /** The table, filled from below; entry `total` is the answer. */
  method BestStack(total: nat) returns (values: seq<nat>)
    ensures if Payable(total) then Fewest(values, total) else total > 0 && values == [total]
  {
    var best := new Option<seq<nat>>[total + 1](_ => None);
    best[0] := Some([]);
    EmptyStack();
    for value := 1 to total + 1
      invariant forall v :: 0 <= v < value ==> Solved(best[v], v)
      invariant forall v :: value <= v <= total ==> best[v] == None
    {
      ghost var below := best[..];
      for j := 0 to |DENOMINATIONS|
        invariant forall v :: 0 <= v <= total && v != value ==> best[v] == below[v]
        invariant Tried(best[value], below, value, j)
      {
        var denomination := DENOMINATIONS[j];
        if denomination <= value && best[value - denomination].Some? {
          var candidate := best[value - denomination].value + [denomination];
          assert Solved(below[value - denomination], value - denomination);
          StackAppend(best[value - denomination].value, value - denomination, denomination);
          if best[value].None? || |candidate| < |best[value].value| {
            best[value] := Some(candidate);
          }
        }
      }
      TriedIsSolved(best[value], below, value);
    }
    values := if best[total].Some? then best[total].value else if total > 0 then [total] else [];
  }

  lemma EmptyStack()
    ensures Solved(Some([]), 0)
  {
    assert Stack([], 0);
  }

  // ----- counted chips -----

  datatype ChipCount = ChipCount(value: nat, count: nat)

  function Repeat(value: nat, count: nat): (s: seq<nat>)
    ensures |s| == count && forall c :: c in s ==> c == value
    ensures forall v :: multiset(s)[v] == if v == value then count else 0
  {
    if count == 0 then [] else [value] + Repeat(value, count - 1)
  }

  /** The chips themselves, pile by pile. */
  function Spread(chips: seq<ChipCount>): seq<nat> {
    if chips == [] then [] else Repeat(chips[0].value, chips[0].count) + Spread(chips[1..])
  }

  ghost predicate Piles(chips: seq<ChipCount>) {
    && (forall i, j :: 0 <= i < j < |chips| ==> chips[i].value > chips[j].value)
    && (forall i :: 0 <= i < |chips| ==> chips[i].count > 0)
  }

  lemma {:induction false} SpreadCounts(chips: seq<ChipCount>, v: nat)
    requires forall i, j :: 0 <= i < j < |chips| ==> chips[i].value != chips[j].value
    ensures (forall i :: 0 <= i < |chips| ==> chips[i].value != v) ==> multiset(Spread(chips))[v] == 0
    ensures forall i :: 0 <= i < |chips| && chips[i].value == v ==> multiset(Spread(chips))[v] == chips[i].count
  {
    if chips != [] {
      SpreadCounts(chips[1..], v);
    }
  }

  lemma {:induction false} TotalOfPermutation(a: seq<nat>, b: seq<nat>)
    requires multiset(a) == multiset(b)
    ensures Total(a) == Total(b) && |a| == |b|
  {
    assert |multiset(a)| == |a| && |multiset(b)| == |b|;
    if a != [] {
      var k := Matching(a, b);
      TotalOfPermutation(a[1..], b[..k] + b[k + 1..]);
      TotalRemove(b, k);
    }
  }

  lemma {:induction false} TotalRemove(s: seq<nat>, k: nat)
    requires k < |s|
    ensures Total(s) == s[k] + Total(s[..k] + s[k + 1..])
  {
    if k == 0 {
      assert s[..0] + s[1..] == s[1..];
    } else {
      TotalRemove(s[1..], k - 1);
      assert (s[..k] + s[k + 1..])[1..] == s[1..][..k - 1] + s[1..][k..];
    }
  }

  /** Piles that count the chips of a list spread out to a rearrangement of it. */
  lemma SpreadIsList(chips: seq<ChipCount>, values: seq<nat>)
    requires Piles(chips)
    requires forall i :: 0 <= i < |chips| ==> chips[i].count == CountOf(values, chips[i].value)
    requires forall v :: v in values ==> exists i :: 0 <= i < |chips| && chips[i].value == v
    ensures multiset(Spread(chips)) == multiset(values)
  {
    forall v ensures multiset(Spread(chips))[v] == multiset(values)[v] {
      SpreadCounts(chips, v);
      assert v in values <==> multiset(values)[v] > 0;
    }
  }

  /** Counts the chips of each value and lists the piles, the largest chips first. */
  method CountChips(values: seq<nat>) returns (chips: seq<ChipCount>)
    ensures Piles(chips) && multiset(Spread(chips)) == multiset(values)
  {
    var counts := CountValues(values);
    DistinctValuesMeaning(values);
    SortFalls(values);
    DedupDescending(Sort(values, Ident));
    var keys := DistinctValues(values);
    chips := [];
    for i := 0 to |keys|
      invariant |chips| == i && forall j :: 0 <= j < i ==> chips[j] == ChipCount(keys[j], CountOf(values, keys[j]))
    {
      assert keys[i] in keys;
      chips := chips + [ChipCount(keys[i], counts[keys[i]])];
    }
    forall v | v in values ensures exists i :: 0 <= i < |chips| && chips[i].value == v {
      var i :| 0 <= i < |keys| && keys[i] == v;
      assert chips[i].value == v;
    }
    forall i | 0 <= i < |chips| ensures chips[i].count > 0 {
      assert keys[i] in keys;
    }
    SpreadIsList(chips, values);
  }

  /**
   The whole breakdown: descending piles of real chips that make the amount with the fewest chips there
   are, or the one made-up chip when no stack makes it. A negative amount counts as nothing.
   */
  method ChipBreakdown(amount: int) returns (chips: seq<ChipCount>)
    ensures Piles(chips)
    ensures var total: nat := if amount < 0 then 0 else amount;
      if Payable(total) then Fewest(Spread(chips), total) else chips == [ChipCount(total, 1)]
  {
    var total: nat := if amount < 0 then 0 else amount;
    var values := BestStack(total);
    chips := CountChips(values);
    TotalOfPermutation(Spread(chips), values);
    SameMembers(Spread(chips), values);
    if !Payable(total) {
      OnePile(chips, total);
    }
  }

  lemma SameMembers(a: seq<nat>, b: seq<nat>)
    requires multiset(a) == multiset(b)
    ensures forall c :: c in a <==> c in b
  {
    assert forall c :: c in a <==> c in multiset(a);
    assert forall c :: c in b <==> c in multiset(b);
  }

  lemma OnePile(chips: seq<ChipCount>, v: nat)
    requires Piles(chips) && multiset(Spread(chips)) == multiset([v])
    ensures chips == [ChipCount(v, 1)]
  {
    assert |chips| > 1 ==> chips[0].value > chips[1].value;
    forall i | 0 <= i < |chips| ensures chips[i] == ChipCount(v, 1) {
      SpreadCounts(chips, chips[i].value);
    }
    SpreadCounts(chips, v);
  }

  // ----- which amounts can be paid -----

  lemma {:induction false} Fives(chips: seq<nat>, total: nat)
    requires Stack(chips, total)
    ensures total % 5 == 0 && (total == 0 || total == 10 || total >= 20)
  {
    if chips != [] {
      assert chips[0] in chips;
      assert Stack(chips[1..], total - chips[0]);
      Fives(chips[1..], total - chips[0]);
    }
  }

  lemma {:induction false} Tens(n: nat)
    ensures Stack(Repeat(10, n), 10 * n)
  {
    if n > 0 {
      Tens(n - 1);
      assert Repeat(10, n)[1..] == Repeat(10, n - 1);
    }
  }

  /** Stacks make exactly the multiples of five other than 5 and 15. */
  lemma PayableIff(total: nat)
    ensures Payable(total) <==> total % 5 == 0 && total != 5 && total != 15
  {
    if chips :| Stack(chips, total) {
      Fives(chips, total);
    }
    if total % 10 == 0 {
      Tens(total / 10);
    } else if total % 5 == 0 && total >= 25 {
      Tens((total - 25) / 10);
      StackAppend(Repeat(10, (total - 25) / 10), total - 25, 25);
    }
  }
}
