/** Python's `sorted(xs, key=level)` for a key that is a small natural, and the runs it makes. */
module StableSort {
  /** `x` after every element of its own level or below. */
  function Insert<T>(xs: seq<T>, x: T, level: T -> nat): seq<T> {
    if xs == [] || level(xs[|xs| - 1]) <= level(x) then xs + [x]
    else Insert(xs[..|xs| - 1], x, level) + [xs[|xs| - 1]]
  }

  function Sorted<T>(xs: seq<T>, level: T -> nat): seq<T> {
    if xs == [] then [] else Insert(Sorted(xs[..|xs| - 1], level), xs[|xs| - 1], level)
  }

  /** The elements of one level, in order. */
  function Of<T>(xs: seq<T>, l: nat, level: T -> nat): seq<T> {
    if xs == [] then []
    else Of(xs[..|xs| - 1], l, level) + if level(xs[|xs| - 1]) == l then [xs[|xs| - 1]] else []
  }

  ghost predicate Ascending<T>(xs: seq<T>, level: T -> nat) {
    forall i, j :: 0 <= i < j < |xs| ==> level(xs[i]) <= level(xs[j])
  }

  lemma {:induction false} InsertMember<T>(xs: seq<T>, x: T, level: T -> nat, y: T)
    ensures y in Insert(xs, x, level) <==> y in xs || y == x
    decreases |xs|
  {
    if xs != [] && level(xs[|xs| - 1]) > level(x) {
      InsertMember(xs[..|xs| - 1], x, level, y);
      assert xs == xs[..|xs| - 1] + [xs[|xs| - 1]];
    }
  }

  lemma {:induction false} InsertAscends<T>(xs: seq<T>, x: T, level: T -> nat)
    requires Ascending(xs, level)
    ensures Ascending(Insert(xs, x, level), level) && |Insert(xs, x, level)| == |xs| + 1
    decreases |xs|
  {
    if xs != [] && level(xs[|xs| - 1]) > level(x) {
      var rest := xs[..|xs| - 1];
      var before := Insert(rest, x, level);
      InsertAscends(rest, x, level);
      forall k | 0 <= k < |before|
        ensures level(before[k]) <= level(xs[|xs| - 1])
      {
        InsertMember(rest, x, level, before[k]);
        assert before[k] in before;
        if before[k] in rest {
          var m :| 0 <= m < |rest| && rest[m] == before[k];
          assert xs[m] == before[k];
        }
      }
    }
  }

  lemma {:induction false} InsertStable<T>(xs: seq<T>, x: T, level: T -> nat, l: nat)
    ensures Of(Insert(xs, x, level), l, level) == Of(xs + [x], l, level)
    decreases |xs|
  {
    var last := |xs| - 1;
    assert (xs + [x])[..|xs|] == xs;
    if xs != [] && level(xs[last]) > level(x) {
      InsertStable(xs[..last], x, level, l);
      var r := Insert(xs[..last], x, level);
      assert (r + [xs[last]])[..|r|] == r;
      assert (xs[..last] + [x])[..last] == xs[..last];
    }
  }

  /** The order is by level, and within a level as before: that is all of `sorted`'s contract. */
  lemma {:induction false} SortedStable<T>(xs: seq<T>, level: T -> nat, l: nat)
    ensures var r := Sorted(xs, level);
      && Ascending(r, level) && Of(r, l, level) == Of(xs, l, level) && |r| == |xs|
      && forall y :: y in r <==> y in xs
    decreases |xs|
  {
    if xs != [] {
      var last := |xs| - 1;
      SortedStable(xs[..last], level, l);
      var r := Sorted(xs[..last], level);
      InsertAscends(r, xs[last], level);
      forall y
        ensures y in Sorted(xs, level) <==> y in xs
      {
        SortedMember(xs, level, y);
      }
      InsertStable(r, xs[last], level, l);
      assert (r + [xs[last]])[..|r|] == r;
      assert xs == xs[..last] + [xs[last]];
    }
  }

  lemma {:induction false} SortedMember<T>(xs: seq<T>, level: T -> nat, y: T)
    ensures y in Sorted(xs, level) <==> y in xs
    decreases |xs|
  {
    if xs != [] {
      SortedMember(xs[..|xs| - 1], level, y);
      InsertMember(Sorted(xs[..|xs| - 1], level), xs[|xs| - 1], level, y);
      assert xs == xs[..|xs| - 1] + [xs[|xs| - 1]];
    }
  }

  ghost predicate NoRepeats<T>(xs: seq<T>) {
    forall i, j :: 0 <= i < j < |xs| ==> xs[i] != xs[j]
  }

  lemma {:induction false} InsertDistinct<T>(xs: seq<T>, x: T, level: T -> nat)
    requires x !in xs && NoRepeats(xs)
    ensures NoRepeats(Insert(xs, x, level))
    decreases |xs|
  {
    if xs != [] && level(xs[|xs| - 1]) > level(x) {
      var last := |xs| - 1;
      InsertDistinct(xs[..last], x, level);
      InsertMember(xs[..last], x, level, xs[last]);
    }
  }

  lemma {:induction false} SortedDistinct<T>(xs: seq<T>, level: T -> nat)
    requires NoRepeats(xs)
    ensures NoRepeats(Sorted(xs, level))
    decreases |xs|
  {
    if xs != [] {
      var last := |xs| - 1;
      SortedDistinct(xs[..last], level);
      SortedMember(xs[..last], level, xs[last]);
      assert xs[last] !in xs[..last];
      hide NoRepeats;
      InsertDistinct(Sorted(xs[..last], level), xs[last], level);
    }
  }

  lemma {:induction false} OfMember<T>(xs: seq<T>, l: nat, level: T -> nat, x: T)
    ensures x in Of(xs, l, level) <==> x in xs && level(x) == l
    decreases |xs|
  {
    if xs != [] {
      OfMember(xs[..|xs| - 1], l, level, x);
      assert xs == xs[..|xs| - 1] + [xs[|xs| - 1]];
    }
  }

  // ---------------------------------------------------------------- the runs of a sorted list

  function Sum(counts: seq<nat>): nat {
    if counts == [] then 0 else Sum(counts[..|counts| - 1]) + counts[|counts| - 1]
  }

  /** `tuple(sum(level(x) == l for x in xs) for l in range(levels))`. */
  function Counts<T>(xs: seq<T>, level: T -> nat, levels: nat): seq<nat> {
    seq(levels, l requires 0 <= l < levels => |Of(xs, l, level)|)
  }

  function Under<T>(xs: seq<T>, l: nat, level: T -> nat): nat {
    if xs == [] then 0 else Under(xs[..|xs| - 1], l, level) + if level(xs[|xs| - 1]) < l then 1 else 0
  }

  lemma {:induction false} UnderSum<T>(xs: seq<T>, l: nat, level: T -> nat, levels: nat)
    requires l <= levels
    ensures Under(xs, l, level) == Sum(Counts(xs, level, levels)[..l])
    decreases l
  {
    if l == 0 {
      UnderNone(xs, level);
    } else {
      UnderSum(xs, l - 1, level, levels);
      UnderStep(xs, l, level);
      assert Counts(xs, level, levels)[..l][..l - 1] == Counts(xs, level, levels)[..l - 1];
    }
  }

  lemma {:induction false} UnderNone<T>(xs: seq<T>, level: T -> nat)
    ensures Under(xs, 0, level) == 0
    decreases |xs|
  {
    if xs != [] {
      UnderNone(xs[..|xs| - 1], level);
    }
  }

  lemma {:induction false} UnderStep<T>(xs: seq<T>, l: nat, level: T -> nat)
    requires l > 0
    ensures Under(xs, l, level) == Under(xs, l - 1, level) + |Of(xs, l - 1, level)|
    decreases |xs|
  {
    if xs != [] {
      UnderStep(xs[..|xs| - 1], l, level);
    }
  }

  lemma {:induction false} UnderIndex<T>(xs: seq<T>, l: nat, level: T -> nat)
    requires Ascending(xs, level)
    ensures Under(xs, l, level) <= |xs|
    ensures forall i :: 0 <= i < |xs| ==> (level(xs[i]) < l <==> i < Under(xs, l, level))
    decreases |xs|
  {
    if xs != [] {
      UnderIndex(xs[..|xs| - 1], l, level);
      forall i | 0 <= i < |xs|
        ensures level(xs[i]) < l <==> i < Under(xs, l, level)
      {
        assert i < |xs| - 1 ==> xs[..|xs| - 1][i] == xs[i];
      }
    }
  }

  /** The counts of a list sorted by level cut it exactly at its level boundaries: a slot belongs
      to the level whose prefix sums enclose it. */
  lemma RunsPartition<T>(xs: seq<T>, level: T -> nat, levels: nat, i: nat, l: nat)
    requires Ascending(xs, level) && i < |xs| && l < levels
    ensures var counts := Counts(xs, level, levels);
      level(xs[i]) == l <==> Sum(counts[..l]) <= i < Sum(counts[..l + 1])
  {
    UnderSum(xs, l, level, levels);
    UnderSum(xs, l + 1, level, levels);
    UnderIndex(xs, l, level);
    UnderIndex(xs, l + 1, level);
  }

  /** ... and together they cover it. */
  lemma RunsCover<T>(xs: seq<T>, level: T -> nat, levels: nat)
    requires Ascending(xs, level) && forall x :: x in xs ==> level(x) < levels
    ensures Sum(Counts(xs, level, levels)) == |xs|
  {
    var counts := Counts(xs, level, levels);
    UnderSum(xs, levels, level, levels);
    UnderIndex(xs, levels, level);
    assert counts[..levels] == counts;
    if |xs| > 0 {
      assert level(xs[|xs| - 1]) < levels;
    }
  }

  lemma {:induction false} OfAppend<T>(xs: seq<T>, ys: seq<T>, l: nat, level: T -> nat)
    ensures Of(xs + ys, l, level) == Of(xs, l, level) + Of(ys, l, level)
    decreases |ys|
  {
    if ys == [] {
      assert xs + ys == xs;
    } else {
      assert (xs + ys)[..|xs + ys| - 1] == xs + ys[..|ys| - 1];
      OfAppend(xs, ys[..|ys| - 1], l, level);
    }
  }

  /** Equal levels keep their order: with no repeats, `sorted` never moves `xs[q]` before an
      earlier `xs[p]` of the same level. */
  lemma SortedKeepsOrder<T>(xs: seq<T>, level: T -> nat, p: nat, q: nat, i: nat, j: nat)
    requires p < q < |xs| && level(xs[p]) == level(xs[q]) && NoRepeats(xs)
    requires i < |Sorted(xs, level)| && j < |Sorted(xs, level)|
    requires Sorted(xs, level)[i] == xs[p] && Sorted(xs, level)[j] == xs[q]
    ensures i < j
  {
    var l, r := level(xs[p]), Sorted(xs, level);
    SortedStable(xs, level, l);
    if j <= i {
      assert j != i;
      Before(xs, p, q, l, level);
      Before(r, j, i, l, level);
      OfDistinct(xs, l, level);
      assert false;
    }
  }

  /** The earlier of two elements of one level comes earlier among that level's. */
  lemma Before<T>(xs: seq<T>, p: nat, q: nat, l: nat, level: T -> nat)
    requires p < q < |xs| && level(xs[p]) == level(xs[q]) == l
    ensures exists a, b ::
              0 <= a < b < |Of(xs, l, level)| && Of(xs, l, level)[a] == xs[p] && Of(xs, l, level)[b] == xs[q]
  {
    assert xs == xs[..p + 1] + xs[p + 1..];
    OfAppend(xs[..p + 1], xs[p + 1..], l, level);
    OfMember(xs[..p + 1], l, level, xs[p]);
    OfMember(xs[p + 1..], l, level, xs[q]);
    assert xs[p] == xs[..p + 1][p] && xs[q] == xs[p + 1..][q - p - 1];
    var first, rest := Of(xs[..p + 1], l, level), Of(xs[p + 1..], l, level);
    var a :| 0 <= a < |first| && first[a] == xs[p];
    var b :| 0 <= b < |rest| && rest[b] == xs[q];
    assert Of(xs, l, level)[a] == xs[p] && Of(xs, l, level)[|first| + b] == xs[q];
  }

  lemma {:induction false} OfDistinct<T>(xs: seq<T>, l: nat, level: T -> nat)
    requires NoRepeats(xs)
    ensures NoRepeats(Of(xs, l, level))
    decreases |xs|
  {
    if xs != [] {
      var before := xs[..|xs| - 1];
      OfDistinct(before, l, level);
      OfMember(before, l, level, xs[|xs| - 1]);
    }
  }
}
