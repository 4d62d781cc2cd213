/** Where the fields of a spec key lie, and how their values are packed into its words
    (`_layout_fields`, intj/specialization.py; `KeyWrite` and `AutoPart`, intj/render/context.py). */
module KeyLayout {
  import opened Bits
  import opened Optional
  import opened StableSort

  predicate IsWidth(w: nat) {
    w == 1 || w == 2 || w == 4 || w == 8
  }

  /** Widest first. */
  function ByWidth(widths: seq<nat>): nat -> nat {
    (i: nat) => if i < |widths| && widths[i] <= 8 then 8 - widths[i] else 0
  }

  function Indices(n: nat): (r: seq<nat>)
    ensures |r| == n && forall i :: 0 <= i < n ==> r[i] == i
  {
    seq(n, (i: nat) => i)
  }

  /** The fields in the order they are placed: widest first, and otherwise as given. */
  function Order(widths: seq<nat>): seq<nat> {
    Sorted(Indices(|widths|), ByWidth(widths))
  }

  lemma OrderIsPermutation(widths: seq<nat>)
    ensures |Order(widths)| == |widths|
    ensures forall i :: i in Order(widths) <==> 0 <= i < |widths|
    ensures forall a, b :: 0 <= a < b < |Order(widths)| ==> Order(widths)[a] != Order(widths)[b]
  {
    var indices := Indices(|widths|);
    SortedStable(indices, ByWidth(widths), 0);
    SortedDistinct(indices, ByWidth(widths));
    forall i: nat
      ensures i in indices <==> 0 <= i < |widths|
    {
      assert i < |widths| ==> indices[i] == i;
    }
  }

  lemma OrderDescends(widths: seq<nat>, a: nat, b: nat)
    requires forall w :: w in widths ==> IsWidth(w)
    requires a <= b < |Order(widths)|
    ensures Order(widths)[a] < |widths| && Order(widths)[b] < |widths|
        && widths[Order(widths)[b]] <= widths[Order(widths)[a]]
  {
    OrderIsPermutation(widths);
    SortedStable(Indices(|widths|), ByWidth(widths), 0);
    var i, j := Order(widths)[a], Order(widths)[b];
    assert i in Order(widths) && j in Order(widths);
    assert widths[i] in widths && widths[j] in widths;
    assert a < b ==> ByWidth(widths)(i) <= ByWidth(widths)(j);
  }

  /** The widths in the order of placement. */
  function Placed(widths: seq<nat>): (r: seq<nat>)
    ensures |r| == |Order(widths)|
    ensures forall k :: 0 <= k < |r| ==> r[k] == if Order(widths)[k] < |widths| then widths[Order(widths)[k]] else 0
  {
    seq(|Order(widths)|, k requires 0 <= k < |Order(widths)| =>
      if Order(widths)[k] < |widths| then widths[Order(widths)[k]] else 0)
  }

  /** What `_layout_fields` promises of the offsets. */
  ghost predicate LaidOut(widths: seq<nat>, offsets: map<nat, nat>, total: nat) {
    && (forall i :: i in offsets <==> 0 <= i < |widths|)
    && (forall i :: i in offsets ==> offsets[i] + widths[i] <= total)
    && (forall i, j :: i in offsets && j in offsets && i != j ==>
          offsets[i] + widths[i] <= offsets[j] || offsets[j] + widths[j] <= offsets[i])
    && (forall b :: 0 <= b < total ==> Covered(widths, offsets, b))
    && forall i :: i in offsets ==> IsWidth(widths[i]) && offsets[i] % widths[i] == 0 && offsets[i] % 8 + widths[i] <= 8
  }

  /** Byte `b` belongs to a field. */
  ghost predicate Covered(widths: seq<nat>, offsets: map<nat, nat>, b: nat) {
    exists i :: i in offsets && 0 <= i < |widths| && offsets[i] <= b < offsets[i] + widths[i]
  }

  /** Bytes placed before position `k`. */
  function Start(widths: seq<nat>, k: nat): nat
    requires k <= |Placed(widths)|
  {
    Sum(Placed(widths)[..k])
  }

  lemma StartsAtZero(widths: seq<nat>)
    ensures Start(widths, 0) == 0
  {
  }

  lemma StartStep(widths: seq<nat>, k: nat)
    requires k < |Placed(widths)|
    ensures Start(widths, k + 1) == Start(widths, k) + Placed(widths)[k]
  {
    assert Placed(widths)[..k + 1][..k] == Placed(widths)[..k];
  }

  lemma {:induction false} StartMonotone(widths: seq<nat>, a: nat, b: nat)
    requires a <= b <= |Placed(widths)|
    ensures Start(widths, a) <= Start(widths, b)
    decreases b
  {
    if a < b {
      StartMonotone(widths, a, b - 1);
      StartStep(widths, b - 1);
    }
  }

  /** Everything placed before is a multiple of the width, so the offset is. */
  lemma {:induction false} StartAligned(widths: seq<nat>, m: nat, k: nat)
    requires forall w :: w in widths ==> IsWidth(w)
    requires m <= k < |Placed(widths)|
    ensures IsWidth(Placed(widths)[k]) && Start(widths, m) % Placed(widths)[k] == 0
    decreases m
  {
    OrderDescends(widths, k, k);
    var w := Placed(widths)[k];
    assert widths[Order(widths)[k]] in widths;
    if m > 0 {
      StartAligned(widths, m - 1, k);
      OrderDescends(widths, m - 1, k);
      StartStep(widths, m - 1);
      assert widths[Order(widths)[m - 1]] in widths;
      hide Start;
      hide Placed;
      hide Order;
      AddMultiple(Start(widths, m - 1), Placed(widths)[m - 1], w);
    }
  }

  lemma AddMultiple(a: nat, v: nat, w: nat)
    requires IsWidth(v) && IsWidth(w) && w <= v && a % w == 0
    ensures (a + v) % w == 0
  {
  }

  /** An aligned field of a word's divisor in width stays in one word. */
  lemma NoStraddle(offset: nat, w: nat)
    requires IsWidth(w) && offset % w == 0
    ensures offset % 8 + w <= 8
  {
  }

  /** The placement so far: positions below `k` have offsets. */
  ghost predicate Offset(widths: seq<nat>, offsets: map<nat, nat>, k: nat) {
    && k <= |Placed(widths)|
    && (forall i :: i in offsets <==> exists m :: 0 <= m < k && Order(widths)[m] == i)
    && forall m :: 0 <= m < k ==> Order(widths)[m] in offsets && offsets[Order(widths)[m]] == Start(widths, m)
  }

  lemma PositionOf(widths: seq<nat>, offsets: map<nat, nat>, i: nat) returns (m: nat)
    requires Offset(widths, offsets, |widths|) && i in offsets
    ensures m < |widths| == |Order(widths)| && Order(widths)[m] == i && offsets[i] == Start(widths, m)
    ensures i < |widths| && Placed(widths)[m] == widths[i]
  {
    OrderIsPermutation(widths);
    m :| 0 <= m < |widths| && Order(widths)[m] == i;
    assert Order(widths)[m] in Order(widths);
  }

  lemma {:induction false} Covering(widths: seq<nat>, k: nat, b: nat) returns (m: nat)
    requires k <= |Placed(widths)| && b < Start(widths, k)
    ensures m < k && Start(widths, m) <= b < Start(widths, m + 1)
    decreases k
  {
    StartStep(widths, k - 1);
    if Start(widths, k - 1) <= b {
      return k - 1;
    }
    m := Covering(widths, k - 1, b);
  }

  lemma OneAligned(widths: seq<nat>, offsets: map<nat, nat>, i: nat)
    requires forall w :: w in widths ==> IsWidth(w)
    requires Offset(widths, offsets, |widths|) && i in offsets
    ensures i < |widths| && IsWidth(widths[i]) && offsets[i] + widths[i] <= Start(widths, |Placed(widths)|)
    ensures offsets[i] % widths[i] == 0 && offsets[i] % 8 + widths[i] <= 8
  {
    var m := PositionOf(widths, offsets, i);
    StartStep(widths, m);
    StartMonotone(widths, m + 1, |Placed(widths)|);
    StartAligned(widths, m, m);
    NoStraddle(offsets[i], widths[i]);
  }

  lemma EndsBefore(widths: seq<nat>, a: nat, b: nat)
    requires a < b <= |Placed(widths)|
    ensures Start(widths, a) + Placed(widths)[a] <= Start(widths, b)
  {
    hide Start;
    StartStep(widths, a);
    StartMonotone(widths, a + 1, b);
  }

  lemma TwoApart(widths: seq<nat>, offsets: map<nat, nat>, i: nat, j: nat)
    requires Offset(widths, offsets, |widths|) && i in offsets && j in offsets && i != j
    ensures i < |widths| && j < |widths|
        && (offsets[i] + widths[i] <= offsets[j] || offsets[j] + widths[j] <= offsets[i])
  {
    hide Start;
    hide Placed;
    hide Order;
    var a := PositionOf(widths, offsets, i);
    var b := PositionOf(widths, offsets, j);
    if a < b {
      EndsBefore(widths, a, b);
    } else {
      EndsBefore(widths, b, a);
    }
  }

  lemma ByteCovered(widths: seq<nat>, offsets: map<nat, nat>, b: nat)
    requires Offset(widths, offsets, |widths|) && |Placed(widths)| == |widths| && b < Start(widths, |widths|)
    ensures Covered(widths, offsets, b)
  {
    var m := Covering(widths, |widths|, b);
    OrderIsPermutation(widths);
    assert Order(widths)[m] in offsets && Order(widths)[m] in Order(widths);
    StartStep(widths, m);
  }

  lemma OffsetDone(widths: seq<nat>, offsets: map<nat, nat>)
    requires forall w :: w in widths ==> IsWidth(w)
    requires Offset(widths, offsets, |widths|)
    ensures LaidOut(widths, offsets, Start(widths, |Placed(widths)|))
  {
    hide Start;
    hide Placed;
    OrderIsPermutation(widths);
    forall i | 0 <= i < |widths|
      ensures i in offsets
    {
      assert i in Order(widths);
    }
    hide Order;
    hide Covered;
    forall i | i in offsets
      ensures 0 <= i < |widths| && offsets[i] + widths[i] <= Start(widths, |Placed(widths)|)
      ensures IsWidth(widths[i]) && offsets[i] % widths[i] == 0 && offsets[i] % 8 + widths[i] <= 8
    {
      OneAligned(widths, offsets, i);
    }
    forall i, j | i in offsets && j in offsets && i != j
      ensures offsets[i] + widths[i] <= offsets[j] || offsets[j] + widths[j] <= offsets[i]
    {
      TwoApart(widths, offsets, i, j);
    }
    forall b | 0 <= b < Start(widths, |Placed(widths)|)
      ensures Covered(widths, offsets, b)
    {
      ByteCovered(widths, offsets, b);
    }
  }

  /** Places fields of the given widths, then the device's byte when the device is keyed. */
  method LayoutFields(widths: seq<nat>, keyed: bool) returns (offsets: map<nat, nat>, device: Option<nat>, nwords: nat)
    requires forall w :: w in widths ==> IsWidth(w)
    ensures LaidOut(widths, offsets, Start(widths, |Placed(widths)|))
    ensures device == if keyed then Some(Start(widths, |Placed(widths)|)) else None
    ensures nwords == (Start(widths, |Placed(widths)|) + (if keyed then 1 else 0) + 7) / 8
  {
    OrderIsPermutation(widths);
    hide Start;
    var order := Order(widths);
    offsets := map[];
    StartsAtZero(widths);
    var offset := 0;
    for k := 0 to |order|
      invariant Offset(widths, offsets, k) && offset == Start(widths, k)
    {
      StartStep(widths, k);
      assert order[k] in order;
      offsets := offsets[order[k] := offset];
      offset := offset + widths[order[k]];
    }
    OffsetDone(widths, offsets);
    device := None;
    if keyed {
      device := Some(offset);
      offset := offset + 1;
    }
    nwords := (offset + 7) / 8;
  }
}
