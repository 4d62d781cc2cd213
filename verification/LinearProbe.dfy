/** Linear probing with no deletion: what keeps a key findable, which slots a probe visits, and
    why it ends. Shared by the kernel map and the object table. */
module LinearProbe {
  import opened Bits
  import opened Optional

  /** The slot after `i`, wrapping: `(i + 1) & mask`. */
  function After(i: nat, cap: nat): nat {
    if i + 1 == cap then 0 else i + 1
  }

  /** `j` is one of the slots a probe from `home` visits before it reaches `p`. */
  predicate Between(home: nat, j: nat, p: nat) {
    if home <= p then home <= j < p else home <= j || j < p
  }

  /** Slots a probe at `i` still has ahead of it before it reaches `d`. */
  function Distance(i: nat, d: nat, cap: nat): int {
    if i <= d then d - i else d - i + cap
  }

  /** The occupied slots, by key: the probe of every key reaches its slot without a gap, and no
      key is stored twice. `home` is where a key's probe starts. */
  ghost predicate Chained<K>(t: seq<Option<K>>, home: K -> nat) {
    && (forall p, j :: 0 <= p < |t| && t[p].Some? && 0 <= j < |t| && Between(home(t[p].value), j, p) ==> t[j].Some?)
    && (forall p :: 0 <= p < |t| && t[p].Some? ==> home(t[p].value) < |t|)
    && forall p, q :: 0 <= p < |t| && 0 <= q < |t| && t[p].Some? && t[p] == t[q] ==> p == q
  }

  ghost function Keys<K>(t: seq<Option<K>>): set<K> {
    set p | 0 <= p < |t| && t[p].Some? :: t[p].value
  }

  /** A probe for `k` that has come to slot `i`: everything it passed is occupied by other keys. */
  ghost predicate Probed<K>(t: seq<Option<K>>, k: K, start: nat, i: nat) {
    forall j :: 0 <= j < |t| && Between(start, j, i) ==> t[j].Some? && t[j].value != k
  }

  /** An empty slot ends the probe: the key is nowhere in the table. */
  lemma GapMeansAbsent<K>(t: seq<Option<K>>, home: K -> nat, k: K, i: nat)
    requires Chained(t, home) && i < |t| && home(k) < |t| && t[i].None? && Probed(t, k, home(k), i)
    ensures k !in Keys(t)
  {
    forall p | 0 <= p < |t| && t[p].Some?
      ensures t[p].value != k
    {
      assert p == i || Between(home(k), p, i) || Between(home(k), i, p);
    }
  }

  /** The next slot, unless the probe would come back to where it started. */
  lemma ProbeStep<K>(t: seq<Option<K>>, k: K, start: nat, i: nat, gap: nat)
    requires start < |t| && i < |t| && gap < |t| && t[gap].None?
    requires Probed(t, k, start, i) && t[i].Some? && t[i].value != k
    ensures Probed(t, k, start, After(i, |t|)) && After(i, |t|) < |t|
    ensures 0 <= Distance(After(i, |t|), gap, |t|) < Distance(i, gap, |t|)
  {
    assert After(i, |t|) == start ==> gap == i || Between(start, gap, i);
  }

  /** Storing a new key at the gap its probe found keeps every key findable. */
  lemma StoreKeeps<K>(t: seq<Option<K>>, home: K -> nat, k: K, i: nat)
    requires Chained(t, home) && i < |t| && home(k) < |t| && t[i].None? && Probed(t, k, home(k), i)
    ensures Chained(t[i := Some(k)], home) && Keys(t[i := Some(k)]) == Keys(t) + {k}
  {
    GapMeansAbsent(t, home, k, i);
    var t' := t[i := Some(k)];
    forall p | 0 <= p < |t| && t[p].Some?
      ensures t[p].value != k
    {
      assert t[p].value in Keys(t);
    }
    forall x | x in Keys(t) + {k}
      ensures x in Keys(t')
    {
      if x == k {
        assert t'[i].value == k;
      } else {
        var p :| 0 <= p < |t| && t[p].Some? && t[p].value == x;
        assert t'[p].value == x;
      }
    }
    forall x | x in Keys(t')
      ensures x in Keys(t) + {k}
    {
      var p :| 0 <= p < |t'| && t'[p].Some? && t'[p].value == x;
      if p != i {
        assert t[p].value == x;
      }
    }
  }

  /** A table with more slots than keys has a gap. */
  lemma HasGap<K>(t: seq<Option<K>>, home: K -> nat) returns (gap: nat)
    requires Chained(t, home) && |Keys(t)| < |t|
    ensures gap < |t| && t[gap].None?
  {
    if forall i :: 0 <= i < |t| ==> t[i].Some? {
      FullCount(t);
    }
    gap :| 0 <= gap < |t| && t[gap].None?;
  }

  lemma {:induction false} FullCount<K>(t: seq<Option<K>>)
    requires forall i :: 0 <= i < |t| ==> t[i].Some?
    requires forall i, j :: 0 <= i < j < |t| ==> t[i] != t[j]
    ensures |Keys(t)| == |t|
    decreases |t|
  {
    if t == [] {
      assert Keys(t) == {};
    } else {
      var last := |t| - 1;
      FullCount(t[..last]);
      forall x | x in Keys(t)
        ensures x in Keys(t[..last]) + {t[last].value}
      {
        var p :| 0 <= p < |t| && t[p].value == x;
        if p < last {
          assert t[..last][p].value == x;
        }
      }
      forall x | x in Keys(t[..last]) + {t[last].value}
        ensures x in Keys(t)
      {
        if x != t[last].value {
          var p :| 0 <= p < last && t[..last][p].value == x;
          assert t[p].value == x;
        }
      }
      assert Keys(t) == Keys(t[..last]) + {t[last].value};
      forall p | 0 <= p < last
        ensures t[..last][p].value != t[last].value
      {
        assert t[p] != t[last];
      }
    }
  }

  lemma EmptyChained<K>(t: seq<Option<K>>, home: K -> nat)
    requires forall i :: 0 <= i < |t| ==> t[i].None?
    ensures Chained(t, home) && Keys(t) == {}
  {
  }

  /** Where the probe of a hash starts: `(uint32_t)hash & mask` or `(size_t)hash & mask`, by how many
      values the hash is cut to. */
  function Home(hash: int, values: nat, mask: nat): int
    requires values > 0
  {
    BitAnd(hash % values, mask)
  }

  lemma HomeInRange(hash: int, values: nat, mask: nat, bits: nat)
    requires values > 0 && mask + 1 == Pow2(bits)
    ensures 0 <= Home(hash, values, mask) <= mask
  {
    MaskIsMod(hash % values, bits);
  }

  lemma NextSlot(i: nat, mask: nat, bits: nat)
    requires mask + 1 == Pow2(bits) && i <= mask
    ensures BitAnd(i + 1, mask) == After(i, mask + 1)
  {
    MaskIsMod(i + 1, bits);
    hide BitAnd;
    if i == mask {
      DivUnique(i + 1, mask + 1, 1, 0);
    } else {
      DivUnique(i + 1, mask + 1, 0, i + 1);
    }
  }

  lemma {:induction false} SubsetSize<T>(a: set<T>, b: set<T>)
    requires a <= b
    ensures |a| <= |b|
    decreases |a|
  {
    if a != {} {
      var x :| x in a;
      SubsetSize(a - {x}, b - {x});
    }
  }
}
