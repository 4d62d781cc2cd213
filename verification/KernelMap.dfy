/** The open-addressed kernel map with its one-entry memo (intj/runtime/intj_map.h). */
module KernelMap {
  import opened Bits
  import opened Optional
  import opened LinearProbe
  import opened StableSort
  import opened Words

  type Key = seq<Word>

  datatype Kernel = Kernel(function_: int, blockDim: nat, shared: nat, nparams: nat)

  /** Occupancy is the value's own: a fresh slot holds the all-zero kernel. */
  predicate Live(v: Kernel) {
    v.blockDim != 0
  }

  const EMPTY := Kernel(0, 0, 0, 0)

  /** `hash` is stored only in keys of more than two words. */
  datatype Slot = Slot(hash: Word, key: Key, val: Kernel)

  const FRESH := Slot(0, [], EMPTY)

  function Keyed(slots: seq<Slot>): (t: seq<Option<Key>>)
    ensures |t| == |slots|
    ensures forall i :: 0 <= i < |slots| ==> t[i] == if Live(slots[i].val) then Some(slots[i].key) else None
  {
    seq(|slots|, i requires 0 <= i < |slots| => if Live(slots[i].val) then Some(slots[i].key) else None)
  }

  /** Where probes start, in a table of `cap` slots. */
  ghost function HomeIn(hashOf: Key -> Word, cap: nat): Key -> nat {
    k => if cap > 0 && 0 <= Home(hashOf(k), HALF, cap - 1) then Home(hashOf(k), HALF, cap - 1) else 0
  }

  /** The slots are a table of `m`: every key findable, with its value and, above two words, its
      hash. */
  ghost predicate Represents(slots: seq<Slot>, m: map<Key, Kernel>, hashOf: Key -> Word, nw: nat) {
    && Chained(Keyed(slots), HomeIn(hashOf, |slots|))
    && Keys(Keyed(slots)) == m.Keys
    && forall i :: 0 <= i < |slots| && Live(slots[i].val) ==>
         && slots[i].key in m && m[slots[i].key] == slots[i].val
         && (nw > 2 ==> slots[i].hash == hashOf(slots[i].key))
  }

  /** Filling the gap a probe found stores the key, and nothing else changes. */
  lemma FillGap(slots: seq<Slot>, m: map<Key, Kernel>, hashOf: Key -> Word, nw: nat, s: Slot, i: nat)
    requires Represents(slots, m, hashOf, nw) && i < |slots| && !Live(slots[i].val) && Live(s.val)
    requires HomeIn(hashOf, |slots|)(s.key) < |slots| && Probed(Keyed(slots), s.key, HomeIn(hashOf, |slots|)(s.key), i)
    requires nw > 2 ==> s.hash == hashOf(s.key)
    ensures s.key !in m && Represents(slots[i := s], m[s.key := s.val], hashOf, nw)
  {
    var home := HomeIn(hashOf, |slots|);
    GapMeansAbsent(Keyed(slots), home, s.key, i);
    StoreKeeps(Keyed(slots), home, s.key, i);
    assert Keyed(slots[i := s]) == Keyed(slots)[i := Some(s.key)];
  }

  lemma ProbeEnds(slots: seq<Slot>, m: map<Key, Kernel>, hashOf: Key -> Word, nw: nat) returns (gap: nat)
    requires Represents(slots, m, hashOf, nw) && |m| < |slots|
    ensures gap < |slots| && !Live(slots[gap].val)
  {
    assert |m.Keys| == |m|;
    gap := HasGap(Keyed(slots), HomeIn(hashOf, |slots|));
  }

  lemma FreshTable(slots: seq<Slot>, hashOf: Key -> Word, nw: nat)
    requires forall i :: 0 <= i < |slots| ==> slots[i] == FRESH
    ensures Represents(slots, map[], hashOf, nw)
  {
    EmptyChained(Keyed(slots), HomeIn(hashOf, |slots|));
  }

  /** A pointer into a slot array, which may have been freed. */
  datatype Pointer = Null | To(a: array<Slot>, i: nat)

  class Map {
    const nw: nat
    const hashOf: Key -> Word
    var slots: array<Slot>
    var mask: nat
    var used: nat
    var last: Pointer
    ghost var bits: nat
    ghost var contents: map<Key, Kernel>

    ghost predicate Valid()
      reads this, slots
    {
      && slots.Length == mask + 1 == Pow2(bits) < HALF  // the capacity fits uint32
      && used == |contents| && 2 * used <= slots.Length
      && Represents(slots[..], contents, hashOf, nw)
      && (last.To? ==> last.a == slots && last.i < slots.Length && Live(slots[last.i].val))
    }

    /** A map of `1 << bits` fresh slots. */
    constructor (nw: nat, hashOf: Key -> Word, bits: nat)
      requires Pow2(bits) < HALF
      ensures Valid() && contents == map[] && fresh(slots) && this.nw == nw && this.hashOf == hashOf
      ensures slots.Length == Pow2(bits)
    {
      this.nw, this.hashOf := nw, hashOf;
      slots := new Slot[Pow2(bits)](_ => FRESH);
      mask, used, last := Pow2(bits) - 1, 0, Null;
      this.bits, contents := bits, map[];
      new;
      FreshTable(slots[..], hashOf, nw);
    }

    function SlotHash(s: Slot): Word {
      if nw > 2 then s.hash else hashOf(s.key)
    }

    /** The slot of `k`, or None. The probe ends because at least one slot is free. */
    method Find(k: Key, h: Word) returns (r: Option<nat>)
      requires Valid() && h == hashOf(k)
      ensures r.Some? <==> k in contents
      ensures r.Some? ==> r.value < slots.Length && slots[r.value].key == k && Live(slots[r.value].val)
                          && slots[r.value].val == contents[k]
    {
      HomeInRange(h, HALF, mask, bits);
      var i := Home(h, HALF, mask);
      ghost var t, home := Keyed(slots[..]), HomeIn(hashOf, slots.Length);
      ghost var gap := ProbeEnds(slots[..], contents, hashOf, nw);
      assert i == home(k);
      hide Chained;
      hide Home;
      hide BitAnd;
      hide HomeIn;
      while true
        invariant 0 <= i < slots.Length && Probed(t, k, home(k), i)
        decreases Distance(i, gap, slots.Length)
      {
        if !Live(slots[i].val) {
          GapMeansAbsent(t, home, k, i);
          return None;
        }
        if (nw <= 2 || SlotHash(slots[i]) == h) && slots[i].key == k {
          return Some(i);
        }
        ProbeStep(t, k, home(k), i, gap);
        NextSlot(i, mask, bits);
        i := BitAnd(i + 1, mask);
      }
    }

    method Get(k: Key, h: Word) returns (r: Option<Kernel>)
      requires Valid() && h == hashOf(k)
      ensures r == if k in contents then Some(contents[k]) else None
    {
      var s := Find(k, h);
      r := if s.Some? then Some(slots[s.value].val) else None;
    }

    /** The memo answers without hashing, and answers as a full find would. */
    method Lookup(k: Key) returns (r: Option<Kernel>)
      requires Valid()
      modifies this`last
      ensures Valid()
      ensures r == if k in contents then Some(contents[k]) else None
    {
      if last.To? && last.a[last.i].key == k {
        return Some(last.a[last.i].val);
      }
      var s := Find(k, hashOf(k));
      if s.None? {
        return None;
      }
      last := To(slots, s.value);
      return Some(slots[s.value].val);
    }

    /** The first free slot on the probe from a key's home. */
    method FirstFree(table: array<Slot>, ghost m: map<Key, Kernel>, ghost k: Key, h: Word, tableMask: nat,
                     ghost tableBits: nat)
      returns (at: nat)
      requires table.Length == tableMask + 1 == Pow2(tableBits) && |m| < table.Length
      requires Represents(table[..], m, hashOf, nw) && k !in m && h == hashOf(k)
      ensures at < table.Length && !Live(table[at].val)
      ensures HomeIn(hashOf, table.Length)(k) < table.Length
      ensures Probed(Keyed(table[..]), k, HomeIn(hashOf, table.Length)(k), at)
    {
      hide BitAnd;
      HomeInRange(h, HALF, tableMask, tableBits);
      at := Home(h, HALF, tableMask);
      ghost var t, start := Keyed(table[..]), HomeIn(hashOf, table.Length)(k);
      ghost var gap := ProbeEnds(table[..], m, hashOf, nw);
      assert Keys(t) == m.Keys && at == start;
      hide Represents;
      hide HomeIn;
      hide Home;
      while Live(table[at].val)
        invariant at < table.Length && Probed(t, k, start, at)
        decreases Distance(at, gap, table.Length)
      {
        assert t[at].value in Keys(t);
        ProbeStep(t, k, start, at, gap);
        NextSlot(at, tableMask, tableBits);
        at := BitAnd(at + 1, tableMask);
      }
    }

    /** Store a slot whose key the table lacks. */
    method Place(table: array<Slot>, ghost m: map<Key, Kernel>, s: Slot, tableMask: nat,
                 ghost tableBits: nat) returns (at: nat)
      requires table.Length == tableMask + 1 == Pow2(tableBits) && |m| < table.Length
      requires Represents(table[..], m, hashOf, nw) && s.key !in m && Live(s.val)
          && (nw > 2 ==> s.hash == hashOf(s.key))
      modifies table
      ensures at < table.Length && table[..] == old(table[..])[at := s]
      ensures Represents(table[..], m[s.key := s.val], hashOf, nw)
    {
      hide Represents;
      hide HomeIn;
      at := FirstFree(table, m, s.key, SlotHash(s), tableMask, tableBits);
      FillGap(table[..], m, hashOf, nw, s, at);
      table[at] := s;
      assert table[..] == old(table[..])[at := s];
    }

    /** Double the table and store every live slot again; false when the allocation fails. */
    method Grow(memory: bool) returns (ok: bool)
      requires Valid() && 2 * (mask + 1) < HALF
      modifies this`slots, this`mask, this`bits
      ensures ok == memory
      ensures !ok ==> slots == old(slots) && mask == old(mask) && bits == old(bits)
      ensures ok ==> fresh(slots) && slots.Length == mask + 1 == Pow2(bits) == 2 * old(slots).Length < HALF
      ensures Represents(slots[..], contents, hashOf, nw)
    {
      hide Represents;
      hide Rehashed;
      hide Live;
      if !memory {
        return false;
      }
      var cap := (mask + 1) * 2;
      assert cap == Pow2(bits + 1);
      var grown := new Slot[cap](_ => FRESH);
      ghost var m: map<Key, Kernel> := map[];
      FreshTable(grown[..], hashOf, nw);
      ghost var before := slots[..];
      RehashStart(before, contents);
      for i := 0 to mask + 1
        invariant slots == old(slots) && mask == old(mask) && bits == old(bits)
        invariant Represents(grown[..], m, hashOf, nw)
        invariant Rehashed(before, i, m, contents)
        invariant fresh(grown) && grown.Length == cap && slots[..] == before
      {
        RehashStep(before, i, m, contents, hashOf, nw);
        assert slots[i] == before[i];
        if Live(slots[i].val) {
          var at := Place(grown, m, slots[i], cap - 1, bits + 1);
          m := m[slots[i].key := slots[i].val];
        }
      }
      RehashDone(before, m, contents, hashOf, nw);
      slots, mask, bits := grown, cap - 1, bits + 1;
      return true;
    }

    /** Every value in slot order, until the visitor answers other than 0: the entries visited are
        distinct, and all of the map's when none stops it. */
    method Each(fn: Kernel -> int) returns (visited: seq<Key>, r: int)
      requires Valid()
      ensures NoRepeats(visited)
      ensures forall k :: k in visited ==> k in contents
      ensures forall a :: 0 <= a < |visited| ==> fn(contents[visited[a]]) == if r != 0 && a == |visited| - 1 then r
          else 0
      ensures r == 0 ==> forall k :: k in contents ==> k in visited
      ensures r != 0 ==> visited != []
    {
      hide Represents;
      visited := [];
      ghost var before := slots[..];
      for i := 0 to mask + 1
        invariant visited == LiveKeys(before, i)
        invariant forall k :: k in visited ==> k in contents && fn(contents[k]) == 0
      {
        assert slots[i] == before[i];
        LiveKeysDistinct(before, contents, hashOf, nw, i + 1);
        if Live(slots[i].val) {
          LiveSlot(before, contents, hashOf, nw, i);
          visited := visited + [slots[i].key];
          assert visited == LiveKeys(before, i + 1);
          var answer := fn(slots[i].val);
          if answer != 0 {
            return visited, answer;
          }
        }
      }
      LiveKeysDistinct(before, contents, hashOf, nw, |before|);
      forall k | k in contents
        ensures k in visited
      {
        HasSlot(before, contents, hashOf, nw, k);
      }
      r := 0;
    }

    /** Store a new key: its value's new slot, or None when growing failed and nothing changed. */
    method Put(k: Key, val: Kernel, memory: bool) returns (r: Option<nat>)
      requires Valid() && k !in contents && Live(val)
      requires 2 * (used + 1) > mask + 1 ==> 2 * (mask + 1) < HALF  // so does a grown one
      modifies this, slots
      ensures Valid() && fresh({slots} - {old(slots)})
      ensures r.None? ==> && !memory && 2 * (old(used) + 1) > old(slots).Length
                          && contents == old(contents) && slots == old(slots) && slots[..] == old(slots[..])
                            && last == old(last)
      ensures r.Some? ==> && contents == old(contents)[k := val] && last.Null?
                          && r.value < slots.Length && slots[r.value].key == k && slots[r.value].val == val
    {
      hide Represents;
      if (used + 1) * 2 > mask + 1 {
        var ok := Grow(memory);
        if !ok {
          return None;
        }
      }
      var h := hashOf(k);
      var s := Slot(if nw > 2 then h else 0, k, val);
      var at := Place(slots, contents, s, mask, bits);
      assert slots[at] == slots[..][at] == s;
      contents := contents[k := val];
      used := used + 1;
      last := Null;
      return Some(at);
    }
  }

  /** The keys of the live slots before `i`, in slot order. */
  function LiveKeys(slots: seq<Slot>, i: nat): seq<Key>
    requires i <= |slots|
  {
    if i == 0 then [] else LiveKeys(slots, i - 1) + if Live(slots[i - 1].val) then [slots[i - 1].key] else []
  }

  lemma {:induction false} LiveKeysMember(slots: seq<Slot>, i: nat, k: Key)
    requires i <= |slots|
    ensures k in LiveKeys(slots, i) <==> exists j :: 0 <= j < i && Live(slots[j].val) && slots[j].key == k
    decreases i
  {
    if i > 0 {
      LiveKeysMember(slots, i - 1, k);
    }
  }

  /** No two live slots have one key, and each holds its entry. */
  lemma LiveSlot(slots: seq<Slot>, m: map<Key, Kernel>, hashOf: Key -> Word, nw: nat, i: nat)
    requires i < |slots| && Represents(slots, m, hashOf, nw) && Live(slots[i].val)
    ensures slots[i].key in m && m[slots[i].key] == slots[i].val && (nw > 2 ==> slots[i].hash == hashOf(slots[i].key))
    ensures forall j :: 0 <= j < |slots| && j != i && Live(slots[j].val) ==> slots[j].key != slots[i].key
  {
    forall j | 0 <= j < |slots| && j != i && Live(slots[j].val)
      ensures slots[j].key != slots[i].key
    {
      assert Keyed(slots)[j] != Keyed(slots)[i];
    }
  }

  /** Every entry has a slot. */
  lemma HasSlot(slots: seq<Slot>, m: map<Key, Kernel>, hashOf: Key -> Word, nw: nat, k: Key)
    requires Represents(slots, m, hashOf, nw) && k in m
    ensures k in LiveKeys(slots, |slots|)
  {
    LiveKeysMember(slots, |slots|, k);
    assert k in Keys(Keyed(slots));
    var j :| 0 <= j < |slots| && Keyed(slots)[j] == Some(k);
    assert slots[j].key == k;
  }

  /** A walk over the slots meets each entry at most once. */
  lemma {:induction false} LiveKeysDistinct(slots: seq<Slot>, m: map<Key, Kernel>, hashOf: Key -> Word, nw: nat, i: nat)
    requires i <= |slots| && Represents(slots, m, hashOf, nw)
    ensures NoRepeats(LiveKeys(slots, i)) && forall k :: k in LiveKeys(slots, i) ==> k in m
    decreases i
  {
    hide Represents;
    if i > 0 {
      LiveKeysDistinct(slots, m, hashOf, nw, i - 1);
      if Live(slots[i - 1].val) {
        LiveKeysMember(slots, i - 1, slots[i - 1].key);
        LiveSlot(slots, m, hashOf, nw, i - 1);
      }
    }
  }

  /** `m` has what the live slots before `i` hold, of a table of `contents`. */
  ghost predicate Rehashed(slots: seq<Slot>, i: nat, m: map<Key, Kernel>, contents: map<Key, Kernel>)
    requires i <= |slots|
  {
    && (forall j :: 0 <= j < i && Live(slots[j].val) ==> slots[j].key in m)
    && forall k :: k in m ==> k in contents && m[k] == contents[k] && exists j ::
      0 <= j < i && Live(slots[j].val) && slots[j].key == k
  }

  lemma RehashStart(slots: seq<Slot>, contents: map<Key, Kernel>)
    ensures Rehashed(slots, 0, map[], contents)
  {
  }

  lemma RehashStep(slots: seq<Slot>, i: nat, m: map<Key, Kernel>, contents: map<Key, Kernel>, hashOf: Key -> Word,
                   nw: nat)
    requires i < |slots| && Rehashed(slots, i, m, contents) && Represents(slots, contents, hashOf, nw)
    ensures |m| <= |contents|
    ensures if Live(slots[i].val) then
              slots[i].key !in m && Rehashed(slots, i + 1, m[slots[i].key := slots[i].val], contents)
            else Rehashed(slots, i + 1, m, contents)
    ensures Live(slots[i].val) && nw > 2 ==> slots[i].hash == hashOf(slots[i].key)
  {
    hide Represents;
    Submap(m, contents);
    if Live(slots[i].val) {
      LiveSlot(slots, contents, hashOf, nw, i);
      RehashAdd(slots, i, m, contents);
    }
  }

  lemma RehashAdd(slots: seq<Slot>, i: nat, m: map<Key, Kernel>, contents: map<Key, Kernel>)
    requires i < |slots| && Rehashed(slots, i, m, contents) && Live(slots[i].val)
    requires forall j :: 0 <= j < i && Live(slots[j].val) ==> slots[j].key != slots[i].key
    requires slots[i].key in contents && contents[slots[i].key] == slots[i].val
    ensures slots[i].key !in m && Rehashed(slots, i + 1, m[slots[i].key := slots[i].val], contents)
  {
  }

  lemma RehashDone(slots: seq<Slot>, m: map<Key, Kernel>, contents: map<Key, Kernel>, hashOf: Key -> Word, nw: nat)
    requires Rehashed(slots, |slots|, m, contents) && Represents(slots, contents, hashOf, nw)
    ensures m == contents
  {
    forall k | k in contents
      ensures k in m
    {
      assert k in Keys(Keyed(slots));
    }
  }

  lemma Submap(a: map<Key, Kernel>, b: map<Key, Kernel>)
    requires forall k :: k in a ==> k in b
    ensures |a| <= |b|
  {
    assert a.Keys <= b.Keys;
    SubsetSize(a.Keys, b.Keys);
    assert |a.Keys| == |a| && |b.Keys| == |b|;
  }
}
