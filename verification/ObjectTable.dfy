/** A launcher's object table: ids already answered, keyed by address or by a str's content
    (`intj_objtab`, intj/runtime/intj_runtime.h). */
module ObjectTable {
  import opened Bits
  import opened Optional
  import opened LinearProbe
  import opened PyObjects
  import opened Words

  datatype Tag = Empty | Same | Text | DtypeName

  datatype Entry = Entry(tag: Tag, ref: Addr, id: nat)

  datatype Slot = Slot(hash: int, entry: Entry)

  const FREE := Slot(0, Entry(Empty, 0, 0))

  predicate IsStr(heap: Heap, a: Addr) {
    a in heap && heap[a].Str?
  }

  /** Equal exact strs, by kind, length and bytes. */
  predicate SameText(heap: Heap, a: Addr, b: Addr) {
    IsStr(heap, a) && IsStr(heap, b) && heap[a].text == heap[b].text
  }

  predicate Matches(heap: Heap, e: Entry, tag: Tag, key: Addr) {
    e.tag == tag && (e.ref == key || (tag != Same && SameText(heap, e.ref, key)))
  }

  /** The id recorded for (tag, key). */
  function Lookup(heap: Heap, log: seq<Entry>, tag: Tag, key: Addr): Option<nat> {
    if log == [] then None
    else if Matches(heap, log[|log| - 1], tag, key) then Some(log[|log| - 1].id)
    else Lookup(heap, log[..|log| - 1], tag, key)
  }

  lemma {:induction false} LookupFinds(heap: Heap, log: seq<Entry>, tag: Tag, key: Addr)
    ensures Lookup(heap, log, tag, key).None? ==> forall e :: e in log ==> !Matches(heap, e, tag, key)
    ensures Lookup(heap, log, tag, key).Some? ==>
              exists e :: e in log && Matches(heap, e, tag, key) && e.id == Lookup(heap, log, tag, key).value
    decreases |log|
  {
    if log != [] {
      LookupFinds(heap, log[..|log| - 1], tag, key);
    }
  }

  /** An entry's key may be compared: its tag is a real one, and content is a str's. */
  predicate Sound(heap: Heap, tag: Tag, ref: Addr) {
    tag != Empty && (tag != Same ==> IsStr(heap, ref))
  }

  /** What the table is keyed by. */
  datatype Key = ByAddress(ref: Addr) | ByText(tag: Tag, text: string)

  function KeyOf(heap: Heap, tag: Tag, ref: Addr): Key {
    if tag == Same || !IsStr(heap, ref) then ByAddress(ref) else ByText(tag, heap[ref].text)
  }

  lemma MatchesByKey(heap: Heap, e: Entry, tag: Tag, key: Addr)
    requires Sound(heap, e.tag, e.ref) && Sound(heap, tag, key)
    ensures Matches(heap, e, tag, key) <==> KeyOf(heap, e.tag, e.ref) == KeyOf(heap, tag, key)
  {
  }

  function HashOf(k: Key, textHash: string -> int): int {
    match k
    case ByAddress(ref) => ref / 16
    case ByText(_, text) => textHash(text)
  }

  function Keyed(heap: Heap, slots: seq<Slot>): (t: seq<Option<Key>>)
    ensures |t| == |slots|
    ensures forall i :: 0 <= i < |slots| ==>
              t[i] == if slots[i].entry.tag.Empty? then None
                else Some(KeyOf(heap, slots[i].entry.tag, slots[i].entry.ref))
  {
    seq(|slots|, i requires 0 <= i < |slots| =>
      if slots[i].entry.tag.Empty? then None else Some(KeyOf(heap, slots[i].entry.tag, slots[i].entry.ref)))
  }

  ghost function HomeIn(textHash: string -> int, cap: nat): Key -> nat {
    k => if cap > 0 && 0 <= Home(HashOf(k, textHash), WORD, cap - 1) then Home(HashOf(k, textHash), WORD, cap - 1)
      else 0
  }

  ghost function EntryKeys(heap: Heap, entries: set<Entry>): set<Key> {
    set e | e in entries :: KeyOf(heap, e.tag, e.ref)
  }

  /** Every key is an entry's, and no two entries share one. */
  ghost predicate Keyable(heap: Heap, entries: set<Entry>) {
    && (forall e :: e in entries ==> Sound(heap, e.tag, e.ref))
    && forall e, f :: e in entries && f in entries && KeyOf(heap, e.tag, e.ref) == KeyOf(heap, f.tag, f.ref) ==> e == f
  }

  /** The slots hold exactly these entries, every one findable by its key. */
  ghost predicate Represents(heap: Heap, slots: seq<Slot>, entries: set<Entry>, textHash: string -> int) {
    && Keyable(heap, entries)
    && Chained(Keyed(heap, slots), HomeIn(textHash, |slots|))
    && Keys(Keyed(heap, slots)) == EntryKeys(heap, entries)
    && forall i :: 0 <= i < |slots| && !slots[i].entry.tag.Empty? ==>
         && slots[i].entry in entries
         && slots[i].hash == HashOf(KeyOf(heap, slots[i].entry.tag, slots[i].entry.ref), textHash)
  }

  lemma {:induction false} KeyCount(heap: Heap, entries: set<Entry>)
    ensures |EntryKeys(heap, entries)| <= |entries|
    decreases |entries|
  {
    if entries == {} {
      assert EntryKeys(heap, entries) == {};
    } else {
      var e :| e in entries;
      KeyCount(heap, entries - {e});
      assert EntryKeys(heap, entries) == EntryKeys(heap, entries - {e}) + {KeyOf(heap, e.tag, e.ref)};
    }
  }

  lemma ProbeEnds(heap: Heap, slots: seq<Slot>, entries: set<Entry>, textHash: string -> int) returns (gap: nat)
    requires Represents(heap, slots, entries, textHash) && |entries| < |slots|
    ensures gap < |slots| && slots[gap].entry.tag.Empty?
  {
    KeyCount(heap, entries);
    gap := HasGap(Keyed(heap, slots), HomeIn(textHash, |slots|));
  }

  lemma FillGap(heap: Heap, slots: seq<Slot>, entries: set<Entry>, textHash: string -> int, s: Slot, i: nat)
    requires Represents(heap, slots, entries, textHash) && i < |slots| && slots[i].entry.tag.Empty?
    requires Sound(heap, s.entry.tag, s.entry.ref)
    requires s.hash == HashOf(KeyOf(heap, s.entry.tag, s.entry.ref), textHash)
    requires HomeIn(textHash, |slots|)(KeyOf(heap, s.entry.tag, s.entry.ref)) < |slots|
    requires Probed(Keyed(heap, slots), KeyOf(heap, s.entry.tag, s.entry.ref),
                    HomeIn(textHash, |slots|)(KeyOf(heap, s.entry.tag, s.entry.ref)), i)
    ensures s.entry !in entries && Represents(heap, slots[i := s], entries + {s.entry}, textHash)
  {
    var k, home := KeyOf(heap, s.entry.tag, s.entry.ref), HomeIn(textHash, |slots|);
    GapMeansAbsent(Keyed(heap, slots), home, k, i);
    StoreKeeps(Keyed(heap, slots), home, k, i);
    hide Chained;
    assert Keyed(heap, slots[i := s]) == Keyed(heap, slots)[i := Some(k)];
    assert k !in EntryKeys(heap, entries);
    assert EntryKeys(heap, entries + {s.entry}) == EntryKeys(heap, entries) + {k};
  }

  /** What the slots before `i` hold. */
  ghost function Held(slots: seq<Slot>, i: nat): set<Entry>
    requires i <= |slots|
  {
    set j | 0 <= j < i && !slots[j].entry.tag.Empty? :: slots[j].entry
  }

  lemma HeldStep(heap: Heap, slots: seq<Slot>, i: nat, entries: set<Entry>, textHash: string -> int)
    requires i < |slots| && Represents(heap, slots, entries, textHash)
    ensures Held(slots, i) <= entries && |Held(slots, i)| <= |entries|
    ensures if slots[i].entry.tag.Empty? then Held(slots, i + 1) == Held(slots, i)
            else && Held(slots, i + 1) == Held(slots, i) + {slots[i].entry}
                 && Sound(heap, slots[i].entry.tag, slots[i].entry.ref)
                 && slots[i].hash == HashOf(KeyOf(heap, slots[i].entry.tag, slots[i].entry.ref), textHash)
                 && KeyOf(heap, slots[i].entry.tag, slots[i].entry.ref) !in EntryKeys(heap, Held(slots, i))
  {
    SubsetSize(Held(slots, i), entries);
    if !slots[i].entry.tag.Empty? {
      forall e | e in Held(slots, i)
        ensures KeyOf(heap, e.tag, e.ref) != KeyOf(heap, slots[i].entry.tag, slots[i].entry.ref)
      {
        var j :| 0 <= j < i && !slots[j].entry.tag.Empty? && slots[j].entry == e;
        assert Keyed(heap, slots)[j] != Keyed(heap, slots)[i];
      }
    }
  }

  lemma HeldAll(heap: Heap, slots: seq<Slot>, entries: set<Entry>, textHash: string -> int)
    requires Represents(heap, slots, entries, textHash)
    ensures Held(slots, |slots|) == entries
  {
    forall e | e in entries
      ensures e in Held(slots, |slots|)
    {
      assert KeyOf(heap, e.tag, e.ref) in Keys(Keyed(heap, slots));
      var i :| 0 <= i < |slots| && Keyed(heap, slots)[i] == Some(KeyOf(heap, e.tag, e.ref));
      assert slots[i].entry == e;
    }
  }

  /** The log's entries, which no two share a key. */
  ghost predicate Logged(log: seq<Entry>, entries: set<Entry>) {
    entries == (set e | e in log) && |entries| == |log|
  }

  class Table {
    const textHash: string -> int
    var slots: array<Slot>  // of length 0 until the first insert
    var mask: nat
    var n: nat
    ghost var bits: nat
    ghost var entries: set<Entry>
    ghost var log: seq<Entry>

    ghost predicate Valid(heap: Heap)
      reads this, slots
    {
      && (if slots.Length == 0 then n == 0 else slots.Length == mask + 1 == Pow2(bits))
      && Logged(log, entries) && n == |entries| && 2 * n <= slots.Length
      && Represents(heap, slots[..], entries, textHash)
    }

    constructor (textHash: string -> int)
      ensures forall heap :: Valid(heap)
      ensures log == [] && fresh(slots)
    {
      this.textHash := textHash;
      slots := new Slot[0];
      mask, n, bits, entries, log := 0, 0, 0, {}, [];
      new;
      assert forall heap :: Keyed(heap, slots[..]) == [];
    }

    /** The slot of (tag, key), or None; what it holds is what the log recorded. */
    method Find(heap: Heap, tag: Tag, hash: int, key: Addr) returns (r: Option<nat>)
      requires Valid(heap) && Sound(heap, tag, key) && hash == HashOf(KeyOf(heap, tag, key), textHash)
      ensures r.None? ==> forall e :: e in entries ==> !Matches(heap, e, tag, key)
      ensures r.Some? ==> && r.value < slots.Length && slots[r.value].entry in entries
                          && Matches(heap, slots[r.value].entry, tag, key)
      ensures Lookup(heap, log, tag, key) == if r.None? then None else Some(slots[r.value].entry.id)
    {
      LookupFinds(heap, log, tag, key);
      if slots.Length == 0 {
        return None;
      }
      HomeInRange(hash, WORD, mask, bits);
      var i := Home(hash, WORD, mask);
      ghost var t, k, home := Keyed(heap, slots[..]), KeyOf(heap, tag, key), HomeIn(textHash, slots.Length);
      ghost var gap := ProbeEnds(heap, slots[..], entries, textHash);
      assert i == home(k);
      hide Chained;
      hide Home;
      hide BitAnd;
      hide HomeIn;
      hide Lookup;
      while true
        invariant 0 <= i < slots.Length && Probed(t, k, home(k), i)
        decreases Distance(i, gap, slots.Length)
      {
        var s := slots[i];
        if s.entry.tag.Empty? {
          GapMeansAbsent(t, home, k, i);
          Absent(heap, entries, tag, key);
          return None;
        }
        MatchesByKey(heap, s.entry, tag, key);
        if s.entry.tag == tag && s.hash == hash
          && (s.entry.ref == key || (tag != Same && SameText(heap, s.entry.ref, key))) {
          Unique(heap, entries, s.entry, tag, key);
          return Some(i);
        }
        assert t[i] == Some(KeyOf(heap, s.entry.tag, s.entry.ref));
        ProbeStep(t, k, home(k), i, gap);
        NextSlot(i, mask, bits);
        i := BitAnd(i + 1, mask);
      }
    }

    /** Store an entry whose key the slots lack in the first free slot on its probe. */
    method Place(heap: Heap, table: array<Slot>, ghost es: set<Entry>, s: Slot, tableMask: nat, ghost tableBits: nat)
      returns (at: nat)
      requires table.Length == tableMask + 1 == Pow2(tableBits) && |es| < table.Length
      requires Represents(heap, table[..], es, textHash) && Sound(heap, s.entry.tag, s.entry.ref)
      requires s.hash == HashOf(KeyOf(heap, s.entry.tag, s.entry.ref), textHash)
      requires KeyOf(heap, s.entry.tag, s.entry.ref) !in EntryKeys(heap, es)
      modifies table
      ensures at < table.Length && table[..] == old(table[..])[at := s] && old(table[at].entry.tag.Empty?)
      ensures HomeIn(textHash, table.Length)(KeyOf(heap, s.entry.tag, s.entry.ref))
          == Home(s.hash, WORD, tableMask) >= 0
      ensures Probed(Keyed(heap, old(table[..])), KeyOf(heap, s.entry.tag, s.entry.ref), Home(s.hash, WORD, tableMask),
                     at)
      ensures s.entry !in es && Represents(heap, table[..], es + {s.entry}, textHash)
    {
      HomeInRange(s.hash, WORD, tableMask, tableBits);
      at := Home(s.hash, WORD, tableMask);
      ghost var t, k, home := Keyed(heap, table[..]), KeyOf(heap, s.entry.tag, s.entry.ref), HomeIn(textHash,
                                    table.Length);
      ghost var gap := ProbeEnds(heap, table[..], es, textHash);
      assert at == home(k) && Keys(t) == EntryKeys(heap, es);
      hide Represents;
      hide Home;
      hide BitAnd;
      hide HomeIn;
      while !table[at].entry.tag.Empty?
        invariant 0 <= at < table.Length && Probed(t, k, home(k), at)
        invariant table[..] == old(table[..])
        decreases Distance(at, gap, table.Length)
      {
        assert t[at].value in Keys(t);
        ProbeStep(t, k, home(k), at, gap);
        NextSlot(at, tableMask, tableBits);
        at := BitAnd(at + 1, tableMask);
      }
      FillGap(heap, table[..], es, textHash, s, at);
      table[at] := s;
      assert table[..] == old(table[..])[at := s];
    }

    /** Eight slots, then twice as many, with every entry stored again; false, and nothing
        changed, when the allocation fails. */
    method Grow(heap: Heap, memory: bool) returns (ok: bool)
      requires Valid(heap)
      modifies this`slots, this`mask, this`bits
      ensures ok == memory
      ensures !ok ==> slots == old(slots) && mask == old(mask) && bits == old(bits)
      ensures ok ==> fresh(slots) && slots.Length == mask + 1 == Pow2(bits) && slots.Length > old(slots).Length
      ensures ok ==> slots.Length == if old(slots).Length == 0 then 8 else 2 * old(slots).Length
      ensures Represents(heap, slots[..], entries, textHash)
    {
      hide Represents;
      if !memory {
        return false;
      }
      var cap := slots.Length;
      var size := if cap == 0 then 8 else 2 * cap;
      ghost var grownBits := if cap == 0 then 3 else bits + 1;
      assert Pow2(3) == 2 * Pow2(2) == 4 * Pow2(1) == 8;
      assert size == Pow2(grownBits);
      var grown := new Slot[size](_ => FREE);
      EmptyTable(heap, grown[..], textHash);
      ghost var before := slots[..];
      assert Held(before, 0) == Held(grown[..], 0);
      for j := 0 to cap
        invariant slots == old(slots) && mask == old(mask) && bits == old(bits)
        invariant Represents(heap, grown[..], Held(before, j), textHash)
        invariant fresh(grown) && grown.Length == size && slots[..] == before
      {
        HeldStep(heap, before, j, entries, textHash);
        assert slots[j] == before[j];
        if !slots[j].entry.tag.Empty? {
          var _ := Place(heap, grown, Held(before, j), slots[j], size - 1, grownBits);
        }
      }
      HeldAll(heap, before, entries, textHash);
      slots, mask, bits := grown, size - 1, grownBits;
      return true;
    }

    /** Record (tag, key) -> id, taking the reference `key`. */
    method Add(heap: Heap, tag: Tag, hash: int, key: Addr, id: nat, memory: bool) returns (taken: bool)
      requires Valid(heap) && Sound(heap, tag, key) && hash == HashOf(KeyOf(heap, tag, key), textHash)
      modifies this, slots
      ensures Valid(heap) && fresh({slots} - {old(slots)})
      ensures log == if taken then old(log) + [Entry(tag, key, id)] else old(log)
      ensures taken <==> Lookup(heap, old(log), tag, key).None? && (memory || 2 * (old(n) + 1) <= old(slots).Length)
    {
      hide Represents;
      hide Lookup;
      hide Matches;
      hide KeyOf;
      hide HashOf;
      hide Sound;
      hide EntryKeys;
      hide Pow2;
      hide Logged;
      var found := Find(heap, tag, hash, key);
      if found.Some? {
        return false;
      }
      if 2 * (n + 1) > slots.Length {
        var ok := Grow(heap, memory);
        if !ok {
          return false;
        }
      }
      var s := Slot(hash, Entry(tag, key, id));
      NewKey(heap, slots[..], entries, textHash, tag, key);
      var _ := Place(heap, slots, entries, s, mask, bits);
      LogOne(log, entries, s.entry);
      entries, log, n := entries + {s.entry}, log + [s.entry], n + 1;
      return true;
    }
  }

  lemma Absent(heap: Heap, entries: set<Entry>, tag: Tag, key: Addr)
    requires Keyable(heap, entries) && Sound(heap, tag, key) && KeyOf(heap, tag, key) !in EntryKeys(heap, entries)
    ensures forall e :: e in entries ==> !Matches(heap, e, tag, key)
  {
    forall e | e in entries
      ensures !Matches(heap, e, tag, key)
    {
      MatchesByKey(heap, e, tag, key);
    }
  }

  lemma Unique(heap: Heap, entries: set<Entry>, e: Entry, tag: Tag, key: Addr)
    requires Keyable(heap, entries) && Sound(heap, tag, key) && e in entries && Matches(heap, e, tag, key)
    ensures forall f :: f in entries && Matches(heap, f, tag, key) ==> f == e
  {
    forall f | f in entries && Matches(heap, f, tag, key)
      ensures f == e
    {
      MatchesByKey(heap, e, tag, key);
      MatchesByKey(heap, f, tag, key);
    }
  }

  lemma NewKey(heap: Heap, slots: seq<Slot>, entries: set<Entry>, textHash: string -> int, tag: Tag, key: Addr)
    requires Represents(heap, slots, entries, textHash) && Sound(heap, tag, key)
    requires forall e :: e in entries ==> !Matches(heap, e, tag, key)
    ensures KeyOf(heap, tag, key) !in EntryKeys(heap, entries)
  {
    forall e | e in entries
      ensures KeyOf(heap, e.tag, e.ref) != KeyOf(heap, tag, key)
    {
      MatchesByKey(heap, e, tag, key);
    }
  }

  lemma LogOne(log: seq<Entry>, entries: set<Entry>, e: Entry)
    requires Logged(log, entries) && e !in entries
    ensures Logged(log + [e], entries + {e})
  {
  }

  lemma EmptyTable(heap: Heap, slots: seq<Slot>, textHash: string -> int)
    requires forall i :: 0 <= i < |slots| ==> slots[i] == FREE
    ensures Represents(heap, slots, Held(slots, 0), textHash)
  {
    EmptyChained(Keyed(heap, slots), HomeIn(textHash, |slots|));
    assert EntryKeys(heap, {}) == {};
  }

  /** Objects no entry refers to may come and go; the table stays valid. */
  lemma OtherObjects(table: Table, heap: Heap, heap': Heap)
    requires table.Valid(heap)
    requires forall e :: e in table.entries && e.ref in heap ==> e.ref in heap' && heap'[e.ref] == heap[e.ref]
    requires forall e :: e in table.entries ==> e.ref in heap
    ensures table.Valid(heap')
  {
    assert forall e :: e in table.entries ==> KeyOf(heap', e.tag, e.ref) == KeyOf(heap, e.tag, e.ref);
    assert EntryKeys(heap', table.entries) == EntryKeys(heap, table.entries);
    assert Keyed(heap', table.slots[..]) == Keyed(heap, table.slots[..]);
  }
}
