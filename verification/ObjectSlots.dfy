/** The object ids on the slots of a real table: the steps that read and write it, run on the open
    addressing of `ObjectTable.Table`, are the steps of the state machine, so what is proved of its
    log holds of the slots (`intj_objtab`, intj/runtime/intj_runtime.h). */
module ObjectSlots {
  import opened Optional
  import opened PyObjects
  import opened ObjectTable
  import opened ObjectIds

  /** The slots hold what the state's log records. */
  ghost predicate Behind(table: Table, s: State)
    reads table, table.slots
  {
    table.Valid(s.store.heap) && table.log == s.table
  }

  /** No step changes an object that stays in memory. */
  lemma StepAgrees(s: State, act: Action)
    requires Inv(s) && Enabled(s, act)
    ensures Agree(s.store, Next(s, act).store)
  {
    hide Inv;
    hide StepCall;
    hide OneChange;
    match act
    case Step(t, chance) =>
      if s.threads[t].Call? {
        CallStore(s, t, chance);
        OneChangeAgrees(s.store, StepCall(s, t, chance).store);
      }
    case _ =>
  }

  /** A call's step takes references, or drops one, or neither. */
  ghost predicate OneChange(st: Store, st': Store) {
    st' == st || (exists items :: st' == Incref(st, items)) || exists a :: st' == Decref(st, a)
  }

  lemma OneChangeAgrees(st: Store, st': Store)
    requires OneChange(st, st')
    ensures Agree(st, st')
  {
  }

  lemma CallStore(s: State, t: nat, chance: Chance)
    requires t < |s.threads| && s.threads[t].Call? && s.threads[t].memo < |s.memos|
    ensures OneChange(s.store, StepCall(s, t, chance).store)
  {
    hide Incref;
    hide Decref;
    hide Remember;
    hide Interned;
    hide Lookup;
    hide AfterFindSame;
    hide AfterFindText;
    hide AfterAsk;
    hide OneChange;
    var st, o := s.store, s.threads[t].o;
    match s.threads[t].pc
    case Dispatch => Took(st, multiset{o});
    case GetName => Took(st, multiset{chance.name});
    case DropKey(key, _) => Dropped(st, key);
    case Keep(_, same, _, _) => Took(st, if same then multiset{o, o} else multiset{o});
    case Write(_, _, _, _) => RememberStore(s, t, chance);
    case Intern(tag, key) => InternedStore(s, t, o, tag, key);
    case Release(drops, _) => Dropped(st, if drops == [] then o else drops[0]);
    case _ => Took(st, multiset{});
  }

  lemma Took(st: Store, items: multiset<Addr>)
    ensures OneChange(st, st) && OneChange(st, Incref(st, items))
  {
    hide Incref;
  }

  lemma Dropped(st: Store, a: Addr)
    ensures OneChange(st, Decref(st, a))
  {
    hide Decref;
  }

  lemma RememberStore(s: State, t: nat, chance: Chance)
    requires t < |s.threads| && s.threads[t].Call? && s.threads[t].pc.Write? && s.threads[t].memo < |s.memos|
    ensures OneChange(s.store, Remember(s, t, chance).store)
  {
    hide Recorded;
    hide ToDrop;
    hide Incref;
    hide Decref;
  }

  lemma InternedStore(s: State, t: nat, o: Addr, tag: Tag, key: Option<Addr>)
    requires t < |s.threads| && s.threads[t].Call?
    ensures OneChange(s.store, Interned(s, t, o, tag, key).store)
  {
    hide Incref;
    hide Decref;
  }

  lemma RecordedLive(s: State)
    requires Inv(s)
    ensures forall e :: e in s.table ==> e.ref in s.store.heap
  {
    forall e | e in s.table
      ensures e.ref in s.store.heap
    {
      var i :| 0 <= i < |s.table| && s.table[i] == e;
      assert EntrySound(s.table[i], s.store.heap, s.ids);
    }
  }

  /** Steps that record nothing leave the slots right, whatever objects they make and free. */
  lemma OtherSteps(table: Table, s: State, act: Action)
    requires Inv(s) && Enabled(s, act) && Behind(table, s) && Next(s, act).table == s.table
    ensures Behind(table, Next(s, act))
  {
    var s' := Next(s, act);
    NextInv(s, act);
    StepAgrees(s, act);
    hide Next;
    RecordedLive(s);
    RecordedLive(s');
    hide Inv;
    hide Represents;
    OtherObjects(table, s.store.heap, s'.store.heap);
  }

  /** A call looks its object or text up in the slots: the answer is the state machine's, and an id
      found is the interner's for the call's argument. */
  method Ask(table: Table, ghost s: State, heap: Heap, ghost t: nat, tag: Tag, key: Addr) returns (r: Option<nat>)
    requires Inv(s) && Behind(table, s) && heap == s.store.heap
    requires t < |s.threads| && s.threads[t].Call?
    requires (s.threads[t].pc == FindSame && tag == Same && key == s.threads[t].o)
        || s.threads[t].pc == FindText(tag, key)
    ensures r == Lookup(heap, s.table, tag, key)
    ensures s.threads[t].o in heap && (r.Some? ==> Knows(s.ids, heap[s.threads[t].o], r.value))
  {
    AskedSound(s, t, tag, key);
    hide Inv;
    hide Represents;
    hide Lookup;
    hide Matches;
    hide HashOf;
    hide KeyOf;
    hide Knows;
    var found := table.Find(heap, tag, HashOf(KeyOf(heap, tag, key), table.textHash), key);
    r := None;
    if found.Some? {
      r := Some(table.slots[found.value].entry.id);
      FoundRight(s, t, tag, key, table.slots[found.value].entry);
    }
  }

  /** What a call looks up has a key to compare. */
  lemma AskedSound(s: State, t: nat, tag: Tag, key: Addr)
    requires Inv(s) && t < |s.threads| && s.threads[t].Call?
    requires (s.threads[t].pc == FindSame && tag == Same && key == s.threads[t].o)
        || s.threads[t].pc == FindText(tag, key)
    ensures s.threads[t].o in s.store.heap && Sound(s.store.heap, tag, key)
  {
    assert ThreadSound(s.threads[t], s.store.heap, s.ids, |s.memos|);
  }

  /** A recorded entry that matches what a call looks up has the id of the call's argument. */
  lemma FoundRight(s: State, t: nat, tag: Tag, key: Addr, e: Entry)
    requires Inv(s) && t < |s.threads| && s.threads[t].Call? && e in s.table && Matches(s.store.heap, e, tag, key)
    requires (s.threads[t].pc == FindSame && tag == Same && key == s.threads[t].o)
        || s.threads[t].pc == FindText(tag, key)
    ensures s.threads[t].o in s.store.heap && Knows(s.ids, s.store.heap[s.threads[t].o], e.id)
  {
    assert ThreadSound(s.threads[t], s.store.heap, s.ids, |s.memos|);
    var i :| 0 <= i < |s.table| && s.table[i] == e;
    assert EntrySound(s.table[i], s.store.heap, s.ids);
  }

  /** Ids the slots give are one exactly when the values asked for are. */
  lemma FoundAgree(s: State, a: Object, x: nat, b: Object, y: nat)
    requires Inv(s) && Knows(s.ids, a, x) && Knows(s.ids, b, y)
    ensures x == y <==> CanonicalOf(a) == CanonicalOf(b)
  {
    hide Right;
    hide Balanced;
  }

  /** What a call records has a key to compare. */
  lemma RecordedKeys(s: State, t: nat, m: nat, o: Addr, value: nat, same: bool, tag: Tag, key: Option<Addr>)
    requires Inv(s) && t < |s.threads| && s.threads[t] == Call(m, o, Write(value, same, tag, key))
    ensures m < |s.memos| && Sound(s.store.heap, Same, o) && (key.Some? ==> Sound(s.store.heap, tag, key.value))
  {
    hide Balanced;
    hide Numbered;
    hide MemoSound;
    hide EntrySound;
    hide Knows;
    assert ThreadSound(s.threads[t], s.store.heap, s.ids, |s.memos|);
  }

  /** One insert of the write section, of a key there may not be. */
  method Insert(table: Table, heap: Heap, tag: Tag, key: Option<Addr>, value: nat, memory: bool)
    returns (took: bool, ghost fits: bool)
    requires table.Valid(heap) && (key.Some? ==> Sound(heap, tag, key.value))
    modifies table, table.slots
    ensures table.Valid(heap) && fresh({table.slots} - {old(table.slots)})
    ensures (table.log, took)
         == if key.Some? then Added(heap, old(table.log), tag, key.value, value, fits) else (old(table.log), false)
  {
    hide Table.Valid;
    hide Lookup;
    hide Sound;
    hide HashOf;
    hide KeyOf;
    fits := memory || 2 * (table.n + 1) <= table.slots.Length;
    took := false;
    if key.Some? {
      took := table.Add(heap, tag, HashOf(KeyOf(heap, tag, key.value), table.textHash), key.value, value, memory);
    }
  }

  /** The write section of a call on the slots: the two inserts take what a step of the state machine
      takes, for some outcome of its chances, and the slots hold the log it leaves. */
  method Record(table: Table, ghost s: State, heap: Heap, ghost t: nat, ghost m: nat, o: Addr, value: nat, same: bool,
                tag: Tag, key: Option<Addr>, sameMemory: bool, keyMemory: bool)
    returns (tookSame: bool, tookKey: bool, ghost chance: Chance)
    requires Inv(s) && Behind(table, s) && heap == s.store.heap
    requires t < |s.threads| && s.threads[t] == Call(m, o, Write(value, same, tag, key))
    modifies table, table.slots
    ensures m < |s.memos| && table.Valid(heap)
    ensures Recorded(s, o, value, same, tag, key, chance) == (table.log, tookSame, tookKey)
  {
    RecordedKeys(s, t, m, o, value, same, tag, key);
    hide Inv;
    hide Table.Valid;
    hide Added;
    hide Sound;
    ghost var sameFits, keyFits;
    tookSame, sameFits := Insert(table, heap, Same, if same then Some(o) else None, value, sameMemory);
    tookKey, keyFits := Insert(table, heap, tag, key, value, keyMemory);
    chance := Chance(false, 0, sameFits, keyFits);
  }

  /** ... so they are behind the state after that step. */
  lemma RecordSteps(table: Table, s: State, t: nat, m: nat, o: Addr, value: nat, same: bool, tag: Tag,
                    key: Option<Addr>,
                    tookSame: bool, tookKey: bool, chance: Chance)
    requires t < |s.threads| && s.threads[t] == Call(m, o, Write(value, same, tag, key)) && m < |s.memos|
    requires table.Valid(s.store.heap)
        && Recorded(s, o, value, same, tag, key, chance) == (table.log, tookSame, tookKey)
    ensures Enabled(s, Step(t, chance)) && Behind(table, Next(s, Step(t, chance)))
  {
    hide Table.Valid;
    WriteRecords(s, t, m, o, value, same, tag, key, chance);
    hide Next;
    hide Recorded;
  }

  lemma WriteRecords(s: State, t: nat, m: nat, o: Addr, value: nat, same: bool, tag: Tag, key: Option<Addr>,
                     chance: Chance)
    requires t < |s.threads| && s.threads[t] == Call(m, o, Write(value, same, tag, key)) && m < |s.memos|
    ensures Enabled(s, Step(t, chance))
    ensures var s' := Next(s, Step(t, chance));
      s'.store == s.store && s'.table == Recorded(s, o, value, same, tag, key, chance).0
  {
    hide Recorded;
    hide ToDrop;
    hide Lookup;
    assert Next(s, Step(t, chance)) == StepCall(s, t, chance) == Remember(s, t, chance);
  }
}
