/** Ids of object arguments: the slot memo, the object table and the interner, asked by racing
    threads while objects die and their addresses are used again (`intj_object_id`,
    intj/runtime/intj_runtime.h; `_Interner`, intj/launcher.py). Each step is one section under a
    lock, one reference taken or dropped, or one read of the interner's dictionary. */
module ObjectIds {
  import opened Optional
  import opened PyObjects
  import opened ObjectTable

  datatype Memo = Memo(obj: Option<Addr>, id: nat)

  /** How a call ends: with an id, the TypeError for an unsupported object, or an exception of
      Python's own. */
  datatype Outcome = Id(id: nat) | Refused | Raised

  /** Where a call stands. `tag` and `key` are the content key; without one the tag is Same. */
  datatype Pc =
    | ReadMemo
    | Dispatch                                                       // an exact str?
    | FindSame
    | GetName
    | FindText(tag: Tag, key: Addr)
    | DropKey(key: Addr, value: nat)
    | AskInterner(tag: Tag, owned: Option<Addr>)                     // _ids.get(canonical)
    | Intern(tag: Tag, owned: Option<Addr>)                          // under the interner's lock
    | Keep(value: nat, same: bool, tag: Tag, owned: Option<Addr>)    // the references to be stored
    | Write(value: nat, same: bool, tag: Tag, owned: Option<Addr>)   // under the launcher's lock
    | Release(drops: seq<Addr>, outcome: Outcome)

  /** `Call` is intj_object_id(memo, o); `Visit` a GC traverse with the objects it collected. */
  datatype Thread = Idle | Call(memo: nat, o: Addr, pc: Pc) | Visit(items: seq<Addr>)

  /** `ext` is what the rest of the process refers to; `ids` the interner's dictionary; `typed`
      whether the interner has a dtype_type; `answers` a history of what calls returned. */
  datatype State = State(
    store: Store, ext: multiset<Addr>,
    memos: seq<Memo>, table: seq<Entry>, ids: map<Canonical, nat>, typed: bool,
    threads: seq<Thread>, answers: seq<(Canonical, nat)>)

  /** What a step leaves to chance: an exception, the str `o.name` gives, and whether the table
      could grow for each of two inserts. */
  datatype Chance = Chance(error: bool, name: Addr, sameFits: bool, textFits: bool)

  datatype Action =
    | Create(a: Addr, made: Object)                    // a new object, at any free address
    | Share(a: Addr)
    | Forget(a: Addr)
    | Begin(t: nat, memo: nat, o: Addr)
    | Step(t: nat, chance: Chance)
    | Collect(t: nat, items: seq<Addr>)             // a traverse's references, under the read lock

  /** The object at an address that may have been freed. */
  function At(heap: Heap, a: Addr): Object {
    if a in heap then heap[a] else Unsupported
  }

  function Owned(key: Option<Addr>): multiset<Addr> {
    if key.Some? then multiset{key.value} else multiset{}
  }

  /** `Py_XDECREF(key)`. */
  function ToDrop(key: Option<Addr>): (drops: seq<Addr>)
    ensures multiset(drops) == Owned(key)
  {
    if key.Some? then [key.value] else []
  }

  function HeldByPc(o: Addr, pc: Pc): multiset<Addr> {
    match pc
    case FindText(_, key) => multiset{key}
    case DropKey(key, _) => multiset{key}
    case AskInterner(_, key) => Owned(key)
    case Intern(_, key) => Owned(key)
    case Keep(_, _, _, key) => Owned(key)
    case Write(_, same, _, key) => multiset{o} + (if same then multiset{o} else multiset{}) + Owned(key)
    case Release(drops, _) => multiset(drops)
    case _ => multiset{}
  }

  /** A caller keeps its argument alive for the whole call. */
  function HeldByThread(th: Thread): multiset<Addr> {
    match th
    case Idle => multiset{}
    case Call(_, o, pc) => multiset{o} + HeldByPc(o, pc)
    case Visit(items) => multiset(items)
  }

  function HeldByMemo(m: Memo): multiset<Addr> {
    Owned(m.obj)
  }

  function HeldByEntry(e: Entry): multiset<Addr> {
    multiset{e.ref}
  }

  /** `_ids.setdefault(c, len(_ids))`. */
  function WithId(ids: map<Canonical, nat>, c: Canonical): (r: map<Canonical, nat>)
    ensures c in r
  {
    if c in ids then ids else ids[c := |ids|]
  }

  ghost predicate Enabled(s: State, act: Action) {
    match act
    case Create(a, _) => a !in s.store.heap
    case Share(a) => a in s.ext
    case Forget(a) => a in s.ext
    case Begin(t, m, o) => t < |s.threads| && s.threads[t].Idle? && m < |s.memos| && o in s.ext
    case Collect(t, items) =>
      t < |s.threads| && s.threads[t].Idle? && multiset(items) <= Total(s.table, HeldByEntry)
    case Step(t, c) =>
      && t < |s.threads|
      && match s.threads[t]
         case Idle => false
         case Visit(_) => true
         case Call(m, o, pc) =>
           && m < |s.memos|
           && (pc.GetName? && !c.error && At(s.store.heap, o).Dtype? && At(s.store.heap, o).exact ==>
                 c.name in s.ext && At(s.store.heap, c.name) == Str(At(s.store.heap, o).name))
  }

  function GoTo(s: State, t: nat, pc: Pc): State
    requires t < |s.threads| && s.threads[t].Call?
  {
    s.(threads := s.threads[t := s.threads[t].(pc := pc)])
  }

  /** Record (tag, key) -> id unless the key is known or the table could not grow. */
  function Added(heap: Heap, log: seq<Entry>, tag: Tag, key: Addr, id: nat, fits: bool): (r: (seq<Entry>, bool))
  {
    if Lookup(heap, log, tag, key).Some? || !fits then (log, false) else (log + [Entry(tag, key, id)], true)
  }

  /** The table after the write section, and which of the two references it took. */
  function Recorded(s: State, o: Addr, value: nat, same: bool, tag: Tag, key: Option<Addr>,
                    chance: Chance): (seq<Entry>, bool, bool) {
    var (log, tookSame) := if same then Added(s.store.heap, s.table, Same, o, value, chance.sameFits)
        else (s.table, false);
    var (log', tookKey) := if key.Some? then Added(s.store.heap, log, tag, key.value, value, chance.textFits)
        else (log, false);
    (log', tookSame, tookKey)
  }

  /** The write section of intj_object_remember, and the references left to drop. */
  function Remember(s: State, t: nat, chance: Chance): State
    requires t < |s.threads| && s.threads[t].Call? && s.threads[t].pc.Write? && s.threads[t].memo < |s.memos|
  {
    var Call(m, o, Write(value, same, tag, key)) := s.threads[t];
    var previous := s.memos[m].obj;
    var (log, tookSame, tookKey) := Recorded(s, o, value, same, tag, key, chance);
    var drops :=
      (if same && !tookSame then [o] else [])
      + (if tookKey then [] else ToDrop(key))
      + ToDrop(previous);
    GoTo(s.(memos := s.memos[m := Memo(Some(o), value)], table := log), t, Release(drops, Id(value)))
  }

  function AfterFindSame(found: Option<nat>, typed: bool, o: Object): Pc {
    if found.Some? then Keep(found.value, false, Same, None)
    else if typed && o.Dtype? then GetName
    else AskInterner(Same, None)
  }

  function AfterFindText(found: Option<nat>, tag: Tag, key: Addr, error: bool): Pc {
    if error then Release([key], Raised)
    else if found.Some? then DropKey(key, found.value)
    else AskInterner(tag, Some(key))
  }

  function AfterAsk(o: Object, ids: map<Canonical, nat>, tag: Tag, key: Option<Addr>, error: bool): Pc {
    var canonical := CanonicalOf(o);
    if error then Release(ToDrop(key), Raised)
    else if canonical.None? then Release(ToDrop(key), Refused)
    else if canonical.value in ids then Keep(ids[canonical.value], tag != Text, tag, key)
    else Intern(tag, key)
  }

  /** Under the interner's lock. */
  function Interned(s: State, t: nat, o: Addr, tag: Tag, key: Option<Addr>): State
    requires t < |s.threads| && s.threads[t].Call?
  {
    var canonical := CanonicalOf(At(s.store.heap, o));
    if canonical.None? then GoTo(s, t, Release(ToDrop(key), Refused)) else
    var ids := WithId(s.ids, canonical.value);
    GoTo(s.(ids := ids), t, Keep(ids[canonical.value], tag != Text, tag, key))
  }

  /** The call returns, and its caller lets go of the argument. */
  function Returned(s: State, t: nat, o: Addr, outcome: Outcome): State
    requires t < |s.threads|
  {
    var canonical := CanonicalOf(At(s.store.heap, o));
    var answers := if outcome.Id? && canonical.Some? then s.answers + [(canonical.value, outcome.id)] else s.answers;
    s.(store := Decref(s.store, o), threads := s.threads[t := Idle], answers := answers)
  }

  function StepCall(s: State, t: nat, chance: Chance): State
    requires t < |s.threads| && s.threads[t].Call? && s.threads[t].memo < |s.memos|
  {
    var Call(m, o, pc) := s.threads[t];
    match pc
    case ReadMemo =>
      GoTo(s, t, if s.memos[m].obj == Some(o) then Release([], Id(s.memos[m].id)) else Dispatch)
    case Dispatch =>
      if At(s.store.heap, o).Str? then GoTo(s.(store := Incref(s.store, multiset{o})), t, FindText(Text, o))
      else GoTo(s, t, FindSame)
    case FindSame => GoTo(s, t, AfterFindSame(Lookup(s.store.heap, s.table, Same, o), s.typed, At(s.store.heap, o)))
    case GetName =>
      if chance.error then GoTo(s, t, Release([], Raised))
      else if At(s.store.heap, o).Dtype? && At(s.store.heap, o).exact then
        GoTo(s.(store := Incref(s.store, multiset{chance.name})), t, FindText(DtypeName, chance.name))
      else GoTo(s, t, AskInterner(Same, None))
    case FindText(tag, key) => GoTo(s, t,
                                    AfterFindText(Lookup(s.store.heap, s.table, tag, key), tag, key, chance.error))
    case DropKey(key, value) => GoTo(s.(store := Decref(s.store, key)), t, Keep(value, false, Same, None))
    case AskInterner(tag, key) => GoTo(s, t, AfterAsk(At(s.store.heap, o), s.ids, tag, key, chance.error))
    case Intern(tag, key) => Interned(s, t, o, tag, key)
    case Keep(value, same, tag, key) =>
      GoTo(s.(store := Incref(s.store, if same then multiset{o, o} else multiset{o})), t, Write(value, same, tag, key))
    case Write(_, _, _, _) => Remember(s, t, chance)
    case Release(drops, outcome) =>
      if drops == [] then Returned(s, t, o, outcome)
      else GoTo(s.(store := Decref(s.store, drops[0])), t, Release(drops[1..], outcome))
  }

  /** The visitor's results change nothing: every collected reference is dropped. */
  function StepVisit(s: State, t: nat): State
    requires t < |s.threads| && s.threads[t].Visit?
  {
    var items := s.threads[t].items;
    if items == [] then s.(threads := s.threads[t := Idle])
    else s.(store := Decref(s.store, items[0]), threads := s.threads[t := Visit(items[1..])])
  }

  function Next(s: State, act: Action): State
    requires Enabled(s, act)
  {
    match act
    case Create(a, o) => s.(store := Allocated(s.store, a, o), ext := s.ext + multiset{a})
    case Share(a) => s.(store := Incref(s.store, multiset{a}), ext := s.ext + multiset{a})
    case Forget(a) => s.(store := Decref(s.store, a), ext := s.ext - multiset{a})
    case Begin(t, m, o) =>
      s.(store := Incref(s.store, multiset{o}), threads := s.threads[t := Call(m, o, ReadMemo)])
    case Step(t, chance) => if s.threads[t].Call? then StepCall(s, t, chance) else StepVisit(s, t)
    case Collect(t, items) =>
      s.(store := Incref(s.store, multiset(items)), threads := s.threads[t := Visit(items)])
  }

  ghost predicate Initial(s: State) {
    && s.store.refs == s.ext && Counted(s.store)
    && (forall m :: 0 <= m < |s.memos| ==> s.memos[m] == Memo(None, 0))
    && s.table == [] && s.ids == map[] && s.answers == []
    && forall t :: 0 <= t < |s.threads| ==> s.threads[t].Idle?
  }

  // ---------------------------------------------------------------- the invariant

  /** The references a launcher and its calls hold. */
  ghost function Launched(s: State): multiset<Addr> {
    Total(s.memos, HeldByMemo) + Total(s.table, HeldByEntry) + Total(s.threads, HeldByThread)
  }

  /** Every reference is the outside's, a memo's, an entry's or a call's: none is lost or counted twice. */
  ghost predicate Balanced(s: State) {
    s.store.refs == s.ext + Launched(s)
  }

  /** `id` is the interner's for this object. */
  predicate Knows(ids: map<Canonical, nat>, o: Object, id: nat) {
    CanonicalOf(o).Some? && CanonicalOf(o).value in ids && ids[CanonicalOf(o).value] == id
  }

  /** The str `key` and the object `o` have the same canonical value under this tag. */
  predicate KeyFor(o: Object, tag: Tag, key: Object) {
    key.Str? && ((tag.Text? && o == key) || (tag.DtypeName? && o.Dtype? && o.name == key.text))
  }

  ghost predicate MemoSound(m: Memo, heap: Heap, ids: map<Canonical, nat>) {
    m.obj.Some? ==> m.obj.value in heap && Knows(ids, heap[m.obj.value], m.id)
  }

  /** What an entry stands for: its own object, or any object with that text or name. */
  function Meaning(e: Entry, heap: Heap): Option<Canonical> {
    match e.tag
    case Empty => None
    case Same => CanonicalOf(At(heap, e.ref))
    case Text => if IsStr(heap, e.ref) then Some(OfStr(heap[e.ref].text)) else None
    case DtypeName => if IsStr(heap, e.ref) then Some(OfDtype(heap[e.ref].text)) else None
  }

  ghost predicate EntrySound(e: Entry, heap: Heap, ids: map<Canonical, nat>) {
    && e.ref in heap
    && Meaning(e, heap).Some? && Meaning(e, heap).value in ids && ids[Meaning(e, heap).value] == e.id
  }

  ghost predicate OwnedSound(o: Object, tag: Tag, key: Option<Addr>, heap: Heap) {
    if key.None? then tag.Same? else key.value in heap && KeyFor(o, tag, heap[key.value])
  }

  ghost predicate PcSound(o: Object, pc: Pc, heap: Heap, ids: map<Canonical, nat>) {
    match pc
    case FindText(tag, key) => key in heap && KeyFor(o, tag, heap[key])
    case DropKey(_, value) => Knows(ids, o, value)
    case AskInterner(tag, key) => OwnedSound(o, tag, key, heap)
    case Intern(tag, key) => OwnedSound(o, tag, key, heap)
    case Keep(value, _, tag, key) => OwnedSound(o, tag, key, heap) && Knows(ids, o, value)
    case Write(value, _, tag, key) => OwnedSound(o, tag, key, heap) && Knows(ids, o, value)
    case Release(_, outcome) => (outcome.Id? ==> Knows(ids, o, outcome.id))
      && (outcome.Refused? ==> CanonicalOf(o).None?)
    case _ => true
  }

  ghost predicate ThreadSound(th: Thread, heap: Heap, ids: map<Canonical, nat>, memos: nat) {
    th.Call? ==> th.memo < memos && th.o in heap && PcSound(heap[th.o], th.pc, heap, ids)
  }

  /** Ids number the canonical values. */
  ghost predicate Numbered(ids: map<Canonical, nat>) {
    && (forall c :: c in ids ==> ids[c] < |ids|)
    && forall c, d :: c in ids && d in ids && ids[c] == ids[d] ==> c == d
  }

  /** Everything remembered is right, in this heap and dictionary. */
  ghost predicate Right(s: State, heap: Heap, ids: map<Canonical, nat>) {
    && (forall m :: 0 <= m < |s.memos| ==> MemoSound(s.memos[m], heap, ids))
    && (forall i :: 0 <= i < |s.table| ==> EntrySound(s.table[i], heap, ids))
    && (forall t :: 0 <= t < |s.threads| ==> ThreadSound(s.threads[t], heap, ids, |s.memos|))
    && forall k :: 0 <= k < |s.answers| ==> s.answers[k].0 in ids && ids[s.answers[k].0] == s.answers[k].1
  }

  ghost predicate Inv(s: State) {
    Counted(s.store) && Balanced(s) && Numbered(s.ids) && Right(s, s.store.heap, s.ids)
  }

  lemma {:induction false} NothingHeld<T>(xs: seq<T>, held: T -> multiset<Addr>)
    requires forall x :: x in xs ==> held(x) == multiset{}
    ensures Total(xs, held) == multiset{}
    decreases |xs|
  {
    if xs != [] {
      NothingHeld(xs[..|xs| - 1], held);
    }
  }

  lemma InitialInv(s: State)
    requires Initial(s)
    ensures Inv(s)
  {
    NothingHeld(s.memos, HeldByMemo);
    NothingHeld(s.threads, HeldByThread);
  }

  /** Everything a launcher or a call refers to is in memory. */
  lemma HeldLive(s: State)
    requires Counted(s.store) && Balanced(s)
    ensures forall m :: 0 <= m < |s.memos| && s.memos[m].obj.Some? ==> s.memos[m].obj.value in s.store.heap
    ensures forall i :: 0 <= i < |s.table| ==> s.table[i].ref in s.store.heap
    ensures forall t, a :: 0 <= t < |s.threads| && a in HeldByThread(s.threads[t]) ==> a in s.store.heap
  {
    forall m | 0 <= m < |s.memos| && s.memos[m].obj.Some?
      ensures s.memos[m].obj.value in s.store.heap
    {
      TotalHas(s.memos, m, HeldByMemo);
      assert s.memos[m].obj.value in HeldByMemo(s.memos[m]);
    }
    forall i | 0 <= i < |s.table|
      ensures s.table[i].ref in s.store.heap
    {
      TotalHas(s.table, i, HeldByEntry);
      assert s.table[i].ref in HeldByEntry(s.table[i]);
    }
    forall t, a | 0 <= t < |s.threads| && a in HeldByThread(s.threads[t])
      ensures a in s.store.heap
    {
      TotalHas(s.threads, t, HeldByThread);
    }
  }

  /** Facts about an object survive whatever happens to others, and to the dictionary growing. */
  ghost predicate Later(st: Store, ids: map<Canonical, nat>, st': Store, ids': map<Canonical, nat>) {
    Agree(st, st') && forall c :: c in ids ==> c in ids' && ids'[c] == ids[c]
  }

  lemma MemoStays(m: Memo, st: Store, ids: map<Canonical, nat>, st': Store, ids': map<Canonical, nat>)
    requires MemoSound(m, st.heap, ids) && Later(st, ids, st', ids')
    requires m.obj.Some? ==> m.obj.value in st'.heap
    ensures MemoSound(m, st'.heap, ids')
  {
  }

  lemma EntryStays(e: Entry, st: Store, ids: map<Canonical, nat>, st': Store, ids': map<Canonical, nat>)
    requires EntrySound(e, st.heap, ids) && Later(st, ids, st', ids') && e.ref in st'.heap
    ensures EntrySound(e, st'.heap, ids')
  {
  }

  lemma ThreadStays(th: Thread, st: Store, ids: map<Canonical, nat>, st': Store, ids': map<Canonical, nat>, memos: nat)
    requires ThreadSound(th, st.heap, ids, memos) && Later(st, ids, st', ids')
    requires forall a :: a in HeldByThread(th) ==> a in st'.heap
    ensures ThreadSound(th, st'.heap, ids', memos)
  {
    if th.Call? {
      assert th.o in HeldByThread(th);
      var key := match th.pc
        case FindText(_, key) => Some(key)
        case AskInterner(_, key) => key
        case Intern(_, key) => key
        case Keep(_, _, _, key) => key
        case Write(_, _, _, key) => key
        case _ => None;
      assert key.Some? ==> key.value in HeldByPc(th.o, th.pc);
      assert key.Some? ==> key.value in HeldByThread(th);
    }
  }

  /** What was right before a step is right after it: what the state refers to is still there. */
  lemma Carry(s: State, st: Store, ids: map<Canonical, nat>)
    requires Right(s, st.heap, ids) && Later(st, ids, s.store, s.ids)
    requires Counted(s.store) && Balanced(s) && Numbered(s.ids)
    ensures Inv(s)
  {
    HeldLive(s);
    forall m | 0 <= m < |s.memos|
      ensures MemoSound(s.memos[m], s.store.heap, s.ids)
    {
      MemoStays(s.memos[m], st, ids, s.store, s.ids);
    }
    forall i | 0 <= i < |s.table|
      ensures EntrySound(s.table[i], s.store.heap, s.ids)
    {
      EntryStays(s.table[i], st, ids, s.store, s.ids);
    }
    forall t | 0 <= t < |s.threads|
      ensures ThreadSound(s.threads[t], s.store.heap, s.ids, |s.memos|)
    {
      ThreadStays(s.threads[t], st, ids, s.store, s.ids, |s.memos|);
    }
  }

  /** One thread's new place and perhaps one answer more, all right, leave everything right. */
  lemma RightMoves(s: State, t: nat, st': Store, th': Thread, answers': seq<(Canonical, nat)>)
    requires Right(s, s.store.heap, s.ids) && t < |s.threads|
    requires ThreadSound(th', s.store.heap, s.ids, |s.memos|)
    requires answers' == s.answers || (|answers'| == |s.answers| + 1 && answers'[..|s.answers|] == s.answers
               && answers'[|s.answers|].0 in s.ids && s.ids[answers'[|s.answers|].0] == answers'[|s.answers|].1)
    ensures Right(s.(store := st', threads := s.threads[t := th'], answers := answers'), s.store.heap, s.ids)
  {
    hide ThreadSound;
    hide MemoSound;
    hide EntrySound;
    assert forall k :: 0 <= k < |s.answers| ==> answers'[k] == answers'[..|s.answers|][k];
  }

  /** A thread's step that touches only the store and what the thread itself holds. */
  lemma ThreadMoves(s: State, t: nat, st': Store, th': Thread, answers': seq<(Canonical, nat)>)
    requires Inv(s) && t < |s.threads|
    requires Counted(st') && Agree(s.store, st')
    requires st'.refs + HeldByThread(s.threads[t]) == s.store.refs + HeldByThread(th')
    requires ThreadSound(th', s.store.heap, s.ids, |s.memos|)
    requires answers' == s.answers || (|answers'| == |s.answers| + 1 && answers'[..|s.answers|] == s.answers
               && answers'[|s.answers|].0 in s.ids && s.ids[answers'[|s.answers|].0] == answers'[|s.answers|].1)
    ensures Inv(s.(store := st', threads := s.threads[t := th'], answers := answers'))
  {
    var s' := s.(store := st', threads := s.threads[t := th'], answers := answers');
    RightMoves(s, t, st', th', answers');
    hide Right;
    TotalUpdate(s.threads, t, th', HeldByThread);
    hide HeldByThread;
    hide Total;
    BalanceThread(s, s', HeldByThread(s.threads[t]), HeldByThread(th'));
    hide Balanced;
    Carry(s', s.store, s.ids);
  }

  lemma BalanceThread(s: State, s': State, before: multiset<Addr>, after: multiset<Addr>)
    requires Balanced(s) && s'.ext == s.ext && s'.memos == s.memos && s'.table == s.table
    requires s'.store.refs + before == s.store.refs + after
    requires Total(s'.threads, HeldByThread) + before == Total(s.threads, HeldByThread) + after
    ensures Balanced(s')
  {
    forall a: Addr
      ensures s'.store.refs[a] == (s'.ext + Launched(s'))[a]
    {
      assert (s'.store.refs + before)[a] == (s.store.refs + after)[a];
      assert (Total(s'.threads, HeldByThread) + before)[a] == (Total(s.threads, HeldByThread) + after)[a];
      assert s.store.refs[a] == (s.ext + Launched(s))[a];
    }
  }

  // ---------------------------------------------------------------- what every step keeps

  lemma ThreadFacts(s: State, t: nat)
    requires Inv(s) && t < |s.threads| && s.threads[t].Call?
    ensures s.threads[t].memo < |s.memos| && s.threads[t].o in s.store.heap
    ensures PcSound(s.store.heap[s.threads[t].o], s.threads[t].pc, s.store.heap, s.ids)
  {
    assert ThreadSound(s.threads[t], s.store.heap, s.ids, |s.memos|);
  }

  lemma OutsideLive(s: State, a: Addr)
    requires Inv(s) && a in s.ext
    ensures a in s.store.heap
  {
    assert a in s.store.refs;
  }

  lemma Goes(s: State, t: nat, pc: Pc)
    requires Inv(s) && t < |s.threads| && s.threads[t].Call?
    requires HeldByPc(s.threads[t].o, pc) == HeldByPc(s.threads[t].o, s.threads[t].pc)
    requires PcSound(At(s.store.heap, s.threads[t].o), pc, s.store.heap, s.ids)
    ensures Inv(GoTo(s, t, pc))
  {
    ThreadMoves(s, t, s.store, s.threads[t].(pc := pc), s.answers);
    assert GoTo(s, t, pc)
        == s.(store := s.store, threads := s.threads[t := s.threads[t].(pc := pc)], answers := s.answers);
  }

  /** Two places in one call hold what differs between the places. */
  lemma HeldDiffers(th: Thread, pc: Pc, pc': Pc, items: multiset<Addr>)
    requires th.Call? && HeldByPc(th.o, pc') == HeldByPc(th.o, pc) + items
    ensures HeldByThread(th.(pc := pc')) == HeldByThread(th.(pc := pc)) + items
  {
    hide HeldByPc;
    AddUnder(multiset{th.o}, HeldByPc(th.o, pc'), HeldByPc(th.o, pc), items);
  }

  lemma Takes(s: State, t: nat, items: multiset<Addr>, pc: Pc)
    requires Inv(s) && t < |s.threads| && s.threads[t].Call?
    requires HeldByPc(s.threads[t].o, pc) == HeldByPc(s.threads[t].o, s.threads[t].pc) + items
    requires forall a :: a in items ==> a in s.store.heap
    requires PcSound(At(s.store.heap, s.threads[t].o), pc, s.store.heap, s.ids)
    ensures Inv(GoTo(s.(store := Incref(s.store, items)), t, pc))
  {
    hide HeldByPc;
    hide HeldByThread;
    hide PcSound;
    var th := s.threads[t];
    ThreadFacts(s, t);
    IncrefCounted(s.store, items);
    hide Inv;
    HeldDiffers(th, th.pc, pc, items);
    assert th.(pc := th.pc) == th;
    TakeBalance(s.store.refs, items, HeldByThread(th), HeldByThread(th.(pc := pc)));
    ThreadMoves(s, t, Incref(s.store, items), th.(pc := pc), s.answers);
  }

  lemma Drops(s: State, t: nat, a: Addr, th': Thread, answers': seq<(Canonical, nat)>)
    requires Inv(s) && t < |s.threads| && HeldByThread(s.threads[t]) == HeldByThread(th') + multiset{a}
    requires ThreadSound(th', s.store.heap, s.ids, |s.memos|)
    requires answers' == s.answers || (|answers'| == |s.answers| + 1 && answers'[..|s.answers|] == s.answers
               && answers'[|s.answers|].0 in s.ids && s.ids[answers'[|s.answers|].0] == answers'[|s.answers|].1)
    ensures Inv(s.(store := Decref(s.store, a), threads := s.threads[t := th'], answers := answers'))
  {
    HeldLive(s);
    assert a in HeldByThread(s.threads[t]);
    hide HeldByThread;
    DecrefCounted(s.store, a);
    assert a in s.store.refs;
    hide Inv;
    DropBalance(s.store.refs, a, HeldByThread(s.threads[t]), HeldByThread(th'));
    ThreadMoves(s, t, Decref(s.store, a), th', answers');
  }

  /** An identity entry answers for its object; a content entry for every object with that key. */
  lemma LookupRight(s: State, o: Addr, tag: Tag, key: Addr)
    requires Inv(s) && o in s.store.heap && Lookup(s.store.heap, s.table, tag, key).Some?
    requires if tag.Same? then key == o else key in s.store.heap && KeyFor(s.store.heap[o], tag, s.store.heap[key])
    ensures Knows(s.ids, s.store.heap[o], Lookup(s.store.heap, s.table, tag, key).value)
  {
    LookupFinds(s.store.heap, s.table, tag, key);
    var e :| e in s.table && Matches(s.store.heap, e, tag, key)
        && e.id == Lookup(s.store.heap, s.table, tag, key).value;
    assert EntrySound(e, s.store.heap, s.ids);
  }

  /** Each step's next place in the call is right, in the same state. */
  lemma FindSameRight(o: Object, found: Option<nat>, typed: bool, heap: Heap, ids: map<Canonical, nat>)
    requires found.Some? ==> Knows(ids, o, found.value)
    ensures PcSound(o, AfterFindSame(found, typed, o), heap, ids)
  {
  }

  lemma FindTextRight(o: Object, found: Option<nat>, tag: Tag, key: Addr, error: bool, heap: Heap,
                      ids: map<Canonical, nat>)
    requires found.Some? ==> Knows(ids, o, found.value)
    requires key in heap && KeyFor(o, tag, heap[key])
    ensures PcSound(o, AfterFindText(found, tag, key, error), heap, ids)
  {
  }

  lemma AskRight(o: Object, heap: Heap, ids: map<Canonical, nat>, tag: Tag, key: Option<Addr>, error: bool)
    requires OwnedSound(o, tag, key, heap)
    ensures PcSound(o, AfterAsk(o, ids, tag, key, error), heap, ids)
  {
  }

  lemma KeepRight(s: State, t: nat, m: nat, o: Addr, value: nat, same: bool, tag: Tag, key: Option<Addr>)
    requires Inv(s) && t < |s.threads| && s.threads[t] == Call(m, o, Keep(value, same, tag, key))
    ensures PcSound(At(s.store.heap, o), Write(value, same, tag, key), s.store.heap, s.ids)
  {
    ThreadFacts(s, t);
  }

  lemma HeldNothing(o: Addr, value: nat)
    ensures HeldByPc(o, ReadMemo) == HeldByPc(o, Dispatch) == HeldByPc(o, FindSame)
        == HeldByPc(o, Release([], Id(value)))
    ensures HeldByPc(o, GetName) == HeldByPc(o, Release([], Raised)) == HeldByPc(o, AskInterner(Same, None))
  {
  }

  lemma HeldAfterFindSame(found: Option<nat>, typed: bool, obj: Object, o: Addr)
    ensures HeldByPc(o, AfterFindSame(found, typed, obj)) == HeldByPc(o, FindSame)
  {
  }

  lemma HeldAfterFindText(found: Option<nat>, o: Addr, tag: Tag, key: Addr, error: bool)
    ensures HeldByPc(o, AfterFindText(found, tag, key, error)) == HeldByPc(o, FindText(tag, key))
  {
  }

  lemma HeldAtFailure(o: Addr, key: Option<Addr>, outcome: Outcome)
    ensures HeldByPc(o, Release(ToDrop(key), outcome)) == Owned(key)
  {
    hide ToDrop;
  }

  lemma HeldWhileInterning(o: Addr, tag: Tag, key: Option<Addr>)
    ensures HeldByPc(o, AskInterner(tag, key)) == Owned(key) && HeldByPc(o, Intern(tag, key)) == Owned(key)
  {
  }

  lemma HeldWithId(o: Addr, value: nat, same: bool, tag: Tag, key: Option<Addr>)
    ensures HeldByPc(o, Keep(value, same, tag, key)) == Owned(key)
  {
  }

  lemma HeldWhileAsking(o: Addr, tag: Tag, key: Option<Addr>, value: nat, outcome: Outcome)
    ensures HeldByPc(o, AskInterner(tag, key)) == Owned(key) && HeldByPc(o, Intern(tag, key)) == Owned(key)
    ensures HeldByPc(o, Keep(value, tag != Text, tag, key)) == Owned(key)
        && HeldByPc(o, Release(ToDrop(key), outcome)) == Owned(key)
  {
    hide Owned;
    hide HeldByPc;
    HeldWhileInterning(o, tag, key);
    HeldWithId(o, value, tag != Text, tag, key);
    HeldAtFailure(o, key, outcome);
  }

  lemma HeldAfterAsk(obj: Object, ids: map<Canonical, nat>, o: Addr, tag: Tag, key: Option<Addr>, error: bool)
    ensures HeldByPc(o, AfterAsk(obj, ids, tag, key, error)) == HeldByPc(o, AskInterner(tag, key))
  {
    hide HeldByPc;
    hide CanonicalOf;
    var c := CanonicalOf(obj);
    HeldWhileAsking(o, tag, key, if c.Some? && c.value in ids then ids[c.value] else 0, if error then Raised
      else Refused);
  }

  lemma HeldByKey(o: Addr, tag: Tag, key: Addr, value: nat)
    ensures HeldByPc(o, FindText(tag, key)) == HeldByPc(o, Dispatch) + multiset{key}
    ensures HeldByPc(o, FindText(tag, key)) == HeldByPc(o, GetName) + multiset{key}
    ensures HeldByPc(o, DropKey(key, value)) == HeldByPc(o, Keep(value, false, Same, None)) + multiset{key}
  {
  }

  lemma HeldAtKeep(o: Addr, value: nat, same: bool, tag: Tag, key: Option<Addr>)
    ensures HeldByPc(o, Write(value, same, tag, key))
         == HeldByPc(o, Keep(value, same, tag, key)) + if same then multiset{o, o} else multiset{o}
  {
  }

  lemma HeldAtDrop(o: Addr, drops: seq<Addr>, outcome: Outcome)
    requires drops != []
    ensures HeldByPc(o, Release(drops, outcome)) == HeldByPc(o, Release(drops[1..], outcome)) + multiset{drops[0]}
  {
    assert drops == [drops[0]] + drops[1..];
  }

  lemma NumberOne(ids: map<Canonical, nat>, c: Canonical)
    requires Numbered(ids)
    ensures Numbered(WithId(ids, c)) && forall d :: d in ids ==> d in WithId(ids, c) && WithId(ids, c)[d] == ids[d]
  {
    if c !in ids {
      var ids' := WithId(ids, c);
      assert ids'.Keys == ids.Keys + {c};
      assert |ids'| == |ids'.Keys| == |ids.Keys| + 1;
    }
  }

  lemma InternRight(s: State, t: nat, m: nat, o: Addr, tag: Tag, key: Option<Addr>)
    requires Inv(s) && t < |s.threads| && s.threads[t] == Call(m, o, Intern(tag, key))
    requires CanonicalOf(At(s.store.heap, o)).Some? && CanonicalOf(At(s.store.heap, o)).value in s.ids
    ensures PcSound(At(s.store.heap, o), Keep(s.ids[CanonicalOf(At(s.store.heap, o)).value], tag != Text, tag, key),
                    s.store.heap, s.ids)
  {
    ThreadFacts(s, t);
  }

  lemma InternedInv(s: State, t: nat, m: nat, o: Addr, tag: Tag, key: Option<Addr>)
    requires Inv(s) && t < |s.threads| && s.threads[t] == Call(m, o, Intern(tag, key))
    ensures Inv(Interned(s, t, o, tag, key))
  {
    var canonical := CanonicalOf(At(s.store.heap, o));
    hide CanonicalOf;
    hide At;
    hide HeldByPc;
    HeldWhileAsking(o, tag, key, 0, Refused);
    if canonical.None? {
      hide Inv;
      Goes(s, t, Release(ToDrop(key), Refused));
    } else {
      NewIdInv(s, canonical.value);
      hide Inv;
      hide WithId;
      var s' := s.(ids := WithId(s.ids, canonical.value));
      InternRight(s', t, m, o, tag, key);
      hide PcSound;
      HeldWhileAsking(o, tag, key, s'.ids[canonical.value], Refused);
      Goes(s', t, Keep(s'.ids[canonical.value], tag != Text, tag, key));
    }
  }

  lemma NewIdInv(s: State, c: Canonical)
    requires Inv(s)
    ensures Inv(s.(ids := WithId(s.ids, c)))
  {
    hide WithId;
    NumberOne(s.ids, c);
    Carry(s.(ids := WithId(s.ids, c)), s.store, s.ids);
  }

  lemma HeldAtEnd(th: Thread)
    requires th.Call? && th.pc.Release? && th.pc.drops == []
    ensures HeldByThread(th) == HeldByThread(Idle) + multiset{th.o}
  {
    assert HeldByPc(th.o, th.pc) == multiset{};
  }

  lemma ReturnedInv(s: State, t: nat)
    requires Inv(s) && t < |s.threads| && s.threads[t].Call? && s.threads[t].pc.Release? && s.threads[t].pc.drops == []
    ensures Inv(Returned(s, t, s.threads[t].o, s.threads[t].pc.outcome))
  {
    ThreadFacts(s, t);
    var Call(_, o, Release(_, outcome)) := s.threads[t];
    var canonical := CanonicalOf(At(s.store.heap, o));
    assert outcome.Id? ==> Knows(s.ids, s.store.heap[o], outcome.id);
    HeldAtEnd(s.threads[t]);
    hide Inv;
    hide HeldByThread;
    hide PcSound;
    hide CanonicalOf;
    hide MemoSound;
    if outcome.Id? && canonical.Some? {
      var answers := s.answers + [(canonical.value, outcome.id)];
      assert answers[..|s.answers|] == s.answers;
      Drops(s, t, o, Idle, answers);
    } else {
      Drops(s, t, o, Idle, s.answers);
    }
  }

  lemma DropsTo(s: State, t: nat, a: Addr, pc: Pc)
    requires Inv(s) && t < |s.threads| && s.threads[t].Call?
    requires HeldByPc(s.threads[t].o, s.threads[t].pc) == HeldByPc(s.threads[t].o, pc) + multiset{a}
    requires PcSound(At(s.store.heap, s.threads[t].o), pc, s.store.heap, s.ids)
    ensures Inv(GoTo(s.(store := Decref(s.store, a)), t, pc))
  {
    hide HeldByPc;
    hide HeldByThread;
    hide PcSound;
    var th := s.threads[t];
    ThreadFacts(s, t);
    hide Inv;
    HeldDiffers(th, pc, th.pc, multiset{a});
    assert th.(pc := th.pc) == th;
    Drops(s, t, a, th.(pc := pc), s.answers);
  }

  // ---------------------------------------------------------------- the write section

  lemma AddedSound(heap: Heap, ids: map<Canonical, nat>, log: seq<Entry>, tag: Tag, key: Addr, id: nat, fits: bool)
    requires forall i :: 0 <= i < |log| ==> EntrySound(log[i], heap, ids)
    requires EntrySound(Entry(tag, key, id), heap, ids)
    ensures var r := Added(heap, log, tag, key, id, fits).0; forall i :: 0 <= i < |r| ==> EntrySound(r[i], heap, ids)
  {
  }

  lemma AddedHeld(heap: Heap, log: seq<Entry>, tag: Tag, key: Addr, id: nat, fits: bool)
    ensures Total(Added(heap, log, tag, key, id, fits).0, HeldByEntry)
         == Total(log, HeldByEntry) + if Added(heap, log, tag, key, id, fits).1 then multiset{key} else multiset{}
  {
    TotalAppend(log, Entry(tag, key, id), HeldByEntry);
  }

  lemma RecordedSound(s: State, o: Addr, value: nat, same: bool, tag: Tag, key: Option<Addr>, chance: Chance)
    requires Right(s, s.store.heap, s.ids) && o in s.store.heap
    requires Knows(s.ids, s.store.heap[o], value) && OwnedSound(s.store.heap[o], tag, key, s.store.heap)
    ensures var log := Recorded(s, o, value, same, tag, key, chance).0;
      forall i :: 0 <= i < |log| ==> EntrySound(log[i], s.store.heap, s.ids)
  {
    hide Added;
    var heap := s.store.heap;
    assert EntrySound(Entry(Same, o, value), heap, s.ids);
    AddedSound(heap, s.ids, s.table, Same, o, value, chance.sameFits);
    if key.Some? {
      assert EntrySound(Entry(tag, key.value, value), heap, s.ids);
      var log := if same then Added(heap, s.table, Same, o, value, chance.sameFits).0 else s.table;
      AddedSound(heap, s.ids, log, tag, key.value, value, chance.textFits);
    }
  }

  lemma RecordedHeld(s: State, o: Addr, value: nat, same: bool, tag: Tag, key: Option<Addr>, chance: Chance)
    ensures var (log, tookSame, tookKey) := Recorded(s, o, value, same, tag, key, chance);
      && (tookSame ==> same) && (tookKey ==> key.Some?)
      && Total(log, HeldByEntry)
         == Total(s.table, HeldByEntry) + (if tookSame then multiset{o} else multiset{})
           + (if tookKey then Owned(key) else multiset{})
  {
    hide Total;
    AddedHeld(s.store.heap, s.table, Same, o, value, chance.sameFits);
    if key.Some? {
      var log := if same then Added(s.store.heap, s.table, Same, o, value, chance.sameFits).0 else s.table;
      AddedHeld(s.store.heap, log, tag, key.value, value, chance.textFits);
    }
    hide Added;
  }

  lemma HeldSum<T>(o: multiset<T>, taken: multiset<T>, dropped: multiset<T>, takenKey: multiset<T>,
                   droppedKey: multiset<T>, p: multiset<T>)
    ensures (o + (dropped + droppedKey + p)) + o + taken + takenKey
        == (o + (o + (taken + dropped) + (takenKey + droppedKey))) + p
  {
  }

  /** A reference taken by the table, or else dropped. */
  lemma TakenOrDropped(key: Option<Addr>, took: bool)
    requires took ==> key.Some?
    ensures (if took then Owned(key) else multiset{}) + multiset(if took then [] else ToDrop(key)) == Owned(key)
  {
  }

  lemma RememberHeld(m: nat, o: Addr, value: nat, same: bool, tag: Tag, key: Option<Addr>,
                     drops: seq<Addr>, tookSame: bool, tookKey: bool, previous: Option<Addr>)
    requires (tookSame ==> same) && (tookKey ==> key.Some?)
    requires multiset(drops) == multiset(if tookSame then [] else ToDrop(if same then Some(o) else None))
                                + multiset(if tookKey then [] else ToDrop(key)) + Owned(previous)
    ensures HeldByThread(Call(m, o, Release(drops, Id(value)))) + multiset{o}
            + (if tookSame then multiset{o} else multiset{}) + (if tookKey then Owned(key) else multiset{})
         == HeldByThread(Call(m, o, Write(value, same, tag, key))) + Owned(previous)
  {
    var mine := if same then Some(o) else None;
    TakenOrDropped(mine, tookSame);
    TakenOrDropped(key, tookKey);
    HeldAtWrite(m, o, value, same, tag, key);
    OwnedIs(o);
    hide HeldByThread;
    hide Owned;
    hide ToDrop;
    HeldSum(multiset{o}, if tookSame then Owned(mine) else multiset{}, multiset(if tookSame then [] else ToDrop(mine)),
            if tookKey then Owned(key) else multiset{}, multiset(if tookKey then [] else ToDrop(key)), Owned(previous));
    HeldAtRelease(m, o, drops, Id(value));
  }

  lemma HeldAtWrite(m: nat, o: Addr, value: nat, same: bool, tag: Tag, key: Option<Addr>)
    ensures HeldByThread(Call(m, o, Write(value, same, tag, key)))
         == multiset{o} + (multiset{o} + Owned(if same then Some(o) else None) + Owned(key))
  {
  }

  lemma HeldAtRelease(m: nat, o: Addr, drops: seq<Addr>, outcome: Outcome)
    ensures HeldByThread(Call(m, o, Release(drops, outcome))) == multiset{o} + multiset(drops)
  {
  }

  lemma OwnedIs(a: Addr)
    ensures Owned(Some(a)) == multiset{a}
  {
  }

  lemma RememberBalance<T>(memos: multiset<T>, memos': multiset<T>, table: multiset<T>, table': multiset<T>,
                           threads: multiset<T>, threads': multiset<T>, held: multiset<T>, held': multiset<T>,
                           o: multiset<T>, previous: multiset<T>, same: multiset<T>, key: multiset<T>)
    requires memos' + previous == memos + o && table' == table + same + key && threads' + held == threads + held'
    requires held' + o + same + key == held + previous
    ensures memos' + table' + threads' == memos + table + threads
  {
    forall x
      ensures (memos' + table' + threads')[x] == (memos + table + threads)[x]
    {
      assert (memos' + previous)[x] == (memos + o)[x];
      assert (threads' + held)[x] == (threads + held')[x];
      assert (held' + o + same + key)[x] == (held + previous)[x];
    }
  }

  lemma RememberShape(s: State, t: nat, m: nat, o: Addr, value: nat, same: bool, tag: Tag, key: Option<Addr>,
                      chance: Chance)
    returns (drops: seq<Addr>)
    requires t < |s.threads| && s.threads[t] == Call(m, o, Write(value, same, tag, key)) && m < |s.memos|
    ensures Remember(s, t, chance) == s.(
        memos := s.memos[m := Memo(Some(o), value)],
        table := Recorded(s, o, value, same, tag, key, chance).0,
        threads := s.threads[t := Call(m, o, Release(drops, Id(value)))])
    ensures var (_, tookSame, tookKey) := Recorded(s, o, value, same, tag, key, chance);
      multiset(drops) == multiset(if tookSame then [] else ToDrop(if same then Some(o) else None))
                         + multiset(if tookKey then [] else ToDrop(key)) + Owned(s.memos[m].obj)
  {
    drops := Remember(s, t, chance).threads[t].pc.drops;
    var (_, tookSame, tookKey) := Recorded(s, o, value, same, tag, key, chance);
    RecordedHeld(s, o, value, same, tag, key, chance);
    hide Recorded;
    assert drops == (if tookSame then [] else ToDrop(if same then Some(o) else None))
                    + (if tookKey then [] else ToDrop(key)) + ToDrop(s.memos[m].obj);
  }

  lemma RememberBalanced(s: State, t: nat, m: nat, o: Addr, value: nat, same: bool, tag: Tag, key: Option<Addr>,
                         chance: Chance)
    requires t < |s.threads| && s.threads[t] == Call(m, o, Write(value, same, tag, key)) && m < |s.memos|
    requires Balanced(s)
    ensures Balanced(Remember(s, t, chance))
  {
    var s' := Remember(s, t, chance);
    var drops := RememberShape(s, t, m, o, value, same, tag, key, chance);
    hide Remember;
    hide Total;
    hide HeldByThread;
    var (log, tookSame, tookKey) := Recorded(s, o, value, same, tag, key, chance);
    RecordedHeld(s, o, value, same, tag, key, chance);
    hide Recorded;
    var th' := Call(m, o, Release(drops, Id(value)));
    RememberHeld(m, o, value, same, tag, key, drops, tookSame, tookKey, s.memos[m].obj);
    TotalUpdate(s.memos, m, Memo(Some(o), value), HeldByMemo);
    TotalUpdate(s.threads, t, th', HeldByThread);
    RememberBalance(
      Total(s.memos, HeldByMemo), Total(s'.memos, HeldByMemo), Total(s.table, HeldByEntry),
        Total(s'.table, HeldByEntry),
      Total(s.threads, HeldByThread), Total(s'.threads, HeldByThread), HeldByThread(s.threads[t]), HeldByThread(th'),
      multiset{o}, Owned(s.memos[m].obj), if tookSame then multiset{o} else multiset{}, if tookKey then Owned(key)
        else multiset{});
  }

  lemma RightWrites(s: State, t: nat, m: nat, memo: Memo, table: seq<Entry>, th: Thread)
    requires Right(s, s.store.heap, s.ids) && t < |s.threads| && m < |s.memos|
    requires MemoSound(memo, s.store.heap, s.ids) && ThreadSound(th, s.store.heap, s.ids, |s.memos|)
    requires forall i :: 0 <= i < |table| ==> EntrySound(table[i], s.store.heap, s.ids)
    ensures Right(s.(memos := s.memos[m := memo], table := table, threads := s.threads[t := th]), s.store.heap, s.ids)
  {
    hide ThreadSound;
    hide MemoSound;
    hide EntrySound;
  }

  lemma RememberRight(s: State, t: nat, m: nat, o: Addr, value: nat, same: bool, tag: Tag, key: Option<Addr>,
                      chance: Chance)
    requires t < |s.threads| && s.threads[t] == Call(m, o, Write(value, same, tag, key)) && m < |s.memos|
    requires Right(s, s.store.heap, s.ids)
    ensures Right(Remember(s, t, chance), s.store.heap, s.ids)
  {
    var drops := RememberShape(s, t, m, o, value, same, tag, key, chance);
    assert ThreadSound(s.threads[t], s.store.heap, s.ids, |s.memos|);
    hide Remember;
    hide Recorded;
    hide Right;
    RecordedSound(s, o, value, same, tag, key, chance);
    RightWrites(s, t, m, Memo(Some(o), value), Recorded(s, o, value, same, tag, key, chance).0,
                Call(m, o, Release(drops, Id(value))));
  }

  lemma RememberInv(s: State, t: nat, chance: Chance)
    requires Inv(s) && t < |s.threads| && s.threads[t].Call? && s.threads[t].pc.Write? && s.threads[t].memo < |s.memos|
    ensures Inv(Remember(s, t, chance))
  {
    var Call(m, o, Write(value, same, tag, key)) := s.threads[t];
    hide Balanced;
    hide Right;
    RememberBalanced(s, t, m, o, value, same, tag, key, chance);
    RememberRight(s, t, m, o, value, same, tag, key, chance);
    Carry(Remember(s, t, chance), s.store, s.ids);
  }

  // ---------------------------------------------------------------- every action

  lemma FindSameInv(s: State, t: nat, m: nat, o: Addr)
    requires Inv(s) && t < |s.threads| && s.threads[t] == Call(m, o, FindSame)
    ensures Inv(GoTo(s, t, AfterFindSame(Lookup(s.store.heap, s.table, Same, o), s.typed, At(s.store.heap, o))))
  {
    ThreadFacts(s, t);
    hide Inv;
    hide Lookup;
    hide AfterFindSame;
    hide PcSound;
    hide HeldByPc;
    hide Knows;
    var found := Lookup(s.store.heap, s.table, Same, o);
    if found.Some? {
      LookupRight(s, o, Same, o);
    }
    FindSameRight(s.store.heap[o], found, s.typed, s.store.heap, s.ids);
    HeldAfterFindSame(found, s.typed, s.store.heap[o], o);
    Goes(s, t, AfterFindSame(found, s.typed, s.store.heap[o]));
  }

  lemma FindTextInv(s: State, t: nat, m: nat, o: Addr, tag: Tag, key: Addr, error: bool)
    requires Inv(s) && t < |s.threads| && s.threads[t] == Call(m, o, FindText(tag, key))
    ensures Inv(GoTo(s, t, AfterFindText(Lookup(s.store.heap, s.table, tag, key), tag, key, error)))
  {
    ThreadFacts(s, t);
    assert key in s.store.heap && KeyFor(s.store.heap[o], tag, s.store.heap[key]);
    hide Inv;
    hide Lookup;
    hide AfterFindText;
    hide PcSound;
    hide HeldByPc;
    hide Knows;
    var found := Lookup(s.store.heap, s.table, tag, key);
    if found.Some? {
      LookupRight(s, o, tag, key);
    }
    FindTextRight(s.store.heap[o], found, tag, key, error, s.store.heap, s.ids);
    HeldAfterFindText(found, o, tag, key, error);
    Goes(s, t, AfterFindText(found, tag, key, error));
  }

  lemma AskInv(s: State, t: nat, m: nat, o: Addr, tag: Tag, key: Option<Addr>, error: bool)
    requires Inv(s) && t < |s.threads| && s.threads[t] == Call(m, o, AskInterner(tag, key))
    ensures Inv(GoTo(s, t, AfterAsk(At(s.store.heap, o), s.ids, tag, key, error)))
  {
    ThreadFacts(s, t);
    assert OwnedSound(At(s.store.heap, o), tag, key, s.store.heap);
    hide Inv;
    hide AfterAsk;
    hide PcSound;
    hide HeldByPc;
    AskRight(At(s.store.heap, o), s.store.heap, s.ids, tag, key, error);
    HeldAfterAsk(At(s.store.heap, o), s.ids, o, tag, key, error);
    Goes(s, t, AfterAsk(At(s.store.heap, o), s.ids, tag, key, error));
  }

  lemma DispatchInv(s: State, t: nat, m: nat, o: Addr)
    requires Inv(s) && t < |s.threads| && s.threads[t] == Call(m, o, Dispatch)
    ensures Inv(GoTo(s, t, FindSame))
    ensures At(s.store.heap, o).Str? ==> Inv(GoTo(s.(store := Incref(s.store, multiset{o})), t, FindText(Text, o)))
  {
    ThreadFacts(s, t);
    assert s.store.heap[o].Str? ==> PcSound(s.store.heap[o], FindText(Text, o), s.store.heap, s.ids);
    assert PcSound(s.store.heap[o], FindSame, s.store.heap, s.ids);
    hide Inv;
    hide PcSound;
    hide HeldByPc;
    hide GoTo;
    hide Incref;
    HeldByKey(o, Text, o, 0);
    HeldNothing(o, 0);
    Goes(s, t, FindSame);
    if s.store.heap[o].Str? {
      Takes(s, t, multiset{o}, FindText(Text, o));
    }
  }

  lemma NamedInv(s: State, t: nat, m: nat, o: Addr, name: Addr)
    requires Inv(s) && t < |s.threads| && s.threads[t] == Call(m, o, GetName) && name in s.ext
    requires KeyFor(At(s.store.heap, o), DtypeName, At(s.store.heap, name))
    ensures Inv(GoTo(s.(store := Incref(s.store, multiset{name})), t, FindText(DtypeName, name)))
  {
    OutsideLive(s, name);
    hide Inv;
    hide HeldByPc;
    HeldByKey(o, DtypeName, name, 0);
    Takes(s, t, multiset{name}, FindText(DtypeName, name));
  }

  lemma UnnamedInv(s: State, t: nat, m: nat, o: Addr, error: bool)
    requires Inv(s) && t < |s.threads| && s.threads[t] == Call(m, o, GetName)
    ensures Inv(GoTo(s, t, if error then Release([], Raised) else AskInterner(Same, None)))
  {
    hide Inv;
    hide HeldByPc;
    HeldNothing(o, 0);
    Goes(s, t, if error then Release([], Raised) else AskInterner(Same, None));
  }

  lemma DropKeyInv(s: State, t: nat, m: nat, o: Addr, key: Addr, value: nat)
    requires Inv(s) && t < |s.threads| && s.threads[t] == Call(m, o, DropKey(key, value))
    ensures Inv(GoTo(s.(store := Decref(s.store, key)), t, Keep(value, false, Same, None)))
  {
    ThreadFacts(s, t);
    assert PcSound(At(s.store.heap, o), Keep(value, false, Same, None), s.store.heap, s.ids);
    hide Inv;
    hide PcSound;
    hide HeldByPc;
    hide GoTo;
    hide Decref;
    HeldByKey(o, Same, key, value);
    DropsTo(s, t, key, Keep(value, false, Same, None));
  }

  lemma KeepInv(s: State, t: nat, m: nat, o: Addr, value: nat, same: bool, tag: Tag, key: Option<Addr>)
    requires Inv(s) && t < |s.threads| && s.threads[t] == Call(m, o, Keep(value, same, tag, key))
    ensures Inv(GoTo(s.(store := Incref(s.store, if same then multiset{o, o} else multiset{o})), t,
                     Write(value, same, tag, key)))
  {
    ThreadFacts(s, t);
    hide Inv;
    hide PcSound;
    hide HeldByPc;
    hide GoTo;
    hide Incref;
    KeepRight(s, t, m, o, value, same, tag, key);
    HeldAtKeep(o, value, same, tag, key);
    Takes(s, t, if same then multiset{o, o} else multiset{o}, Write(value, same, tag, key));
  }

  lemma DropOneInv(s: State, t: nat, m: nat, o: Addr, drops: seq<Addr>, outcome: Outcome)
    requires Inv(s) && t < |s.threads| && s.threads[t] == Call(m, o, Release(drops, outcome)) && drops != []
    ensures Inv(GoTo(s.(store := Decref(s.store, drops[0])), t, Release(drops[1..], outcome)))
  {
    ThreadFacts(s, t);
    HeldAtDrop(o, drops, outcome);
    assert PcSound(At(s.store.heap, o), Release(drops[1..], outcome), s.store.heap, s.ids);
    hide Inv;
    hide PcSound;
    hide HeldByPc;
    DropsTo(s, t, drops[0], Release(drops[1..], outcome));
  }

  lemma NextRefsInv(s: State, t: nat, m: nat, o: Addr, pc: Pc, chance: Chance)
    requires Inv(s) && t < |s.threads| && Enabled(s, Step(t, chance)) && s.threads[t] == Call(m, o, pc)
    requires pc.Dispatch? || pc.GetName? || pc.DropKey? || pc.Keep? || pc.Release?
    ensures Inv(StepCall(s, t, chance))
  {
    hide GoTo;
    hide Incref;
    hide Decref;
    hide Returned;
    hide Inv;
    match pc
    case Dispatch => DispatchInv(s, t, m, o);
    case GetName =>
      if !chance.error && At(s.store.heap, o).Dtype? && At(s.store.heap, o).exact {
        NamedInv(s, t, m, o, chance.name);
      } else {
        UnnamedInv(s, t, m, o, chance.error);
      }
    case DropKey(key, value) => DropKeyInv(s, t, m, o, key, value);
    case Keep(value, same, tag, key) => KeepInv(s, t, m, o, value, same, tag, key);
    case Release(drops, outcome) =>
      if drops == [] {
        ReturnedInv(s, t);
      } else {
        DropOneInv(s, t, m, o, drops, outcome);
      }
  }

  lemma ReadMemoInv(s: State, t: nat, m: nat, o: Addr)
    requires Inv(s) && t < |s.threads| && s.threads[t] == Call(m, o, ReadMemo) && m < |s.memos|
    ensures Inv(GoTo(s, t, if s.memos[m].obj == Some(o) then Release([], Id(s.memos[m].id)) else Dispatch))
  {
    ThreadFacts(s, t);
    assert MemoSound(s.memos[m], s.store.heap, s.ids);
    hide Inv;
    hide HeldByPc;
    HeldNothing(o, s.memos[m].id);
    Goes(s, t, if s.memos[m].obj == Some(o) then Release([], Id(s.memos[m].id)) else Dispatch);
  }

  lemma NextPcInv(s: State, t: nat, m: nat, o: Addr, pc: Pc, chance: Chance)
    requires Inv(s) && t < |s.threads| && s.threads[t] == Call(m, o, pc) && m < |s.memos|
    requires pc.ReadMemo? || pc.FindSame? || pc.FindText? || pc.AskInterner? || pc.Intern? || pc.Write?
    ensures Inv(StepCall(s, t, chance))
  {
    hide GoTo;
    hide AfterFindSame;
    hide AfterFindText;
    hide AfterAsk;
    hide Interned;
    hide Remember;
    hide Inv;
    match pc
    case ReadMemo => ReadMemoInv(s, t, m, o);
    case FindSame => FindSameInv(s, t, m, o);
    case FindText(tag, key) => FindTextInv(s, t, m, o, tag, key, chance.error);
    case AskInterner(tag, key) => AskInv(s, t, m, o, tag, key, chance.error);
    case Intern(tag, key) => InternedInv(s, t, m, o, tag, key);
    case Write(_, _, _, _) => RememberInv(s, t, chance);
  }

  // ---------------------------------------------------------------- a traverse, and the outside

  lemma VisitInv(s: State, t: nat, items: seq<Addr>)
    requires Inv(s) && t < |s.threads| && s.threads[t] == Visit(items)
    ensures Inv(StepVisit(s, t))
  {
    if items == [] {
      assert HeldByThread(Visit(items)) == HeldByThread(Idle);
      hide Inv;
      ThreadMoves(s, t, s.store, Idle, s.answers);
    } else {
      HeldAtVisit(items);
      hide Inv;
      hide HeldByThread;
      Drops(s, t, items[0], Visit(items[1..]), s.answers);
    }
  }

  lemma HeldAtVisit(items: seq<Addr>)
    requires items != []
    ensures HeldByThread(Visit(items)) == HeldByThread(Visit(items[1..])) + multiset{items[0]}
  {
    assert items == [items[0]] + items[1..];
  }

  lemma IdleHolds(items: multiset<Addr>)
    ensures HeldByThread(Idle) + items == items
  {
  }

  /** An idle thread takes references to objects that are live. */
  lemma StartsInv(s: State, t: nat, items: multiset<Addr>, th: Thread)
    requires Inv(s) && t < |s.threads| && s.threads[t].Idle?
    requires HeldByThread(th) == items && forall a :: a in items ==> a in s.store.heap
    requires ThreadSound(th, s.store.heap, s.ids, |s.memos|)
    ensures Inv(s.(store := Incref(s.store, items), threads := s.threads[t := th]))
  {
    IncrefCounted(s.store, items);
    IdleHolds(items);
    hide Inv;
    hide ThreadSound;
    hide HeldByThread;
    hide Counted;
    hide Agree;
    TakeBalance(s.store.refs, items, HeldByThread(Idle), HeldByThread(th));
    ThreadMoves(s, t, Incref(s.store, items), th, s.answers);
  }

  lemma HeldAtStart(m: nat, o: Addr)
    ensures HeldByThread(Call(m, o, ReadMemo)) == multiset{o}
  {
  }

  lemma BeginInv(s: State, t: nat, m: nat, o: Addr)
    requires Inv(s) && t < |s.threads| && s.threads[t].Idle? && m < |s.memos| && o in s.ext
    ensures Inv(s.(store := Incref(s.store, multiset{o}), threads := s.threads[t := Call(m, o, ReadMemo)]))
  {
    OutsideLive(s, o);
    HeldAtStart(m, o);
    hide Inv;
    hide HeldByThread;
    StartsInv(s, t, multiset{o}, Call(m, o, ReadMemo));
  }

  lemma EntriesLive(s: State, items: multiset<Addr>)
    requires Inv(s) && items <= Total(s.table, HeldByEntry)
    ensures forall a :: a in items ==> a in s.store.heap
  {
    forall a | a in items
      ensures a in s.store.heap
    {
      assert a in Launched(s) && a in s.store.refs;
    }
  }

  lemma CollectInv(s: State, t: nat, items: seq<Addr>)
    requires Inv(s) && t < |s.threads| && s.threads[t].Idle? && multiset(items) <= Total(s.table, HeldByEntry)
    ensures Inv(s.(store := Incref(s.store, multiset(items)), threads := s.threads[t := Visit(items)]))
  {
    EntriesLive(s, multiset(items));
    hide Inv;
    hide Total;
    StartsInv(s, t, multiset(items), Visit(items));
  }

  /** What only the outside does leaves what the launcher holds alone. */
  lemma OutsideInv(s: State, st': Store, ext': multiset<Addr>)
    requires Inv(s) && Counted(st') && Agree(s.store, st')
    requires forall a :: st'.refs[a] + s.ext[a] == s.store.refs[a] + ext'[a]
    ensures Inv(s.(store := st', ext := ext'))
  {
    var s' := s.(store := st', ext := ext');
    OutsideBalance(s.store.refs, s.ext, st'.refs, ext', Launched(s));
    assert Launched(s') == Launched(s);
    hide Launched;
    assert Balanced(s');
    hide Balanced;
    Carry(s', s.store, s.ids);
  }

  lemma OutsideBalance<T>(refs: multiset<T>, ext: multiset<T>, refs': multiset<T>, ext': multiset<T>, held: multiset<T>)
    requires refs == ext + held && forall a :: refs'[a] + ext[a] == refs[a] + ext'[a]
    ensures refs' == ext' + held
  {
    forall a
      ensures refs'[a] == (ext' + held)[a]
    {
      assert refs[a] == (ext + held)[a];
    }
  }

  lemma CreateInv(s: State, a: Addr, o: Object)
    requires Inv(s) && a !in s.store.heap
    ensures Inv(s.(store := Allocated(s.store, a, o), ext := s.ext + multiset{a}))
  {
    AllocatedCounted(s.store, a, o);
    hide Inv;
    hide Counted;
    OutsideInv(s, Allocated(s.store, a, o), s.ext + multiset{a});
  }

  lemma ShareInv(s: State, a: Addr)
    requires Inv(s) && a in s.ext
    ensures Inv(s.(store := Incref(s.store, multiset{a}), ext := s.ext + multiset{a}))
  {
    assert a in s.store.refs;
    IncrefCounted(s.store, multiset{a});
    hide Inv;
    hide Counted;
    OutsideInv(s, Incref(s.store, multiset{a}), s.ext + multiset{a});
  }

  lemma ForgetInv(s: State, a: Addr)
    requires Inv(s) && a in s.ext
    ensures Inv(s.(store := Decref(s.store, a), ext := s.ext - multiset{a}))
  {
    assert a in s.store.refs;
    DecrefCounted(s.store, a);
    hide Inv;
    hide Counted;
    OutsideInv(s, Decref(s.store, a), s.ext - multiset{a});
  }

  lemma NextInv(s: State, act: Action)
    requires Inv(s) && Enabled(s, act)
    ensures Inv(Next(s, act))
  {
    hide Inv;
    hide Total;
    hide Incref;
    hide Decref;
    hide Allocated;
    hide StepCall;
    hide StepVisit;
    match act
    case Create(a, o) => CreateInv(s, a, o);
    case Share(a) => ShareInv(s, a);
    case Forget(a) => ForgetInv(s, a);
    case Begin(t, m, o) => BeginInv(s, t, m, o);
    case Collect(t, items) => CollectInv(s, t, items);
    case Step(t, chance) =>
      match s.threads[t] {
        case Visit(items) => VisitInv(s, t, items);
        case Call(m, o, pc) =>
          if pc.Dispatch? || pc.GetName? || pc.DropKey? || pc.Keep? || pc.Release? {
            NextRefsInv(s, t, m, o, pc, chance);
          } else {
            NextPcInv(s, t, m, o, pc, chance);
          }
      }
  }

  // ---------------------------------------------------------------- whole runs

  /** A run of the launcher: any number of threads, interleaved in any way. */
  ghost predicate Run(states: seq<State>) {
    && |states| > 0 && Initial(states[0])
    && forall i :: 0 <= i < |states| - 1 ==> Steps(states[i], states[i + 1])
  }

  ghost predicate Steps(s: State, s': State) {
    exists act :: Enabled(s, act) && s' == Next(s, act)
  }

  lemma {:induction false} RunInv(states: seq<State>, k: nat)
    requires Run(states) && k < |states|
    ensures Inv(states[k])
    decreases k
  {
    hide Inv;
    hide Next;
    hide Enabled;
    hide Initial;
    if k == 0 {
      InitialInv(states[0]);
    } else {
      RunInv(states, k - 1);
      assert Steps(states[k - 1], states[k - 1 + 1]);
      var act :| Enabled(states[k - 1], act) && states[k] == Next(states[k - 1], act);
      NextInv(states[k - 1], act);
    }
  }

  /** Whatever tier answered, in whichever thread: every id a call returned is the interner's for
      its argument's value, so two calls return one id exactly when their values are equal. */
  lemma AnswersAgree(states: seq<State>, k: nat, i: nat, j: nat)
    requires Run(states) && k < |states| && i < |states[k].answers| && j < |states[k].answers|
    ensures var s := states[k]; s.answers[i].0 in s.ids && s.ids[s.answers[i].0] == s.answers[i].1
    ensures var s := states[k]; s.answers[i].1 == s.answers[j].1 <==> s.answers[i].0 == s.answers[j].0
  {
    RunInv(states, k);
  }

  /** A call that is about to answer has its live argument's id; one that refuses has an
      unsupported argument. */
  lemma CallsAnswerRight(states: seq<State>, k: nat, t: nat)
    requires Run(states) && k < |states| && t < |states[k].threads|
    requires states[k].threads[t].Call? && states[k].threads[t].pc.Release?
    ensures var s := states[k]; var Call(_, o, Release(_, outcome)) := s.threads[t];
      && o in s.store.heap
      && (outcome.Id? ==> Knows(s.ids, s.store.heap[o], outcome.id))
      && (outcome.Refused? ==> CanonicalOf(s.store.heap[o]).None?)
  {
    RunInv(states, k);
    ThreadFacts(states[k], t);
  }

  /** A call's place after a step, nearer its end and with no exception but one the step raised. */
  predicate Nearer(th: Thread, th': Thread, error: bool)
    requires th.Call?
  {
    match th'
    case Idle => th.pc.Release?
    case Call(m, o, pc) =>
      && m == th.memo && o == th.o && CallLeft(pc) < CallLeft(th.pc)
      && (pc.Release? && pc.outcome.Raised? ==> error || (th.pc.Release? && th.pc.outcome.Raised?))
    case Visit(_) => false
  }

  lemma LooksNearer(th: Thread, o: Object, found: Option<nat>, typed: bool, ids: map<Canonical, nat>, error: bool)
    requires th.Call?
    ensures th.pc.FindSame? ==> Nearer(th, th.(pc := AfterFindSame(found, typed, o)), error)
    ensures th.pc.FindText? ==> Nearer(th, th.(pc := AfterFindText(found, th.pc.tag, th.pc.key, error)), error)
    ensures th.pc.AskInterner? ==> Nearer(th, th.(pc := AfterAsk(o, ids, th.pc.tag, th.pc.owned, error)), error)
  {
    hide CanonicalOf;
  }

  lemma StepMoves(s: State, t: nat, m: nat, o: Addr, pc: Pc, chance: Chance)
    requires t < |s.threads| && s.threads[t] == Call(m, o, pc) && m < |s.memos|
    ensures |StepCall(s, t, chance).threads| == |s.threads|
    ensures Nearer(s.threads[t], StepCall(s, t, chance).threads[t], chance.error)
  {
    hide Lookup;
    hide Incref;
    hide Decref;
    hide CanonicalOf;
    hide At;
    hide Remember;
    hide Interned;
    hide AfterFindSame;
    hide AfterFindText;
    hide AfterAsk;
    var th, thing := s.threads[t], At(s.store.heap, o);
    match pc
    case Write(_, _, _, _) => WriteMoves(s, t, chance);
    case Intern(tag, key) => InternMoves(s, t, o, tag, key);
    case FindSame =>
      LooksNearer(th, thing, Lookup(s.store.heap, s.table, Same, o), s.typed, s.ids, chance.error);
    case FindText(tag, key) =>
      LooksNearer(th, thing, Lookup(s.store.heap, s.table, tag, key), s.typed, s.ids, chance.error);
    case AskInterner(_, _) =>
      LooksNearer(th, thing, None, s.typed, s.ids, chance.error);
    case _ =>
  }

  lemma InternMoves(s: State, t: nat, o: Addr, tag: Tag, key: Option<Addr>)
    requires t < |s.threads| && s.threads[t].Call? && s.threads[t].pc == Intern(tag, key)
    ensures var s' := Interned(s, t, o, tag, key);
      && |s'.threads| == |s.threads| && s'.threads[t] == s.threads[t].(pc := s'.threads[t].pc)
      && CallLeft(s'.threads[t].pc) < CallLeft(s.threads[t].pc)
      && !(s'.threads[t].pc.Release? && s'.threads[t].pc.outcome.Raised?)
  {
    hide WithId;
    hide CanonicalOf;
  }

  lemma WriteMoves(s: State, t: nat, chance: Chance)
    requires t < |s.threads| && s.threads[t].Call? && s.threads[t].pc.Write? && s.threads[t].memo < |s.memos|
    ensures var s' := Remember(s, t, chance);
      && |s'.threads| == |s.threads| && s'.threads[t] == s.threads[t].(pc := s'.threads[t].pc)
      && s'.threads[t].pc.Release? && s'.threads[t].pc.outcome.Id? && |s'.threads[t].pc.drops| <= 3
  {
    hide Recorded;
  }

  lemma LookupLast(heap: Heap, log: seq<Entry>, e: Entry, tag: Tag, key: Addr)
    ensures Lookup(heap, log, tag, key).Some? ==> Lookup(heap, log + [e], tag, key).Some?
    ensures e.tag == tag && e.ref == key ==> Lookup(heap, log + [e], tag, key).Some?
  {
    assert (log + [e])[..|log|] == log;
  }

  /** What was asked for is remembered: the slot's memo has the object and its id, and, where the table
      had room or memory, the object is found in it by identity and its str by content. */
  lemma Remembers(s: State, t: nat, m: nat, o: Addr, value: nat, same: bool, tag: Tag, key: Option<Addr>,
                  chance: Chance)
    requires t < |s.threads| && s.threads[t] == Call(m, o, Write(value, same, tag, key)) && m < |s.memos|
    ensures var s' := Remember(s, t, chance);
      && s'.memos == s.memos[m := Memo(Some(o), value)] && s'.ids == s.ids
      && (same && chance.sameFits ==> Lookup(s.store.heap, s'.table, Same, o).Some?)
      && (key.Some? && chance.textFits ==> Lookup(s.store.heap, s'.table, tag, key.value).Some?)
  {
    LookupLast(s.store.heap, s.table, Entry(Same, o, value), Same, o);
    if key.Some? {
      var (log, _, _) := Recorded(s, o, value, same, tag, None, chance);
      LookupLast(s.store.heap, log, Entry(tag, key.value, value), tag, key.value);
      LookupLast(s.store.heap, log, Entry(tag, key.value, value), Same, o);
    }
    hide Lookup;
    hide ToDrop;
  }

  /** An object the memo or the table remembers costs no call of the interner; another one is asked for
      by its name where it is a dtype, and of the interner where it is not. */
  lemma RememberedAnswers(s: State, t: nat, m: nat, o: Addr, pc: Pc, chance: Chance)
    requires t < |s.threads| && s.threads[t] == Call(m, o, pc) && m < |s.memos|
    ensures var pc' := StepCall(s, t, chance).threads[t];
      && (pc.ReadMemo? && s.memos[m].obj == Some(o) ==> pc' == Call(m, o, Release([], Id(s.memos[m].id))))
      && (pc.FindSame? && Lookup(s.store.heap, s.table, Same, o).Some? ==>
            pc' == Call(m, o, Keep(Lookup(s.store.heap, s.table, Same, o).value, false, Same, None)))
      && (pc.FindSame? && Lookup(s.store.heap, s.table, Same, o).None? ==>
            pc' == Call(m, o, if s.typed && At(s.store.heap, o).Dtype? then GetName else AskInterner(Same, None)))
      && (pc.FindText? && Lookup(s.store.heap, s.table, pc.tag, pc.key).Some? && !chance.error ==>
            pc' == Call(m, o, DropKey(pc.key, Lookup(s.store.heap, s.table, pc.tag, pc.key).value)))
  {
    hide Lookup;
    hide Remember;
    hide Interned;
    hide AfterAsk;
    hide Incref;
    hide Decref;
  }

  /** The steps a call has left, at most. */
  function CallLeft(pc: Pc): nat {
    match pc
    case ReadMemo => 20
    case Dispatch => 19
    case FindSame => 18
    case GetName => 17
    case FindText(_, _) => 16
    case AskInterner(_, _) => 15
    case Intern(_, _) => 14
    case DropKey(_, _) => 13
    case Keep(_, _, _, _) => 12
    case Write(_, _, _, _) => 11
    case Release(drops, _) => 1 + |drops|
  }

  /** Every step of a call brings it nearer its end, and it comes to an exception of Python's own only
      where a step of it raised one: any other call ends in an id or the TypeError. */
  lemma CallProgresses(s: State, t: nat, chance: Chance)
    requires Enabled(s, Step(t, chance)) && s.threads[t].Call?
    ensures Nearer(s.threads[t], Next(s, Step(t, chance)).threads[t], chance.error)
  {
    var Call(m, o, pc) := s.threads[t];
    StepMoves(s, t, m, o, pc, chance);
    hide StepCall;
  }

  /** No remembered address is ever another object's: what a memo or an identity entry refers to
      is in memory, and it is an object whose id is the one stored with it. */
  lemma AddressesStayTrue(states: seq<State>, k: nat)
    requires Run(states) && k < |states|
    ensures var s := states[k]; forall m :: 0 <= m < |s.memos| && s.memos[m].obj.Some? ==>
              s.memos[m].obj.value in s.store.heap && Knows(s.ids, s.store.heap[s.memos[m].obj.value], s.memos[m].id)
    ensures var s := states[k]; forall i :: 0 <= i < |s.table| && s.table[i].tag.Same? ==>
              s.table[i].ref in s.store.heap && Knows(s.ids, s.store.heap[s.table[i].ref], s.table[i].id)
  {
    RunInv(states, k);
    var s := states[k];
    forall m | 0 <= m < |s.memos| && s.memos[m].obj.Some?
      ensures s.memos[m].obj.value in s.store.heap && Knows(s.ids, s.store.heap[s.memos[m].obj.value], s.memos[m].id)
    {
      assert MemoSound(s.memos[m], s.store.heap, s.ids);
    }
    forall i | 0 <= i < |s.table| && s.table[i].tag.Same?
      ensures s.table[i].ref in s.store.heap && Knows(s.ids, s.store.heap[s.table[i].ref], s.table[i].id)
    {
      assert EntrySound(s.table[i], s.store.heap, s.ids);
    }
  }

  /** Between calls, every object's references are the outside's, one for each memo slot and one
      for each table entry that holds it: refused inserts, replaced memos and collected snapshots
      leave nothing behind. */
  lemma ReferencesConserved(states: seq<State>, k: nat)
    requires Run(states) && k < |states|
    requires forall t :: 0 <= t < |states[k].threads| ==> states[k].threads[t].Idle?
    ensures var s := states[k]; s.store.refs == s.ext + Total(s.memos, HeldByMemo) + Total(s.table, HeldByEntry)
    ensures var s := states[k]; forall a :: a in s.store.heap <==> a in s.store.refs
  {
    RunInv(states, k);
    NothingHeld(states[k].threads, HeldByThread);
  }

  /** An id once given is never changed or given again. */
  lemma IdsStay(s: State, act: Action, c: Canonical)
    requires Enabled(s, act) && c in s.ids
    ensures c in Next(s, act).ids && Next(s, act).ids[c] == s.ids[c]
  {
    hide Incref;
    hide Decref;
    hide Allocated;
    hide Recorded;
    hide AfterFindSame;
    hide AfterFindText;
    hide AfterAsk;
    hide Total;
    hide Lookup;
  }
}
