/** The compiled kernels of one launcher (`KernelCompiler`, intj/compiler.py): misses that nest
    through the compiles they start, and other threads' misses waiting for the lock meanwhile. */
module CompileCache {
  import opened Optional

  type Key = int       // a key blob
  type Identity = int  // compiler input, options and knobs
  type Device = int
  type Kernel = int    // a CompiledKernel, by identity

  /** One `compile_miss`: what it is asked for, what Triton does while it loads, if it has to, and
      how the load, the launch refusals and the argument count turn out. */
  datatype Miss = Miss(key: Key, identity: Identity, device: Device, during: seq<Event>, loaded: Option<Kernel>,
                       refused: bool, counted: bool)

  /** While a load runs: a miss of its own thread, which the re-entrant lock lets in, or another
      thread's first step, which takes no lock. */
  datatype Event = Nested(miss: Miss) | Noted(key: Key, identity: Identity)

  datatype Record = Record(key: Key, identity: Identity, device: Device, kernel: Kernel)

  /** `loads` and `records` are history: what was compiled, and what misses returned. */
  datatype State = State(
    compiled: map<(Identity, Device), Kernel>, seen: map<Key, Identity>,
    loads: seq<(Identity, Device)>, records: seq<Record>)

  /** A new launcher. */
  const FRESH := State(map[], map[], [], [])

  /** `seen.setdefault(key, identity)`. */
  function SetDefault<K, V>(m: map<K, V>, k: K, v: V): (r: map<K, V>)
    ensures k in r
  {
    if k in m then m else m[k := v]
  }

  function AfterEvents(s: State, events: seq<Event>): State
    decreases events, 0
  {
    if events == [] then s else AfterEvent(AfterEvents(s, events[..|events| - 1]), events[|events| - 1])
  }

  function AfterEvent(s: State, e: Event): State
    decreases e, 0
  {
    match e
    case Noted(key, identity) => s.(seen := SetDefault(s.seen, key, identity))
    case Nested(m) => AfterMiss(s, m).0
  }

  /** `_compile` under the lock: the state, and the kernel unless it raised. */
  function AfterCompile(s: State, m: Miss): (State, Option<Kernel>)
    decreases m, 0
  {
    var at := (m.identity, m.device);
    if at in s.compiled then (s, Some(s.compiled[at]))
    else
      var after := AfterEvents(s.(loads := s.loads + [at]), m.during);
      if m.loaded.None? || m.refused then (after, None)
      else
        var compiled := SetDefault(after.compiled, at, m.loaded.value);
        (after.(compiled := compiled), Some(compiled[at]))
  }

  /** `compile_miss`. */
  function AfterMiss(s: State, m: Miss): (State, Option<Kernel>)
    decreases m, 1
  {
    var noted := s.(seen := SetDefault(s.seen, m.key, m.identity));
    if noted.seen[m.key] != m.identity then (noted, None)
    else
      var (compiled, kernel) := AfterCompile(noted, m);
      if kernel.None? || !m.counted then (compiled, None)
      else (compiled.(records := compiled.records + [Record(m.key, m.identity, m.device, kernel.value)]), kernel)
  }

  // ---------------------------------------------------------------- the compiler as it runs

  class KernelCompiler {
    var compiled: map<(Identity, Device), Kernel>
    var seen: map<Key, Identity>
    ghost var loads: seq<(Identity, Device)>
    ghost var records: seq<Record>

    ghost function Now(): State
      reads this
    {
      State(compiled, seen, loads, records)
    }

    constructor ()
      ensures Now() == FRESH
    {
      compiled, seen, loads, records := map[], map[], [], [];
    }

    method CompileMiss(m: Miss) returns (r: Option<Kernel>)
      modifies this
      ensures (Now(), r) == AfterMiss(old(Now()), m)
      decreases m, 1
    {
      seen := SetDefault(seen, m.key, m.identity);
      if seen[m.key] != m.identity {
        return None;
      }
      r := Compile(m);
      if r.None? || !m.counted {
        return None;
      }
      records := records + [Record(m.key, m.identity, m.device, r.value)];
    }

    method Handle(e: Event)
      modifies this
      ensures Now() == AfterEvent(old(Now()), e)
      decreases e, 0
    {
      match e {
        case Noted(key, identity) => seen := SetDefault(seen, key, identity);
        case Nested(nested) => var _ := CompileMiss(nested);
      }
    }

    method Compile(m: Miss) returns (r: Option<Kernel>)
      modifies this
      ensures (Now(), r) == AfterCompile(old(Now()), m)
      decreases m, 0
    {
      var at := (m.identity, m.device);
      if at in compiled {
        return Some(compiled[at]);
      }
      loads := loads + [at];
      ghost var start := Now();
      for i := 0 to |m.during|
        invariant Now() == AfterEvents(start, m.during[..i])
      {
        assert m.during[..i + 1][..i] == m.during[..i];
        Handle(m.during[i]);
      }
      assert m.during[..|m.during|] == m.during;
      if m.loaded.None? || m.refused {
        return None;
      }
      compiled := SetDefault(compiled, at, m.loaded.value);
      return Some(compiled[at]);
    }
  }

  // ---------------------------------------------------------------- what every miss keeps

  /** Every record's kernel is the one stored for its identity and device, and its key's one
      identity is its own. */
  ghost predicate Inv(s: State) {
    forall r :: r in s.records ==>
      && (r.identity, r.device) in s.compiled && s.compiled[(r.identity, r.device)] == r.kernel
      && r.key in s.seen && s.seen[r.key] == r.identity
  }

  /** Nothing stored is ever replaced, no key's identity changes, nothing stored is loaded again,
      and no record is forgotten. */
  ghost predicate Extends(s: State, s': State) {
    && (forall at :: at in s.compiled ==> at in s'.compiled && s'.compiled[at] == s.compiled[at])
    && (forall k :: k in s.seen ==> k in s'.seen && s'.seen[k] == s.seen[k])
    && s.records <= s'.records && s.loads <= s'.loads
    && forall i :: |s.loads| <= i < |s'.loads| ==> s'.loads[i] !in s.compiled
  }

  lemma ExtendsTrans(a: State, b: State, c: State)
    requires Extends(a, b) && Extends(b, c)
    ensures Extends(a, c)
  {
    forall i | |a.loads| <= i < |c.loads|
      ensures c.loads[i] !in a.compiled
    {
      if i < |b.loads| {
        assert c.loads[i] == b.loads[i];
      }
    }
  }

  lemma {:induction false} EventsKeep(s: State, events: seq<Event>)
    requires Inv(s)
    ensures Inv(AfterEvents(s, events)) && Extends(s, AfterEvents(s, events))
    decreases events, 0
  {
    if events != [] {
      var last := |events| - 1;
      EventsKeep(s, events[..last]);
      var before, after := AfterEvents(s, events[..last]), AfterEvents(s, events);
      EventKeeps(before, events[last]);
      ExtendsTrans(s, before, after);
    }
  }

  lemma EventKeeps(s: State, e: Event)
    requires Inv(s)
    ensures Inv(AfterEvent(s, e)) && Extends(s, AfterEvent(s, e))
    decreases e, 0
  {
    if e.Nested? {
      MissKeeps(s, e.miss);
    }
  }

  lemma CompileKeeps(s: State, m: Miss)
    requires Inv(s)
    ensures var (s', kernel) := AfterCompile(s, m);
      && Inv(s') && Extends(s, s')
      && (kernel.Some? ==> (m.identity, m.device) in s'.compiled && s'.compiled[(m.identity, m.device)] == kernel.value)
    decreases m, 0
  {
    var at := (m.identity, m.device);
    if at !in s.compiled {
      var started := s.(loads := s.loads + [at]);
      EventsKeep(started, m.during);
      ExtendsTrans(s, started, AfterEvents(started, m.during));
    }
  }

  lemma MissKeeps(s: State, m: Miss)
    requires Inv(s)
    ensures Inv(AfterMiss(s, m).0) && Extends(s, AfterMiss(s, m).0)
    decreases m, 1
  {
    var noted := s.(seen := SetDefault(s.seen, m.key, m.identity));
    if noted.seen[m.key] == m.identity {
      CompileKeeps(noted, m);
      ExtendsTrans(s, noted, AfterCompile(noted, m).0);
    }
  }

  /** The state after any sequence of misses and other threads' notes, each miss with whatever
      nests in it. */
  lemma AnyMisses(events: seq<Event>)
    ensures Inv(AfterEvents(FRESH, events))
  {
    EventsKeep(FRESH, events);
  }

  /** However misses nest: two records of one identity and device launch one kernel, and a key
      blob never yields records of two identities. */
  lemma RecordsAgree(events: seq<Event>, r: Record, t: Record)
    requires var s := AfterEvents(FRESH, events); r in s.records && t in s.records
    ensures r.identity == t.identity && r.device == t.device ==> r.kernel == t.kernel
    ensures r.key == t.key ==> r.identity == t.identity
  {
    AnyMisses(events);
  }

  /** A miss that returns, returns the stored kernel, under the identity its key stands for. */
  lemma MissReturnsStored(s: State, m: Miss)
    requires Inv(s) && AfterMiss(s, m).1.Some?
    ensures var (s', kernel) := AfterMiss(s, m);
      && (m.identity, m.device) in s'.compiled && s'.compiled[(m.identity, m.device)] == kernel.value
      && m.key in s'.seen && s'.seen[m.key] == m.identity
  {
    var noted := s.(seen := SetDefault(s.seen, m.key, m.identity));
    CompileKeeps(noted, m);
  }

  /** A miss of this launcher's key for its own identity. */
  predicate OwnKey(s: State, m: Miss) {
    m.key in s.seen ==> s.seen[m.key] == m.identity
  }

  /** What is stored for a place once a load of it is done: what was there first. */
  function StoredBy(s: State, m: Miss): Option<Kernel> {
    var at := (m.identity, m.device);
    var started := s.(seen := SetDefault(s.seen, m.key, m.identity), loads := s.loads + [at]);
    if at in s.compiled then Some(s.compiled[at])
    else if m.loaded.None? || m.refused then None
    else if at in AfterEvents(started, m.during).compiled then Some(AfterEvents(started, m.during).compiled[at])
    else m.loaded
  }

  /** When a miss answers: its key is its identity's, the arguments count, and the kernel was stored
      before or its load neither raises nor is refused. It then returns the kernel stored first, and
      its record is the last made. A hit starts no load and changes nothing else. */
  lemma MissReturnsExactly(s: State, m: Miss)
    ensures var (s', kernel) := AfterMiss(s, m);
      && (kernel.Some? <==>
            OwnKey(s, m) && m.counted && ((m.identity, m.device) in s.compiled || (m.loaded.Some? && !m.refused)))
      && (kernel.Some? ==>
            && kernel == StoredBy(s, m) && s'.records != []
            && s'.records[|s'.records| - 1] == Record(m.key, m.identity, m.device, kernel.value))
      && (OwnKey(s, m) && (m.identity, m.device) in s.compiled ==>
            var made := if kernel.Some? then [Record(m.key, m.identity, m.device, kernel.value)] else [];
            s' == s.(seen := s.seen[m.key := m.identity], records := s.records + made))
      && (!OwnKey(s, m) ==> s' == s)
  {
  }

  /** ... and what it leaves stored is there for every later miss. */
  lemma MissStores(s: State, m: Miss)
    requires Inv(s) && OwnKey(s, m)
    ensures var s' := AfterMiss(s, m).0;
      StoredBy(s, m).Some? ==>
        (m.identity, m.device) in s'.compiled && Some(s'.compiled[(m.identity, m.device)]) == StoredBy(s, m)
  {
  }

  // ---------------------------------------------------------------- how often one kernel is loaded

  type Place = (Identity, Device)

  /** What decides which loads start: the identity of each key, and what is stored. */
  datatype Walk = Walk(seen: map<Key, Identity>, stored: set<Place>)

  function PlaceOf(m: Miss): Place {
    (m.identity, m.device)
  }

  function Noting(w: Walk, m: Miss): Walk {
    w.(seen := SetDefault(w.seen, m.key, m.identity))
  }

  /** The miss gets past the key's one identity, to `_compile`. */
  predicate Admitted(w: Walk, m: Miss) {
    Noting(w, m).seen[m.key] == m.identity
  }

  /** ... and starts a load there. */
  predicate Starts(w: Walk, m: Miss) {
    Admitted(w, m) && PlaceOf(m) !in w.stored
  }

  /** The load raises, or its kernel is refused: nothing is stored. */
  predicate Fails(m: Miss) {
    m.loaded.None? || m.refused
  }

  function WalkEvents(w: Walk, events: seq<Event>): Walk
    decreases events, 0
  {
    if events == [] then w else WalkEvent(WalkEvents(w, events[..|events| - 1]), events[|events| - 1])
  }

  function WalkEvent(w: Walk, e: Event): Walk
    decreases e, 0
  {
    match e
    case Noted(key, identity) => w.(seen := SetDefault(w.seen, key, identity))
    case Nested(m) => WalkMiss(w, m)
  }

  function WalkMiss(w: Walk, m: Miss): Walk
    decreases m, 0
  {
    if !Starts(w, m) then Noting(w, m)
    else
      var after := WalkEvents(Noting(w, m), m.during);
      if Fails(m) then after else after.(stored := after.stored + {PlaceOf(m)})
  }

  /** An admitted miss of `at`, at any depth. */
  predicate Reaches(w: Walk, events: seq<Event>, at: Place)
    decreases events, 0
  {
    && events != []
    && var before, e := events[..|events| - 1], events[|events| - 1];
       Reaches(w, before, at) || EventReaches(WalkEvents(w, before), e, at)
  }

  predicate EventReaches(w: Walk, e: Event, at: Place)
    decreases e, 0
  {
    e.Nested? && MissReaches(w, e.miss, at)
  }

  predicate MissReaches(w: Walk, m: Miss, at: Place)
    decreases m, 0
  {
    Admitted(w, m) && (PlaceOf(m) == at || (Starts(w, m) && Reaches(Noting(w, m), m.during, at)))
  }

  /** A load of `at` is started, and while it runs an admitted miss of `at`, at any depth. */
  predicate Nests(w: Walk, events: seq<Event>, at: Place)
    decreases events, 0
  {
    && events != []
    && var before, e := events[..|events| - 1], events[|events| - 1];
       Nests(w, before, at) || EventNests(WalkEvents(w, before), e, at)
  }

  predicate EventNests(w: Walk, e: Event, at: Place)
    decreases e, 0
  {
    e.Nested? && MissNests(w, e.miss, at)
  }

  predicate MissNests(w: Walk, m: Miss, at: Place)
    decreases m, 0
  {
    && Starts(w, m)
    && if PlaceOf(m) == at then Reaches(Noting(w, m), m.during, at) else Nests(Noting(w, m), m.during, at)
  }

  /** An admitted miss of `at` after one that left nothing stored. */
  predicate Retries(w: Walk, events: seq<Event>, at: Place)
    decreases events, 0
  {
    && events != []
    && var before, e := events[..|events| - 1], events[|events| - 1];
       var w' := WalkEvents(w, before);
       || Retries(w, before, at)
       || EventRetries(w', e, at)
       || (Reaches(w, before, at) && at !in w'.stored && EventReaches(w', e, at))
  }

  predicate EventRetries(w: Walk, e: Event, at: Place)
    decreases e, 0
  {
    e.Nested? && MissRetries(w, e.miss, at)
  }

  predicate MissRetries(w: Walk, m: Miss, at: Place)
    decreases m, 0
  {
    Starts(w, m) && Retries(Noting(w, m), m.during, at)
  }

  function WalkOf(s: State): Walk {
    Walk(s.seen, s.compiled.Keys)
  }

  function LoadsOf(s: State, at: Place): nat {
    multiset(s.loads)[at]
  }

  /** From `s` to `s'`: a load of `at` starts exactly where an admitted miss finds it not stored, and
      a second one exactly where one nests in another or follows one that stored nothing. */
  ghost predicate Counts(s: State, s': State, at: Place, reaches: bool, nests: bool, retries: bool) {
    && s.compiled.Keys <= s'.compiled.Keys
    && LoadsOf(s, at) <= LoadsOf(s', at)
    && (LoadsOf(s', at) == LoadsOf(s, at) <==> at in s.compiled || !reaches)
    && (LoadsOf(s', at) == LoadsOf(s, at) && at in s'.compiled ==> at in s.compiled)
    && (LoadsOf(s', at) <= LoadsOf(s, at) + 1 <==> !nests && !retries)
  }

  lemma {:induction false} EventsCount(s: State, events: seq<Event>, at: Place)
    ensures var w := WalkOf(s);
      && WalkOf(AfterEvents(s, events)) == WalkEvents(w, events)
      && Counts(s, AfterEvents(s, events), at, Reaches(w, events, at), Nests(w, events, at), Retries(w, events, at))
    decreases events, 0
  {
    if events != [] {
      var before, e := events[..|events| - 1], events[|events| - 1];
      EventsCount(s, before, at);
      EventCounts(AfterEvents(s, before), e, at);
    }
  }

  lemma EventCounts(s: State, e: Event, at: Place)
    ensures var w := WalkOf(s);
      && WalkOf(AfterEvent(s, e)) == WalkEvent(w, e)
      && Counts(s, AfterEvent(s, e), at, EventReaches(w, e, at), EventNests(w, e, at), EventRetries(w, e, at))
    decreases e, 0
  {
    if e.Nested? {
      MissCounts(s, e.miss, at);
    }
  }

  lemma MissCounts(s: State, m: Miss, at: Place)
    ensures var w := WalkOf(s);
      && WalkOf(AfterMiss(s, m).0) == WalkMiss(w, m)
      && Counts(s, AfterMiss(s, m).0, at, MissReaches(w, m, at), MissNests(w, m, at), MissRetries(w, m, at))
    decreases m, 0
  {
    var noted := s.(seen := SetDefault(s.seen, m.key, m.identity));
    if Starts(WalkOf(s), m) {
      var started := noted.(loads := noted.loads + [PlaceOf(m)]);
      EventsCount(started, m.during, at);
    }
  }

  /** Over any sequence of misses, however they nest, an identity is loaded at most once on a device
      if and only if none of its misses is admitted while a load of it runs, and none after a load
      of it that stored nothing. */
  lemma LoadedOnceExactly(events: seq<Event>, at: Place)
    ensures LoadsOf(AfterEvents(FRESH, events), at) <= 1
       <==> !Nests(WalkOf(FRESH), events, at) && !Retries(WalkOf(FRESH), events, at)
  {
    EventsCount(FRESH, events, at);
  }

  /** A miss of `at`, admitted or not, at any depth. */
  predicate Mentions(events: seq<Event>, at: Place)
    decreases events, 0
  {
    events != [] && (Mentions(events[..|events| - 1], at) || EventMentions(events[|events| - 1], at))
  }

  predicate EventMentions(e: Event, at: Place)
    decreases e, 0
  {
    e.Nested? && (PlaceOf(e.miss) == at || Mentions(e.miss.during, at))
  }

  /** Every miss of `at`, at any depth, would load a kernel that can launch, and has no miss of `at`
      inside it. */
  predicate Plain(events: seq<Event>, at: Place)
    decreases events, 0
  {
    events == [] || (Plain(events[..|events| - 1], at) && EventPlain(events[|events| - 1], at))
  }

  predicate EventPlain(e: Event, at: Place)
    decreases e, 0
  {
    e.Nested? ==>
      Plain(e.miss.during, at) && (PlaceOf(e.miss) == at ==> !Fails(e.miss) && !Mentions(e.miss.during, at))
  }

  lemma {:induction false} ReachesMentions(w: Walk, events: seq<Event>, at: Place)
    requires Reaches(w, events, at)
    ensures Mentions(events, at)
    decreases events, 0
  {
    var before, e := events[..|events| - 1], events[|events| - 1];
    if Reaches(w, before, at) {
      ReachesMentions(w, before, at);
    } else {
      EventReachesMentions(WalkEvents(w, before), e, at);
    }
  }

  lemma EventReachesMentions(w: Walk, e: Event, at: Place)
    requires EventReaches(w, e, at)
    ensures EventMentions(e, at)
    decreases e, 0
  {
    if PlaceOf(e.miss) != at {
      ReachesMentions(Noting(w, e.miss), e.miss.during, at);
    }
  }

  /** Plain events store a place they reach, and neither nest nor retry it. */
  lemma {:induction false} PlainStores(w: Walk, events: seq<Event>, at: Place)
    requires Plain(events, at)
    ensures w.stored <= WalkEvents(w, events).stored
    ensures Reaches(w, events, at) ==> at in WalkEvents(w, events).stored
    ensures !Nests(w, events, at) && !Retries(w, events, at)
    decreases events, 0
  {
    if events != [] {
      var before, e := events[..|events| - 1], events[|events| - 1];
      PlainStores(w, before, at);
      EventPlainStores(WalkEvents(w, before), e, at);
    }
  }

  lemma EventPlainStores(w: Walk, e: Event, at: Place)
    requires EventPlain(e, at)
    ensures w.stored <= WalkEvent(w, e).stored
    ensures EventReaches(w, e, at) ==> at in WalkEvent(w, e).stored
    ensures !EventNests(w, e, at) && !EventRetries(w, e, at)
    decreases e, 0
  {
    if e.Nested? && Starts(w, e.miss) {
      var noted := Noting(w, e.miss);
      PlainStores(noted, e.miss.during, at);
      assert WalkEvents(noted, e.miss.during).stored <= WalkMiss(w, e.miss).stored == WalkEvent(w, e).stored;
      if PlaceOf(e.miss) == at {
        assert at in WalkMiss(w, e.miss).stored;
        if Reaches(noted, e.miss.during, at) {
          ReachesMentions(noted, e.miss.during, at);
        }
      } else {
        assert MissReaches(w, e.miss, at) ==> Reaches(noted, e.miss.during, at);
      }
    } else if e.Nested? && MissReaches(w, e.miss, at) {
      assert PlaceOf(e.miss) == at && at in w.stored;
      assert WalkEvent(w, e).stored == w.stored;
    }
  }

  /** A check of the misses alone: with no miss of an identity inside another of it, and no failing
      load of it, it is loaded at most once on a device. */
  lemma PlainLoadsOnce(events: seq<Event>, at: Place)
    requires Plain(events, at)
    ensures LoadsOf(AfterEvents(FRESH, events), at) <= 1
  {
    PlainStores(WalkOf(FRESH), events, at);
    LoadedOnceExactly(events, at);
  }

  /** Compiled once is not promised: a miss nested in the load of its own identity loads it again.
      Its kernel is the one stored, and the outer load's is dropped. */
  lemma NestedLoadsTwice(inner: Miss, outer: Miss)
    requires inner == Miss(1, 7, 0, [], Some(100), false, true)
    requires outer == Miss(1, 7, 0, [Nested(inner)], Some(200), false, true)
    ensures var (s', kernel) := AfterMiss(FRESH, outer);
      s'.loads == [(7, 0), (7, 0)] && s'.compiled == map[(7, 0) := 100] && kernel == Some(100)
  {
    var started := State(map[], map[1 := 7], [(7, 0)], []);
    var again := started.(loads := [(7, 0), (7, 0)]);
    assert AfterEvents(again, []) == again;
    assert AfterCompile(started, inner) == (again.(compiled := map[(7, 0) := 100]), Some(100)) by {
      assert started.loads + [(7, 0)] == again.loads;
    }
    assert [Nested(inner)][..0] == [];
    assert AfterEvents(started, []) == started;
    var inside := AfterEvents(started, [Nested(inner)]);
    assert inside == AfterEvent(started, Nested(inner)) == AfterMiss(started, inner).0;
    assert inside.compiled == map[(7, 0) := 100] && inside.loads == again.loads;
    assert [] + [(7, 0)] == [(7, 0)];
  }

  /** Nor without nesting: a load that raises stores nothing, so the next miss loads again. */
  lemma RetriedLoadsTwice(a: Miss, b: Miss)
    requires a == Miss(1, 7, 0, [], None, false, true) && b == Miss(1, 7, 0, [], Some(200), false, true)
    ensures var s := AfterEvents(FRESH, [Nested(a), Nested(b)]);
      s.loads == [(7, 0), (7, 0)] && s.compiled == map[(7, 0) := 200]
  {
    var failed := State(map[], map[1 := 7], [(7, 0)], []);
    assert AfterEvents(failed, []) == failed;
    assert FRESH.loads + [(7, 0)] == failed.loads;
    assert AfterMiss(FRESH, a) == (failed, None);
    var again := failed.(loads := [(7, 0), (7, 0)]);
    assert AfterEvents(again, []) == again && failed.loads + [(7, 0)] == again.loads;
    assert AfterMiss(failed, b).0.loads == again.loads;
    assert [Nested(a), Nested(b)][..1] == [Nested(a)] && [Nested(a)][..0] == [];
    assert AfterEvents(FRESH, []) == FRESH;
    assert AfterEvents(FRESH, [Nested(a)]) == failed;
  }
}
