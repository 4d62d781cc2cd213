/** The build-lock protocol of launchers (intj/runtime/intj_launcher_base.c, with the edits of
    intj/launcher.py): any number of threads and launchers, builds and edits nested through the
    Python they run, interleaved one shared-memory access at a time. */
module BuildLock {
  import opened Optional

  type Options = int  // an options object, by identity
  type Doc = int      // a bytes object, by identity

  datatype Kind = Build | Edit

  /** Where a thread stands in one call. */
  datatype Pc =
    | Probe                                                 // built already?
    | CheckOwner                                            // is build_thread this thread?
    | TryLock                                               // NOWAIT_LOCK
    | Waiting                                               // WAIT_LOCK
    | Count                                                 // held++
    | Sign                                                  // build_thread = me
    | Inspect                                               // the tests made under the lock
    | Python(seen: Options)                                  // _build_body, or edit(seen)
    | SetOptions(seen: Options, edited: Options)               // _C_set_options(edited)
    | Publish(entry: int, options: Options, doc: Doc)
    | Swap(entry: int, options: Options, doc: Doc)          // ml_meth = entry
    | Uncount                                               // held--
    | Unsign                                                // build_thread = 0
    | Release

  datatype Frame = Frame(h: nat, kind: Kind, pc: Pc)

  /** The calls a thread is inside of, outermost first, and its count of held build locks. */
  datatype Thread = Thread(held: int, stack: seq<Frame>)

  /** The frame that took a lock: a record for the proof, which no step reads. */
  datatype Owner = Owner(t: nat, depth: nat)

  /** `entry` is None while ml_meth is the shim; `options` is None once cleared. The last three
      fields are history: the options at creation, every edit, and every publication. */
  datatype Launcher = Launcher(
    lock: Option<Owner>, buildThread: Option<nat>,
    entry: Option<int>, options: Option<Options>, doc: Option<Doc>,
    initial: Options, edits: seq<(Options, Options)>, published: seq<(int, Options, Doc)>)

  datatype State = State(threads: seq<Thread>, launchers: seq<Launcher>)

  datatype Action =
    | CallOn(t: nat, h: nat, kind: Kind)                                // Python calls a launcher
    | Internal(t: nat)                                                  // the next step of C
    | BodyFails(t: nat)                                                 // an exception, or a bad result
    | BodyBuilt(t: nat, entry: int, options: Options, doc: Doc)         // _build_body returns
    | BodyEdited(t: nat, edited: Options)                                 // edit(seen) returns
    | Clear(h: nat)                                                     // tp_clear of an unreachable launcher

  predicate Idle(th: Thread) {
    th.stack == []
  }

  function Top(th: Thread): Frame
    requires !Idle(th)
  {
    th.stack[|th.stack| - 1]
  }

  predicate InPython(s: State, t: nat) {
    t < |s.threads| && !Idle(s.threads[t]) && Top(s.threads[t]).pc.Python?
  }

  /** A thread that runs Python at top level or in a body may call any launcher; C steps on unless
      it waits for a lock that is taken; a cleared launcher has no call in flight. */
  predicate Enabled(s: State, a: Action) {
    match a
    case CallOn(t, h, _) => t < |s.threads| && h < |s.launchers| && (Idle(s.threads[t]) || InPython(s, t))
    case Internal(t) =>
      && t < |s.threads| && !Idle(s.threads[t]) && !InPython(s, t)
      && Top(s.threads[t]).h < |s.launchers|
      && !(Top(s.threads[t]).pc.Waiting? && s.launchers[Top(s.threads[t]).h].lock.Some?)
    case BodyFails(t) => InPython(s, t)
    case BodyBuilt(t, _, _, _) => InPython(s, t) && Top(s.threads[t]).kind.Build?
    case BodyEdited(t, _) => InPython(s, t) && Top(s.threads[t]).kind.Edit?
    case Clear(h) =>
      && h < |s.launchers|
      && forall t, i :: 0 <= t < |s.threads| && 0 <= i < |s.threads[t].stack| ==> s.threads[t].stack[i].h != h
  }

  function Popped(th: Thread): Thread
    requires !Idle(th)
  {
    th.(stack := th.stack[..|th.stack| - 1])
  }

  function At(th: Thread, pc: Pc): Thread
    requires !Idle(th)
  {
    th.(stack := th.stack[|th.stack| - 1 := Top(th).(pc := pc)])
  }

  function Moved(s: State, t: nat, th: Thread): State
    requires t < |s.threads|
  {
    s.(threads := s.threads[t := th])
  }

  function Written(s: State, h: nat, l: Launcher): State
    requires h < |s.launchers|
  {
    s.(launchers := s.launchers[h := l])
  }

  /** What one C step does to its thread and its launcher. */
  function StepOf(th: Thread, l: Launcher, t: nat): (Thread, Launcher)
    requires !Idle(th) && !Top(th).pc.Python?
  {
    var f, mine := Top(th), Owner(t, |th.stack| - 1);
    match f.pc
    case Probe => (if l.entry.Some? then Popped(th) else At(th, CheckOwner), l)
    case CheckOwner => (if l.buildThread == Some(t) then Popped(th) else At(th, TryLock), l)
    case TryLock =>
      if l.lock.None? then (At(th, Count), l.(lock := Some(mine)))
      else (if th.held > 0 then Popped(th) else At(th, Waiting), l)
    case Waiting => (At(th, Count), l.(lock := Some(mine)))
    case Count => (At(th, Sign).(held := th.held + 1), l)
    case Sign => (At(th, Inspect), l.(buildThread := Some(t)))
    case Inspect =>
      (if l.options.None? || l.entry.Some? then At(th, Uncount) else At(th, Python(l.options.value)), l)
    case SetOptions(seen, edited) =>
      (At(th, Uncount),
       if l.buildThread != Some(t) || l.entry.Some? then l
       else l.(options := Some(edited), edits := l.edits + [(seen, edited)]))
    case Publish(e, o, d) => (At(th, Swap(e, o, d)), l.(options := Some(o), doc := Some(d)))
    case Swap(e, o, d) => (At(th, Uncount), l.(entry := Some(e), published := l.published + [(e, o, d)]))
    case Uncount => (At(th, Unsign).(held := th.held - 1), l)
    case Unsign => (At(th, Release), l.(buildThread := None))
    case Release => (Popped(th), l.(lock := None))
  }

  function Next(s: State, a: Action): State
    requires Enabled(s, a)
  {
    match a
    case CallOn(t, h, kind) =>
      var th := s.threads[t];
      Moved(s, t, th.(stack := th.stack + [Frame(h, kind, if kind.Build? then Probe else CheckOwner)]))
    case Internal(t) =>
      var th := s.threads[t];
      var (th', l') := StepOf(th, s.launchers[Top(th).h], t);
      Written(Moved(s, t, th'), Top(th).h, l')
    case BodyFails(t) => Moved(s, t, At(s.threads[t], Uncount))
    case BodyBuilt(t, e, o, d) => Moved(s, t, At(s.threads[t], Publish(e, o, d)))
    case BodyEdited(t, edited) => Moved(s, t, At(s.threads[t], SetOptions(Top(s.threads[t]).pc.seen, edited)))
    case Clear(h) => Written(s, h, s.launchers[h].(options := None))
  }

  ghost predicate Initial(s: State) {
    && (forall t :: 0 <= t < |s.threads| ==> s.threads[t] == Thread(0, []))
    && forall h :: 0 <= h < |s.launchers| ==>
         var l := s.launchers[h];
         l == Launcher(None, None, None, Some(l.initial), None, l.initial, [], [])
  }

  // ---------------------------------------------------------------- the invariant

  /** The frame has taken its launcher's lock and not yet released it. */
  predicate Holding(pc: Pc) {
    !(pc.Probe? || pc.CheckOwner? || pc.TryLock? || pc.Waiting?)
  }

  /** ... and has been counted in the thread's `held`. */
  predicate Counted(pc: Pc) {
    Holding(pc) && !(pc.Count? || pc.Unsign? || pc.Release?)
  }

  /** ... and build_thread names its thread. */
  predicate Signed(pc: Pc) {
    Holding(pc) && !(pc.Count? || pc.Sign? || pc.Release?)
  }

  /** The options after the edits: each edit started from what the one before left. */
  function Tip(initial: Options, edits: seq<(Options, Options)>): Options {
    if edits == [] then initial else edits[|edits| - 1].1
  }

  ghost predicate Chained(initial: Options, edits: seq<(Options, Options)>) {
    forall i :: 0 <= i < |edits| ==> edits[i].0 == Tip(initial, edits[..i])
  }

  /** Unbuilt: the options are every edit applied in order. Built: exactly one publication, whose
      entry, options and doc are in place. */
  ghost predicate Settled(l: Launcher) {
    && Chained(l.initial, l.edits)
    && match l.entry
       case None => l.published == [] && l.doc.None? && (l.options.Some? ==> l.options.value == Tip(l.initial, l.edits))
       case Some(e) =>
         && |l.published| == 1 && l.published[0].0 == e && l.doc == Some(l.published[0].2)
         && (l.options.Some? ==> l.options.value == l.published[0].1)
  }

  /** What holds of a launcher while the lock holder is at `pc`. */
  ghost predicate HeldAt(l: Launcher, pc: Pc) {
    match pc
    case Python(seen) => Settled(l) && l.entry.None? && l.options == Some(seen)
    case SetOptions(seen, _) => Settled(l) && l.entry.None? && l.options == Some(seen)
    case Publish(_, _, _) => Settled(l) && l.entry.None? && l.options.Some?
    case Swap(_, o, d) => Chained(l.initial, l.edits) && l.entry.None? && l.published == [] && l.options == Some(o)
      && l.doc == Some(d)
    case _ => Settled(l)
  }

  ghost predicate OwnerAt(s: State, h: nat, t: nat, i: nat) {
    && h < |s.launchers| && t < |s.threads| && i < |s.threads[t].stack|
    && s.threads[t].stack[i].h == h && Holding(s.threads[t].stack[i].pc)
  }

  ghost predicate LauncherInv(s: State, h: nat)
    requires h < |s.launchers|
  {
    var l := s.launchers[h];
    match l.lock
    case None => l.buildThread.None? && Settled(l)
    case Some(o) =>
      && OwnerAt(s, h, o.t, o.depth)
      && var pc := s.threads[o.t].stack[o.depth].pc;
         l.buildThread == (if Signed(pc) then Some(o.t) else None) && HeldAt(l, pc)
  }

  ghost predicate FrameInv(s: State, t: nat, i: nat)
    requires t < |s.threads| && i < |s.threads[t].stack|
  {
    var f := s.threads[t].stack[i];
    && f.h < |s.launchers|
    && (i < |s.threads[t].stack| - 1 ==> f.pc.Python?)
    && (Holding(f.pc) ==> s.launchers[f.h].lock == Some(Owner(t, i)))
  }

  /** The count is of the calls below the top one, and the top one if it is counted; a thread that
      waits is inside no other call. */
  predicate ThreadInv(th: Thread) {
    if Idle(th) then th.held == 0
    else
      && th.held == |th.stack| - 1 + (if Counted(Top(th).pc) then 1 else 0)
      && (Top(th).pc.Waiting? ==> |th.stack| == 1)
  }

  ghost predicate Inv(s: State) {
    && (forall h :: 0 <= h < |s.launchers| ==> LauncherInv(s, h))
    && (forall t :: 0 <= t < |s.threads| ==> ThreadInv(s.threads[t]))
    && forall t, i :: 0 <= t < |s.threads| && 0 <= i < |s.threads[t].stack| ==> FrameInv(s, t, i)
  }

  lemma InitialInv(s: State)
    requires Initial(s)
    ensures Inv(s)
  {
  }

  /** A step that keeps its frame's place in the stack, as the invariant of the whole state needs it. */
  ghost predicate InPlace(th: Thread, l: Launcher, th': Thread, l': Launcher, t: nat)
    requires !Idle(th)
  {
    && |th'.stack| == |th.stack| && th'.stack[..|th.stack| - 1] == th.stack[..|th.stack| - 1]
    && Top(th').h == Top(th).h && ThreadInv(th')
    && if Holding(Top(th').pc) then
         && l'.lock == Some(Owner(t, |th'.stack| - 1)) && (l.lock == l'.lock || l.lock.None?)
         && l'.buildThread == (if Signed(Top(th').pc) then Some(t) else None) && HeldAt(l', Top(th').pc)
       else !Holding(Top(th).pc) && l' == l
  }

  /** One step of thread `t`'s top frame that keeps its place in the stack. */
  lemma TopMoved(s: State, t: nat, th': Thread, l': Launcher)
    requires Inv(s) && t < |s.threads| && !Idle(s.threads[t]) && Top(s.threads[t]).h < |s.launchers|
    requires InPlace(s.threads[t], s.launchers[Top(s.threads[t]).h], th', l', t)
    ensures Inv(Written(Moved(s, t, th'), Top(s.threads[t]).h, l'))
  {
    TopMovedFrames(s, t, th', l');
    TopMovedLaunchers(s, t, th', l');
  }

  lemma TopMovedFrames(s: State, t: nat, th': Thread, l': Launcher)
    requires Inv(s) && t < |s.threads| && !Idle(s.threads[t]) && Top(s.threads[t]).h < |s.launchers|
    requires InPlace(s.threads[t], s.launchers[Top(s.threads[t]).h], th', l', t)
    ensures var s' := Written(Moved(s, t, th'), Top(s.threads[t]).h, l');
      forall t2, i :: 0 <= t2 < |s'.threads| && 0 <= i < |s'.threads[t2].stack| ==> FrameInv(s', t2, i)
  {
    var d := |s.threads[t].stack| - 1;
    var s' := Written(Moved(s, t, th'), Top(s.threads[t]).h, l');
    assert forall i :: 0 <= i < d ==> th'.stack[..d][i] == s.threads[t].stack[..d][i];
    assert FrameInv(s, t, d);
    forall t2, i | 0 <= t2 < |s'.threads| && 0 <= i < |s'.threads[t2].stack|
      ensures FrameInv(s', t2, i)
    {
      assert FrameInv(s, t2, i);
    }
  }

  lemma TopMovedLaunchers(s: State, t: nat, th': Thread, l': Launcher)
    requires Inv(s) && t < |s.threads| && !Idle(s.threads[t]) && Top(s.threads[t]).h < |s.launchers|
    requires InPlace(s.threads[t], s.launchers[Top(s.threads[t]).h], th', l', t)
    ensures var s' := Written(Moved(s, t, th'), Top(s.threads[t]).h, l');
      forall h :: 0 <= h < |s'.launchers| ==> LauncherInv(s', h)
  {
    var d := |s.threads[t].stack| - 1;
    var s' := Written(Moved(s, t, th'), Top(s.threads[t]).h, l');
    assert forall i :: 0 <= i < d ==> th'.stack[..d][i] == s.threads[t].stack[..d][i];
    assert FrameInv(s, t, d);
    forall h | 0 <= h < |s'.launchers|
      ensures LauncherInv(s', h)
    {
      assert LauncherInv(s, h);
    }
  }

  lemma TopPopped(s: State, t: nat, l': Launcher)
    requires Inv(s) && t < |s.threads| && !Idle(s.threads[t]) && Top(s.threads[t]).h < |s.launchers|
    requires !Counted(Top(s.threads[t]).pc)
    requires var f, l := Top(s.threads[t]), s.launchers[Top(s.threads[t]).h];
             if Holding(f.pc) then l'.lock.None? && l'.buildThread.None? && Settled(l') else l' == l
    ensures Inv(Written(Moved(s, t, Popped(s.threads[t])), Top(s.threads[t]).h, l'))
  {
    var th, d := s.threads[t], |s.threads[t].stack| - 1;
    var h := th.stack[d].h;
    var s' := Written(Moved(s, t, Popped(th)), h, l');
    assert FrameInv(s, t, d);
    if d > 0 {
      assert FrameInv(s, t, d - 1);
    }
    forall t2, i | 0 <= t2 < |s'.threads| && 0 <= i < |s'.threads[t2].stack|
      ensures FrameInv(s', t2, i)
    {
      assert FrameInv(s, t2, i);
    }
    forall h2 | 0 <= h2 < |s'.launchers|
      ensures LauncherInv(s', h2)
    {
      assert LauncherInv(s, h2);
    }
  }

  lemma EditChained(l: Launcher, edited: Options)
    requires Chained(l.initial, l.edits)
    ensures Chained(l.initial, l.edits + [(Tip(l.initial, l.edits), edited)])
    ensures Tip(l.initial, l.edits + [(Tip(l.initial, l.edits), edited)]) == edited
  {
    var more := l.edits + [(Tip(l.initial, l.edits), edited)];
    forall i | 0 <= i < |more|
      ensures more[i].0 == Tip(l.initial, more[..i])
    {
      if i < |l.edits| {
        assert more[..i] == l.edits[..i];
      } else {
        assert more[..i] == l.edits;
      }
    }
  }

  /** What the invariant says of a thread's top frame and that frame's launcher. */
  ghost predicate TopInv(th: Thread, l: Launcher, t: nat)
    requires !Idle(th)
  {
    && ThreadInv(th)
    && if Holding(Top(th).pc) then
         && l.lock == Some(Owner(t, |th.stack| - 1))
         && l.buildThread == (if Signed(Top(th).pc) then Some(t) else None) && HeldAt(l, Top(th).pc)
       else l.lock.None? ==> l.buildThread.None? && Settled(l)
  }

  lemma TopFacts(s: State, t: nat)
    requires Inv(s) && t < |s.threads| && !Idle(s.threads[t])
    ensures Top(s.threads[t]).h < |s.launchers| && TopInv(s.threads[t], s.launchers[Top(s.threads[t]).h], t)
  {
    assert FrameInv(s, t, |s.threads[t].stack| - 1) && LauncherInv(s, Top(s.threads[t]).h);
  }

  /** A step's effect on its thread and launcher, as the invariant of the whole state needs it. */
  ghost predicate Kept(th: Thread, l: Launcher, th': Thread, l': Launcher, t: nat)
    requires !Idle(th)
  {
    if |th'.stack| < |th.stack| then
      && th' == Popped(th) && !Counted(Top(th).pc)
      && if Holding(Top(th).pc) then l'.lock.None? && l'.buildThread.None? && Settled(l') else l' == l
    else InPlace(th, l, th', l', t)
  }

  lemma StepKeeps(th: Thread, l: Launcher, t: nat)
    requires !Idle(th) && !Top(th).pc.Python? && TopInv(th, l, t) && !(Top(th).pc.Waiting? && l.lock.Some?)
    ensures Kept(th, l, StepOf(th, l, t).0, StepOf(th, l, t).1, t)
  {
    if Holding(Top(th).pc) {
      HolderKeeps(th, l, t);
    } else {
      hide Settled;
    }
  }

  lemma HolderKeeps(th: Thread, l: Launcher, t: nat)
    requires !Idle(th) && !Top(th).pc.Python? && TopInv(th, l, t) && Holding(Top(th).pc)
    ensures Kept(th, l, StepOf(th, l, t).0, StepOf(th, l, t).1, t)
  {
    if Top(th).pc.SetOptions? {
      HolderEdits(th, l, t);
    } else {
      HolderMoves(th, l, t);
    }
  }

  lemma HolderEdits(th: Thread, l: Launcher, t: nat)
    requires !Idle(th) && Top(th).pc.SetOptions? && TopInv(th, l, t)
    ensures Kept(th, l, StepOf(th, l, t).0, StepOf(th, l, t).1, t)
  {
    EditChained(l, Top(th).pc.edited);
    hide Chained;
    hide Tip;
  }

  lemma HolderMoves(th: Thread, l: Launcher, t: nat)
    requires !Idle(th) && !Top(th).pc.Python? && !Top(th).pc.SetOptions? && TopInv(th, l, t) && Holding(Top(th).pc)
    ensures Kept(th, l, StepOf(th, l, t).0, StepOf(th, l, t).1, t)
  {
    hide Chained;
    hide Tip;
  }

  lemma InternalInv(s: State, t: nat)
    requires Inv(s) && Enabled(s, Internal(t))
    ensures Inv(Next(s, Internal(t)))
  {
    TopFacts(s, t);
    hide Inv;
    var th := s.threads[t];
    var (th', l') := StepOf(th, s.launchers[Top(th).h], t);
    StepKeeps(th, s.launchers[Top(th).h], t);
    hide StepOf;
    hide TopInv;
    if |th'.stack| < |th.stack| {
      TopPopped(s, t, l');
    } else {
      TopMoved(s, t, th', l');
    }
  }

  lemma CallInv(s: State, t: nat, h: nat, kind: Kind)
    requires Inv(s) && Enabled(s, CallOn(t, h, kind))
    ensures Inv(Next(s, CallOn(t, h, kind)))
  {
    var s' := Next(s, CallOn(t, h, kind));
    forall t2, i | 0 <= t2 < |s'.threads| && 0 <= i < |s'.threads[t2].stack|
      ensures FrameInv(s', t2, i)
    {
      if i < |s.threads[t2].stack| {
        assert FrameInv(s, t2, i);
      }
    }
    forall h2 | 0 <= h2 < |s'.launchers|
      ensures LauncherInv(s', h2)
    {
      assert LauncherInv(s, h2);
    }
  }

  /** Every step keeps the invariant. */
  lemma NextInv(s: State, a: Action)
    requires Inv(s) && Enabled(s, a)
    ensures Inv(Next(s, a))
  {
    match a
    case CallOn(t, h, kind) => CallInv(s, t, h, kind);
    case Internal(t) => InternalInv(s, t);
    case Clear(h) => ClearInv(s, h);
    case BodyFails(t) => BodyInv(s, t, Uncount);
    case BodyBuilt(t, e, o, d) => BodyInv(s, t, Publish(e, o, d));
    case BodyEdited(t, edited) => BodyInv(s, t, SetOptions(Top(s.threads[t]).pc.seen, edited));
  }

  lemma BodyInv(s: State, t: nat, pc: Pc)
    requires Inv(s) && InPython(s, t)
    requires pc == Uncount || pc.Publish? || (pc.SetOptions? && pc.seen == Top(s.threads[t]).pc.seen)
    ensures Inv(Moved(s, t, At(s.threads[t], pc)))
  {
    var th, f := s.threads[t], Top(s.threads[t]);
    assert FrameInv(s, t, |th.stack| - 1) && LauncherInv(s, f.h);
    TopMoved(s, t, At(th, pc), s.launchers[f.h]);
    assert Written(Moved(s, t, At(th, pc)), f.h, s.launchers[f.h]) == Moved(s, t, At(th, pc));
  }

  lemma ClearInv(s: State, h: nat)
    requires Inv(s) && Enabled(s, Clear(h))
    ensures Inv(Next(s, Clear(h)))
  {
    var s' := Next(s, Clear(h));
    forall t, i | 0 <= t < |s'.threads| && 0 <= i < |s'.threads[t].stack|
      ensures FrameInv(s', t, i)
    {
      assert FrameInv(s, t, i);
    }
    forall h2 | 0 <= h2 < |s'.launchers|
      ensures LauncherInv(s', h2)
    {
      assert LauncherInv(s, h2);
    }
  }

  // ---------------------------------------------------------------- runs

  /** A run of actions, each enabled where it happens. */
  ghost predicate CanRun(s: State, run: seq<Action>)
    decreases |run|
  {
    run == [] || (Enabled(s, run[0]) && CanRun(Next(s, run[0]), run[1..]))
  }

  function After(s: State, run: seq<Action>): State
    requires CanRun(s, run)
    decreases |run|
  {
    if run == [] then s else After(Next(s, run[0]), run[1..])
  }

  lemma {:induction false} RunInv(s: State, run: seq<Action>)
    requires Inv(s) && CanRun(s, run)
    ensures Inv(After(s, run))
    decreases |run|
  {
    if run != [] {
      NextInv(s, run[0]);
      RunInv(Next(s, run[0]), run[1..]);
    }
  }

  // ---------------------------------------------------------------- locks

  /** The launchers whose build lock thread `t` has. */
  ghost function Owned(s: State, t: nat): set<nat> {
    set h: nat | h < |s.launchers| && s.launchers[h].lock.Some? && s.launchers[h].lock.value.t == t
  }

  /** The calls of a thread that hold a lock, outermost first, by launcher. */
  ghost function HeldLaunchers(th: Thread): seq<nat> {
    seq(if Idle(th) || Holding(Top(th).pc) then |th.stack|
      else |th.stack| - 1, i requires 0 <= i < |th.stack| => th.stack[i].h)
  }

  lemma {:induction false} DistinctCount(xs: seq<nat>)
    requires forall i, j :: 0 <= i < j < |xs| ==> xs[i] != xs[j]
    ensures |(set i | 0 <= i < |xs| :: xs[i])| == |xs|
    decreases |xs|
  {
    var all := set i | 0 <= i < |xs| :: xs[i];
    if xs == [] {
      assert all == {};
    } else {
      var last := |xs| - 1;
      DistinctCount(xs[..last]);
      var rest := set i | 0 <= i < last :: xs[..last][i];
      assert all == rest + {xs[last]};
    }
  }

  lemma OwnedAreHeld(s: State, t: nat)
    requires Inv(s) && t < |s.threads|
    ensures Owned(s, t) == (set i | 0 <= i < |HeldLaunchers(s.threads[t])| :: HeldLaunchers(s.threads[t])[i])
    ensures |Owned(s, t)| == |HeldLaunchers(s.threads[t])|
  {
    var xs := HeldLaunchers(s.threads[t]);
    forall i | 0 <= i < |xs|
      ensures xs[i] < |s.launchers| && s.launchers[xs[i]].lock == Some(Owner(t, i))
    {
      assert FrameInv(s, t, i);
    }
    forall h | h in Owned(s, t)
      ensures exists i :: 0 <= i < |xs| && xs[i] == h
    {
      assert LauncherInv(s, h);
      assert xs[s.launchers[h].lock.value.depth] == h;
    }
    DistinctCount(xs);
  }

  /** `held` is the number of build locks the thread has, except between taking or releasing one
      and updating the count. */
  lemma HeldCountsLocks(s: State, t: nat)
    requires Inv(s) && t < |s.threads|
    ensures var th := s.threads[t];
            |Owned(s, t)| == th.held + (if !Idle(th) && Holding(Top(th).pc) && !Counted(Top(th).pc) then 1 else 0)
  {
    OwnedAreHeld(s, t);
  }

  ghost predicate Waits(s: State, t: nat) {
    t < |s.threads| && !Idle(s.threads[t]) && Top(s.threads[t]).pc.Waiting?
  }

  /** A thread waiting for a build lock has none, so never its own; and the lock's holder, if any,
      is not itself waiting for a build lock. */
  lemma WaitersHoldNothing(s: State, t: nat)
    requires Inv(s) && Waits(s, t)
    ensures Owned(s, t) == {}
    ensures Top(s.threads[t]).h < |s.launchers|
    ensures var l := s.launchers[Top(s.threads[t]).h];
            l.lock.Some? ==> l.lock.value.t != t && l.lock.value.t < |s.threads| && !Waits(s, l.lock.value.t)
  {
    var h := Top(s.threads[t]).h;
    assert FrameInv(s, t, |s.threads[t].stack| - 1) && LauncherInv(s, h);
    OwnedAreHeld(s, t);
    assert HeldLaunchers(s.threads[t]) == [];
    var lock := s.launchers[h].lock;
    assert lock.Some? && lock.value.t == t ==> h in Owned(s, t);
    if lock.Some? {
      assert ThreadInv(s.threads[lock.value.t]);
    }
  }

  /** At most one call, over all threads, is inside a launcher's lock; its thread is the one
      build_thread names while Python runs there. */
  lemma OneBodyAtATime(s: State, t: nat, i: nat, t2: nat, i2: nat)
    requires Inv(s) && t < |s.threads| && i < |s.threads[t].stack| && t2 < |s.threads| && i2 < |s.threads[t2].stack|
    requires Holding(s.threads[t].stack[i].pc) && Holding(s.threads[t2].stack[i2].pc)
    requires s.threads[t].stack[i].h == s.threads[t2].stack[i2].h
    ensures t == t2 && i == i2 && s.threads[t].stack[i].h < |s.launchers|
    ensures s.threads[t].stack[i].pc.Python? ==> s.launchers[s.threads[t].stack[i].h].buildThread == Some(t)
  {
    assert FrameInv(s, t, i) && FrameInv(s, t2, i2) && LauncherInv(s, s.threads[t].stack[i].h);
  }

  // ---------------------------------------------------------------- progress

  /** Steps a call has left, at most, apart from calls its body makes. */
  function StepsLeft(pc: Pc): nat {
    match pc
    case Probe => 14
    case CheckOwner => 13
    case TryLock => 12
    case Waiting => 11
    case Count => 10
    case Sign => 9
    case Inspect => 8
    case Python(_) => 7
    case SetOptions(_, _) => 6
    case Publish(_, _, _) => 6
    case Swap(_, _, _) => 5
    case Uncount => 3
    case Unsign => 2
    case Release => 1
  }

  function StackWork(stack: seq<Frame>): nat {
    if stack == [] then 0 else StackWork(stack[..|stack| - 1]) + StepsLeft(stack[|stack| - 1].pc)
  }

  function Work(threads: seq<Thread>): nat {
    if threads == [] then 0 else Work(threads[..|threads| - 1]) + StackWork(threads[|threads| - 1].stack)
  }

  lemma {:induction false} WorkAfter(threads: seq<Thread>, t: nat, th: Thread)
    requires t < |threads|
    ensures Work(threads[t := th]) + StackWork(threads[t].stack) == Work(threads) + StackWork(th.stack)
    decreases |threads|
  {
    var last := |threads| - 1;
    if t < last {
      WorkAfter(threads[..last], t, th);
      assert threads[t := th][..last] == threads[..last][t := th];
    } else {
      assert threads[t := th][..last] == threads[..last];
    }
  }

  predicate NewWork(a: Action) {
    a.CallOn? || a.Clear?
  }

  lemma TopWork(th: Thread, pc: Pc)
    requires !Idle(th)
    ensures StackWork(Popped(th).stack) + StepsLeft(Top(th).pc) == StackWork(th.stack)
    ensures StackWork(At(th, pc).stack) + StepsLeft(Top(th).pc) == StackWork(th.stack) + StepsLeft(pc)
  {
    assert At(th, pc).stack[..|th.stack| - 1] == th.stack[..|th.stack| - 1];
  }

  lemma StepWork(th: Thread, l: Launcher, t: nat)
    requires !Idle(th) && !Top(th).pc.Python?
    ensures StackWork(StepOf(th, l, t).0.stack) < StackWork(th.stack)
  {
    hide StackWork;
    var th' := StepOf(th, l, t).0;
    TopWork(th, Top(th).pc);
    if |th'.stack| == |th.stack| {
      TopWork(th, Top(th').pc);
      assert th'.stack == At(th, Top(th').pc).stack;
    } else {
      assert th'.stack == Popped(th).stack;
    }
  }

  /** Every step but a new call or a clear uses up work: no thread spins. */
  lemma StepsUseWork(s: State, a: Action)
    requires Inv(s) && Enabled(s, a) && !NewWork(a)
    ensures Work(Next(s, a).threads) < Work(s.threads)
  {
    hide StackWork;
    hide Work;
    var th := s.threads[a.t];
    if a.Internal? {
      StepWork(th, s.launchers[Top(th).h], a.t);
    } else {
      TopWork(th, Top(Next(s, a).threads[a.t]).pc);
      assert Next(s, a).threads[a.t] == At(th, Top(Next(s, a).threads[a.t]).pc);
    }
    assert Next(s, a).threads == s.threads[a.t := Next(s, a).threads[a.t]];
    WorkAfter(s.threads, a.t, Next(s, a).threads[a.t]);
  }

  /** No deadlock: while any call is in flight, some thread can take a step that is not a new call. */
  lemma SomeStepEnabled(s: State, t: nat) returns (a: Action)
    requires Inv(s) && t < |s.threads| && !Idle(s.threads[t])
    ensures Enabled(s, a) && !NewWork(a)
  {
    var d := |s.threads[t].stack| - 1;
    assert FrameInv(s, t, d);
    var h := Top(s.threads[t]).h;
    if InPython(s, t) {
      a := BodyFails(t);
    } else if Waits(s, t) && s.launchers[h].lock.Some? {
      WaitersHoldNothing(s, t);
      assert LauncherInv(s, h);
      var u := s.launchers[h].lock.value.t;
      assert FrameInv(s, u, |s.threads[u].stack| - 1);
      a := if InPython(s, u) then BodyFails(u) else Internal(u);
    } else {
      a := Internal(t);
    }
  }

  predicate AllIdle(s: State) {
    forall t :: 0 <= t < |s.threads| ==> Idle(s.threads[t])
  }

  /** From every reachable state all calls in flight can run to completion, and no run that starts
      no call and clears nothing is longer than the work left. */
  lemma {:induction false} CallsComplete(s: State) returns (run: seq<Action>)
    requires Inv(s)
    ensures CanRun(s, run) && AllIdle(After(s, run)) && forall a :: a in run ==> !NewWork(a)
    decreases Work(s.threads)
  {
    if AllIdle(s) {
      run := [];
    } else {
      var t :| 0 <= t < |s.threads| && !Idle(s.threads[t]);
      var a := SomeStepEnabled(s, t);
      NextInv(s, a);
      StepsUseWork(s, a);
      var rest := CallsComplete(Next(s, a));
      run := [a] + rest;
      assert run[0] == a && run[1..] == rest;
    }
  }

  lemma {:induction false} RunsAreBounded(s: State, run: seq<Action>)
    requires Inv(s) && CanRun(s, run) && forall a :: a in run ==> !NewWork(a)
    ensures |run| <= Work(s.threads)
    decreases |run|
  {
    if run != [] {
      NextInv(s, run[0]);
      StepsUseWork(s, run[0]);
      RunsAreBounded(Next(s, run[0]), run[1..]);
    }
  }

  // ---------------------------------------------------------------- what a call comes to

  /** A call gives up without the lock exactly when the launcher is built already, when its own thread
      has that launcher's lock, or when the lock is taken and its thread has another; it waits only
      with none. */
  lemma GivesUpExactly(s: State, t: nat)
    requires Inv(s) && Enabled(s, Internal(t))
    ensures var f, s' := Top(s.threads[t]), Next(s, Internal(t));
            var l, left := s.launchers[f.h], |s'.threads[t].stack| < |s.threads[t].stack|;
            && (f.pc.Probe? ==> (left <==> l.entry.Some?))
            && (f.pc.CheckOwner? ==> (left <==> f.h in Owned(s, t)))
            && (f.pc.TryLock? ==> (left <==> l.lock.Some? && Owned(s, t) != {}))
            && (f.pc.TryLock? ==> (Waits(s', t) <==> l.lock.Some? && Owned(s, t) == {}))
            && ((f.pc.TryLock? || f.pc.Waiting?) && l.lock.None? ==> f.h in Owned(s', t))
            && (!f.pc.Probe? && !f.pc.CheckOwner? && !f.pc.TryLock? ==> (left <==> f.pc.Release?))
  {
    TopFacts(s, t);
    var th := s.threads[t];
    var f, d := Top(th), |th.stack| - 1;
    HeldCountsLocks(s, t);
    if d > 0 {
      assert FrameInv(s, t, d - 1);
    }
    if f.pc.CheckOwner? {
      assert LauncherInv(s, f.h);
      if f.h in Owned(s, t) {
        var o := s.launchers[f.h].lock.value;
        assert FrameInv(s, t, o.depth);
        assert s.launchers[f.h].buildThread == Some(t);
      }
    }
  }

  /** A call of a built launcher is over at its first step and takes no lock; any other call, and
      every edit, goes on to ask for it. */
  lemma CallBegins(s: State, t: nat, h: nat, kind: Kind)
    requires Inv(s) && Enabled(s, CallOn(t, h, kind))
    ensures var s1 := Next(s, CallOn(t, h, kind));
            && s1.launchers == s.launchers && |s1.threads| == |s.threads| && Enabled(s1, Internal(t))
            && var s2 := Next(s1, Internal(t));
               && s2.launchers == s.launchers
               && (kind.Build? && s.launchers[h].entry.Some? ==> s2.threads == s.threads)
               && (kind.Build? && s.launchers[h].entry.None? ==> |s2.threads[t].stack| == |s.threads[t].stack| + 1)
               && (kind.Edit? ==> (s2.threads == s.threads <==> s.launchers[h].buildThread == Some(t)))
  {
    var s1 := Next(s, CallOn(t, h, kind));
    assert Popped(s1.threads[t]).stack == s.threads[t].stack;
  }

  /** The call is on its way to its body, and nothing is in its way. */
  ghost predicate Approaching(s: State, t: nat, h: nat, outer: seq<Frame>) {
    && t < |s.threads| && !Idle(s.threads[t]) && Top(s.threads[t]).h == h && Popped(s.threads[t]).stack == outer
    && (Top(s.threads[t]).pc.Inspect? || StepsLeft(Top(s.threads[t]).pc) > StepsLeft(Inspect))
    && h < |s.launchers| && s.launchers[h].entry.None? && s.launchers[h].options.Some?
    && (Holding(Top(s.threads[t]).pc) || s.launchers[h].lock.None?)
  }

  /** An unbuilt launcher whose lock is free is not refused: the call comes to its body, given the
      options as they are. */
  lemma {:induction false} ReachesBody(s: State, t: nat, h: nat, outer: seq<Frame>) returns (run: seq<Action>)
    requires Inv(s) && Approaching(s, t, h, outer)
    ensures CanRun(s, run) && forall a :: a in run ==> a == Internal(t)
    ensures var s' := After(s, run);
            && InPython(s', t) && Top(s'.threads[t]).h == h && Popped(s'.threads[t]).stack == outer
            && Top(s'.threads[t]).kind == Top(s.threads[t]).kind
            && Some(Top(s'.threads[t]).pc.seen) == s.launchers[h].options
            && h < |s'.launchers| && SameButLock(s.launchers[h], s'.launchers[h])
    decreases StepsLeft(Top(s.threads[t]).pc)
  {
    TopFacts(s, t);
    var s1 := Next(s, Internal(t));
    NextInv(s, Internal(t));
    assert SameButLock(s.launchers[h], s1.launchers[h]) by {
      hide Inv;
    }
    if InPython(s1, t) {
      run := [Internal(t)];
      assert run[1..] == [];
    } else {
      hide Inv;
      var rest := ReachesBody(s1, t, h, outer);
      run := [Internal(t)] + rest;
      assert run[0] == Internal(t) && run[1..] == rest;
    }
  }

  // ---------------------------------------------------------------- what is published

  /** The step of `a` stores options computed by an edit that read the current ones. */
  ghost predicate EditsFrom(s: State, a: Action, h: nat, o: Options) {
    && a.Internal? && a.t < |s.threads| && !Idle(s.threads[a.t]) && Top(s.threads[a.t]).h == h
    && Top(s.threads[a.t]).pc.SetOptions? && Top(s.threads[a.t]).pc.edited == o
    && h < |s.launchers| && s.launchers[h].options == Some(Top(s.threads[a.t]).pc.seen)
  }

  /** ... or the options a successful build returned. */
  ghost predicate PublishesTo(s: State, a: Action, h: nat, o: Options) {
    && a.Internal? && a.t < |s.threads| && !Idle(s.threads[a.t]) && Top(s.threads[a.t]).h == h
    && Top(s.threads[a.t]).pc.Publish? && Top(s.threads[a.t]).pc.options == o
  }

  /** How one step may change a launcher: its entry is swapped once, by a publication of its own;
      a built launcher's options and doc stay what that publication stored, until it is cleared; an
      unbuilt one's options change only by an edit of the current options, a build about to swap
      its entry, or a clear. So no edit is lost, and a failed build leaves no trace. */
  lemma StepChanges(s: State, a: Action, h: nat)
    requires Inv(s) && Enabled(s, a) && h < |s.launchers|
    ensures var l, l' := s.launchers[h], Next(s, a).launchers[h];
            && (l.entry.Some? ==>
                  l'.entry == l.entry && l'.doc == l.doc && l'.published == l.published && l'.edits == l.edits)
            && (l.entry.Some? ==> l'.options == l.options || l' == l.(options := None))
            && (l'.options != l.options && l'.options.Some? ==>
                  l.entry.None? && (EditsFrom(s, a, h, l'.options.value) || PublishesTo(s, a, h, l'.options.value)))
            && (l'.entry != l.entry ==>
                  && l.entry.None? && l'.entry.Some? && l.options.Some? && l.doc.Some?
                  && l.published == [] && l'.published == [(l'.entry.value, l.options.value, l.doc.value)]
                  && l'.options == l.options && l'.doc == l.doc)
  {
    assert LauncherInv(s, h);
    if a.Internal? {
      var th := s.threads[a.t];
      assert FrameInv(s, a.t, |th.stack| - 1);
    }
  }

  /** In every reachable state a launcher no call is inside of is either unbuilt, with every edit
      applied in lock order, or built by exactly one publication, whose entry, options and doc it
      shows. */
  lemma QuiescentLauncher(s0: State, run: seq<Action>, h: nat)
    requires Initial(s0) && CanRun(s0, run) && h < |After(s0, run).launchers| && After(s0, run).launchers[h].lock.None?
    ensures Settled(After(s0, run).launchers[h])
  {
    InitialInv(s0);
    RunInv(s0, run);
    assert LauncherInv(After(s0, run), h);
  }

  /** Over every run a launcher is published at most once, and is built exactly when it has been. */
  lemma PublishedAtMostOnce(s0: State, run: seq<Action>, h: nat)
    requires Initial(s0) && CanRun(s0, run) && h < |After(s0, run).launchers|
    ensures var l := After(s0, run).launchers[h];
            && |l.published| <= 1 && (l.entry.Some? <==> l.published != [])
            && (l.entry.Some? ==> l.published[0].0 == l.entry.value && l.doc == Some(l.published[0].2))
  {
    InitialInv(s0);
    RunInv(s0, run);
    assert LauncherInv(After(s0, run), h);
  }

  // ---------------------------------------------------------------- no edit and no build is lost

  /** The options each edit of launcher `h` in the run returned, in order: what Python asked for. */
  function EditsAsked(s: State, run: seq<Action>, h: nat): seq<Options>
    requires CanRun(s, run)
    decreases |run|
  {
    if run == [] then []
    else
      (if run[0].BodyEdited? && Top(s.threads[run[0].t]).h == h then [run[0].edited] else [])
      + EditsAsked(Next(s, run[0]), run[1..], h)
  }

  /** What each build of it returned. */
  function BuildsDone(s: State, run: seq<Action>, h: nat): seq<(int, Options, Doc)>
    requires CanRun(s, run)
    decreases |run|
  {
    if run == [] then []
    else
      (if run[0].BodyBuilt? && Top(s.threads[run[0].t]).h == h then [(run[0].entry, run[0].options, run[0].doc)]
        else [])
      + BuildsDone(Next(s, run[0]), run[1..], h)
  }

  /** Where the call that has the launcher's lock stands. */
  function HolderPc(s: State, h: nat): Option<Pc>
    requires h < |s.launchers|
  {
    match s.launchers[h].lock
    case None => None
    case Some(o) =>
      if o.t < |s.threads| && o.depth < |s.threads[o.t].stack| then Some(s.threads[o.t].stack[o.depth].pc) else None
  }

  /** The edit the holder has yet to store. */
  function EditPending(pc: Option<Pc>): seq<Options> {
    if pc.Some? && pc.value.SetOptions? then [pc.value.edited] else []
  }

  /** The build it has yet to publish. */
  function BuildPending(pc: Option<Pc>): seq<(int, Options, Doc)> {
    match pc
    case Some(Publish(e, o, d)) => [(e, o, d)]
    case Some(Swap(e, o, d)) => [(e, o, d)]
    case _ => []
  }

  function Outcomes(edits: seq<(Options, Options)>): seq<Options> {
    seq(|edits|, i requires 0 <= i < |edits| => edits[i].1)
  }

  /** The edits a launcher has stored or is about to. */
  function EditsTaken(s: State, h: nat): seq<Options>
    requires h < |s.launchers|
  {
    Outcomes(s.launchers[h].edits) + EditPending(HolderPc(s, h))
  }

  function BuildsTaken(s: State, h: nat): seq<(int, Options, Doc)>
    requires h < |s.launchers|
  {
    s.launchers[h].published + BuildPending(HolderPc(s, h))
  }

  /** The step of a call that has launcher `h`'s lock. */
  predicate ByHolder(s: State, a: Action, h: nat) {
    && !a.Clear? && !a.CallOn? && a.t < |s.threads| && !Idle(s.threads[a.t])
    && Top(s.threads[a.t]).h == h && Holding(Top(s.threads[a.t]).pc)
  }

  /** Any other step takes nothing, though it may take the lock. */
  lemma OthersTakeNothing(s: State, a: Action, h: nat)
    requires Inv(s) && Enabled(s, a) && h < |s.launchers| && !ByHolder(s, a, h)
    ensures var s' := Next(s, a);
            && |s'.launchers| == |s.launchers| && s'.launchers[h].initial == s.launchers[h].initial
            && s'.launchers[h].edits == s.launchers[h].edits && s'.launchers[h].published == s.launchers[h].published
            && (HolderPc(s', h) == HolderPc(s, h) || (HolderPc(s, h).None? && HolderPc(s', h) == Some(Count)))
  {
    assert LauncherInv(s, h);
    if !a.Clear? && !Idle(s.threads[a.t]) {
      assert FrameInv(s, a.t, |s.threads[a.t].stack| - 1);
    }
  }

  /** Where a frame stands after its step, if it is still there. */
  function PcLeft(th: Thread, th': Thread): Option<Pc>
    requires !Idle(th)
  {
    if |th'.stack| < |th.stack| then None else Some(th'.stack[|th.stack| - 1].pc)
  }

  /** The holder's own step stores or publishes what is pending, and nothing else. */
  lemma StepOfHolder(th: Thread, l: Launcher, t: nat)
    requires !Idle(th) && !Top(th).pc.Python? && Holding(Top(th).pc) && TopInv(th, l, t)
    ensures var (th', l') := StepOf(th, l, t);
            && l'.initial == l.initial
            && (l'.lock == if |th'.stack| < |th.stack| then None else l.lock)
            && Outcomes(l'.edits) + EditPending(PcLeft(th, th')) == Outcomes(l.edits) + EditPending(Some(Top(th).pc))
            && l'.published + BuildPending(PcLeft(th, th')) == l.published + BuildPending(Some(Top(th).pc))
  {
    hide Settled;
    hide Chained;
  }

  /** The holder's step takes what its body returned, and forgets nothing it took. */
  lemma HolderTakes(s: State, a: Action, h: nat)
    requires Inv(s) && Enabled(s, a) && h < |s.launchers| && ByHolder(s, a, h)
    ensures |Next(s, a).launchers| == |s.launchers| && Next(s, a).launchers[h].initial == s.launchers[h].initial
    ensures EditsTaken(Next(s, a), h) == EditsTaken(s, h) + if a.BodyEdited? then [a.edited] else []
    ensures BuildsTaken(Next(s, a), h)
         == BuildsTaken(s, h) + if a.BodyBuilt? then [(a.entry, a.options, a.doc)] else []
  {
    TopFacts(s, a.t);
    hide Inv;
    hide Settled;
    hide Chained;
    hide HeldAt;
    if a.Internal? {
      StepOfHolder(s.threads[a.t], s.launchers[h], a.t);
      hide StepOf;
      hide Outcomes;
      hide EditPending;
      hide BuildPending;
    }
  }

  /** A step takes an edit or a build exactly when its body returned one. */
  lemma StepTakes(s: State, a: Action, h: nat)
    requires Inv(s) && Enabled(s, a) && h < |s.launchers|
    ensures |Next(s, a).launchers| == |s.launchers| && Next(s, a).launchers[h].initial == s.launchers[h].initial
    ensures EditsTaken(Next(s, a), h)
         == EditsTaken(s, h) + if a.BodyEdited? && Top(s.threads[a.t]).h == h then [a.edited] else []
    ensures BuildsTaken(Next(s, a), h)
         == BuildsTaken(s, h)
            + if a.BodyBuilt? && Top(s.threads[a.t]).h == h then [(a.entry, a.options, a.doc)] else []
  {
    hide Inv;
    if ByHolder(s, a, h) {
      HolderTakes(s, a, h);
    } else {
      OthersTakeNothing(s, a, h);
    }
  }

  /** No edit is lost and none invented, whatever the interleaving: from any state, what launcher `h`
      has taken is what it had and then, in the order they returned, what its edits and its builds did. */
  lemma {:induction false} NothingLost(s: State, run: seq<Action>, h: nat)
    requires Inv(s) && CanRun(s, run) && h < |s.launchers|
    ensures h < |After(s, run).launchers| && After(s, run).launchers[h].initial == s.launchers[h].initial
    ensures EditsTaken(After(s, run), h) == EditsTaken(s, h) + EditsAsked(s, run, h)
    ensures BuildsTaken(After(s, run), h) == BuildsTaken(s, h) + BuildsDone(s, run, h)
    decreases |run|
  {
    if run != [] {
      var s1 := Next(s, run[0]);
      StepTakes(s, run[0], h);
      NextInv(s, run[0]);
      hide Inv;
      hide EditsTaken;
      hide BuildsTaken;
      NothingLost(s1, run[1..], h);
      Regroup(EditsTaken(s, h), if run[0].BodyEdited? && Top(s.threads[run[0].t]).h == h then [run[0].edited] else [],
              EditsAsked(s1, run[1..], h));
      Regroup(BuildsTaken(s, h),
              if run[0].BodyBuilt? && Top(s.threads[run[0].t]).h == h
              then [(run[0].entry, run[0].options, run[0].doc)] else [],
              BuildsDone(s1, run[1..], h));
    }
  }

  lemma Regroup<T>(a: seq<T>, b: seq<T>, c: seq<T>)
    ensures (a + b) + c == a + (b + c)
  {
  }

  /** So where no call is inside an unbuilt launcher, its options are the last its edits returned, and
      at most one build has returned; where one has, the launcher is built of what that one returned. */
  lemma OptionsAreTheLastAsked(s0: State, run: seq<Action>, h: nat)
    requires Initial(s0) && CanRun(s0, run) && h < |s0.launchers| == |After(s0, run).launchers|
    requires After(s0, run).launchers[h].lock.None? && After(s0, run).launchers[h].options.Some?
    ensures var l, asked, done := After(s0, run).launchers[h], EditsAsked(s0, run, h), BuildsDone(s0, run, h);
      if done == [] then
        l.entry.None? && l.doc.None?
        && l.options.value == if asked == [] then s0.launchers[h].initial else asked[|asked| - 1]
      else
        |done| == 1 && l.entry == Some(done[0].0) && l.options.value == done[0].1 && l.doc == Some(done[0].2)
  {
    InitialInv(s0);
    NothingLost(s0, run, h);
    QuiescentLauncher(s0, run, h);
    hide CanRun;
    hide Inv;
    hide After;
    hide EditsAsked;
    hide BuildsDone;
    hide Chained;
    var l := After(s0, run).launchers[h];
    assert EditsTaken(s0, h) == [] && BuildsTaken(s0, h) == [];
    var edits, builds := EditsAsked(s0, run, h), BuildsDone(s0, run, h);
    assert [] + edits == edits && [] + builds == builds;
    assert EditsTaken(After(s0, run), h) == Outcomes(l.edits) && BuildsTaken(After(s0, run), h) == l.published;
  }

  /** Whatever other threads do, the next step of a thread whose edit returned stores its options. */
  lemma {:induction false} EditTakesEffect(s: State, t: nat, run: seq<Action>)
    requires Inv(s) && t < |s.threads| && !Idle(s.threads[t]) && Top(s.threads[t]).pc.SetOptions?
    requires CanRun(s, run) && StepsOf(run, t) == 1 && IsOf(run[|run| - 1], t)
    ensures var h, pc, s' := Top(s.threads[t]).h, Top(s.threads[t]).pc, After(s, run);
            && h < |s.launchers| == |s'.launchers| && s.launchers[h].entry.None?
              && s.launchers[h].options == Some(pc.seen)
            && s'.launchers[h] == s.launchers[h].(options := Some(pc.edited),
                                                  edits := s.launchers[h].edits + [(pc.seen, pc.edited)])
    decreases |run|
  {
    TopFacts(s, t);
    if IsOf(run[0], t) {
      NoSteps(run[1..], t);
      assert run[1..] == [];
    } else {
      OthersKeepOut(s, run[0], t);
      NextInv(s, run[0]);
      hide Inv;
      EditTakesEffect(Next(s, run[0]), t, run[1..]);
    }
  }

  /** ... and the next two of one whose build returned publish exactly that. */
  lemma {:induction false} BuildTakesEffect(s: State, t: nat, run: seq<Action>)
    requires Inv(s) && t < |s.threads| && !Idle(s.threads[t])
    requires Top(s.threads[t]).pc.Publish? || Top(s.threads[t]).pc.Swap?
    requires CanRun(s, run) && StepsOf(run, t) == (if Top(s.threads[t]).pc.Publish? then 2 else 1)
    requires IsOf(run[|run| - 1], t)
    ensures var h, pc, s' := Top(s.threads[t]).h, Top(s.threads[t]).pc, After(s, run);
            && h < |s.launchers| == |s'.launchers| && s.launchers[h].entry.None?
            && s'.launchers[h] == s.launchers[h].(entry := Some(pc.entry), options := Some(pc.options),
                                                  doc := Some(pc.doc),
                                                  published := [(pc.entry, pc.options, pc.doc)])
    decreases |run|
  {
    TopFacts(s, t);
    NextInv(s, run[0]);
    if !IsOf(run[0], t) {
      OthersKeepOut(s, run[0], t);
      hide Inv;
      BuildTakesEffect(Next(s, run[0]), t, run[1..]);
    } else if Top(s.threads[t]).pc.Publish? {
      hide Inv;
      BuildTakesEffect(Next(s, run[0]), t, run[1..]);
    } else {
      NoSteps(run[1..], t);
      assert run[1..] == [];
    }
  }

  // ---------------------------------------------------------------- a body that fails

  predicate IsOf(a: Action, t: nat) {
    !a.Clear? && a.t == t
  }

  /** How many of a run's steps are thread `t`'s. */
  function StepsOf(run: seq<Action>, t: nat): nat {
    if run == [] then 0 else (if IsOf(run[0], t) then 1 else 0) + StepsOf(run[1..], t)
  }

  /** All that is left of the call is to let go of the lock. */
  predicate LettingGo(pc: Pc) {
    pc.Uncount? || pc.Unsign? || pc.Release?
  }

  /** Nothing of the launcher but its lock differs. */
  predicate SameButLock(l: Launcher, l': Launcher) {
    l' == l.(lock := l'.lock, buildThread := l'.buildThread)
  }

  /** Thread `t`'s top frame is letting go of launcher `h`, above the calls `outer`. */
  ghost predicate Leaving(s: State, t: nat, h: nat, outer: seq<Frame>) {
    && t < |s.threads| && !Idle(s.threads[t]) && LettingGo(Top(s.threads[t]).pc)
    && Top(s.threads[t]).h == h && Popped(s.threads[t]).stack == outer
  }

  /** While a call has a launcher's lock, other threads' steps touch neither its thread nor that
      launcher. */
  lemma OthersKeepOut(s: State, a: Action, t: nat)
    requires Inv(s) && Enabled(s, a) && !IsOf(a, t) && t < |s.threads|
    requires !Idle(s.threads[t]) && Holding(Top(s.threads[t]).pc)
    ensures var h := Top(s.threads[t]).h;
            && h < |s.launchers| == |Next(s, a).launchers| && |Next(s, a).threads| == |s.threads|
            && Next(s, a).threads[t] == s.threads[t] && Next(s, a).launchers[h] == s.launchers[h]
  {
    var d := |s.threads[t].stack| - 1;
    assert FrameInv(s, t, d) && s.threads[t].stack[d].h == Top(s.threads[t]).h;
    if a.Internal? {
      assert FrameInv(s, a.t, |s.threads[a.t].stack| - 1);
    }
  }

  /** A step that lets go changes no launcher but the lock of its own. */
  lemma OneLetsGo(s: State, t: nat, h: nat, outer: seq<Frame>)
    requires Inv(s) && Leaving(s, t, h, outer)
    ensures h < |s.launchers| && s.launchers[h].lock == Some(Owner(t, |outer|)) && Enabled(s, Internal(t))
    ensures var s' := Next(s, Internal(t));
            && |s'.launchers| == |s.launchers| && |s'.threads| == |s.threads|
            && s'.launchers == s.launchers[h := s'.launchers[h]] && SameButLock(s.launchers[h], s'.launchers[h])
            && if Top(s.threads[t]).pc.Release? then
                 s'.threads[t].stack == outer && s'.launchers[h].lock.None? && s'.launchers[h].buildThread.None?
               else
                 && Leaving(s', t, h, outer)
                 && StepsLeft(Top(s'.threads[t]).pc) + 1 == StepsLeft(Top(s.threads[t]).pc)
  {
    TopFacts(s, t);
    hide Inv;
  }

  /** However other threads' steps come between, a call letting go changes nothing of its launcher
      but the lock, and with its last step the lock is free. */
  lemma {:induction false} LetsGo(s: State, t: nat, h: nat, outer: seq<Frame>, run: seq<Action>)
    requires Inv(s) && Leaving(s, t, h, outer) && CanRun(s, run)
    requires StepsOf(run, t) <= StepsLeft(Top(s.threads[t]).pc)
    requires StepsOf(run, t) == StepsLeft(Top(s.threads[t]).pc) ==> IsOf(run[|run| - 1], t)
    ensures var s' := After(s, run);
            && h < |s.launchers| == |s'.launchers| && t < |s'.threads| && SameButLock(s.launchers[h], s'.launchers[h])
            && if StepsOf(run, t) < StepsLeft(Top(s.threads[t]).pc) then
                 && Leaving(s', t, h, outer) && s'.launchers[h].lock == Some(Owner(t, |outer|))
                 && Enabled(s', Internal(t))
               else
                 s'.threads[t].stack == outer && s'.launchers[h].lock.None? && s'.launchers[h].buildThread.None?
    decreases |run|
  {
    OneLetsGo(s, t, h, outer);
    if run != [] {
      var a := run[0];
      var s1 := Next(s, a);
      NextInv(s, a);
      hide Inv;
      if IsOf(a, t) {
        assert a == Internal(t);
        if Top(s.threads[t]).pc.Release? {
          assert StepsOf(run[1..], t) == 0;
          NoSteps(run[1..], t);
          assert run[1..] == [];
        } else {
          LetsGo(s1, t, h, outer, run[1..]);
        }
      } else {
        OthersKeepOut(s, a, t);
        LetsGo(s1, t, h, outer, run[1..]);
      }
    }
  }

  lemma {:induction false} NoSteps(run: seq<Action>, t: nat)
    requires StepsOf(run, t) == 0
    ensures forall a :: a in run ==> !IsOf(a, t)
    decreases |run|
  {
    if run != [] {
      NoSteps(run[1..], t);
    }
  }

  /** A body that fails publishes nothing, in any run from there: whatever other threads do between
      its thread's three steps left, they and it leave the launcher as it was, and with the third the
      lock is free, so the next call tries again. */
  lemma FailedBuildLeavesNothing(s: State, t: nat, run: seq<Action>)
    requires Inv(s) && InPython(s, t) && CanRun(Next(s, BodyFails(t)), run)
    requires StepsOf(run, t) <= 3 && (StepsOf(run, t) == 3 ==> IsOf(run[|run| - 1], t))
    ensures var h, s' := Top(s.threads[t]).h, After(Next(s, BodyFails(t)), run);
            && h < |s.launchers| == |s'.launchers| && t < |s'.threads|
            && s.launchers[h].entry.None? && SameButLock(s.launchers[h], s'.launchers[h])
            && if StepsOf(run, t) < 3 then
                 Enabled(s', Internal(t)) && s'.launchers[h].lock == s.launchers[h].lock
               else
                 && s'.launchers[h].lock.None? && s'.launchers[h].buildThread.None?
                 && s'.threads[t].stack == Popped(s.threads[t]).stack
  {
    TopFacts(s, t);
    NextInv(s, BodyFails(t));
    hide Inv;
    var th := s.threads[t];
    assert At(th, Uncount).stack[..|th.stack| - 1] == th.stack[..|th.stack| - 1];
    LetsGo(Next(s, BodyFails(t)), t, Top(th).h, Popped(th).stack, run);
  }
}
