/** One C function per lookup level (`lower`, intj/heuristic.py): what running them leaves in
    `comp`, and exactly which programs they are written in valid C. */
module HeuristicLevels {
  import opened GridArith
  import opened CTarget
  import opened Optional
  import opened Python
  import opened Heuristic
  import opened HeuristicLowering
  import opened HeuristicProof
  import opened HeuristicSim

  /** A computed heuristic; its position in the list is its comp slot. */
  datatype Entry = Entry(name: string, expr: Expr, c: Context, level: nat)

  // ---------------------------------------------------------------- names read

  function Inputs(e: Expr): set<string> {
    match e
    case Input(key) => {key}
    case BinOp(_, left, right) => Inputs(left) + Inputs(right)
    case UnaryOp(_, operand) => Inputs(operand)
    case Attribute(value, _) => Inputs(value)
    case Subscript(value, index) => Inputs(value) + Inputs(index)
    case Compare(left, _, comparators) => Inputs(left) + InputsOfAll(comparators)
    case BoolOp(_, first, rest) => Inputs(first) + InputsOfAll(rest)
    case IfExp(test, body, orelse) => Inputs(test) + Inputs(body) + Inputs(orelse)
    case CallExpr(func, args, _) => Inputs(func) + InputsOfAll(args)
    case _ => {}
  }

  function InputsOfAll(es: seq<Expr>): set<string> {
    if es == [] then {} else Inputs(es[0]) + InputsOfAll(es[1..])
  }

  lemma {:induction false} InputOfMember(es: seq<Expr>, i: nat)
    requires i < |es|
    ensures Inputs(es[i]) <= InputsOfAll(es)
    decreases es
  {
    if i > 0 {
      InputOfMember(es[1..], i - 1);
    }
  }

  function Only(c: Context, names: set<string>): Context {
    c.(sources := map k | k in c.sources && k in names :: c.sources[k])
  }

  /** Lowering looks up no source but those of the names the expression reads. */
  lemma {:induction false} LoweredReadsOnly(e: Expr, c: Context, names: set<string>, n: nat)
    requires Inputs(e) <= names
    ensures Lowered(e, Only(c, names), n) == Lowered(e, c, n)
    decreases e, 1
  {
    hide TensorRead;
    match e
    case Input(key) =>
    case BinOp(_, left, right) =>
      LoweredReadsOnly(left, c, names, n);
      if Lowered(left, c, n).Some? {
        LoweredReadsOnly(right, c, names, Lowered(left, c, n).value.next);
      }
    case UnaryOp(_, operand) =>
      LoweredReadsOnly(operand, c, names, n);
    case Compare(_, _, _) => CompareReadsOnly(e, c, names, n);
    case BoolOp(isAnd, first, rest) =>
      LoweredReadsOnly(first, c, names, n + 2);
      if Lowered(first, c, n + 2).Some? {
        RestReadsOnly(isAnd, n + 1, n + 2, rest, c, names, Lowered(first, c, n + 2).value.next);
      }
    case IfExp(_, _, _) => IfReadsOnly(e, c, names, n);
    case CallExpr(_, _, _) => CallReadsOnly(e, c, names, n);
    case Subscript(_, _) => TensorReadsOnly(e, c, names);
    case _ =>
  }

  lemma IfReadsOnly(e: Expr, c: Context, names: set<string>, n: nat)
    requires e.IfExp? && Inputs(e) <= names
    ensures Lowered(e, Only(c, names), n) == Lowered(e, c, n)
    decreases e, 0
  {
    var test, body, orelse := e.test, e.body, e.orelse;
    LoweredReadsOnly(test, c, names, n + 2);
    if Lowered(test, c, n + 2).Some? {
      var t := Lowered(test, c, n + 2).value;
      LoweredReadsOnly(body, c, names, t.next);
      if Lowered(body, c, t.next).Some? {
        LoweredReadsOnly(orelse, c, names, Lowered(body, c, t.next).value.next);
      }
    }
  }

  lemma TensorReadsOnly(e: Expr, c: Context, names: set<string>)
    requires (e.CallExpr? || e.Subscript?) && Inputs(e) <= names
    ensures TensorRead(e).Some? ==>
        TensorArg(TensorRead(e).value.0, Only(c, names)) == TensorArg(TensorRead(e).value.0, c)
  {
    hide METHODS;
    if TensorRead(e).Some? {
      var holder := if e.CallExpr? then e.func else e.value;
      assert Inputs(holder) == Inputs(holder.value) <= Inputs(e);
    }
  }

  lemma CompareReadsOnly(e: Expr, c: Context, names: set<string>, n: nat)
    requires e.Compare? && Inputs(e) <= names
    ensures LoweredCompare(e, Only(c, names), n) == LoweredCompare(e, c, n)
    decreases e, 0
  {
    if |e.ops| == 1 && |e.comparators| == 1 {
      InputOfMember(e.comparators, 0);
      LoweredReadsOnly(e.left, c, names, n + 1);
      if Lowered(e.left, c, n + 1).Some? {
        LoweredReadsOnly(e.comparators[0], c, names, Lowered(e.left, c, n + 1).value.next);
      }
    }
  }

  lemma CallReadsOnly(e: Expr, c: Context, names: set<string>, n: nat)
    requires e.CallExpr? && Inputs(e) <= names
    ensures Lowered(e, Only(c, names), n) == Lowered(e, c, n)
    decreases e, 0
  {
    hide METHODS;
    TensorReadsOnly(e, c, names);
    if |e.args| >= 1 {
      InputOfMember(e.args, 0);
      LoweredReadsOnly(e.args[0], c, names, n);
      if |e.args| >= 2 && Lowered(e.args[0], c, n).Some? {
        InputOfMember(e.args, 1);
        LoweredReadsOnly(e.args[1], c, names, Lowered(e.args[0], c, n).value.next);
      }
    }
  }

  lemma {:induction false} RestReadsOnly(isAnd: bool, v: nat, b: nat, rest: seq<Expr>, c: Context, names: set<string>,
                                         n: nat)
    requires InputsOfAll(rest) <= names
    ensures LoweredRest(isAnd, v, b, rest, Only(c, names), n) == LoweredRest(isAnd, v, b, rest, c, n)
    decreases rest, 0
  {
    if rest != [] {
      LoweredReadsOnly(rest[0], c, names, n);
      if Lowered(rest[0], c, n).Some? {
        RestReadsOnly(isAnd, v, b, rest[1..], c, names, Lowered(rest[0], c, n).value.next);
      }
    }
  }

  lemma LiteralsReadOnly(e: Expr, c: Context, names: set<string>)
    requires LiteralsOk(e, c)
    ensures LiteralsOk(e, Only(c, names))
  {
    match e
    case BinOp(_, left, right) =>
    case BoolOp(_, first, rest) =>
      forall x | x in rest
        ensures LiteralsOk(x, Only(c, names))
      {
        LiteralsReadOnly(x, c, names);
      }
    case CallExpr(_, args, _) =>
      if TensorRead(e).None? {
        forall x | x in args
          ensures LiteralsOk(x, Only(c, names))
        {
          LiteralsReadOnly(x, c, names);
        }
      }
    case _ =>
  }

  // ---------------------------------------------------------------- a level

  /** The body of one level's function from `slot` on, and the serial it ends at. */
  function LevelLines(entries: seq<Entry>, at: nat, slot: nat, n: nat): Option<(seq<Line>, nat)>
    requires slot <= |entries|
    decreases |entries| - slot
  {
    if slot == |entries| then Some(([], n))
    else if entries[slot].level != at then LevelLines(entries, at, slot + 1, n)
    else
      var x :- Lowered(entries[slot].expr, entries[slot].c, n);
      var rest :- LevelLines(entries, at, slot + 1, x.next);
      Some((x.lines + [StoreComp(slot, x.value, x.isBool)] + rest.0, rest.1))
  }

  method LowerLevel(entries: seq<Entry>, at: nat) returns (r: Option<seq<Line>>)
    ensures r.Some? <==> LevelLines(entries, at, 0, 0).Some?
    ensures r.Some? ==> r.value == LevelLines(entries, at, 0, 0).value.0
  {
    var lines, serial := [], 0;
    ghost var goal := LevelLines(entries, at, 0, 0);
    for slot := 0 to |entries|
      invariant goal.Some? <==> LevelLines(entries, at, slot, serial).Some?
      invariant goal.Some? ==> goal.value.0 == lines + LevelLines(entries, at, slot, serial).value.0
    {
      if entries[slot].level == at {
        ghost var before, n := lines, serial;
        var emitter := new Emitter(entries[slot].c, lines, serial);
        var x := emitter.Emit(entries[slot].expr);
        if x.None? {
          return None;
        }
        emitter.Append(StoreComp(slot, x.value.0, x.value.1));
        lines, serial := emitter.lines, emitter.serial;
        if goal.Some? {
          Chain(before, Lowered(entries[slot].expr, entries[slot].c, n).value.lines,
                [StoreComp(slot, x.value.0, x.value.1)]);
          Chain(before, Lowered(entries[slot].expr, entries[slot].c, n).value.lines
            + [StoreComp(slot, x.value.0, x.value.1)],
                LevelLines(entries, at, slot + 1, serial).value.0);
        }
      }
    }
    return Some(lines);
  }

  /** `lower`: every level's function, or None where the source raises. */
  method Lower(entries: seq<Entry>, levels: nat) returns (r: Option<seq<seq<Line>>>)
    ensures r.Some? <==> forall at :: 0 <= at < levels ==> LevelLines(entries, at, 0, 0).Some?
    ensures r.Some? ==> && |r.value| == levels
                        && forall at :: 0 <= at < levels ==> r.value[at] == LevelLines(entries, at, 0, 0).value.0
  {
    var out := [];
    for level := 0 to levels
      invariant |out| == level
      invariant forall at :: 0 <= at < level ==> LevelLines(entries, at, 0, 0).Some?
      invariant forall at :: 0 <= at < level ==> out[at] == LevelLines(entries, at, 0, 0).value.0
    {
      var lines := LowerLevel(entries, level);
      if lines.None? {
        return None;
      }
      out := out + [lines.value];
    }
    return Some(out);
  }

  /** Python's value of entry `j`, given the values of every name. */
  function ValueOf(entries: seq<Entry>, j: nat, env: PyEnv): Outcome
    requires j < |entries|
  {
    PyEval(entries[j].expr, env)
  }

  /** Each name stands for its heuristic's value wherever it is read. */
  ghost predicate Consistent(entries: seq<Entry>, env: PyEnv) {
    forall j :: 0 <= j < |entries| && Finishes(ValueOf(entries, j, env)) ==>
      entries[j].name in env.inputs && env.inputs[entries[j].name] == ValueOf(entries, j, env).result.v
  }

  /** What slot order gives: an entry reads comp slots before its own, at levels up to its own,
      under the names those slots compute. */
  ghost predicate SlotOrdered(entries: seq<Entry>) {
    forall j, k ::
      0 <= j < |entries| && k in Inputs(entries[j].expr) && k in entries[j].c.sources
        && entries[j].c.sources[k].Comp? ==>
      var i := entries[j].c.sources[k].slot;
      i < j && entries[i].level <= entries[j].level && entries[i].name == k
  }

  /** Every source a level's heuristics have but the comp slots holds its value. */
  ghost predicate OthersMatch(entries: seq<Entry>, at: nat, env: PyEnv, w: World) {
    && w.torch == env.torch && TorchTyped(env.torch)
    && forall j, k ::
         0 <= j < |entries| && entries[j].level == at && k in Inputs(entries[j].expr) && k in entries[j].c.sources ==>
         && k in env.inputs
         && (!entries[j].c.sources[k].Comp? ==> SourceMatches(entries[j].c.sources[k], env.inputs[k], w, []))
  }

  /** The slots of levels below `at`, and of `at` before `slot`, hold Python's values. */
  ghost predicate Computed(entries: seq<Entry>, at: nat, slot: nat, env: PyEnv, comp: seq<int>) {
    && |comp| == 2 * |entries|
    && forall j :: 0 <= j < |entries| && (entries[j].level < at || (entries[j].level == at && j < slot)) ==>
         Finishes(ValueOf(entries, j, env)) && HoldsPair(comp, j, ValueOf(entries, j, env).result.v)
  }

  lemma EntryMatches(entries: seq<Entry>, at: nat, slot: nat, env: PyEnv, w: World, comp: seq<int>)
    requires slot < |entries| && entries[slot].level == at
    requires SlotOrdered(entries) && OthersMatch(entries, at, env, w) && Consistent(entries, env)
    requires Computed(entries, at, slot, env, comp)
    ensures Matches(Only(entries[slot].c, Inputs(entries[slot].expr)), env, w, comp)
  {
    var c := Only(entries[slot].c, Inputs(entries[slot].expr));
    forall k | k in c.sources
      ensures k in env.inputs && SourceMatches(c.sources[k], env.inputs[k], w, comp)
    {
      assert entries[slot].c.sources[k] == c.sources[k];
      if c.sources[k].Comp? {
        assert HoldsPair(comp, c.sources[k].slot, ValueOf(entries, c.sources[k].slot, env).result.v);
      } else {
        assert SourceMatches(entries[slot].c.sources[k], env.inputs[k], w, []);
      }
    }
  }

  lemma StoreCompRuns(w: World, s: CState, slot: nat, x: Operand, y: Operand)
    requires s.Run? && Active(s) && 2 * slot + 1 < |s.comp| && Read(w, s, x).Some? && Read(w, s, y).Some?
    ensures Step(w, s, StoreComp(slot, x, y))
         == s.(comp := s.comp[2 * slot := Read(w, s, x).value][2 * slot + 1 := Read(w, s, y).value])
  {
  }

  /** Running one level's function: it finishes exactly when every heuristic keyed there has an
      int or bool in int64 for a value, and then their slots hold those values and types. */
  lemma {:induction false} LevelComputes(entries: seq<Entry>, at: nat, slot: nat, n: nat, env: PyEnv, w: World,
                                         s: CState)
    requires slot <= |entries| && LevelLines(entries, at, slot, n).Some?
    requires SlotOrdered(entries) && OthersMatch(entries, at, env, w) && Consistent(entries, env)
    requires forall j :: 0 <= j < |entries| ==> LiteralsOk(entries[j].expr, entries[j].c)
    requires s.Run? && Active(s) && Below(s.env, n) && Computed(entries, at, slot, env, s.comp)
    ensures var s' := Exec(w, s, LevelLines(entries, at, slot, n).value.0);
            && !s'.Stuck?
            && (s'.Run? <==> forall j :: slot <= j < |entries| && entries[j].level == at ==>
              Finishes(ValueOf(entries, j, env)))
            && (s'.Run? ==> Computed(entries, at + 1, 0, env, s'.comp))
    decreases |entries| - slot
  {
    hide Step;
    if slot < |entries| {
      if entries[slot].level != at {
        LevelComputes(entries, at, slot + 1, n, env, w, s);
      } else {
        EntryComputes(entries, at, slot, n, env, w, s);
      }
    }
  }

  lemma EntryComputes(entries: seq<Entry>, at: nat, slot: nat, n: nat, env: PyEnv, w: World, s: CState)
    requires slot < |entries| && entries[slot].level == at && LevelLines(entries, at, slot, n).Some?
    requires SlotOrdered(entries) && OthersMatch(entries, at, env, w) && Consistent(entries, env)
    requires forall j :: 0 <= j < |entries| ==> LiteralsOk(entries[j].expr, entries[j].c)
    requires s.Run? && Active(s) && Below(s.env, n) && Computed(entries, at, slot, env, s.comp)
    ensures var s' := Exec(w, s, LevelLines(entries, at, slot, n).value.0);
            && !s'.Stuck?
            && (s'.Run? <==> forall j :: slot <= j < |entries| && entries[j].level == at ==>
              Finishes(ValueOf(entries, j, env)))
            && (s'.Run? ==> Computed(entries, at + 1, 0, env, s'.comp))
    decreases |entries| - slot, 0
  {
    hide Step;
    hide Exec;
    hide Lowered;
    hide LiteralsOk;
    hide PyEval;
    hide Inputs;
    var e, c := entries[slot].expr, entries[slot].c;
    var x := Lowered(e, c, n).value;
    var rest := LevelLines(entries, at, slot + 1, x.next).value.0;
    var put := StoreComp(slot, x.value, x.isBool);
    LoweredReadsOnly(e, c, Inputs(e), n);
    LiteralsReadOnly(e, c, Inputs(e));
    EntryMatches(entries, at, slot, env, w, s.comp);
    LoweringSimulates(e, Only(c, Inputs(e)), n, w, s, env);
    var s1 := Exec(w, s, x.lines);
    ExecConcat(w, s, x.lines + [put], rest);
    ExecConcat(w, s, x.lines, [put]);
    ExecOne(w, s1, put);
    if s1.Fail? {
      ExecEnded(w, s1, [put]);
      ExecEnded(w, s1, rest);
      assert !Finishes(ValueOf(entries, slot, env));
    } else {
      StoreCompRuns(w, s1, slot, x.value, x.isBool);
      var s2 := Step(w, s1, put);
      ExtendsBelow(s.env, s1.env, n, x.next);
      assert Computed(entries, at, slot + 1, env, s2.comp);
      LevelComputes(entries, at, slot + 1, x.next, env, w, s2);
    }
  }

  /** The functions of levels `at` on, run in turn on one comp array; `ws[at]` holds what the
      records walked by then have put in the dep array. None where one of them fails. */
  ghost function RunLevels(entries: seq<Entry>, ws: seq<World>, at: nat, comp: seq<int>): Option<seq<int>>
    requires at <= |ws| && forall l :: 0 <= l < |ws| ==> LevelLines(entries, l, 0, 0).Some?
    decreases |ws| - at
  {
    if at == |ws| then Some(comp)
    else
      var s := Exec(ws[at], Run(map[], [], comp, map[], []), LevelLines(entries, at, 0, 0).value.0);
      if s.Run? then RunLevels(entries, ws, at + 1, s.comp) else None
  }

  /** Every level finishes exactly when every heuristic has an int or bool in int64 for a value,
      and then every comp slot holds its heuristic's value and type. */
  lemma {:induction false} LevelsCompute(entries: seq<Entry>, ws: seq<World>, at: nat, env: PyEnv, comp: seq<int>)
    requires at <= |ws| && forall l :: 0 <= l < |ws| ==>
        LevelLines(entries, l, 0, 0).Some? && OthersMatch(entries, l, env, ws[l])
    requires SlotOrdered(entries) && Consistent(entries, env)
    requires forall j :: 0 <= j < |entries| ==> LiteralsOk(entries[j].expr, entries[j].c) && entries[j].level < |ws|
    requires Computed(entries, at, 0, env, comp)
    ensures var r := RunLevels(entries, ws, at, comp);
            && (r.Some? <==> forall j :: 0 <= j < |entries| && entries[j].level >= at ==>
              Finishes(ValueOf(entries, j, env)))
            && (r.Some? ==> Computed(entries, |ws|, 0, env, r.value))
    decreases |ws| - at
  {
    if at < |ws| {
      var start := Run(map[], [], comp, map[], []);
      LevelComputes(entries, at, 0, 0, env, ws[at], start);
      hide Exec;
      hide LevelLines;
      hide ValueOf;
      var s := Exec(ws[at], start, LevelLines(entries, at, 0, 0).value.0);
      if s.Run? {
        LevelsCompute(entries, ws, at + 1, env, s.comp);
      }
    }
  }

  // ---------------------------------------------------------------- valid C

  predicate OperandOk(x: Operand) {
    x.Lit? ==> LiteralOk(x.n)
  }

  predicate LineOk(l: Line) {
    match l
    case DeclareLit(_, n) => InI64(n)
    case HeurTensor(_, _, _, literal, _) => LiteralOk(literal)
    case Arith(_, x, y, _) => OperandOk(x) && OperandOk(y)
    case NextPow2Call(x, _) => OperandOk(x)
    case SetNot(_, x) => OperandOk(x)
    case Set(_, x) => OperandOk(x)
    case SetRel(_, x, _, y) => OperandOk(x) && OperandOk(y)
    case SetPair(_, _, x, y) => OperandOk(x) && OperandOk(y)
    case SelectPair(_, x, y, _, _, xb, yb) => OperandOk(x) && OperandOk(y) && OperandOk(xb) && OperandOk(yb)
    case SetMin(_, x, y) => OperandOk(x) && OperandOk(y)
    case GridOutput(x, _) => OperandOk(x)
    case StoreComp(_, x, y) => OperandOk(x) && OperandOk(y)
    case IfOpen(_, x) => OperandOk(x)
    case _ => true
  }

  /** Every literal written is one an int64 expression may hold. */
  predicate LinesOk(lines: seq<Line>) {
    forall i :: 0 <= i < |lines| ==> LineOk(lines[i])
  }

  predicate EmissionOk(em: Emission) {
    LinesOk(em.lines) && OperandOk(em.value) && OperandOk(em.isBool)
  }

  lemma LinesOkConcat(a: seq<Line>, b: seq<Line>)
    ensures LinesOk(a + b) <==> LinesOk(a) && LinesOk(b)
  {
    if LinesOk(a + b) {
      forall i | 0 <= i < |a| ensures LineOk(a[i]) { assert (a + b)[i] == a[i]; }
      forall i | 0 <= i < |b| ensures LineOk(b[i]) { assert (a + b)[|a| + i] == b[i]; }
    }
  }

  lemma LinesOkTail(lines: seq<Line>, a: Line, b: Line)
    ensures LinesOk(lines + [a, b]) <==> LinesOk(lines) && LineOk(a) && LineOk(b)
  {
    LinesOkConcat(lines, [a, b]);
    assert [a, b][0] == a && [a, b][1] == b;
  }

  lemma LinesOkOne(lines: seq<Line>, a: Line)
    ensures LinesOk(lines + [a]) <==> LinesOk(lines) && LineOk(a)
    ensures LinesOk([a] + lines) <==> LinesOk(lines) && LineOk(a)
  {
    LinesOkConcat(lines, [a]);
    LinesOkConcat([a], lines);
    assert [a][0] == a;
  }

  /** The lowering of an accepted expression is valid C exactly when every baked int it uses as a
      number, and every literal tensor index, fits: a condition on the expression alone. */
  lemma {:induction false} ValidExactly(e: Expr, c: Context, n: nat)
    requires Lowered(e, c, n).Some?
    ensures EmissionOk(Lowered(e, c, n).value) <==> LiteralsOk(e, c)
    decreases e, 3
  {
    hide TensorRead;
    match e
    case Input(_) => ValidInput(e, c, n);
    case Constant(_) =>
    case BinOp(_, _, _) => ValidBinOp(e, c, n);
    case UnaryOp(_, _) => ValidUnaryOp(e, c, n);
    case Compare(_, _, _) => ValidCompare(e, c, n);
    case BoolOp(_, _, _) => ValidBoolOp(e, c, n);
    case IfExp(_, _, _) => ValidIfExp(e, c, n);
    case CallExpr(_, _, _) => ValidCall(e, c, n);
    case Subscript(_, _) => ValidTensor(e, c, n);
  }

  lemma ValidInput(e: Expr, c: Context, n: nat)
    requires e.Input? && Lowered(e, c, n).Some?
    ensures EmissionOk(Lowered(e, c, n).value) <==> LiteralsOk(e, c)
  {
    if c.sources[e.key].Arg? {
      LinesOkTail([], DeclarePair(n + 1, n + 2), HeurArg(c.sources[e.key].index, n + 1, n + 2));
      assert [] + [DeclarePair(n + 1, n + 2), HeurArg(c.sources[e.key].index, n + 1, n + 2)]
          == Lowered(e, c, n).value.lines;
    }
  }

  lemma ValidBinOp(e: Expr, c: Context, n: nat)
    requires e.BinOp? && Lowered(e, c, n).Some?
    ensures EmissionOk(Lowered(e, c, n).value) <==> LiteralsOk(e, c)
    decreases e, 1
  {
    hide LinesOk;
    assert LiteralsOk(e, c) <==> LiteralsOk(e.left, c) && LiteralsOk(e.right, c);
    hide LiteralsOk;
    var l := Lowered(e.left, c, n).value;
    var r := Lowered(e.right, c, l.next).value;
    var v := r.next + 1;
    var add := [DeclareZero(v), Arith(ArithName(e.op).value, l.value, r.value, v)];
    assert Lowered(e, c, n).value == Emission(l.lines + r.lines + add, v, Temp(v), Lit(0));
    hide Lowered;
    ValidTwo(e, e.left, e.right, c, n);
    LinesOkTail(l.lines + r.lines, add[0], add[1]);
  }

  lemma ValidUnaryOp(e: Expr, c: Context, n: nat)
    requires e.UnaryOp? && Lowered(e, c, n).Some?
    ensures EmissionOk(Lowered(e, c, n).value) <==> LiteralsOk(e, c)
    decreases e, 1
  {
    hide LinesOk;
    ValidExactly(e.operand, c, n);
    ValidIsBool(e.operand, c, n);
    var x := Lowered(e.operand, c, n).value;
    LinesOkTail(x.lines, DeclareZero(x.next + 1), UnaryLine(e.uop, x.value, x.next + 1).value);
  }

  lemma ValidIsBool(e: Expr, c: Context, n: nat)
    requires Lowered(e, c, n).Some?
    ensures OperandOk(Lowered(e, c, n).value.isBool)
  {
    hide TensorRead;
  }

  lemma ValidTwo(parent: Expr, left: Expr, right: Expr, c: Context, n: nat)
    requires left < parent && right < parent && Lowered(left, c, n).Some?
        && Lowered(right, c, Lowered(left, c, n).value.next).Some?
    ensures var l := Lowered(left, c, n).value;
            var r := Lowered(right, c, l.next).value;
            (LinesOk(l.lines + r.lines) && OperandOk(l.value) && OperandOk(r.value) <==>
              LiteralsOk(left, c) && LiteralsOk(right, c))
            && OperandOk(l.isBool) && OperandOk(r.isBool)
    decreases parent, 0
  {
    hide Lowered;
    var l := Lowered(left, c, n).value;
    ValidExactly(left, c, n);
    ValidExactly(right, c, l.next);
    ValidIsBool(left, c, n);
    ValidIsBool(right, c, l.next);
    LinesOkConcat(l.lines, Lowered(right, c, l.next).value.lines);
  }

  lemma ValidCompare(e: Expr, c: Context, n: nat)
    requires e.Compare? && LoweredCompare(e, c, n).Some?
    ensures EmissionOk(LoweredCompare(e, c, n).value) <==> LiteralsOk(e, c)
    decreases e, 1
  {
    var left, op, right := e.left, e.ops[0], e.comparators[0];
    if op.Ordering? && !IsAttr(left, "dtype") {
      ValidTwo(e, left, right, c, n + 1);
      var l := Lowered(left, c, n + 1).value;
      var r := Lowered(right, c, l.next).value;
      LinesOkOne(l.lines + r.lines, SetRel(n + 1, l.value, RelOf(op.order), r.value));
      LinesOkOne(l.lines + r.lines + [SetRel(n + 1, l.value, RelOf(op.order), r.value)], DeclareZero(n + 1));
    }
  }

  lemma ValidBoolOp(e: Expr, c: Context, n: nat)
    requires e.BoolOp? && Lowered(e, c, n).Some?
    ensures EmissionOk(Lowered(e, c, n).value) <==> LiteralsOk(e, c)
    decreases e, 1
  {
    var x := Lowered(e.first, c, n + 2).value;
    var r := LoweredRest(e.isAnd, n + 1, n + 2, e.rest, c, x.next).value;
    var put := SetPair(n + 1, n + 2, x.value, x.isBool);
    ValidExactly(e.first, c, n + 2);
    ValidRest(e.isAnd, n + 1, n + 2, e.rest, c, x.next);
    LinesOkOne(x.lines, put);
    LinesOkConcat(x.lines + [put], r.lines);
    LinesOkOne(x.lines + [put] + r.lines, DeclarePair(n + 1, n + 2));
  }

  lemma ValidRestBlock(isAnd: bool, v: nat, b: nat, x: Emission, r: seq<Line>)
    ensures LinesOk([IfOpen(!isAnd, Temp(v))] + (x.lines + [SetPair(v, b, x.value, x.isBool)] + r) + [Close])
            <==> EmissionOk(x) && LinesOk(r)
  {
    hide LinesOk;
    var put := SetPair(v, b, x.value, x.isBool);
    LinesOkOne(x.lines, put);
    LinesOkConcat(x.lines + [put], r);
    LinesOkOne(x.lines + [put] + r, IfOpen(!isAnd, Temp(v)));
    LinesOkOne([IfOpen(!isAnd, Temp(v))] + (x.lines + [put] + r), Close);
  }

  lemma {:induction false} ValidRest(isAnd: bool, v: nat, b: nat, rest: seq<Expr>, c: Context, n: nat)
    requires LoweredRest(isAnd, v, b, rest, c, n).Some?
    ensures LinesOk(LoweredRest(isAnd, v, b, rest, c, n).value.lines) <==> forall x :: x in rest ==> LiteralsOk(x, c)
    decreases rest, 0
  {
    if rest != [] {
      var x := Lowered(rest[0], c, n).value;
      var r := LoweredRest(isAnd, v, b, rest[1..], c, x.next).value;
      ValidExactly(rest[0], c, n);
      ValidRest(isAnd, v, b, rest[1..], c, x.next);
      hide LinesOk;
      hide LiteralsOk;
      ValidRestBlock(isAnd, v, b, x, r.lines);
      assert rest == [rest[0]] + rest[1..];
    }
  }

  lemma ValidIfExp(e: Expr, c: Context, n: nat)
    requires e.IfExp? && Lowered(e, c, n).Some?
    ensures EmissionOk(Lowered(e, c, n).value) <==> LiteralsOk(e, c)
    decreases e, 1
  {
    var v, b := n + 1, n + 2;
    var t := Lowered(e.test, c, b).value;
    var y := Lowered(e.body, c, t.next).value;
    var z := Lowered(e.orelse, c, y.next).value;
    ValidExactly(e.test, c, b);
    ValidExactly(e.body, c, t.next);
    ValidExactly(e.orelse, c, y.next);
    ValidIsBool(e.test, c, b);
    ValidBranches(v, b, t.value, y, z);
    LinesOkConcat(t.lines, Branches(v, b, t.value, y, z));
    LinesOkOne(t.lines + Branches(v, b, t.value, y, z), DeclarePair(v, b));
  }

  lemma ValidBranches(v: nat, b: nat, test: Operand, y: Emission, z: Emission)
    ensures LinesOk(Branches(v, b, test, y, z)) <==> OperandOk(test) && EmissionOk(y) && EmissionOk(z)
  {
    var yes, no := y.lines + [SetPair(v, b, y.value, y.isBool)], z.lines + [SetPair(v, b, z.value, z.isBool)];
    LinesOkOne(y.lines, SetPair(v, b, y.value, y.isBool));
    LinesOkOne(z.lines, SetPair(v, b, z.value, z.isBool));
    LinesOkOne(yes, IfOpen(false, test));
    LinesOkOne([IfOpen(false, test)] + yes, Else);
    LinesOkConcat([IfOpen(false, test)] + yes + [Else], no);
    LinesOkOne([IfOpen(false, test)] + yes + [Else] + no, Close);
  }

  lemma ValidTensor(e: Expr, c: Context, n: nat)
    requires TensorRead(e).Some? && Lowered(e, c, n).Some?
    ensures EmissionOk(Lowered(e, c, n).value) <==> LiteralsOk(e, c)
  {
    var r := TensorRead(e).value;
    var em := LoweredTensor(r.0, r.1, r.2, c, n).value;
    LinesOkTail([], em.lines[0], em.lines[1]);
    assert em.lines == [] + [em.lines[0], em.lines[1]];
  }

  lemma ValidCall(e: Expr, c: Context, n: nat)
    requires e.CallExpr? && Lowered(e, c, n).Some?
    ensures EmissionOk(Lowered(e, c, n).value) <==> LiteralsOk(e, c)
    decreases e, 2
  {
    hide METHODS;
    hide LinesOk;
    hide LiteralsOk;
    if IsBuiltin(e, "min") {
      ValidMinMax(e, true, c, n);
    } else if IsBuiltin(e, "max") {
      ValidMinMax(e, false, c, n);
    } else if !e.keywords && IsTriton(e.func, "cdiv") {
      ValidCdiv(e, c, n);
    } else if !e.keywords && IsTriton(e.func, "next_power_of_2") {
      ValidNextPow2(e, c, n);
    } else {
      ValidTensor(e, c, n);
    }
  }

  lemma ValidMinMax(e: Expr, isMin: bool, c: Context, n: nat)
    requires IsBuiltin(e, if isMin then "min" else "max") && Lowered(e, c, n).Some?
    ensures EmissionOk(Lowered(e, c, n).value) <==> LiteralsOk(e, c)
    decreases e, 1
  {
    hide LinesOk;
    hide LiteralsOk;
    CallLiterals(e, c);
    UnfoldMinMax(e, isMin, c, n);
    hide Lowered;
    ValidTwo(e, e.args[0], e.args[1], c, n);
    var l := Lowered(e.args[0], c, n).value;
    var r := Lowered(e.args[1], c, l.next).value;
    LinesOkTail(l.lines + r.lines, DeclarePair(r.next + 1, r.next + 2), Select(isMin, l, r));
    assert e.args == [e.args[0], e.args[1]];
  }

  lemma ValidCdiv(e: Expr, c: Context, n: nat)
    requires e.CallExpr? && !e.keywords && IsTriton(e.func, "cdiv") && Lowered(e, c, n).Some?
    ensures EmissionOk(Lowered(e, c, n).value) <==> LiteralsOk(e, c)
    decreases e, 1
  {
    hide LinesOk;
    hide LiteralsOk;
    CallLiterals(e, c);
    UnfoldCdiv(e, c, n);
    hide Lowered;
    ValidTwo(e, e.args[0], e.args[1], c, n);
    var l := Lowered(e.args[0], c, n).value;
    var r := Lowered(e.args[1], c, l.next).value;
    LinesOkTail(l.lines + r.lines, DeclareZero(r.next + 1), Arith(Cdiv, l.value, r.value, r.next + 1));
    assert e.args == [e.args[0], e.args[1]];
  }

  lemma ValidNextPow2(e: Expr, c: Context, n: nat)
    requires e.CallExpr? && !e.keywords && IsTriton(e.func, "next_power_of_2") && Lowered(e, c, n).Some?
    ensures EmissionOk(Lowered(e, c, n).value) <==> LiteralsOk(e, c)
    decreases e, 1
  {
    hide LinesOk;
    hide LiteralsOk;
    CallLiterals(e, c);
    UnfoldNextPow2(e, c, n);
    hide Lowered;
    ValidExactly(e.args[0], c, n);
    ValidIsBool(e.args[0], c, n);
    var x := Lowered(e.args[0], c, n).value;
    LinesOkTail(x.lines, DeclareZero(x.next + 1), NextPow2Call(x.value, x.next + 1));
    assert e.args == [e.args[0]];
  }

  /** The condition can fail: a constexpr baked to 2^64 - 1, in Triton's scalar range, lowers
      without complaint to a literal int64 does not have. */
  lemma BakedLiteralUnchecked(c: Context)
    requires c.sources == map["N" := Fixed(PyInt(0xffff_ffff_ffff_ffff))]
    ensures Lowered(UnaryOp(UAdd, Input("N")), c, 0).Some?
    ensures !EmissionOk(Lowered(UnaryOp(UAdd, Input("N")), c, 0).value)
  {
    hide METHODS;
    hide TensorRead;
    ValidExactly(UnaryOp(UAdd, Input("N")), c, 0);
  }
}
