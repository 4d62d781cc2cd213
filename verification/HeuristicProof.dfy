/** The lowering of heuristics preserves Python's meaning: value, type, laziness and
    scoping, for every accepted expression over any inputs. */
module HeuristicProof {
  import opened GridArith
  import opened CTarget
  import opened Optional
  import opened Python
  import opened Heuristic
  import opened HeuristicLowering

  // ---------------------------------------------------------------- hypotheses

  ghost predicate HoldsPair(a: seq<int>, slot: nat, v: PyVal) {
    && 2 * slot + 1 < |a| && FitsC(v)
    && a[2 * slot] == AsInt(v) && a[2 * slot + 1] == BoolInt(v.PyBool?)
  }

  /** The C location of an input holds the value Python's heuristic is given. */
  ghost predicate SourceMatches(s: Source, v: PyVal, w: World, comp: seq<int>) {
    match s
    case Arg(i) => i < |w.args| && w.args[i] == v
    case Fixed(x) => x == v
    case Dep(slot) => HoldsPair(w.dep, slot, v)
    case Comp(slot) => HoldsPair(comp, slot, v)
  }

  /** What torch promises: `is_contiguous` answers a bool, the sizes, strides and addresses are ints
      that are not, and dtype objects lie in a 64-bit address space. */
  ghost predicate TorchTyped(torch: Torch) {
    && (forall t, name, args ::
          torch.answer(t, name, args).Returned? && IsScalar(torch.answer(t, name, args).v) ==>
            && (name == "is_contiguous" ==> torch.answer(t, name, args).v.PyBool?)
            && (name in {"numel", "size", "stride", "dim", "element_size", "data_ptr"} ==>
                  torch.answer(t, name, args).v.PyInt?))
    && forall t :: torch.dtype(t).Some? ==> torch.dtype(t).value < 0x1_0000_0000_0000_0000
  }

  ghost predicate Matches(c: Context, env: PyEnv, w: World, comp: seq<int>) {
    && w.torch == env.torch && TorchTyped(env.torch)
    && forall k :: k in c.sources ==> k in env.inputs && SourceMatches(c.sources[k], env.inputs[k], w, comp)
  }

  predicate IndexOk(r: (Expr, string, seq<Expr>)) {
    TakesIndex(r.1) && |r.2| == 1 && IsIndex(r.2[0]) ==> LiteralOk(r.2[0].lit.n)
  }

  /** Every baked int the expression uses as a number, and every literal index, is one C can
      spell. The lowering checks integer literals of the source but neither of these. */
  predicate LiteralsOk(e: Expr, c: Context) {
    match e
    case Input(key) =>
      key in c.sources && c.sources[key].Fixed? && IsScalar(c.sources[key].value)
      ==> LiteralOk(AsInt(c.sources[key].value))
    case BinOp(_, left, right) => LiteralsOk(left, c) && LiteralsOk(right, c)
    case UnaryOp(_, operand) => LiteralsOk(operand, c)
    case Compare(left, ops, comparators) =>
      |ops| == 1 && |comparators| == 1 && ops[0].Ordering? && !IsAttr(left, "dtype") && !IsAttr(comparators[0], "dtype")
      ==> LiteralsOk(left, c) && LiteralsOk(comparators[0], c)
    case BoolOp(_, first, rest) => LiteralsOk(first, c) && forall x | x in rest :: LiteralsOk(x, c)
    case IfExp(test, body, orelse) => LiteralsOk(test, c) && LiteralsOk(body, c) && LiteralsOk(orelse, c)
    case CallExpr(func, args, keywords) =>
      if TensorRead(e).Some? then IndexOk(TensorRead(e).value) else forall x | x in args :: LiteralsOk(x, c)
    case Subscript(_, _) => TensorRead(e).Some? ==> IndexOk(TensorRead(e).value)
    case _ => true
  }

  // ---------------------------------------------------------------- simulation

  /** One emission run from `s` against Python's outcome: either both produce the same
      scalar over the same events, or C stops where Python raises or leaves int64 scalars,
      having done nothing Python does not do. */
  ghost predicate Simulates(w: World, s: CState, s': CState, em: Emission, p: Outcome, n: int)
    requires s.Run?
  {
    match s'
    case Stuck => false
    case Fail(t) => t <= s.trace + p.trace && !Finishes(p)
    case Run(_, _, _, _, _) =>
      && Finishes(p) && FitsC(p.result.v)
      && s' == s.(env := s'.env, trace := s.trace + p.trace)
      && n <= em.next && Extends(s.env, s'.env, n, em.next)
      && Read(w, s', em.value) == Some(AsInt(p.result.v))
      && Read(w, s', em.isBool) == Some(BoolInt(p.result.v.PyBool?))
  }

  /** The operands an expression returns are its own temps or no temps at all. */
  ghost predicate OwnTemps(em: Emission, n: nat) {
    && n <= em.next
    && (em.value.Temp? ==> n < em.value.id)
    && (em.isBool.Temp? ==> n < em.isBool.id)
  }

  /** Lowering spends serial numbers and leaves its blocks closed. */
  lemma {:induction false} LoweredShape(e: Expr, c: Context, n: nat)
    requires Lowered(e, c, n).Some?
    ensures OwnTemps(Lowered(e, c, n).value, n)
    ensures Skippable(Lowered(e, c, n).value.lines)
    decreases e, 1
  {
    hide Skippable;
    match e
    case Input(key) => ShapeInput(key, c, n);
    case Constant(lit) => SkipNothing();
    case BinOp(_, _, _) => ShapeArith(e, c, n);
    case UnaryOp(_, _) => ShapeArith(e, c, n);
    case Compare(_, _, _) => ShapeCompare(e, c, n);
    case BoolOp(_, _, _) => ShapeBoolOp(e, c, n);
    case IfExp(_, _, _) => ShapeIfExp(e, c, n);
    case CallExpr(_, _, _) => ShapeCall(e, c, n);
    case Subscript(_, _) => ShapeTensor(e, c, n);
  }

  lemma ShapeArith(e: Expr, c: Context, n: nat)
    requires (e.BinOp? || e.UnaryOp?) && Lowered(e, c, n).Some?
    ensures OwnTemps(Lowered(e, c, n).value, n) && Skippable(Lowered(e, c, n).value.lines)
    decreases e, 0
  {
    hide Skippable;
    if e.BinOp? {
      var l := Lowered(e.left, c, n).value;
      LoweredShape(e.left, c, n);
      LoweredShape(e.right, c, l.next);
      var r := Lowered(e.right, c, l.next).value;
      SkipConcat(l.lines, r.lines);
      SkipTail(l.lines + r.lines, DeclareZero(r.next + 1), Arith(ArithName(e.op).value, l.value, r.value, r.next + 1));
    } else {
      var x := Lowered(e.operand, c, n).value;
      LoweredShape(e.operand, c, n);
      SkipTail(x.lines, DeclareZero(x.next + 1), UnaryLine(e.uop, x.value, x.next + 1).value);
    }
  }

  lemma ShapeBoolOp(e: Expr, c: Context, n: nat)
    requires e.BoolOp? && Lowered(e, c, n).Some?
    ensures OwnTemps(Lowered(e, c, n).value, n) && Skippable(Lowered(e, c, n).value.lines)
    decreases e, 0
  {
    hide Skippable;
    var isAnd, first, rest := e.isAnd, e.first, e.rest;
    var x := Lowered(first, c, n + 2).value;
    LoweredShape(first, c, n + 2);
    LoweredRestShape(isAnd, n + 1, n + 2, rest, c, x.next);
    var r := LoweredRest(isAnd, n + 1, n + 2, rest, c, x.next).value;
    var put := SetPair(n + 1, n + 2, x.value, x.isBool);
    SkipLine(put);
    SkipConcat(x.lines, [put]);
    SkipHeaded(DeclarePair(n + 1, n + 2), x.lines + [put], r.lines);
  }

  lemma ShapeIfExp(e: Expr, c: Context, n: nat)
    requires e.IfExp? && Lowered(e, c, n).Some?
    ensures OwnTemps(Lowered(e, c, n).value, n) && Skippable(Lowered(e, c, n).value.lines)
    decreases e, 0
  {
    hide Skippable;
    hide Branches;
    var test, body, orelse := e.test, e.body, e.orelse;
    var t := Lowered(test, c, n + 2).value;
    LoweredShape(test, c, n + 2);
    var y := Lowered(body, c, t.next).value;
    LoweredShape(body, c, t.next);
    var o := Lowered(orelse, c, y.next).value;
    LoweredShape(orelse, c, y.next);
    ShapeBranches(n + 1, n + 2, t.value, y, o);
    SkipHeaded(DeclarePair(n + 1, n + 2), t.lines, Branches(n + 1, n + 2, t.value, y, o));
  }

  lemma ShapeInput(key: string, c: Context, n: nat)
    requires LoweredInput(key, c, n).Some?
    ensures OwnTemps(LoweredInput(key, c, n).value, n) && Skippable(LoweredInput(key, c, n).value.lines)
  {
    SkipNothing();
    if c.sources[key].Arg? {
      SkipTail([], DeclarePair(n + 1, n + 2), HeurArg(c.sources[key].index, n + 1, n + 2));
      assert [] + [DeclarePair(n + 1, n + 2), HeurArg(c.sources[key].index, n + 1, n + 2)]
          == [DeclarePair(n + 1, n + 2), HeurArg(c.sources[key].index, n + 1, n + 2)];
    }
  }

  lemma ShapeTensor(e: Expr, c: Context, n: nat)
    requires TensorRead(e).Some? && Lowered(e, c, n).Some?
    ensures OwnTemps(Lowered(e, c, n).value, n) && Skippable(Lowered(e, c, n).value.lines)
  {
    var r := TensorRead(e).value;
    var em := LoweredTensor(r.0, r.1, r.2, c, n).value;
    SkipNothing();
    SkipTail([], em.lines[0], em.lines[1]);
    assert [] + [em.lines[0], em.lines[1]] == em.lines;
  }

  lemma ShapeDtype(e: Expr, c: Context, n: nat)
    requires IsAttr(e, "dtype") && LoweredDtype(e, c, n).Some?
    ensures n <= LoweredDtype(e, c, n).value.next && Skippable(LoweredDtype(e, c, n).value.lines)
  {
    var em := LoweredDtype(e, c, n).value;
    SkipNothing();
    SkipTail([], em.lines[0], em.lines[1]);
    assert [] + [em.lines[0], em.lines[1]] == em.lines;
  }

  lemma ShapeCompared(v: nat, l: Emission, rel: Rel, r: Emission)
    requires Skippable(l.lines) && Skippable(r.lines)
    ensures Skippable(Compared(v, l, rel, r).lines)
  {
    SkipConcat(l.lines, r.lines);
    SkipLine(SetRel(v, l.value, rel, r.value));
    SkipConcat(l.lines + r.lines, [SetRel(v, l.value, rel, r.value)]);
    SkipLine(DeclareZero(v));
    SkipConcat([DeclareZero(v)], l.lines + r.lines + [SetRel(v, l.value, rel, r.value)]);
  }

  lemma ShapeCompare(e: Expr, c: Context, n: nat)
    requires e.Compare? && LoweredCompare(e, c, n).Some?
    ensures OwnTemps(LoweredCompare(e, c, n).value, n) && Skippable(LoweredCompare(e, c, n).value.lines)
    decreases e, 0
  {
    hide Skippable;
    var left, op, right := e.left, e.ops[0], e.comparators[0];
    if op.Is? || op.IsNot? {
      SkipNothing();
      SkipTail([], DeclareZero(n + 1), SetNone(n + 1, NoneTestOf(c.sources[left.key]), op.IsNot?));
      assert [] + LoweredCompare(e, c, n).value.lines == LoweredCompare(e, c, n).value.lines;
    } else if IsAttr(left, "dtype") {
      var l := LoweredDtype(left, c, n + 1).value;
      ShapeDtype(left, c, n + 1);
      ShapeDtype(right, c, l.next);
      ShapeCompared(n + 1, l, RelOf(op.order), LoweredDtype(right, c, l.next).value);
    } else {
      var l := Lowered(left, c, n + 1).value;
      LoweredShape(left, c, n + 1);
      LoweredShape(right, c, l.next);
      ShapeCompared(n + 1, l, RelOf(op.order), Lowered(right, c, l.next).value);
    }
  }

  lemma ShapeBranches(v: nat, b: nat, test: Operand, y: Emission, o: Emission)
    requires Skippable(y.lines) && Skippable(o.lines)
    ensures Skippable(Branches(v, b, test, y, o))
  {
    SkipLine(SetPair(v, b, y.value, y.isBool));
    SkipConcat(y.lines, [SetPair(v, b, y.value, y.isBool)]);
    SkipLine(SetPair(v, b, o.value, o.isBool));
    SkipConcat(o.lines, [SetPair(v, b, o.value, o.isBool)]);
    SkipIfElse(test, y.lines + [SetPair(v, b, y.value, y.isBool)], o.lines + [SetPair(v, b, o.value, o.isBool)]);
  }

  lemma ShapeCall(e: Expr, c: Context, n: nat)
    requires e.CallExpr? && Lowered(e, c, n).Some?
    ensures OwnTemps(Lowered(e, c, n).value, n) && Skippable(Lowered(e, c, n).value.lines)
    decreases e, 0
  {
    hide Skippable;
    if IsBuiltin(e, "min") || IsBuiltin(e, "max") || (!e.keywords && IsTriton(e.func, "cdiv")) {
      var l := Lowered(e.args[0], c, n).value;
      LoweredShape(e.args[0], c, n);
      LoweredShape(e.args[1], c, l.next);
      var r := Lowered(e.args[1], c, l.next).value;
      SkipConcat(l.lines, r.lines);
      var em := Lowered(e, c, n).value;
      var k := |l.lines + r.lines|;
      SkipTail(l.lines + r.lines, em.lines[k], em.lines[k + 1]);
      assert em.lines == l.lines + r.lines + [em.lines[k], em.lines[k + 1]];
    } else if !e.keywords && IsTriton(e.func, "next_power_of_2") {
      var x := Lowered(e.args[0], c, n).value;
      LoweredShape(e.args[0], c, n);
      SkipTail(x.lines, DeclareZero(x.next + 1), NextPow2Call(x.value, x.next + 1));
    } else {
      ShapeTensor(e, c, n);
    }
  }

  lemma {:induction false} LoweredRestShape(isAnd: bool, v: nat, b: nat, rest: seq<Expr>, c: Context, n: nat)
    requires LoweredRest(isAnd, v, b, rest, c, n).Some?
    ensures n <= LoweredRest(isAnd, v, b, rest, c, n).value.next
    ensures Skippable(LoweredRest(isAnd, v, b, rest, c, n).value.lines)
    decreases rest, 0
  {
    hide Skippable;
    if rest == [] {
      SkipNothing();
    } else {
      var x := Lowered(rest[0], c, n).value;
      LoweredShape(rest[0], c, n);
      LoweredRestShape(isAnd, v, b, rest[1..], c, x.next);
      var r := LoweredRest(isAnd, v, b, rest[1..], c, x.next).value;
      var put := SetPair(v, b, x.value, x.isBool);
      SkipLine(put);
      SkipConcat(x.lines, [put]);
      SkipConcat(x.lines + [put], r.lines);
      SkipIf(!isAnd, Temp(v), x.lines + [put] + r.lines);
    }
  }
}
