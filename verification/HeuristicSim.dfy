/** The lowering of heuristics preserves Python's meaning: value, type, laziness and
    scoping, for every accepted expression over any inputs. */
module HeuristicSim {
  import opened GridArith
  import opened CTarget
  import opened Optional
  import opened Python
  import opened Heuristic
  import opened HeuristicLowering
  import opened HeuristicProof

  // ---------------------------------------------------------------- single results

  /** Storing a checked result in a fresh temp after the operands ran. */
  lemma Finish(w: World, s: CState, s2: CState, v: nat, st: Status, flag: bool, p: Outcome, o: Outcome, em: Emission,
               n: nat)
    requires s.Run? && s2.Run? && Finishes(p)
    requires s2 == s.(env := s2.env, trace := s.trace + p.trace)
    requires Below(s2.env, v - 1) && Extends(s.env, s2.env, n, v - 1) && n < v
    requires st.Ok? <==> Finishes(o)
    requires st.Ok? ==> FitsC(o.result.v) && AsInt(o.result.v) == st.value && o.result.v.PyBool? == flag
    requires em.next == v && em.value == Temp(v) && em.isBool == Lit(BoolInt(flag))
    ensures DeclareIn(s2, v, Holding(0)).Run?
    ensures Simulates(w, s, StoreStatus(Logged(DeclareIn(s2, v, Holding(0)), o.trace), v, st), em, After(p, o), n)
  {
    assert s.trace + (p.trace + o.trace) == s.trace + p.trace + o.trace;
  }

  lemma DeclaredReads(w: World, s: CState, v: nat, c: Cell, x: Operand)
    requires s.Run? && v !in s.env && Read(w, s, x).Some?
    ensures DeclareIn(s, v, c).Run? && Read(w, DeclareIn(s, v, c), x) == Read(w, s, x)
  {
  }

  lemma HeurArgRuns(w: World, s: CState, i: nat, v: nat, b: nat)
    requires s.Run? && Active(s) && i < |w.args| && v !in s.env && b !in s.env && v != b
    ensures Exec(w, s, [DeclarePair(v, b), HeurArg(i, v, b)])
         == if FitsC(w.args[i]) then
              s.(env := s.env[v := Holding(AsInt(w.args[i]))][b := Holding(BoolInt(w.args[i].PyBool?))])
            else Fail(s.trace)
  {
    hide RunCompute;
    ExecTwo(w, s, DeclarePair(v, b), HeurArg(i, v, b));
    DeclarePairRuns(w, s, v, b);
    var s1 := s.(env := s.env[v := Holding(0)][b := Holding(0)]);
    if FitsC(w.args[i]) {
      assert s1.env[v := Holding(AsInt(w.args[i]))][b := Holding(BoolInt(w.args[i].PyBool?))]
          == s.env[v := Holding(AsInt(w.args[i]))][b := Holding(BoolInt(w.args[i].PyBool?))];
    }
  }

  lemma SimInput(key: string, c: Context, n: nat, w: World, s: CState, env: PyEnv)
    requires s.Run? && Active(s) && Below(s.env, n) && Matches(c, env, w, s.comp)
    requires LiteralsOk(Input(key), c) && LoweredInput(key, c, n).Some?
    ensures var em := LoweredInput(key, c, n).value;
            Simulates(w, s, Exec(w, s, em.lines), em, PyInput(key, env), n)
  {
    hide Step;
    hide TorchTyped;
    assert s.trace + [] == s.trace;
    assert SourceMatches(c.sources[key], env.inputs[key], w, s.comp);
    if c.sources[key].Arg? {
      SimArgument(key, c, n, w, s, env);
    }
  }

  lemma SimArgument(key: string, c: Context, n: nat, w: World, s: CState, env: PyEnv)
    requires s.Run? && Active(s) && Below(s.env, n) && key in c.sources && c.sources[key].Arg?
    requires key in env.inputs && SourceMatches(c.sources[key], env.inputs[key], w, s.comp)
    ensures var em := LoweredInput(key, c, n).value;
            Simulates(w, s, Exec(w, s, em.lines), em, PyInput(key, env), n)
  {
    hide Step;
    assert s.trace + [] == s.trace;
    HeurArgRuns(w, s, c.sources[key].index, n + 1, n + 2);
    hide Exec;
  }

  lemma SimConstant(lit: Literal, c: Context, n: nat, w: World, s: CState, env: PyEnv)
    requires s.Run? && Active(s) && LoweredConstant(lit, n).Some?
    ensures var em := LoweredConstant(lit, n).value;
            Simulates(w, s, Exec(w, s, em.lines), em, PyEval(Constant(lit), env), n)
  {
    assert s.trace + [] == s.trace;
  }

  /** What a method that lowers answers is a bool for `is_contiguous`, else an int. */
  lemma AnswersTyped(torch: Torch, t: nat, m: string, args: seq<int>)
    requires TorchTyped(torch) && m in METHODS
    ensures var a := torch.answer(t, m, args);
            a.Returned? && IsScalar(a.v) ==> a.v.PyBool? == (m == "is_contiguous")
  {
  }

  lemma SimTensor(target: Expr, m: string, args: seq<Expr>, c: Context, n: nat, w: World, s: CState, env: PyEnv)
    requires s.Run? && Active(s) && Below(s.env, n) && Matches(c, env, w, s.comp)
    requires m in METHODS && IndexOk((target, m, args)) && LoweredTensor(target, m, args, c, n).Some?
    ensures var em := LoweredTensor(target, m, args, c, n).value;
            Simulates(w, s, Exec(w, s, em.lines), em, PyTensorRead(target, m, args, env), n)
  {
    hide RunCompute;
    hide METHODS;
    var em := LoweredTensor(target, m, args, c, n).value;
    ExecTwo(w, s, em.lines[0], em.lines[1]);
    var index := TensorArg(target, c).value;
    if w.args[index].PyTensor? {
      var o := PyTensorRead(target, m, args, env);
      var t, k := w.args[index].t, if TakesIndex(m) then [args[0].lit.n] else [];
      assert k == seq(|args|, i requires 0 <= i < |args| => args[i].lit.n);
      assert s.trace + [] == s.trace;
      AnswersTyped(w.torch, t, m, k);
      hide TorchTyped;
      hide TakesIndex;
      Finish(w, s, s, n + 1, AnswerStatus(w.torch.answer(t, m, k)), m == "is_contiguous",
             Outcome(Value(PyNone), [], true), o, em, n);
      assert After(Outcome(Value(PyNone), [], true), o).trace == o.trace;
    }
  }

  // ---------------------------------------------------------------- two operands

  ghost predicate BothRead(w: World, s: CState, s2: CState, l: Emission, r: Emission, a: Outcome, b: Outcome, n: int)
    requires s.Run?
  {
    var p := After(a, b);
    match s2
    case Stuck => false
    case Fail(t) => t <= s.trace + p.trace && !Finishes(p)
    case Run(_, _, _, _, _) =>
      && p.plain && a.result.Value? && b.result.Value? && FitsC(a.result.v) && FitsC(b.result.v)
      && s2 == s.(env := s2.env, trace := s.trace + p.trace)
      && n <= r.next && Extends(s.env, s2.env, n, r.next)
      && Read(w, s2, l.value) == Some(AsInt(a.result.v)) && Read(w, s2, l.isBool) == Some(BoolInt(a.result.v.PyBool?))
      && Read(w, s2, r.value) == Some(AsInt(b.result.v)) && Read(w, s2, r.isBool) == Some(BoolInt(b.result.v.PyBool?))
  }

  lemma TwoOperands(w: World, s: CState, l: Emission, r: Emission, a: Outcome, b: Outcome, n: int)
    requires s.Run?
    requires Simulates(w, s, Exec(w, s, l.lines), l, a, n)
    requires Exec(w, s, l.lines).Run? ==>
               Simulates(w, Exec(w, s, l.lines), Exec(w, Exec(w, s, l.lines), r.lines), r, b, l.next)
    ensures BothRead(w, s, Exec(w, s, l.lines + r.lines), l, r, a, b, n)
  {
    hide Exec;
    hide Step;
    var s1 := Exec(w, s, l.lines);
    ExecConcat(w, s, l.lines, r.lines);
    if !s1.Run? {
      ExecEnded(w, s1, r.lines);
      if a.result.Value? {
        PrefixOfPrefix(s1.trace, s.trace, a.trace, b.trace);
      }
    } else {
      var s2 := Exec(w, s1, r.lines);
      assert s.trace + (a.trace + b.trace) == s1.trace + b.trace;
      if s2.Run? {
        ExtendsTrans(s.env, s1.env, s2.env, n, l.next, r.next);
        ReadStable(w, s1, s2, l.value, l.next, r.next);
        ReadStable(w, s1, s2, l.isBool, l.next, r.next);
      }
    }
  }

  /** Where the operands did not finish, nothing after them runs. */
  lemma StoppedEarly(w: World, s: CState, s2: CState, tail: seq<Line>, em: Emission, p: Outcome, o: Outcome, n: int)
    requires s.Run? && s2.Fail? && s2.trace <= s.trace + p.trace && !Finishes(p)
    ensures Exec(w, s2, tail) == s2 && Simulates(w, s, s2, em, After(p, o), n)
  {
    ExecEnded(w, s2, tail);
    if p.result.Value? {
      PrefixOfPrefix(s2.trace, s.trace, p.trace, o.trace);
    }
  }

  lemma ArithAgrees(op: BinKind, x: int, y: int)
    requires InI64(x) && InI64(y) && ArithName(op).Some?
    ensures var o, st := PyArith(op, x, y), ArithStatus(ArithName(op).value, x, y);
            && o.trace == ArithEvents(ArithName(op).value, x, y)
            && (st.Ok? <==> Finishes(o))
            && (st.Ok? ==> o.result.v == PyInt(st.value) && InI64(st.value))
  {
    if op.BinMod? && y != 0 {
      ModMeaning(x, y);
    }
  }

  lemma SimArithTail(w: World, s: CState, s2: CState, v: nat, op: ArithOp, l: Emission, r: Emission,
                     a: Outcome, b: Outcome, o: Outcome, em: Emission, n: nat)
    requires s.Run? && Active(s) && s2.Run? && BothRead(w, s, s2, l, r, a, b, n)
    requires Below(s2.env, v - 1) && v == r.next + 1
    requires var x, y := AsInt(a.result.v), AsInt(b.result.v);
             && o.trace == ArithEvents(op, x, y)
             && (ArithStatus(op, x, y).Ok? <==> Finishes(o))
             && (ArithStatus(op, x, y).Ok? ==> o.result.v == PyInt(ArithStatus(op, x, y).value) && InI64(o.result.v.n))
    requires em.next == v && em.value == Temp(v) && em.isBool == Lit(0)
    ensures Simulates(w, s, Exec(w, s2, [DeclareZero(v), Arith(op, l.value, r.value, v)]), em, After(After(a, b), o), n)
  {
    var x, y := AsInt(a.result.v), AsInt(b.result.v);
    ExecTwo(w, s2, DeclareZero(v), Arith(op, l.value, r.value, v));
    DeclaredReads(w, s2, v, Holding(0), l.value);
    DeclaredReads(w, s2, v, Holding(0), r.value);
    Finish(w, s, s2, v, ArithStatus(op, x, y), false, After(a, b), o, em, n);
  }

  lemma SimSelectTail(w: World, s: CState, s2: CState, isMin: bool, l: Emission, r: Emission, a: Outcome, b: Outcome,
                      n: nat)
    requires s.Run? && Active(s) && s2.Run? && BothRead(w, s, s2, l, r, a, b, n) && Below(s2.env, r.next)
    ensures Simulates(w, s, Exec(w, s2, [DeclarePair(r.next + 1, r.next + 2), Select(isMin, l, r)]),
                      Emission([], r.next + 2, Temp(r.next + 1), Temp(r.next + 2)),
                      After(After(a, b), PyMinMax(isMin, a.result.v, b.result.v)), n)
  {
    hide Exec;
    hide Step;
    var v, t := r.next + 1, r.next + 2;
    var select := Select(isMin, l, r);
    ExecTwo(w, s2, DeclarePair(v, t), select);
    DeclarePairRuns(w, s2, v, t);
    var s3 := Step(w, s2, DeclarePair(v, t));
    assert Extends(s2.env, s3.env, r.next, t);
    ReadStable(w, s2, s3, l.value, r.next, t);
    ReadStable(w, s2, s3, r.value, r.next, t);
    ReadStable(w, s2, s3, l.isBool, r.next, t);
    ReadStable(w, s2, s3, r.isBool, r.next, t);
    SelectLine(w, s3, select);
    if Holds(select.rel, AsInt(b.result.v), AsInt(a.result.v)) {
      PairStored(w, s3, v, t, r.value, r.isBool);
      SelectedPair(w, s, s2, v, b.result.v, After(a, b), n);
    } else {
      PairStored(w, s3, v, t, l.value, l.isBool);
      SelectedPair(w, s, s2, v, a.result.v, After(a, b), n);
    }
  }

  lemma SelectedPair(w: World, s: CState, s2: CState, v: nat, x: PyVal, p: Outcome, n: nat)
    requires s.Run? && s2.Run? && FitsC(x) && n < v && Below(s2.env, v - 1) && Extends(s.env, s2.env, n, v - 1)
    requires Finishes(p) && s2 == s.(env := s2.env, trace := s.trace + p.trace)
    ensures Simulates(w, s,
                      s2.(env := s2.env[v := Holding(0)][v + 1 := Holding(0)][v := Holding(AsInt(x))][v
                      + 1 := Holding(BoolInt(x.PyBool?))]),
                      Emission([], v + 1, Temp(v), Temp(v + 1)), After(p, Just(x)), n)
  {
    assert p.trace + [] == p.trace;
  }

  lemma SelectLine(w: World, s: CState, l: Line)
    requires s.Run? && Active(s) && l.SelectPair? && Read(w, s, l.c).Some? && Read(w, s, l.a).Some?
    ensures Step(w, s, l) == if Holds(l.rel, Read(w, s, l.c).value, Read(w, s, l.a).value)
                             then AssignPair(w, s, l.v, l.b, l.c, l.cb)
                             else AssignPair(w, s, l.v, l.b, l.a, l.ab)
  {
  }

  /** Assigning a pair of operands neither of which names the targets. */
  lemma PairStored(w: World, s: CState, v: nat, b: nat, x: Operand, y: Operand)
    requires s.Run? && v in s.env && b in s.env && v != b
    requires Read(w, s, x).Some? && Read(w, s, y).Some? && y != Temp(v)
    ensures AssignPair(w, s, v, b, x, y)
         == s.(env := s.env[v := Holding(Read(w, s, x).value)][b := Holding(Read(w, s, y).value)])
  {
    assert Read(w, Store(s, v, Read(w, s, x).value), y) == Read(w, s, y);
  }

  // ---------------------------------------------------------------- comparisons

  /** Both operands of a comparison read as x and y, or the run stopped as Python's may. */
  ghost predicate ValuesRead(w: World, s: CState, s2: CState, l: Operand, r: Operand, p: Outcome, x: int, y: int,
                             n: int, m: int)
    requires s.Run?
  {
    match s2
    case Stuck => false
    case Fail(t) => t <= s.trace + p.trace && !Finishes(p)
    case Run(_, _, _, _, _) =>
      && Finishes(p)
      && s2 == s.(env := s2.env, trace := s.trace + p.trace)
      && n <= m && Extends(s.env, s2.env, n, m)
      && Read(w, s2, l) == Some(x) && Read(w, s2, r) == Some(y)
  }

  /** Compare declares its result before its operands, and stores into it after them. */
  lemma SimCompared(w: World, s: CState, rel: Rel, l: Emission, r: Emission, p: Outcome, x: int, y: int, o: Outcome,
                    n: nat)
    requires s.Run? && Active(s) && Below(s.env, n)
    requires var s0 := Step(w, s, DeclareZero(n + 1));
             s0.Run? && ValuesRead(w, s0, Exec(w, s0, l.lines + r.lines), l.value, r.value, p, x, y, n + 1, r.next)
    requires Exec(w, Step(w, s, DeclareZero(n + 1)), l.lines + r.lines).Run? ==> o == Just(PyBool(Holds(rel, x, y)))
    ensures var em := Compared(n + 1, l, rel, r);
            Simulates(w, s, Exec(w, s, em.lines), em, After(p, o), n)
  {
    hide RunInput;
    hide RunCompute;
    var put := SetRel(n + 1, l.value, rel, r.value);
    var s0 := Step(w, s, DeclareZero(n + 1));
    var s2 := Exec(w, s0, l.lines + r.lines);
    ExecCompared(w, s, n + 1, l, rel, r);
    if s2.Fail? {
      StoppedEarly(w, s, s2, [put], Compared(n + 1, l, rel, r), p, o, n);
    } else {
      ExecOne(w, s2, put);
      StoresRel(w, s2, put);
      assert p.trace + [] == p.trace;
    }
  }

  lemma StoresRel(w: World, s: CState, put: Line)
    requires put.SetRel? && s.Run? && Active(s) && put.v in s.env && Read(w, s, put.l).Some? && Read(w, s, put.r).Some?
    ensures Step(w, s, put)
         == s.(env := s.env[put.v := Holding(BoolInt(Holds(put.rel, Read(w, s, put.l).value,
                                                           Read(w, s, put.r).value)))])
  {
  }

  lemma DtypeLinesRun(w: World, s: CState, i: nat, v: nat)
    requires s.Run? && Active(s) && i < |w.args| && v !in s.env
    ensures Exec(w, s, [Declare(v), HeurDtype(i, v)])
         == if !w.args[i].PyTensor? then Fail(s.trace)
            else match w.torch.dtype(w.args[i].t)
                 case None => Fail(s.trace + [ReadDtype(w.args[i].t)])
                 case Some(a) => s.(env := s.env[v := Holding(AddressBits(a))],
                                    trace := s.trace + [ReadDtype(w.args[i].t)])
  {
    hide RunCompute;
    ExecTwo(w, s, Declare(v), HeurDtype(i, v));
    if w.args[i].PyTensor? && w.torch.dtype(w.args[i].t).Some? {
      var a := AddressBits(w.torch.dtype(w.args[i].t).value);
      assert s.env[v := Unset][v := Holding(a)] == s.env[v := Holding(a)];
    }
  }

  lemma SimDtype(e: Expr, c: Context, n: nat, w: World, s: CState, env: PyEnv)
    requires s.Run? && Active(s) && Below(s.env, n) && Matches(c, env, w, s.comp)
    requires IsAttr(e, "dtype") && LoweredDtype(e, c, n).Some?
    ensures var em := LoweredDtype(e, c, n).value;
            DtypeRead(w, s, Exec(w, s, em.lines), em, PyDtype(e, env), n)
  {
    hide Exec;
    hide Step;
    var em := LoweredDtype(e, c, n).value;
    var i := TensorArg(e.value, c).value;
    assert SourceMatches(c.sources[e.value.key], env.inputs[e.value.key], w, s.comp);
    DtypeLinesRun(w, s, i, n + 1);
    assert s.trace + [] == s.trace;
  }

  /** As Simulates, but the value is an address, held as the bits of its int64 cast. */
  ghost predicate DtypeRead(w: World, s: CState, s': CState, em: Emission, p: Outcome, n: int)
    requires s.Run?
  {
    match s'
    case Stuck => false
    case Fail(t) => t <= s.trace + p.trace && !Finishes(p)
    case Run(_, _, _, _, _) =>
      && Finishes(p) && p.result.v.PyInt? && 0 <= p.result.v.n < 0x1_0000_0000_0000_0000
      && s' == s.(env := s'.env, trace := s.trace + p.trace)
      && n <= em.next && Extends(s.env, s'.env, n, em.next)
      && Read(w, s', em.value) == Some(AddressBits(p.result.v.n))
  }

  lemma AddressBitsInjective(a: nat, b: nat)
    requires a < 0x1_0000_0000_0000_0000 && b < 0x1_0000_0000_0000_0000
    ensures AddressBits(a) == AddressBits(b) <==> a == b
  {
  }

  function Address(p: Outcome): int {
    if p.result.Value? && p.result.v.PyInt? && p.result.v.n >= 0 then AddressBits(p.result.v.n) else 0
  }

  lemma TwoDtypesRead(left: Expr, right: Expr, c: Context, n: nat, w: World, s: CState, env: PyEnv)
    requires s.Run? && Active(s) && Below(s.env, n) && Matches(c, env, w, s.comp)
    requires IsAttr(left, "dtype") && IsAttr(right, "dtype") && LoweredDtype(left, c, n).Some?
    requires LoweredDtype(right, c, LoweredDtype(left, c, n).value.next).Some?
    ensures var l := LoweredDtype(left, c, n).value;
            var r := LoweredDtype(right, c, l.next).value;
            var a, b := PyDtype(left, env), PyDtype(right, env);
            ValuesRead(w, s, Exec(w, s, l.lines + r.lines), l.value, r.value, After(a, b), Address(a), Address(b), n,
                       r.next)
  {
    hide Step;
    hide Exec;
    var l := LoweredDtype(left, c, n).value;
    var r := LoweredDtype(right, c, l.next).value;
    var a, b := PyDtype(left, env), PyDtype(right, env);
    ExecConcat(w, s, l.lines, r.lines);
    SimDtype(left, c, n, w, s, env);
    var s1 := Exec(w, s, l.lines);
    if !s1.Run? {
      ExecEnded(w, s1, r.lines);
      PrefixOfPrefix(s1.trace, s.trace, a.trace, b.trace);
    } else {
      ExtendsBelow(s.env, s1.env, n, l.next);
      SimDtype(right, c, l.next, w, s1, env);
      var s2 := Exec(w, s1, r.lines);
      assert s.trace + (a.trace + b.trace) == s1.trace + b.trace;
      if s2.Run? {
        ExtendsTrans(s.env, s1.env, s2.env, n, l.next, r.next);
        ReadStable(w, s1, s2, l.value, l.next, r.next);
      }
    }
  }

  lemma SimTwoDtypes(left: Expr, right: Expr, order: Order, c: Context, n: nat, w: World, s: CState, env: PyEnv)
    requires s.Run? && Active(s) && Below(s.env, n) && Matches(c, env, w, s.comp)
    requires IsAttr(left, "dtype") && IsAttr(right, "dtype") && (order.PyEq? || order.PyNe?)
    requires LoweredDtype(left, c, n + 1).Some?
    requires LoweredDtype(right, c, LoweredDtype(left, c, n + 1).value.next).Some?
    ensures var l := LoweredDtype(left, c, n + 1).value;
            var em := Compared(n + 1, l, RelOf(order), LoweredDtype(right, c, l.next).value);
            Simulates(w, s, Exec(w, s, em.lines), em, PyTwoDtypes(left, right, order, env), n)
  {
    hide RunInput;
    hide RunCompute;
    hide Exec;
    var a, b := PyDtype(left, env), PyDtype(right, env);
    var l := LoweredDtype(left, c, n + 1).value;
    var r := LoweredDtype(right, c, l.next).value;
    TwoDtypesRead(left, right, c, n + 1, w, Step(w, s, DeclareZero(n + 1)), env);
    if a.result.Value? && b.result.Value? {
      AddressBitsInjective(a.result.v.n, b.result.v.n);
    }
    SimCompared(w, s, RelOf(order), l, r, After(a, b), Address(a), Address(b), PyOnScalars(a, b, order), n);
  }

  function PyOnScalars(a: Outcome, b: Outcome, order: Order): Outcome {
    if Scalars(a, b) then PyCompareValues(Ordering(order), a.result.v, b.result.v) else NotScalar()
  }

  function PyTwoDtypes(left: Expr, right: Expr, order: Order, env: PyEnv): Outcome
    requires IsAttr(left, "dtype") && IsAttr(right, "dtype")
  {
    After(After(PyDtype(left, env), PyDtype(right, env)), PyOnScalars(PyDtype(left, env), PyDtype(right, env), order))
  }

  lemma ExecCompared(w: World, s: CState, v: nat, l: Emission, rel: Rel, r: Emission)
    ensures Exec(w, s, Compared(v, l, rel, r).lines)
         == Exec(w, Exec(w, Step(w, s, DeclareZero(v)), l.lines + r.lines), [SetRel(v, l.value, rel, r.value)])
  {
    hide Step;
    var put := [SetRel(v, l.value, rel, r.value)];
    ExecConcat(w, s, [DeclareZero(v)], l.lines + r.lines + put);
    ExecOne(w, s, DeclareZero(v));
    ExecConcat(w, Step(w, s, DeclareZero(v)), l.lines + r.lines, put);
  }

  // ---------------------------------------------------------------- branches

  /** A branch that runs: its lines, then the result stored in the pair declared outside,
      leaves just that pair changed once the block is closed. */
  lemma BranchStores(w: World, s: CState, s1: CState, em: Emission, p: Outcome, v: nat, b: nat, n: nat)
    requires s.Run? && s1.Run? && Active(s) && Below(s.env, n) && v in s.env && b in s.env && v != b
    requires Simulates(w, s, s1, em, p, n) && OwnTemps(em, n)
    ensures var s2 := Step(w, s1, SetPair(v, b, em.value, em.isBool));
            && s2.Run? && s2 == s1.(env := s2.env) && Below(s2.env, em.next)
            && PairHolds(s2.env, v, b, p.result.v)
            && Restrict(s2.env, s.env.Keys) == WithPair(s.env, v, b, p.result.v)
  {
    hide RunLine;
    SetPairRuns(w, s1, v, b, em.value, em.isBool);
    PairStored(w, s1, v, b, em.value, em.isBool);
  }

  ghost predicate PairHolds(env: map<nat, Cell>, v: nat, b: nat, x: PyVal)
    requires IsScalar(x)
  {
    v in env && b in env && env[v] == Holding(AsInt(x)) && env[b] == Holding(BoolInt(x.PyBool?))
  }

  function WithPair(env: map<nat, Cell>, v: nat, b: nat, x: PyVal): map<nat, Cell>
    requires IsScalar(x)
  {
    env[v := Holding(AsInt(x))][b := Holding(BoolInt(x.PyBool?))]
  }

  /** The rest of a BoolOp changes nothing but its result pair. */
  ghost predicate RestSimulates(s: CState, s': CState, v: nat, b: nat, p: Outcome)
    requires s.Run?
  {
    match s'
    case Stuck => false
    case Fail(t) => t <= s.trace + p.trace && !Finishes(p)
    case Run(_, _, _, _, _) =>
      && Finishes(p) && FitsC(p.result.v)
      && s' == s.(env := WithPair(s.env, v, b, p.result.v), trace := s.trace + p.trace)
  }

  ghost predicate Ready(w: World, s: CState, c: Context, env: PyEnv, n: nat) {
    s.Run? && Active(s) && Below(s.env, n) && Matches(c, env, w, s.comp)
  }

  /** One further operand, run inside its block up to where the block closes. */
  lemma RestStep(w: World, s: CState, s1: CState, x: Emission, r: Emission, a: Outcome, rest: Outcome, v: nat, b: nat,
                 n: nat)
    requires s.Run? && Active(s) && Below(s.env, n) && v in s.env && b in s.env && v != b && OwnTemps(x, n)
    requires s1 == s.(blocks := s.blocks + [Live(s.env.Keys)])
    requires Simulates(w, s1, Exec(w, s1, x.lines), x, a, n)
    requires var put := SetPair(v, b, x.value, x.isBool);
             Exec(w, s1, x.lines).Run? ==>
               var s3 := Step(w, Exec(w, s1, x.lines), put);
               s3.Run? && RestSimulates(s3, Exec(w, s3, r.lines), v, b, rest)
    ensures var put := SetPair(v, b, x.value, x.isBool);
            RestSimulates(s, Step(w, Exec(w, s1, x.lines + [put] + r.lines), Close), v, b, After(a, rest))
  {
    hide RunLine;
    hide Exec;
    var put := SetPair(v, b, x.value, x.isBool);
    var s2 := Exec(w, s1, x.lines);
    ExecConcat(w, s1, x.lines + [put], r.lines);
    ExecConcat(w, s1, x.lines, [put]);
    ExecOne(w, s2, put);
    if !s2.Run? {
      ExecEnded(w, s2, r.lines);
      if a.result.Value? {
        PrefixOfPrefix(s2.trace, s.trace, a.trace, rest.trace);
      }
    } else {
      BranchStores(w, s1, s2, x, a, v, b, n);
      var s3 := Step(w, s2, put);
      var s4 := Exec(w, s3, r.lines);
      assert s.trace + (a.trace + rest.trace) == s3.trace + rest.trace;
      if s4.Run? {
        LeaveBlock(w, s4, s.blocks, Live(s.env.Keys));
        assert Restrict(WithPair(s3.env, v, b, rest.result.v), s.env.Keys)
            == WithPair(Restrict(s3.env, s.env.Keys), v, b, rest.result.v);
        assert WithPair(WithPair(s.env, v, b, a.result.v), v, b, rest.result.v) == WithPair(s.env, v, b, rest.result.v);
      }
    }
  }

  lemma {:induction false} RestOfBoolOp(isAnd: bool, v: nat, b: nat, rest: seq<Expr>, c: Context, n: nat,
                                        w: World, s: CState, env: PyEnv, cur: PyVal)
    requires Ready(w, s, c, env, n) && FitsC(cur) && v != b && PairHolds(s.env, v, b, cur)
    requires (forall x :: x in rest ==> LiteralsOk(x, c)) && LoweredRest(isAnd, v, b, rest, c, n).Some?
    ensures RestSimulates(s, Exec(w, s, LoweredRest(isAnd, v, b, rest, c, n).value.lines), v, b,
                          PyRest(isAnd, cur, rest, env))
    decreases rest, 0
  {
    hide RunLine;
    if rest == [] {
      assert s.trace + [] == s.trace && WithPair(s.env, v, b, cur) == s.env;
    } else {
      var x := Lowered(rest[0], c, n).value;
      var r := LoweredRest(isAnd, v, b, rest[1..], c, x.next).value;
      var put := SetPair(v, b, x.value, x.isBool);
      var body := x.lines + [put] + r.lines;
      LoweredShape(rest[0], c, n);
      LoweredRestShape(isAnd, v, b, rest[1..], c, x.next);
      ExecIf(w, s, !isAnd, Temp(v), body);
      EnterBlock(w, s, !isAnd, Temp(v));
      var s1 := Step(w, s, IfOpen(!isAnd, Temp(v)));
      if (AsInt(cur) != 0) != isAnd {
        SkipLine(put);
        SkipConcat(x.lines, [put]);
        SkipConcat(x.lines + [put], r.lines);
        LeaveBlock(w, s1, s.blocks, Pending(s.env.Keys));
        assert s.trace + [] == s.trace && WithPair(s.env, v, b, cur) == s.env;
      } else {
        var a := PyEval(rest[0], env);
        LoweringSimulates(rest[0], c, n, w, s1, env);
        var s2 := Exec(w, s1, x.lines);
        if s2.Run? {
          BranchStores(w, s1, s2, x, a, v, b, n);
          RestOfBoolOp(isAnd, v, b, rest[1..], c, x.next, w, Step(w, s2, put), env, a.result.v);
        }
        RestStep(w, s, s1, x, r, a, if a.result.Value? then PyRest(isAnd, a.result.v, rest[1..], env)
          else NotScalar(), v, b, n);
      }
    }
  }

  /** The main result. From any running state, the lines of an accepted expression leave the
      value and type Python computes exactly when Python computes one from int64 ints and
      bools; they call tensors and divide just where Python does, in Python's order; and they
      only ever name temps in scope. */
  lemma {:induction false} LoweringSimulates(e: Expr, c: Context, n: nat, w: World, s: CState, env: PyEnv)
    requires Ready(w, s, c, env, n) && LiteralsOk(e, c) && Lowered(e, c, n).Some?
    ensures var em := Lowered(e, c, n).value;
            Simulates(w, s, Exec(w, s, em.lines), em, PyEval(e, env), n)
    decreases e, 3
  {
    match e
    case Input(key) => SimInput(key, c, n, w, s, env);
    case Constant(lit) => SimConstant(lit, c, n, w, s, env);
    case BinOp(_, _, _) => SimBinOp(e, c, n, w, s, env);
    case UnaryOp(_, _) => SimUnaryOp(e, c, n, w, s, env);
    case Compare(_, _, _) => SimCompare(e, c, n, w, s, env);
    case BoolOp(_, _, _) => SimBoolOp(e, c, n, w, s, env);
    case IfExp(_, _, _) => SimIfExp(e, c, n, w, s, env);
    case CallExpr(_, _, _) => SimCall(e, c, n, w, s, env);
    case Subscript(_, _) =>
      var r := TensorRead(e).value;
      SimTensor(r.0, r.1, r.2, c, n, w, s, env);
  }

  /** Two operands from subexpressions, left first. */
  lemma SimOperands(parent: Expr, left: Expr, right: Expr, c: Context, n: nat, w: World, s: CState, env: PyEnv)
    requires left < parent && right < parent
    requires Ready(w, s, c, env, n) && LiteralsOk(left, c) && LiteralsOk(right, c)
    requires Lowered(left, c, n).Some? && Lowered(right, c, Lowered(left, c, n).value.next).Some?
    ensures var l := Lowered(left, c, n).value;
            var r := Lowered(right, c, l.next).value;
            var s2 := Exec(w, s, l.lines + r.lines);
            && BothRead(w, s, s2, l, r, PyEval(left, env), PyEval(right, env), n)
            && n <= r.next && (s2.Run? ==> Below(s2.env, r.next))
    decreases parent, 0
  {
    hide Exec;
    hide Step;
    hide Lowered;
    var l := Lowered(left, c, n).value;
    LoweringSimulates(left, c, n, w, s, env);
    LoweredShape(left, c, n);
    LoweredShape(right, c, l.next);
    var s1 := Exec(w, s, l.lines);
    if s1.Run? {
      LoweringSimulates(right, c, l.next, w, s1, env);
    }
    TwoOperands(w, s, l, Lowered(right, c, l.next).value, PyEval(left, env), PyEval(right, env), n);
  }

  lemma SimBinOp(e: Expr, c: Context, n: nat, w: World, s: CState, env: PyEnv)
    requires e.BinOp? && Ready(w, s, c, env, n) && LiteralsOk(e, c) && Lowered(e, c, n).Some?
    ensures var em := Lowered(e, c, n).value;
            Simulates(w, s, Exec(w, s, em.lines), em, PyEval(e, env), n)
    decreases e, 1
  {
    hide Exec;
    hide Step;
    var em, op := Lowered(e, c, n).value, ArithName(e.op).value;
    var l := Lowered(e.left, c, n).value;
    var r := Lowered(e.right, c, l.next).value;
    var a, b := PyEval(e.left, env), PyEval(e.right, env);
    var o := if Scalars(a, b) then PyArith(e.op, AsInt(a.result.v), AsInt(b.result.v)) else NotScalar();
    var s2 := Exec(w, s, l.lines + r.lines);
    SimOperands(e, e.left, e.right, c, n, w, s, env);
    ExecConcat(w, s, l.lines + r.lines, [DeclareZero(em.next), Arith(op, l.value, r.value, em.next)]);
    if s2.Fail? {
      StoppedEarly(w, s, s2, [DeclareZero(em.next), Arith(op, l.value, r.value, em.next)], em, After(a, b), o, n);
    } else {
      ArithAgrees(e.op, AsInt(a.result.v), AsInt(b.result.v));
      SimArithTail(w, s, s2, em.next, op, l, r, a, b, o, em, n);
    }
  }

  /** One operand, then a fresh temp filled from it. */
  lemma SimOneTail(w: World, s: CState, x: Emission, a: Outcome, line: Line, st: Status, flag: bool, o: Outcome,
                   em: Emission, n: nat)
    requires s.Run? && Active(s) && n <= x.next && Simulates(w, s, Exec(w, s, x.lines), x, a, n)
    requires Below(s.env, n) && em.next == x.next + 1 && em.value == Temp(em.next) && em.isBool == Lit(BoolInt(flag))
    requires em.lines == x.lines + [DeclareZero(em.next), line]
    requires Finishes(a) && FitsC(a.result.v) ==>
               && (forall s3: CState ::
                 s3.Run? && Active(s3) && Read(w, s3, x.value) == Some(AsInt(a.result.v)) && em.next in s3.env
                 ==> Step(w, s3, line) == StoreStatus(Logged(s3, o.trace), em.next, st))
               && (st.Ok? <==> Finishes(o))
               && (st.Ok? ==> FitsC(o.result.v) && AsInt(o.result.v) == st.value && o.result.v.PyBool? == flag)
    ensures Simulates(w, s, Exec(w, s, em.lines), em, After(a, o), n)
  {
    hide Exec;
    hide RunInput;
    hide RunCompute;
    var s2 := Exec(w, s, x.lines);
    ExecConcat(w, s, x.lines, [DeclareZero(em.next), line]);
    if s2.Fail? {
      StoppedEarly(w, s, s2, [DeclareZero(em.next), line], em, a, o, n);
    } else {
      ExtendsBelow(s.env, s2.env, n, x.next);
      ExecTwo(w, s2, DeclareZero(em.next), line);
      DeclaredReads(w, s2, em.next, Holding(0), x.value);
      Finish(w, s, s2, em.next, st, flag, a, o, em, n);
    }
  }

  function UnaryStatus(op: UnaryKind, k: int): Status {
    if op.Not? then Ok(BoolInt(k == 0)) else if op.USub? then Checked(0 - k) else Ok(k)
  }

  lemma UnaryLineRuns(w: World, s: CState, op: UnaryKind, x: Operand, v: nat, k: int)
    requires s.Run? && Active(s) && Read(w, s, x) == Some(k) && UnaryLine(op, x, v).Some?
    ensures Step(w, s, UnaryLine(op, x, v).value) == StoreStatus(Logged(s, []), v, UnaryStatus(op, k))
  {
    hide Smear;
    assert s.trace + [] == s.trace;
  }

  lemma SimUnaryOp(e: Expr, c: Context, n: nat, w: World, s: CState, env: PyEnv)
    requires e.UnaryOp? && Ready(w, s, c, env, n) && LiteralsOk(e, c) && Lowered(e, c, n).Some?
    ensures var em := Lowered(e, c, n).value;
            Simulates(w, s, Exec(w, s, em.lines), em, PyEval(e, env), n)
    decreases e, 1
  {
    hide Exec;
    hide Step;
    var x, em := Lowered(e.operand, c, n).value, Lowered(e, c, n).value;
    var a := PyEval(e.operand, env);
    LoweredShape(e.operand, c, n);
    LoweringSimulates(e.operand, c, n, w, s, env);
    var o := if a.result.Value? && IsScalar(a.result.v) then PyUnary(e.uop, a.result.v) else NotScalar();
    var k := if a.result.Value? && IsScalar(a.result.v) then AsInt(a.result.v) else 0;
    var line := UnaryLine(e.uop, x.value, em.next).value;
    forall s3: CState | s3.Run? && Active(s3) && Read(w, s3, x.value) == Some(k) && em.next in s3.env
      ensures Step(w, s3, line) == StoreStatus(Logged(s3, []), em.next, UnaryStatus(e.uop, k))
    {
      UnaryLineRuns(w, s3, e.uop, x.value, em.next, k);
    }
    SimOneTail(w, s, x, a, line, UnaryStatus(e.uop, k), e.uop.Not?, o, em, n);
  }

  lemma SimCompare(e: Expr, c: Context, n: nat, w: World, s: CState, env: PyEnv)
    requires e.Compare? && Ready(w, s, c, env, n) && LiteralsOk(e, c) && LoweredCompare(e, c, n).Some?
    ensures var em := LoweredCompare(e, c, n).value;
            Simulates(w, s, Exec(w, s, em.lines), em, PyCompare(e, env), n)
    decreases e, 1
  {
    hide Exec;
    hide Step;
    var left, op, right := e.left, e.ops[0], e.comparators[0];
    if op.Is? || op.IsNot? {
      SimIsNone(e, c, n, w, s, env);
    } else if IsAttr(left, "dtype") || IsAttr(right, "dtype") {
      SimTwoDtypes(left, right, op.order, c, n, w, s, env);
    } else {
      DeclareZeroRuns(w, s, n + 1);
      SimOperands(e, left, right, c, n + 1, w, Step(w, s, DeclareZero(n + 1)), env);
      var l := Lowered(left, c, n + 1).value;
      CompareOperands(w, s, op.order, l, Lowered(right, c, l.next).value, PyEval(left, env), PyEval(right, env), n);
    }
  }

  lemma CompareOperands(w: World, s: CState, order: Order, l: Emission, r: Emission, a: Outcome, b: Outcome, n: nat)
    requires s.Run? && Active(s) && Below(s.env, n)
    requires var s0 := Step(w, s, DeclareZero(n + 1));
             s0.Run? && BothRead(w, s0, Exec(w, s0, l.lines + r.lines), l, r, a, b, n + 1)
    ensures var em := Compared(n + 1, l, RelOf(order), r);
            Simulates(w, s, Exec(w, s, em.lines), em, After(After(a, b), PyOnScalars(a, b, order)), n)
  {
    hide Exec;
    hide Step;
    var s0 := Step(w, s, DeclareZero(n + 1));
    var x, y := if a.result.Value? && IsScalar(a.result.v) then AsInt(a.result.v) else 0,
                if b.result.Value? && IsScalar(b.result.v) then AsInt(b.result.v) else 0;
    BothAsValues(w, s0, Exec(w, s0, l.lines + r.lines), l, r, a, b, x, y, n + 1);
    SimCompared(w, s, RelOf(order), l, r, After(a, b), x, y, PyOnScalars(a, b, order), n);
  }

  lemma BothAsValues(w: World, s: CState, s2: CState, l: Emission, r: Emission, a: Outcome, b: Outcome, x: int, y: int,
                     n: int)
    requires s.Run? && BothRead(w, s, s2, l, r, a, b, n)
    requires a.result.Value? && IsScalar(a.result.v) ==> x == AsInt(a.result.v)
    requires b.result.Value? && IsScalar(b.result.v) ==> y == AsInt(b.result.v)
    ensures ValuesRead(w, s, s2, l.value, r.value, After(a, b), x, y, n, r.next)
  {
  }

  lemma SetNoneRuns(w: World, s: CState, v: nat, test: NoneTest, negate: bool)
    requires s.Run? && Active(s) && v in s.env && (test.ArgIsNone? ==> test.index < |w.args|)
    ensures Step(w, s, SetNone(v, test, negate))
         == s.(env := s.env[v := Holding(BoolInt((if test.Always? then test.b
           else w.args[test.index] == PyNone) != negate))])
  {
  }

  lemma SimIsNone(e: Expr, c: Context, n: nat, w: World, s: CState, env: PyEnv)
    requires e.Compare? && Ready(w, s, c, env, n) && LoweredCompare(e, c, n).Some? && (e.ops[0].Is? || e.ops[0].IsNot?)
    ensures var em := LoweredCompare(e, c, n).value;
            Simulates(w, s, Exec(w, s, em.lines), em, PyCompare(e, env), n)
  {
    hide Step;
    hide Exec;
    var em, key := LoweredCompare(e, c, n).value, e.left.key;
    assert SourceMatches(c.sources[key], env.inputs[key], w, s.comp);
    var test := NoneTestOf(c.sources[key]);
    ExecTwo(w, s, DeclareZero(n + 1), SetNone(n + 1, test, e.ops[0].IsNot?));
    DeclareZeroRuns(w, s, n + 1);
    SetNoneRuns(w, Step(w, s, DeclareZero(n + 1)), n + 1, test, e.ops[0].IsNot?);
    assert s.trace + [] == s.trace;
  }

  lemma SimCall(e: Expr, c: Context, n: nat, w: World, s: CState, env: PyEnv)
    requires e.CallExpr? && Ready(w, s, c, env, n) && LiteralsOk(e, c) && Lowered(e, c, n).Some?
    ensures var em := Lowered(e, c, n).value;
            Simulates(w, s, Exec(w, s, em.lines), em, PyEval(e, env), n)
    decreases e, 2
  {
    if IsBuiltin(e, "min") {
      SimMinMaxCall(e, true, c, n, w, s, env);
    } else if IsBuiltin(e, "max") {
      SimMinMaxCall(e, false, c, n, w, s, env);
    } else if !e.keywords && IsTriton(e.func, "cdiv") {
      SimCdivCall(e, c, n, w, s, env);
    } else if !e.keywords && IsTriton(e.func, "next_power_of_2") {
      SimNextPow2(e, c, n, w, s, env);
    } else {
      var r := TensorRead(e).value;
      SimTensor(r.0, r.1, r.2, c, n, w, s, env);
    }
  }

  /** How a two-argument call unfolds on both sides. */
  lemma UnfoldMinMax(e: Expr, isMin: bool, c: Context, n: nat)
    requires IsBuiltin(e, if isMin then "min" else "max") && Lowered(e, c, n).Some?
    ensures Lowered(e.args[0], c, n).Some?
    ensures Lowered(e.args[1], c, Lowered(e.args[0], c, n).value.next).Some?
    ensures var l := Lowered(e.args[0], c, n).value;
            var r := Lowered(e.args[1], c, l.next).value;
            Lowered(e, c, n).value == LoweredMinMax(isMin, l, r)
  {
    hide METHODS;
    hide LoweredCompare;
    hide LoweredRest;
    assert TensorRead(e).None? && "min" != "max" && (isMin <==> IsBuiltin(e, "min"));
  }

  lemma UnfoldPyMinMax(e: Expr, isMin: bool, env: PyEnv)
    requires IsBuiltin(e, if isMin then "min" else "max")
    ensures PyEval(e, env)
         == After(After(PyEval(e.args[0], env), PyEval(e.args[1], env)),
                  PyOnMinMax(isMin, PyEval(e.args[0], env), PyEval(e.args[1], env)))
  {
    hide PyTensorRead;
    hide PyCompare;
    hide PyRest;
    hide PyInput;
    assert "min" != "max" && (isMin <==> IsBuiltin(e, "min"));
  }

  lemma UnfoldCdiv(e: Expr, c: Context, n: nat)
    requires e.CallExpr? && !e.keywords && IsTriton(e.func, "cdiv") && Lowered(e, c, n).Some?
    ensures |e.args| == 2 && Lowered(e.args[0], c, n).Some?
    ensures Lowered(e.args[1], c, Lowered(e.args[0], c, n).value.next).Some?
    ensures var l := Lowered(e.args[0], c, n).value;
            var r := Lowered(e.args[1], c, l.next).value;
            Lowered(e, c, n).value == LoweredCdiv(l, r)
  {
    hide METHODS;
    hide LoweredCompare;
    hide LoweredRest;
    assert TensorRead(e).None? && !IsBuiltin(e, "min") && !IsBuiltin(e, "max");
  }

  lemma UnfoldPyCdiv(e: Expr, env: PyEnv)
    requires e.CallExpr? && !e.keywords && IsTriton(e.func, "cdiv") && |e.args| == 2
    ensures PyEval(e, env)
         == After(After(PyEval(e.args[0], env), PyEval(e.args[1], env)),
                  PyOnCdiv(PyEval(e.args[0], env), PyEval(e.args[1], env)))
  {
    hide PyTensorRead;
    hide PyCompare;
    hide PyRest;
    hide PyInput;
    assert e.func == Attribute(Name("triton"), "cdiv");
  }

  function Select(isMin: bool, l: Emission, r: Emission): Line {
    SelectPair(if isMin then Lt else Gt, r.value, l.value, r.next + 1, r.next + 2, r.isBool, l.isBool)
  }

  function LoweredMinMax(isMin: bool, l: Emission, r: Emission): Emission {
    Joined(l, r, [DeclarePair(r.next + 1, r.next + 2), Select(isMin, l, r)], r.next + 2, Temp(r.next + 1),
           Temp(r.next + 2))
  }

  function LoweredCdiv(l: Emission, r: Emission): Emission {
    Joined(l, r, [DeclareZero(r.next + 1), Arith(Cdiv, l.value, r.value, r.next + 1)], r.next + 1, Temp(r.next + 1),
           Lit(0))
  }

  function PyOnMinMax(isMin: bool, a: Outcome, b: Outcome): Outcome {
    if Scalars(a, b) then PyMinMax(isMin, a.result.v, b.result.v) else NotScalar()
  }

  function PyOnCdiv(a: Outcome, b: Outcome): Outcome {
    if Scalars(a, b) then PyArith(BinFloorDiv, AsInt(a.result.v) + AsInt(b.result.v) - 1, AsInt(b.result.v))
    else NotScalar()
  }

  lemma CallLiterals(e: Expr, c: Context)
    requires e.CallExpr? && TensorRead(e).None?
    ensures LiteralsOk(e, c) <==> forall x :: x in e.args ==> LiteralsOk(x, c)
  {
  }

  lemma SimMinMaxCall(e: Expr, isMin: bool, c: Context, n: nat, w: World, s: CState, env: PyEnv)
    requires IsBuiltin(e, if isMin then "min" else "max")
    requires Ready(w, s, c, env, n) && LiteralsOk(e, c) && Lowered(e, c, n).Some?
    ensures var em := Lowered(e, c, n).value;
            Simulates(w, s, Exec(w, s, em.lines), em, PyEval(e, env), n)
    decreases e, 1
  {
    hide Exec;
    hide Step;
    CallLiterals(e, c);
    UnfoldMinMax(e, isMin, c, n);
    UnfoldPyMinMax(e, isMin, env);
    hide Lowered;
    hide PyEval;
    hide LiteralsOk;
    SimOperands(e, e.args[0], e.args[1], c, n, w, s, env);
    var l := Lowered(e.args[0], c, n).value;
    SimMinMax(w, s, isMin, l, Lowered(e.args[1], c, l.next).value, PyEval(e.args[0], env), PyEval(e.args[1], env), n);
  }

  lemma SimCdivCall(e: Expr, c: Context, n: nat, w: World, s: CState, env: PyEnv)
    requires e.CallExpr? && !e.keywords && IsTriton(e.func, "cdiv")
    requires Ready(w, s, c, env, n) && LiteralsOk(e, c) && Lowered(e, c, n).Some?
    ensures var em := Lowered(e, c, n).value;
            Simulates(w, s, Exec(w, s, em.lines), em, PyEval(e, env), n)
    decreases e, 1
  {
    hide Exec;
    hide Step;
    CallLiterals(e, c);
    UnfoldCdiv(e, c, n);
    UnfoldPyCdiv(e, env);
    hide Lowered;
    hide PyEval;
    hide LiteralsOk;
    SimOperands(e, e.args[0], e.args[1], c, n, w, s, env);
    var l := Lowered(e.args[0], c, n).value;
    SimCdiv(w, s, l, Lowered(e.args[1], c, l.next).value, PyEval(e.args[0], env), PyEval(e.args[1], env), n);
  }

  lemma SimMinMax(w: World, s: CState, isMin: bool, l: Emission, r: Emission, a: Outcome, b: Outcome, n: nat)
    requires s.Run? && Active(s) && n <= r.next && BothRead(w, s, Exec(w, s, l.lines + r.lines), l, r, a, b, n)
    requires Exec(w, s, l.lines + r.lines).Run? ==> Below(Exec(w, s, l.lines + r.lines).env, r.next)
    ensures var em := LoweredMinMax(isMin, l, r);
            Simulates(w, s, Exec(w, s, em.lines), em, After(After(a, b), PyOnMinMax(isMin, a, b)), n)
  {
    hide Exec;
    hide Step;
    var tail := [DeclarePair(r.next + 1, r.next + 2), Select(isMin, l, r)];
    ExecConcat(w, s, l.lines + r.lines, tail);
    var s2 := Exec(w, s, l.lines + r.lines);
    if s2.Fail? {
      StoppedEarly(w, s, s2, tail, LoweredMinMax(isMin, l, r), After(a, b), PyOnMinMax(isMin, a, b), n);
    } else {
      SimSelectTail(w, s, s2, isMin, l, r, a, b, n);
    }
  }

  lemma SimCdiv(w: World, s: CState, l: Emission, r: Emission, a: Outcome, b: Outcome, n: nat)
    requires s.Run? && Active(s) && n <= r.next && BothRead(w, s, Exec(w, s, l.lines + r.lines), l, r, a, b, n)
    requires Exec(w, s, l.lines + r.lines).Run? ==> Below(Exec(w, s, l.lines + r.lines).env, r.next)
    ensures var em := LoweredCdiv(l, r);
            Simulates(w, s, Exec(w, s, em.lines), em, After(After(a, b), PyOnCdiv(a, b)), n)
  {
    hide Exec;
    hide Step;
    var v := r.next + 1;
    var tail := [DeclareZero(v), Arith(Cdiv, l.value, r.value, v)];
    ExecConcat(w, s, l.lines + r.lines, tail);
    var s2 := Exec(w, s, l.lines + r.lines);
    if s2.Fail? {
      StoppedEarly(w, s, s2, tail, LoweredCdiv(l, r), After(a, b), PyOnCdiv(a, b), n);
    } else {
      SimArithTail(w, s, s2, v, Cdiv, l, r, a, b, PyOnCdiv(a, b), LoweredCdiv(l, r), n);
    }
  }

  lemma UnfoldNextPow2(e: Expr, c: Context, n: nat)
    requires e.CallExpr? && !e.keywords && IsTriton(e.func, "next_power_of_2") && Lowered(e, c, n).Some?
    ensures |e.args| == 1 && Lowered(e.args[0], c, n).Some?
    ensures Lowered(e, c, n).value == LoweredNextPow2(Lowered(e.args[0], c, n).value)
  {
    hide METHODS;
    assert TensorRead(e).None? && !IsBuiltin(e, "min") && !IsBuiltin(e, "max");
  }

  lemma UnfoldPyNextPow2(e: Expr, env: PyEnv)
    requires e.CallExpr? && !e.keywords && IsTriton(e.func, "next_power_of_2") && |e.args| == 1
    ensures PyEval(e, env) == After(PyEval(e.args[0], env), PyOnNextPow2(PyEval(e.args[0], env)))
  {
    hide Smear;
    hide PyTensorRead;
    hide PyCompare;
    hide PyRest;
    hide PyInput;
    assert e.func == Attribute(Name("triton"), "next_power_of_2") && "cdiv" != "next_power_of_2";
  }

  function LoweredNextPow2(x: Emission): Emission {
    Emission(x.lines + [DeclareZero(x.next + 1), NextPow2Call(x.value, x.next + 1)], x.next + 1, Temp(x.next + 1),
             Lit(0))
  }

  function PyOnNextPow2(a: Outcome): Outcome {
    if a.result.Value? && IsScalar(a.result.v) then PyNextPow2(AsInt(a.result.v)) else NotScalar()
  }

  lemma NextPow2Runs(w: World, s: CState, x: Operand, v: nat, k: int)
    requires s.Run? && Active(s) && Read(w, s, x) == Some(k)
    ensures Step(w, s, NextPow2Call(x, v)) == StoreStatus(Logged(s, []), v, NextPow2Status(k))
  {
    hide Smear;
    assert s.trace + [] == s.trace;
  }

  lemma SimNextPow2(e: Expr, c: Context, n: nat, w: World, s: CState, env: PyEnv)
    requires e.CallExpr? && !e.keywords && IsTriton(e.func, "next_power_of_2")
    requires Ready(w, s, c, env, n) && LiteralsOk(e, c) && Lowered(e, c, n).Some?
    ensures var em := Lowered(e, c, n).value;
            Simulates(w, s, Exec(w, s, em.lines), em, PyEval(e, env), n)
    decreases e, 1
  {
    hide Smear;
    hide Exec;
    hide Step;
    CallLiterals(e, c);
    hide LiteralsOk;
    UnfoldNextPow2(e, c, n);
    UnfoldPyNextPow2(e, env);
    hide Lowered;
    hide PyEval;
    var x, em := Lowered(e.args[0], c, n).value, Lowered(e, c, n).value;
    var a := PyEval(e.args[0], env);
    LoweredShape(e.args[0], c, n);
    LoweringSimulates(e.args[0], c, n, w, s, env);
    var k := if a.result.Value? && IsScalar(a.result.v) then AsInt(a.result.v) else 0;
    var o := if a.result.Value? && IsScalar(a.result.v) then PyNextPow2(k) else NotScalar();
    forall s3: CState | s3.Run? && Active(s3) && Read(w, s3, x.value) == Some(k) && em.next in s3.env
      ensures Step(w, s3, NextPow2Call(x.value, em.next)) == StoreStatus(Logged(s3, []), em.next, NextPow2Status(k))
    {
      NextPow2Runs(w, s3, x.value, em.next, k);
    }
    SimOneTail(w, s, x, a, NextPow2Call(x.value, em.next), NextPow2Status(k), false, o, em, n);
  }

  lemma SimBoolOp(e: Expr, c: Context, n: nat, w: World, s: CState, env: PyEnv)
    requires e.BoolOp? && Ready(w, s, c, env, n) && LiteralsOk(e, c) && Lowered(e, c, n).Some?
    ensures var em := Lowered(e, c, n).value;
            Simulates(w, s, Exec(w, s, em.lines), em, PyEval(e, env), n)
    decreases e, 1
  {
    hide Exec;
    hide Step;
    var v, t, em := n + 1, n + 2, Lowered(e, c, n).value;
    var x := Lowered(e.first, c, t).value;
    var r := LoweredRest(e.isAnd, v, t, e.rest, c, x.next).value;
    var put := SetPair(v, t, x.value, x.isBool);
    ExecConcat(w, s, [DeclarePair(v, t)], x.lines + [put] + r.lines);
    ExecOne(w, s, DeclarePair(v, t));
    var s0 := Step(w, s, DeclarePair(v, t));
    DeclarePairRuns(w, s, v, t);
    ExecConcat(w, s0, x.lines + [put], r.lines);
    ExecConcat(w, s0, x.lines, [put]);
    LoweredShape(e.first, c, t);
    LoweredRestShape(e.isAnd, v, t, e.rest, c, x.next);
    LoweringSimulates(e.first, c, t, w, s0, env);
    var a := PyEval(e.first, env);
    var o := if a.result.Value? then PyRest(e.isAnd, a.result.v, e.rest, env) else NotScalar();
    var s1 := Exec(w, s0, x.lines);
    ExecOne(w, s1, put);
    if s1.Fail? {
      ExecEnded(w, s1, [put]);
      ExecEnded(w, s1, r.lines);
      StoppedEarly(w, s, s1, [], em, a, o, n);
    } else {
      BranchStores(w, s0, s1, x, a, v, t, t);
      var s2 := Step(w, s1, put);
      RestOfBoolOp(e.isAnd, v, t, e.rest, c, x.next, w, s2, env, a.result.v);
      PairResult(w, s, s0, s1, s2, Exec(w, s2, r.lines), x, a, o, em, n);
    }
  }

  /** The pair declared first holds the result once the operands and the rest have run. */
  lemma PairResult(w: World, s: CState, s0: CState, s1: CState, s2: CState, s3: CState, x: Emission, a: Outcome,
                   o: Outcome, em: Emission, n: nat)
    requires s.Run? && Below(s.env, n) && s0 == s.(env := s.env[n + 1 := Holding(0)][n + 2 := Holding(0)])
    requires s1.Run? && Simulates(w, s0, s1, x, a, n + 2) && OwnTemps(x, n + 2)
    requires s2 == Step(w, s1, SetPair(n + 1, n + 2, x.value, x.isBool)) && Active(s0)
    requires s2.Run? && RestSimulates(s2, s3, n + 1, n + 2, o)
    requires x.next <= em.next && em.value == Temp(n + 1) && em.isBool == Temp(n + 2)
    ensures Simulates(w, s, s3, em, After(a, o), n)
  {
    hide RunLine;
    SetPairRuns(w, s1, n + 1, n + 2, x.value, x.isBool);
    PairStored(w, s1, n + 1, n + 2, x.value, x.isBool);
    assert s.trace + (a.trace + o.trace) == s2.trace + o.trace;
  }

  lemma SimIfExp(e: Expr, c: Context, n: nat, w: World, s: CState, env: PyEnv)
    requires e.IfExp? && Ready(w, s, c, env, n) && LiteralsOk(e, c) && Lowered(e, c, n).Some?
    ensures var em := Lowered(e, c, n).value;
            Simulates(w, s, Exec(w, s, em.lines), em, PyEval(e, env), n)
    decreases e, 1
  {
    hide Exec;
    hide Step;
    hide Branches;
    var v, u, em := n + 1, n + 2, Lowered(e, c, n).value;
    var t := Lowered(e.test, c, u).value;
    var y := Lowered(e.body, c, t.next).value;
    var z := Lowered(e.orelse, c, y.next).value;
    var branches := Branches(v, u, t.value, y, z);
    ExecConcat(w, s, [DeclarePair(v, u)], t.lines + branches);
    ExecOne(w, s, DeclarePair(v, u));
    var s0 := Step(w, s, DeclarePair(v, u));
    DeclarePairRuns(w, s, v, u);
    ExecConcat(w, s0, t.lines, branches);
    LoweredShape(e.test, c, u);
    LoweredShape(e.body, c, t.next);
    LoweredShape(e.orelse, c, y.next);
    LoweringSimulates(e.test, c, u, w, s0, env);
    var a := PyEval(e.test, env);
    var o := if !a.result.Value? || !IsScalar(a.result.v) then NotScalar()
             else if AsInt(a.result.v) != 0 then PyEval(e.body, env) else PyEval(e.orelse, env);
    var s1 := Exec(w, s0, t.lines);
    if s1.Fail? {
      StoppedEarly(w, s, s1, branches, em, a, o, n);
    } else {
      ExtendsBelow(s0.env, s1.env, u, t.next);
      SimBranches(e, c, n, w, s1, env, t, y, z, a);
      PairBranches(w, s, s0, s1, Exec(w, s1, branches), t, a, o, em, n);
    }
  }

  lemma PairBranches(w: World, s: CState, s0: CState, s1: CState, s2: CState, t: Emission, a: Outcome, o: Outcome,
                     em: Emission, n: nat)
    requires s.Run? && Below(s.env, n) && s0 == s.(env := s.env[n + 1 := Holding(0)][n + 2 := Holding(0)])
    requires s1.Run? && Simulates(w, s0, s1, t, a, n + 2) && RestSimulates(s1, s2, n + 1, n + 2, o)
    requires t.next <= em.next && em.value == Temp(n + 1) && em.isBool == Temp(n + 2)
    ensures Simulates(w, s, s2, em, After(a, o), n)
  {
    assert s.trace + (a.trace + o.trace) == s1.trace + o.trace;
  }

  lemma SimBranches(e: Expr, c: Context, n: nat, w: World, s: CState, env: PyEnv, t: Emission, y: Emission,
                    z: Emission, a: Outcome)
    requires e.IfExp? && LiteralsOk(e, c) && n + 2 <= t.next
    requires Lowered(e.body, c, t.next) == Some(y) && Lowered(e.orelse, c, y.next) == Some(z)
    requires Ready(w, s, c, env, t.next) && n + 1 in s.env && n + 2 in s.env
    requires a.result.Value? && FitsC(a.result.v) && Read(w, s, t.value) == Some(AsInt(a.result.v))
    ensures RestSimulates(s, Exec(w, s, Branches(n + 1, n + 2, t.value, y, z)), n + 1, n + 2,
                          if AsInt(a.result.v) != 0 then PyEval(e.body, env) else PyEval(e.orelse, env))
    decreases e, 0
  {
    hide Exec;
    hide RunLine;
    hide Step;
    var v, u := n + 1, n + 2;
    var yes, no := y.lines + [SetPair(v, u, y.value, y.isBool)], z.lines + [SetPair(v, u, z.value, z.isBool)];
    LoweredShape(e.body, c, t.next);
    LoweredShape(e.orelse, c, y.next);
    SkipLine(SetPair(v, u, y.value, y.isBool));
    SkipConcat(y.lines, [SetPair(v, u, y.value, y.isBool)]);
    SkipLine(SetPair(v, u, z.value, z.isBool));
    SkipConcat(z.lines, [SetPair(v, u, z.value, z.isBool)]);
    ExecIfElse(w, s, t.value, yes, no);
    EnterBlock(w, s, false, t.value);
    var s1 := Step(w, s, IfOpen(false, t.value));
    if AsInt(a.result.v) != 0 {
      LoweringSimulates(e.body, c, t.next, w, s1, env);
      BranchEnds(w, s, s1, y, PyEval(e.body, env), v, u, t.next);
      var s2 := Exec(w, s1, yes);
      if s2.Run? {
        SwitchBlock(w, s2, s.blocks, Live(s.env.Keys));
        LeaveBlock(w, Step(w, s2, Else), s.blocks, Done(s.env.Keys));
      } else {
        EndedThroughElse(w, s2, no);
      }
    } else {
      SwitchBlock(w, s1, s.blocks, Pending(s.env.Keys));
      var s2 := Step(w, s1, Else);
      LoweringSimulates(e.orelse, c, y.next, w, s2, env);
      BranchEnds(w, s, s2, z, PyEval(e.orelse, env), v, u, y.next);
      var s3 := Exec(w, s2, no);
      if s3.Run? {
        LeaveBlock(w, s3, s.blocks, Live(s.env.Keys));
      } else {
        EndedThroughElse(w, s3, []);
      }
    }
  }

  /** A live branch up to the brace that ends it. */
  lemma BranchEnds(w: World, s: CState, s1: CState, em: Emission, p: Outcome, v: nat, b: nat, n: nat)
    requires s.Run? && Active(s) && Below(s.env, n) && v in s.env && b in s.env && v != b && OwnTemps(em, n)
    requires s1 == s.(blocks := s.blocks + [Live(s.env.Keys)]) && Simulates(w, s1, Exec(w, s1, em.lines), em, p, n)
    ensures var s2 := Exec(w, s1, em.lines + [SetPair(v, b, em.value, em.isBool)]);
            && !s2.Stuck?
            && (s2.Fail? ==> RestSimulates(s, s2, v, b, p))
            && (s2.Run? ==> && s2.blocks == s1.blocks
                            && RestSimulates(s, s2.(env := Restrict(s2.env, s.env.Keys), blocks := s.blocks), v, b, p))
  {
    hide Exec;
    hide RunLine;
    var put := SetPair(v, b, em.value, em.isBool);
    var s2 := Exec(w, s1, em.lines);
    ExecConcat(w, s1, em.lines, [put]);
    ExecOne(w, s2, put);
    if s2.Run? {
      BranchStores(w, s1, s2, em, p, v, b, n);
    }
  }
}
