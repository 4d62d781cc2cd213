/** The lowering of grid functions preserves Python's meaning. */
module GridSim {
  import opened GridArith
  import opened CTarget
  import opened Optional
  import opened Python
  import opened Grid
  import opened Words

  /** One emission against Python's outcome: the same scalar over the same events, or a stop
      where Python raises or leaves int64 scalars, with nothing done that Python does not do. */
  ghost predicate Simulates(w: World, s: CState, s': CState, em: GridEmission, p: Outcome, n: nat)
    requires s.Run?
  {
    match s'
    case Stuck => false
    case Fail(t) => t <= s.trace + p.trace && !Finishes(p)
    case Run(_, _, _, _, _) =>
      && Finishes(p) && FitsC(p.result.v) && p.result.v.PyBool? == em.at.isBool
      && s' == s.(env := s'.env, trace := s.trace + p.trace)
      && n <= em.next && Extends(s.env, s'.env, n - 1, em.next - 1)
      && Read(w, s', Temp(em.at.temp)) == Some(AsInt(p.result.v))
  }

  /** Each bound name's temp holds the value Python's local has, of the static type. A temp is
      never written again, so an alias keeps its value when its name is rebound. */
  ghost predicate BoundHolds(bound: Bound, locals: Locals, env: map<nat, Cell>) {
    forall id :: id in bound ==>
      && id in locals && FitsC(locals[id]) && locals[id].PyBool? == bound[id].isBool
      && bound[id].temp in env && env[bound[id].temp] == Holding(AsInt(locals[id]))
  }

  ghost predicate Ready(s: CState, bound: Bound, locals: Locals, n: nat) {
    s.Run? && Active(s) && Below(s.env, n - 1) && BoundHolds(bound, locals, s.env)
  }

  lemma BoundStays(bound: Bound, locals: Locals, env: map<nat, Cell>, env': map<nat, Cell>, lo: int, hi: int)
    requires BoundHolds(bound, locals, env) && Extends(env, env', lo, hi)
    ensures BoundHolds(bound, locals, env')
  {
  }

  // ---------------------------------------------------------------- shape

  lemma {:induction false} GridShape(e: Expr, bound: Bound, c: GridContext, n: nat)
    requires GridLowered(e, bound, c, n).Some?
    ensures n <= GridLowered(e, bound, c, n).value.next && Skippable(GridLowered(e, bound, c, n).value.lines)
    decreases e
  {
    hide Skippable;
    SkipNothing();
    match e
    case Constant(_) => SkipLine(GridLowered(e, bound, c, n).value.lines[0]);
    case Name(_) =>
    case UnaryOp(op, operand) =>
      if IsInt64MinLiteral(e) {
        SkipLine(DeclareLit(n, INT64_MIN));
      } else {
        GridShape(operand, bound, c, n);
        var x := GridLowered(operand, bound, c, n).value;
        SkipTail(x.lines, Declare(x.next), Arith(Sub, Lit(0), Temp(x.at.temp), x.next));
      }
    case BinOp(op, left, right) =>
      GridShape(left, bound, c, n);
      var l := GridLowered(left, bound, c, n).value;
      GridShape(right, bound, c, l.next);
      var r := GridLowered(right, bound, c, l.next).value;
      SkipConcat(l.lines, r.lines);
      SkipTail(l.lines + r.lines, Declare(r.next),
               Arith(GridArithName(op).value, Temp(l.at.temp), Temp(r.at.temp), r.next));
    case CallExpr(_, args, _) =>
      GridShape(args[0], bound, c, n);
      var l := GridLowered(args[0], bound, c, n).value;
      GridShape(args[1], bound, c, l.next);
      var r := GridLowered(args[1], bound, c, l.next).value;
      SkipConcat(l.lines, r.lines);
      SkipTail(l.lines + r.lines, Declare(r.next), CallLine(IsBuiltin(e, "min"), l.at.temp, r.at.temp, r.next));
    case IfExp(test, body, orelse) =>
      hide GridBranches;
      GridShape(test, bound, c, n);
      var t := GridLowered(test, bound, c, n).value;
      GridShape(body, bound, c, t.next + 1);
      var y := GridLowered(body, bound, c, t.next + 1).value;
      GridShape(orelse, bound, c, y.next);
      var o := GridLowered(orelse, bound, c, y.next).value;
      BranchShape(t.next, t.at.temp, y, o);
      SkipLine(Declare(t.next));
      SkipConcat([Declare(t.next)], GridBranches(t.next, t.at.temp, y, o));
      SkipConcat(t.lines, [Declare(t.next)] + GridBranches(t.next, t.at.temp, y, o));
  }

  lemma BranchShape(v: nat, test: nat, y: GridEmission, o: GridEmission)
    requires Skippable(y.lines) && Skippable(o.lines)
    ensures Skippable(GridBranches(v, test, y, o))
    ensures Skippable(y.lines + [Set(v, Temp(y.at.temp))]) && Skippable(o.lines + [Set(v, Temp(o.at.temp))])
  {
    hide Skippable;
    SkipLine(Set(v, Temp(y.at.temp)));
    SkipConcat(y.lines, [Set(v, Temp(y.at.temp))]);
    SkipLine(Set(v, Temp(o.at.temp)));
    SkipConcat(o.lines, [Set(v, Temp(o.at.temp))]);
    SkipIfElse(Temp(test), y.lines + [Set(v, Temp(y.at.temp))], o.lines + [Set(v, Temp(o.at.temp))]);
  }

  // ---------------------------------------------------------------- lines

  lemma DeclareLitRuns(w: World, s: CState, v: nat, n: int)
    requires s.Run? && Active(s) && v !in s.env && InI64(n)
    ensures Exec(w, s, [DeclareLit(v, n)]) == s.(env := s.env[v := Holding(n)])
  {
    ExecOne(w, s, DeclareLit(v, n));
  }

  lemma DeclareRuns(w: World, s: CState, v: nat)
    requires s.Run? && Active(s) && v !in s.env
    ensures Step(w, s, Declare(v)) == s.(env := s.env[v := Unset])
  {
  }

  lemma ArithRuns(w: World, s: CState, op: ArithOp, x: Operand, y: Operand, v: nat, a: int, b: int)
    requires s.Run? && Active(s) && v in s.env && Read(w, s, x) == Some(a) && Read(w, s, y) == Some(b)
    ensures Step(w, s, Arith(op, x, y, v))
         == if ArithStatus(op, a, b).Ok? then
              s.(env := s.env[v := Holding(ArithStatus(op, a, b).value)], trace := s.trace + ArithEvents(op, a, b))
            else Fail(s.trace + ArithEvents(op, a, b))
  {
    hide Smear;
  }

  lemma SetMinRuns(w: World, s: CState, x: Operand, y: Operand, v: nat, a: int, b: int)
    requires s.Run? && Active(s) && v in s.env && Read(w, s, x) == Some(a) && Read(w, s, y) == Some(b)
    ensures Step(w, s, SetMin(v, x, y)) == s.(env := s.env[v := Holding(if a < b then a else b)])
  {
    hide Smear;
  }

  lemma SetRuns(w: World, s: CState, v: nat, x: Operand, a: int)
    requires s.Run? && Active(s) && v in s.env && Read(w, s, x) == Some(a)
    ensures Step(w, s, Set(v, x)) == s.(env := s.env[v := Holding(a)])
  {
    hide Smear;
  }

  /** A fresh temp, declared and then filled or left when the helper refuses. */
  lemma Finish(w: World, s: CState, s2: CState, s3: CState, v: nat, a: int, ok: bool, p: Outcome, o: Outcome,
               lines: seq<Line>, n: nat)
    requires s.Run? && s2.Run? && Finishes(p) && n <= v && Below(s2.env, v - 1) && Extends(s.env, s2.env, n - 1, v - 1)
    requires s2 == s.(env := s2.env, trace := s.trace + p.trace)
    requires ok <==> Finishes(o)
    requires ok ==> o.result.v == PyInt(a) && InI64(a)
    requires s3 == if ok then s2.(env := s2.env[v := Holding(a)], trace := s2.trace + o.trace)
        else Fail(s2.trace + o.trace)
    ensures Simulates(w, s, s3, GridEmission(lines, v + 1, Local(v, false)), After(p, o), n)
  {
    assert s.trace + (p.trace + o.trace) == s2.trace + o.trace;
  }

  lemma StoppedEarly(w: World, s: CState, s2: CState, tail: seq<Line>, em: GridEmission, p: Outcome, o: Outcome, n: nat)
    requires s.Run? && s2.Fail? && s2.trace <= s.trace + p.trace && !Finishes(p)
    ensures Exec(w, s2, tail) == s2 && Simulates(w, s, s2, em, After(p, o), n)
  {
    ExecEnded(w, s2, tail);
    if p.result.Value? {
      PrefixOfPrefix(s2.trace, s.trace, p.trace, o.trace);
    }
  }

  // ---------------------------------------------------------------- two operands

  ghost predicate BothRead(w: World, s: CState, s2: CState, l: GridEmission, r: GridEmission, a: Outcome, b: Outcome,
                           n: nat)
    requires s.Run?
  {
    var p := After(a, b);
    match s2
    case Stuck => false
    case Fail(t) => t <= s.trace + p.trace && !Finishes(p)
    case Run(_, _, _, _, _) =>
      && Finishes(a) && Finishes(b) && FitsC(a.result.v) && FitsC(b.result.v)
      && a.result.v.PyBool? == l.at.isBool && b.result.v.PyBool? == r.at.isBool
      && s2 == s.(env := s2.env, trace := s.trace + p.trace)
      && n <= r.next && Extends(s.env, s2.env, n - 1, r.next - 1) && Below(s2.env, r.next - 1)
      && Read(w, s2, Temp(l.at.temp)) == Some(AsInt(a.result.v))
      && Read(w, s2, Temp(r.at.temp)) == Some(AsInt(b.result.v))
  }

  lemma Operands(parent: Expr, left: Expr, right: Expr, bound: Bound, c: GridContext, n: nat, w: World, s: CState,
                 locals: Locals)
    requires left < parent && right < parent && Ready(s, bound, locals, n)
    requires GridLowered(left, bound, c, n).Some?
        && GridLowered(right, bound, c, GridLowered(left, bound, c, n).value.next).Some?
    ensures var l := GridLowered(left, bound, c, n).value;
            var r := GridLowered(right, bound, c, l.next).value;
            BothRead(w, s, Exec(w, s, l.lines + r.lines), l, r, GridEval(left, locals), GridEval(right, locals), n)
    decreases parent, 0
  {
    hide Exec;
    hide Step;
    hide GridLowered;
    hide GridEval;
    var l := GridLowered(left, bound, c, n).value;
    var r := GridLowered(right, bound, c, l.next).value;
    var a, b := GridEval(left, locals), GridEval(right, locals);
    GridShape(left, bound, c, n);
    GridShape(right, bound, c, l.next);
    ExecConcat(w, s, l.lines, r.lines);
    GridSimulates(left, bound, c, n, w, s, locals);
    var s1 := Exec(w, s, l.lines);
    if !s1.Run? {
      ExecEnded(w, s1, r.lines);
      if a.result.Value? {
        PrefixOfPrefix(s1.trace, s.trace, a.trace, b.trace);
      }
    } else {
      ExtendsBelow(s.env, s1.env, n - 1, l.next - 1);
      BoundStays(bound, locals, s.env, s1.env, n - 1, l.next - 1);
      GridSimulates(right, bound, c, l.next, w, s1, locals);
      var s2 := Exec(w, s1, r.lines);
      assert s.trace + (a.trace + b.trace) == s1.trace + b.trace;
      if s2.Run? {
        ExtendsTrans(s.env, s1.env, s2.env, n - 1, l.next - 1, r.next - 1);
        ExtendsBelow(s.env, s2.env, n - 1, r.next - 1);
        ReadStable(w, s1, s2, Temp(l.at.temp), l.next - 1, r.next - 1);
      }
    }
  }

  lemma ArithAgrees(op: BinKind, x: int, y: int)
    requires GridArithName(op).Some?
    ensures var o, st := PyArith(op, x, y), ArithStatus(GridArithName(op).value, x, y);
            && o.trace == ArithEvents(GridArithName(op).value, x, y)
            && (st.Ok? <==> Finishes(o))
            && (st.Ok? ==> o.result.v == PyInt(st.value) && InI64(st.value))
  {
  }

  lemma SimArith(w: World, s: CState, op: ArithOp, l: GridEmission, r: GridEmission, a: Outcome, b: Outcome,
                 o: Outcome, n: nat)
    requires s.Run? && Active(s) && BothRead(w, s, Exec(w, s, l.lines + r.lines), l, r, a, b, n)
    requires Exec(w, s, l.lines + r.lines).Run? ==>
               var st := ArithStatus(op, AsInt(a.result.v), AsInt(b.result.v));
               && o.trace == ArithEvents(op, AsInt(a.result.v), AsInt(b.result.v))
               && (st.Ok? <==> Finishes(o)) && (st.Ok? ==> o.result.v == PyInt(st.value) && InI64(st.value))
    ensures var em := Filled(l.lines + r.lines, [Declare(r.next), Arith(op, Temp(l.at.temp), Temp(r.at.temp), r.next)],
                             r.next, false);
            Simulates(w, s, Exec(w, s, em.lines), em, After(After(a, b), o), n)
  {
    hide Exec;
    hide Step;
    var line := Arith(op, Temp(l.at.temp), Temp(r.at.temp), r.next);
    var em := Filled(l.lines + r.lines, [Declare(r.next), line], r.next, false);
    var s2 := Exec(w, s, l.lines + r.lines);
    ExecConcat(w, s, l.lines + r.lines, [Declare(r.next), line]);
    if s2.Fail? {
      StoppedEarly(w, s, s2, [Declare(r.next), line], em, After(a, b), o, n);
    } else {
      var x, y := AsInt(a.result.v), AsInt(b.result.v);
      ExecTwo(w, s2, Declare(r.next), line);
      DeclareRuns(w, s2, r.next);
      var s3 := Step(w, s2, Declare(r.next));
      ArithRuns(w, s3, op, Temp(l.at.temp), Temp(r.at.temp), r.next, x, y);
      var st := ArithStatus(op, x, y);
      if st.Ok? {
        assert s2.env[r.next := Unset][r.next := Holding(st.value)] == s2.env[r.next := Holding(st.value)];
      }
      Finish(w, s, s2, Step(w, s3, line), r.next, if st.Ok? then st.value else 0, st.Ok?, After(a, b), o, em.lines, n);
    }
  }

  lemma SimMin(w: World, s: CState, l: GridEmission, r: GridEmission, a: Outcome, b: Outcome, n: nat)
    requires s.Run? && Active(s) && BothRead(w, s, Exec(w, s, l.lines + r.lines), l, r, a, b, n)
    requires !l.at.isBool && !r.at.isBool
    ensures var em := Filled(l.lines + r.lines, [Declare(r.next), SetMin(r.next, Temp(l.at.temp), Temp(r.at.temp))],
                             r.next, false);
            Simulates(w, s, Exec(w, s, em.lines), em, After(After(a, b), GridCall(true, a, b)), n)
  {
    hide Exec;
    hide Step;
    var line := SetMin(r.next, Temp(l.at.temp), Temp(r.at.temp));
    var em := Filled(l.lines + r.lines, [Declare(r.next), line], r.next, false);
    var o := GridCall(true, a, b);
    var s2 := Exec(w, s, l.lines + r.lines);
    ExecConcat(w, s, l.lines + r.lines, [Declare(r.next), line]);
    if s2.Fail? {
      StoppedEarly(w, s, s2, [Declare(r.next), line], em, After(a, b), o, n);
    } else {
      var x, y := AsInt(a.result.v), AsInt(b.result.v);
      var m := if x < y then x else y;
      ExecTwo(w, s2, Declare(r.next), line);
      DeclareRuns(w, s2, r.next);
      var s3 := Step(w, s2, Declare(r.next));
      SetMinRuns(w, s3, Temp(l.at.temp), Temp(r.at.temp), r.next, x, y);
      assert s2.env[r.next := Unset][r.next := Holding(m)] == s2.env[r.next := Holding(m)];
      assert s2.trace + [] == s2.trace;
      Finish(w, s, s2, Step(w, s3, line), r.next, m, true, After(a, b), o, em.lines, n);
    }
  }

  // ---------------------------------------------------------------- expressions

  lemma SimLeaf(e: Expr, bound: Bound, c: GridContext, n: nat, w: World, s: CState, locals: Locals)
    requires Ready(s, bound, locals, n) && GridLowered(e, bound, c, n).Some?
    requires e.Constant? || e.Name? || IsInt64MinLiteral(e)
    ensures var em := GridLowered(e, bound, c, n).value;
            Simulates(w, s, Exec(w, s, em.lines), em, GridEval(e, locals), n)
  {
    hide Step;
    assert s.trace + [] == s.trace;
    if !e.Name? {
      var k := if IsInt64MinLiteral(e) then INT64_MIN else if e.lit.IntLit? then e.lit.n else BoolInt(e.lit.b);
      DeclareLitRuns(w, s, n, k);
    }
  }

  lemma SimNegate(w: World, s: CState, x: GridEmission, a: Outcome, o: Outcome, n: nat)
    requires s.Run? && Active(s) && Below(s.env, n - 1) && Simulates(w, s, Exec(w, s, x.lines), x, a, n)
    requires a.result.Value? && IsScalar(a.result.v) ==> o == Just(PyInt(-AsInt(a.result.v)))
    ensures var em := Filled(x.lines, [Declare(x.next), Arith(Sub, Lit(0), Temp(x.at.temp), x.next)], x.next, false);
            Simulates(w, s, Exec(w, s, em.lines), em, After(a, o), n)
  {
    hide Exec;
    hide Step;
    var line := Arith(Sub, Lit(0), Temp(x.at.temp), x.next);
    var em := Filled(x.lines, [Declare(x.next), line], x.next, false);
    var s2 := Exec(w, s, x.lines);
    ExecConcat(w, s, x.lines, [Declare(x.next), line]);
    if s2.Fail? {
      StoppedEarly(w, s, s2, [Declare(x.next), line], em, a, o, n);
    } else {
      var k := AsInt(a.result.v);
      ExtendsBelow(s.env, s2.env, n - 1, x.next - 1);
      ExecTwo(w, s2, Declare(x.next), line);
      DeclareRuns(w, s2, x.next);
      var s3 := Step(w, s2, Declare(x.next));
      ArithRuns(w, s3, Sub, Lit(0), Temp(x.at.temp), x.next, 0, k);
      assert s2.env[x.next := Unset][x.next := Holding(0 - k)] == s2.env[x.next := Holding(0 - k)];
      assert s2.trace + [] == s2.trace;
      Finish(w, s, s2, Step(w, s3, line), x.next, 0 - k, InI64(0 - k), a, o, em.lines, n);
    }
  }

  lemma SimUnary(e: Expr, bound: Bound, c: GridContext, n: nat, w: World, s: CState, locals: Locals)
    requires Ready(s, bound, locals, n) && GridLowered(e, bound, c, n).Some? && e.UnaryOp? && !IsInt64MinLiteral(e)
    ensures var em := GridLowered(e, bound, c, n).value;
            Simulates(w, s, Exec(w, s, em.lines), em, GridEval(e, locals), n)
    decreases e, 1
  {
    hide Exec;
    hide Step;
    var x := GridLowered(e.operand, bound, c, n).value;
    var a := GridEval(e.operand, locals);
    var o := if a.result.Value? && IsScalar(a.result.v) then PyUnary(e.uop, a.result.v) else NotScalar();
    GridSimulates(e.operand, bound, c, n, w, s, locals);
    if e.uop.USub? {
      SimNegate(w, s, x, a, o, n);
    } else if Exec(w, s, x.lines).Fail? {
      StoppedEarly(w, s, Exec(w, s, x.lines), [], x, a, o, n);
    } else {
      assert a.trace + [] == a.trace;
    }
  }

  lemma SimBin(e: Expr, bound: Bound, c: GridContext, n: nat, w: World, s: CState, locals: Locals)
    requires Ready(s, bound, locals, n) && GridLowered(e, bound, c, n).Some? && e.BinOp?
    ensures var em := GridLowered(e, bound, c, n).value;
            Simulates(w, s, Exec(w, s, em.lines), em, GridEval(e, locals), n)
    decreases e, 1
  {
    hide Exec;
    hide Step;
    var l := GridLowered(e.left, bound, c, n).value;
    var r := GridLowered(e.right, bound, c, l.next).value;
    var a, b := GridEval(e.left, locals), GridEval(e.right, locals);
    Operands(e, e.left, e.right, bound, c, n, w, s, locals);
    if Scalars(a, b) {
      ArithAgrees(e.op, AsInt(a.result.v), AsInt(b.result.v));
    }
    SimArith(w, s, GridArithName(e.op).value, l, r, a, b,
             if Scalars(a, b) then PyArith(e.op, AsInt(a.result.v), AsInt(b.result.v)) else NotScalar(), n);
  }

  /** How a call unfolds on both sides. */
  lemma CallUnfolds(e: Expr, bound: Bound, c: GridContext, n: nat)
    requires GridLowered(e, bound, c, n).Some? && e.CallExpr?
    ensures IsCall2(e) && CalleeOk(e, c) && GridLowered(e.args[0], bound, c, n).Some?
    ensures var l := GridLowered(e.args[0], bound, c, n).value;
            var r := GridLowered(e.args[1], bound, c, l.next);
            && r.Some? && !l.at.isBool && !r.value.at.isBool
            && GridLowered(e, bound, c, n).value
               == Filled(l.lines + r.value.lines,
                         [Declare(r.value.next),
                          CallLine(IsBuiltin(e, "min"), l.at.temp, r.value.at.temp, r.value.next)],
                         r.value.next, false)
  {
    hide CallLine;
    hide Filled;
    hide CalleeOk;
  }

  lemma PyCallUnfolds(e: Expr, c: GridContext, locals: Locals)
    requires e.CallExpr? && IsCall2(e) && CalleeOk(e, c)
    ensures var a, b := GridEval(e.args[0], locals), GridEval(e.args[1], locals);
            GridEval(e, locals) == After(After(a, b), GridCall(IsBuiltin(e, "min"), a, b))
  {
    hide GridCall;
  }

  lemma SimCall(e: Expr, bound: Bound, c: GridContext, n: nat, w: World, s: CState, locals: Locals)
    requires Ready(s, bound, locals, n) && GridLowered(e, bound, c, n).Some? && e.CallExpr?
    ensures var em := GridLowered(e, bound, c, n).value;
            Simulates(w, s, Exec(w, s, em.lines), em, GridEval(e, locals), n)
    decreases e, 1
  {
    hide Exec;
    hide Step;
    CallUnfolds(e, bound, c, n);
    PyCallUnfolds(e, c, locals);
    hide GridLowered;
    hide GridEval;
    hide Filled;
    var l := GridLowered(e.args[0], bound, c, n).value;
    var r := GridLowered(e.args[1], bound, c, l.next).value;
    var a, b := GridEval(e.args[0], locals), GridEval(e.args[1], locals);
    Operands(e, e.args[0], e.args[1], bound, c, n, w, s, locals);
    if IsBuiltin(e, "min") {
      SimMin(w, s, l, r, a, b, n);
    } else {
      SimArith(w, s, Cdiv, l, r, a, b, GridCall(false, a, b), n);
    }
  }

  // ---------------------------------------------------------------- branches

  /** The whole conditional changes nothing but its own temp. */
  ghost predicate BranchSimulates(s: CState, s': CState, v: nat, isBool: bool, p: Outcome)
    requires s.Run?
  {
    match s'
    case Stuck => false
    case Fail(t) => t <= s.trace + p.trace && !Finishes(p)
    case Run(_, _, _, _, _) =>
      && Finishes(p) && FitsC(p.result.v) && p.result.v.PyBool? == isBool
      && s' == s.(env := s.env[v := Holding(AsInt(p.result.v))], trace := s.trace + p.trace)
  }

  /** A live branch up to the brace that ends it. */
  lemma BranchEnds(w: World, s: CState, s1: CState, em: GridEmission, p: Outcome, v: nat, n: nat)
    requires s.Run? && Active(s) && Below(s.env, n - 1) && v in s.env
    requires s1 == s.(blocks := s.blocks + [Live(s.env.Keys)]) && Simulates(w, s1, Exec(w, s1, em.lines), em, p, n)
    ensures var s2 := Exec(w, s1, em.lines + [Set(v, Temp(em.at.temp))]);
            && !s2.Stuck?
            && (s2.Fail? ==> BranchSimulates(s, s2, v, em.at.isBool, p))
            && (s2.Run? ==> && s2.blocks == s1.blocks
                            && BranchSimulates(s, s2.(env := Restrict(s2.env, s.env.Keys), blocks := s.blocks), v,
                                               em.at.isBool, p))
  {
    hide Exec;
    hide Step;
    var put := Set(v, Temp(em.at.temp));
    var s2 := Exec(w, s1, em.lines);
    ExecConcat(w, s1, em.lines, [put]);
    ExecOne(w, s2, put);
    if s2.Run? {
      SetRuns(w, s2, v, Temp(em.at.temp), AsInt(p.result.v));
    } else {
      ExecEnded(w, s2, [put]);
    }
  }

  lemma SimBranches(e: Expr, bound: Bound, c: GridContext, n: nat, w: World, s: CState, locals: Locals, a: Outcome,
                    at: nat)
    requires e.IfExp? && s.Run? && Active(s) && Below(s.env, n) && BoundHolds(bound, locals, s.env) && n in s.env
    requires Finishes(a) && FitsC(a.result.v) && Read(w, s, Temp(at)) == Some(AsInt(a.result.v))
    requires GridLowered(e.body, bound, c, n + 1).Some?
    requires GridLowered(e.orelse, bound, c, GridLowered(e.body, bound, c, n + 1).value.next).Some?
    requires var y := GridLowered(e.body, bound, c, n + 1).value;
             y.at.isBool == GridLowered(e.orelse, bound, c, y.next).value.at.isBool
    ensures var y := GridLowered(e.body, bound, c, n + 1).value;
            var o := GridLowered(e.orelse, bound, c, y.next).value;
            BranchSimulates(s, Exec(w, s, GridBranches(n, at, y, o)), n, y.at.isBool,
                            if AsInt(a.result.v) != 0 then GridEval(e.body, locals) else GridEval(e.orelse, locals))
    decreases e, 0
  {
    hide Exec;
    hide Step;
    hide GridLowered;
    hide GridEval;
    var y := GridLowered(e.body, bound, c, n + 1).value;
    var o := GridLowered(e.orelse, bound, c, y.next).value;
    var yes, no := y.lines + [Set(n, Temp(y.at.temp))], o.lines + [Set(n, Temp(o.at.temp))];
    GridShape(e.body, bound, c, n + 1);
    GridShape(e.orelse, bound, c, y.next);
    BranchShape(n, at, y, o);
    ExecIfElse(w, s, Temp(at), yes, no);
    EnterBlock(w, s, false, Temp(at));
    var s1 := Step(w, s, IfOpen(false, Temp(at)));
    if AsInt(a.result.v) != 0 {
      GridSimulates(e.body, bound, c, n + 1, w, s1, locals);
      BranchEnds(w, s, s1, y, GridEval(e.body, locals), n, n + 1);
      var s2 := Exec(w, s1, yes);
      if s2.Run? {
        SwitchBlock(w, s2, s.blocks, Live(s.env.Keys));
        LeaveBlock(w, Step(w, s2, Else), s.blocks, Done(s.env.Keys));
      } else {
        EndedThroughElse(w, s2, no);
      }
    } else {
      SwitchBlock(w, s1, s.blocks, Pending(s.env.Keys));
      var s2 := Step(w, s1, Else);
      GridSimulates(e.orelse, bound, c, y.next, w, s2, locals);
      BranchEnds(w, s, s2, o, GridEval(e.orelse, locals), n, y.next);
      var s3 := Exec(w, s2, no);
      if s3.Run? {
        LeaveBlock(w, s3, s.blocks, Live(s.env.Keys));
      } else {
        EndedThroughElse(w, s3, []);
      }
    }
  }

  lemma SimIf(e: Expr, bound: Bound, c: GridContext, n: nat, w: World, s: CState, locals: Locals)
    requires Ready(s, bound, locals, n) && GridLowered(e, bound, c, n).Some? && e.IfExp?
    ensures var em := GridLowered(e, bound, c, n).value;
            Simulates(w, s, Exec(w, s, em.lines), em, GridEval(e, locals), n)
    decreases e, 2
  {
    hide Exec;
    hide Step;
    hide GridBranches;
    var em := GridLowered(e, bound, c, n).value;
    var t := GridLowered(e.test, bound, c, n).value;
    var y := GridLowered(e.body, bound, c, t.next + 1).value;
    var z := GridLowered(e.orelse, bound, c, y.next).value;
    var a := GridEval(e.test, locals);
    var o := if !a.result.Value? || !IsScalar(a.result.v) then NotScalar()
             else if AsInt(a.result.v) != 0 then GridEval(e.body, locals) else GridEval(e.orelse, locals);
    var branches := GridBranches(t.next, t.at.temp, y, z);
    GridShape(e.test, bound, c, n);
    GridShape(e.body, bound, c, t.next + 1);
    GridShape(e.orelse, bound, c, y.next);
    GridSimulates(e.test, bound, c, n, w, s, locals);
    var s1 := Exec(w, s, t.lines);
    ExecConcat(w, s, t.lines, [Declare(t.next)] + branches);
    if s1.Fail? {
      StoppedEarly(w, s, s1, [Declare(t.next)] + branches, em, a, o, n);
    } else {
      SimIfRuns(e, bound, c, n, w, s, locals, s1);
    }
  }

  /** A conditional's lines, and what Python makes of it. */
  lemma IfUnfolds(e: Expr, bound: Bound, c: GridContext, n: nat)
    requires e.IfExp? && GridLowered(e, bound, c, n).Some?
    ensures GridLowered(e.test, bound, c, n).Some?
    ensures GridLowered(e.body, bound, c, GridLowered(e.test, bound, c, n).value.next + 1).Some?
    ensures var t := GridLowered(e.test, bound, c, n).value;
            var y := GridLowered(e.body, bound, c, t.next + 1).value;
            var z := GridLowered(e.orelse, bound, c, y.next);
            && z.Some? && y.at.isBool == z.value.at.isBool
            && GridLowered(e, bound, c, n).value
               == GridEmission(t.lines + ([Declare(t.next)] + GridBranches(t.next, t.at.temp, y, z.value)),
                               z.value.next, Local(t.next, y.at.isBool))
  {
    hide GridBranches;
  }

  /** The lines of a conditional, up to its branches. */
  lemma IfLinesRun(w: World, s: CState, s1: CState, test: seq<Line>, v: nat, branches: seq<Line>)
    requires s1 == Exec(w, s, test) && s1.Run? && Active(s1) && v !in s1.env
    ensures Exec(w, s, test + ([Declare(v)] + branches)) == Exec(w, s1.(env := s1.env[v := Unset]), branches)
  {
    hide Exec;
    hide Step;
    ExecConcat(w, s, test, [Declare(v)] + branches);
    ExecConcat(w, s1, [Declare(v)], branches);
    ExecOne(w, s1, Declare(v));
    DeclareRuns(w, s1, v);
  }

  lemma PyIf(e: Expr, locals: Locals)
    requires e.IfExp?
    ensures var a := GridEval(e.test, locals);
            GridEval(e, locals) ==
              After(a, if !a.result.Value? || !IsScalar(a.result.v) then NotScalar()
                       else if AsInt(a.result.v) != 0 then GridEval(e.body, locals) else GridEval(e.orelse, locals))
  {
  }

  /** Where the condition has run: in a state its branches may start from. */
  lemma AfterTest(bound: Bound, locals: Locals, w: World, s: CState, s1: CState, t: GridEmission, a: Outcome, n: nat)
    requires Ready(s, bound, locals, n) && s1.Run? && Simulates(w, s, s1, t, a, n)
    ensures Active(s1) && Below(s1.env, t.next - 1) && t.next !in s1.env && BoundHolds(bound, locals, s1.env)
    ensures Finishes(a) && FitsC(a.result.v) && Read(w, s1, Temp(t.at.temp)) == Some(AsInt(a.result.v))
  {
    ExtendsBelow(s.env, s1.env, n - 1, t.next - 1);
    BoundStays(bound, locals, s.env, s1.env, n - 1, t.next - 1);
  }

  /** A temp declared and not yet set disturbs no other. */
  lemma UnsetStays(bound: Bound, locals: Locals, w: World, s: CState, v: nat, at: nat)
    requires s.Run? && Below(s.env, v - 1) && v !in s.env && BoundHolds(bound, locals, s.env) && at in s.env
    ensures var s' := s.(env := s.env[v := Unset]);
            Below(s'.env, v) && BoundHolds(bound, locals, s'.env) && Read(w, s', Temp(at)) == Read(w, s, Temp(at))
  {
  }

  /** The condition has run; then the branch it selects does. */
  lemma SimIfRuns(e: Expr, bound: Bound, c: GridContext, n: nat, w: World, s: CState, locals: Locals, s1: CState)
    requires Ready(s, bound, locals, n) && GridLowered(e, bound, c, n).Some? && e.IfExp?
    requires var t := GridLowered(e.test, bound, c, n).value;
             s1 == Exec(w, s, t.lines) && s1.Run? && Simulates(w, s, s1, t, GridEval(e.test, locals), n)
    ensures var em := GridLowered(e, bound, c, n).value;
            Simulates(w, s, Exec(w, s, em.lines), em, GridEval(e, locals), n)
    decreases e, 1
  {
    hide Exec;
    hide Step;
    hide GridBranches;
    IfUnfolds(e, bound, c, n);
    hide GridLowered;
    PyIf(e, locals);
    hide GridEval;
    var em := GridLowered(e, bound, c, n).value;
    var t := GridLowered(e.test, bound, c, n).value;
    var y := GridLowered(e.body, bound, c, t.next + 1).value;
    var z := GridLowered(e.orelse, bound, c, y.next).value;
    var a := GridEval(e.test, locals);
    var o := if !a.result.Value? || !IsScalar(a.result.v) then NotScalar()
             else if AsInt(a.result.v) != 0 then GridEval(e.body, locals) else GridEval(e.orelse, locals);
    var branches := GridBranches(t.next, t.at.temp, y, z);
    GridShape(e.test, bound, c, n);
    GridShape(e.body, bound, c, t.next + 1);
    GridShape(e.orelse, bound, c, y.next);
    AfterTest(bound, locals, w, s, s1, t, a, n);
    hide Simulates;
    hide Ready;
    hide BranchSimulates;
    hide BoundHolds;
    IfLinesRun(w, s, s1, t.lines, t.next, branches);
    var s2 := s1.(env := s1.env[t.next := Unset]);
    UnsetStays(bound, locals, w, s1, t.next, t.at.temp);
    SimBranches(e, bound, c, t.next, w, s2, locals, a, t.at.temp);
    JoinBranches(w, s, s1, s2, Exec(w, s2, branches), t, a, o, em, n);
  }

  lemma JoinBranches(w: World, s: CState, s1: CState, s2: CState, s3: CState, t: GridEmission, a: Outcome, o: Outcome,
                     em: GridEmission, n: nat)
    requires s.Run? && s1.Run? && Simulates(w, s, s1, t, a, n) && Below(s1.env, t.next - 1)
    requires s2 == s1.(env := s1.env[t.next := Unset]) && BranchSimulates(s2, s3, t.next, em.at.isBool, o)
    requires em.at.temp == t.next && t.next < em.next
    ensures Simulates(w, s, s3, em, After(a, o), n)
  {
    assert s.trace + (a.trace + o.trace) == s1.trace + o.trace;
  }

  /** From any running state, the lines of an accepted grid expression leave the int or bool Python
      computes exactly when everything Python computes on the way is one in int64; the branch not
      taken runs nothing, and no temp is named outside its block. */
  lemma {:induction false} GridSimulates(e: Expr, bound: Bound, c: GridContext, n: nat, w: World, s: CState,
                                         locals: Locals)
    requires Ready(s, bound, locals, n) && GridLowered(e, bound, c, n).Some?
    ensures var em := GridLowered(e, bound, c, n).value;
            Simulates(w, s, Exec(w, s, em.lines), em, GridEval(e, locals), n)
    decreases e, 3
  {
    hide Exec;
    hide Step;
    if e.Constant? || e.Name? || IsInt64MinLiteral(e) {
      SimLeaf(e, bound, c, n, w, s, locals);
    } else {
      match e
      case UnaryOp(_, _) => SimUnary(e, bound, c, n, w, s, locals);
      case BinOp(_, _, _) => SimBin(e, bound, c, n, w, s, locals);
      case CallExpr(_, _, _) => SimCall(e, bound, c, n, w, s, locals);
      case IfExp(_, _, _) => SimIf(e, bound, c, n, w, s, locals);
    }
  }

  // ---------------------------------------------------------------- the function

  predicate BodyFinishes(o: BodyOutcome) {
    o.plain && o.dims.Some?
  }

  /** Every temp of `ats` holds the dimension of the same position. */
  ghost predicate DimsHeld(ats: seq<Local>, dims: seq<int>, env: map<nat, Cell>) {
    && |ats| == |dims|
    && forall i :: 0 <= i < |ats| ==> !ats[i].isBool && ats[i].temp in env && env[ats[i].temp] == Holding(dims[i])
  }

  /** A stretch of the function body against the rest of Python's run. */
  ghost predicate BodySimulates(s: CState, s': CState, ats: seq<Local>, o: BodyOutcome, n: nat)
    requires s.Run?
  {
    match s'
    case Stuck => false
    case Fail(t) => t <= s.trace + o.trace && !BodyFinishes(o)
    case Run(_, _, _, _, _) =>
      && BodyFinishes(o)
      && s' == s.(env := s'.env, trace := s.trace + o.trace)
      && (forall k :: k in s.env ==> k in s'.env && s'.env[k] == s.env[k])
      && DimsHeld(ats, o.dims.value, s'.env)
  }

  predicate AllInts(ats: seq<Local>) {
    forall i :: 0 <= i < |ats| ==> !ats[i].isBool
  }

  /** A run that continues after an expression, or stopped in it. */
  lemma Continues(w: World, s: CState, x: GridEmission, tail: seq<Line>, ats: seq<Local>, a: Outcome,
                  rest: BodyOutcome, n: nat)
    requires s.Run? && Simulates(w, s, Exec(w, s, x.lines), x, a, n)
    requires var s1 := Exec(w, s, x.lines); s1.Run? ==> BodySimulates(s1, Exec(w, s1, tail), ats, rest, x.next)
    ensures BodySimulates(s, Exec(w, s, x.lines + tail), ats, AfterExpr(a, rest), n)
  {
    hide Exec;
    hide Step;
    var s1 := Exec(w, s, x.lines);
    ExecConcat(w, s, x.lines, tail);
    if s1.Fail? {
      ExecEnded(w, s1, tail);
      if a.result.Value? {
        PrefixOfPrefix(s1.trace, s.trace, a.trace, rest.trace);
      }
    } else {
      assert s.trace + (a.trace + rest.trace) == s1.trace + rest.trace;
    }
  }

  lemma {:induction false} ResultsSimulate(elts: seq<Expr>, bound: Bound, c: GridContext, n: nat, w: World, s: CState,
                                           locals: Locals)
    requires Ready(s, bound, locals, n) && LoweredResults(elts, bound, c, n).Some?
    requires AllInts(LoweredResults(elts, bound, c, n).value.1)
    ensures var r := LoweredResults(elts, bound, c, n).value;
            BodySimulates(s, Exec(w, s, r.0), r.1, RunResults(elts, locals), n)
    decreases elts
  {
    hide Step;
    if elts == [] {
      assert s.trace + [] == s.trace;
    } else {
      hide Exec;
      hide GridLowered;
      hide GridEval;
      var x := GridLowered(elts[0], bound, c, n).value;
      var r := LoweredResults(elts[1..], bound, c, x.next).value;
      var a, rest := GridEval(elts[0], locals), RunResults(elts[1..], locals);
      assert ([x.at] + r.1)[0] == x.at && ([x.at] + r.1)[1..] == r.1;
      GridSimulates(elts[0], bound, c, n, w, s, locals);
      GridShape(elts[0], bound, c, n);
      var s1 := Exec(w, s, x.lines);
      if s1.Run? {
        AfterOne(bound, locals, s, s1, n, x.next);
        ResultsSimulate(elts[1..], bound, c, x.next, w, s1, locals);
        FirstHeld(w, s1, Exec(w, s1, r.0), x, r.1, a, rest, x.next);
      }
      Continues(w, s, x, r.0, [x.at] + r.1, a, WithFirst(a, rest), n);
    }
  }

  lemma AfterOne(bound: Bound, locals: Locals, s: CState, s1: CState, n: nat, m: nat)
    requires Ready(s, bound, locals, n) && s1.Run? && s1.blocks == s.blocks && n <= m
        && Extends(s.env, s1.env, n - 1, m - 1)
    ensures Ready(s1, bound, locals, m)
  {
  }

  function WithFirst(a: Outcome, rest: BodyOutcome): BodyOutcome {
    rest.(dims := if rest.dims.Some? && a.result.Value? && a.result.v.PyInt?
                  then Some([a.result.v.n] + rest.dims.value) else None)
  }

  lemma FirstHeld(w: World, s1: CState, s2: CState, x: GridEmission, ats: seq<Local>, a: Outcome, rest: BodyOutcome,
                  n: nat)
    requires s1.Run? && BodySimulates(s1, s2, ats, rest, n) && AllInts([x.at] + ats)
    requires Finishes(a) && FitsC(a.result.v) && a.result.v.PyBool? == x.at.isBool
    requires Read(w, s1, Temp(x.at.temp)) == Some(AsInt(a.result.v))
    ensures BodySimulates(s1, s2, [x.at] + ats, WithFirst(a, rest), n)
  {
    assert ([x.at] + ats)[0] == x.at;
  }

  lemma {:induction false} BodySimulation(assigns: seq<Statement>, elts: seq<Expr>, bound: Bound, c: GridContext,
                                          n: nat,
                                          w: World, s: CState, locals: Locals)
    requires forall i :: 0 <= i < |assigns| ==> assigns[i].Assign?
    requires Ready(s, bound, locals, n) && LoweredBody(assigns, bound, c, n).Some?
    requires var b := LoweredBody(assigns, bound, c, n).value;
             LoweredResults(elts, b.1, c, b.2).Some? && AllInts(LoweredResults(elts, b.1, c, b.2).value.1)
    ensures var b := LoweredBody(assigns, bound, c, n).value;
            var r := LoweredResults(elts, b.1, c, b.2).value;
            BodySimulates(s, Exec(w, s, b.0 + r.0), r.1, RunBody(assigns, elts, locals), n)
    decreases assigns
  {
    hide Step;
    hide Exec;
    hide GridLowered;
    hide GridEval;
    hide LoweredResults;
    var b := LoweredBody(assigns, bound, c, n).value;
    var r := LoweredResults(elts, b.1, c, b.2).value;
    if assigns == [] {
      assert b.0 + r.0 == r.0;
      ResultsSimulate(elts, bound, c, n, w, s, locals);
    } else {
      var target, value := assigns[0].target, assigns[0].value;
      var x := GridLowered(value, bound, c, n).value;
      var tail := LoweredBody(assigns[1..], bound[target := x.at], c, x.next).value;
      var a := GridEval(value, locals);
      GridShape(value, bound, c, n);
      GridSimulates(value, bound, c, n, w, s, locals);
      var s1 := Exec(w, s, x.lines);
      Assoc(x.lines, tail.0, r.0);
      if s1.Run? {
        AfterOne(bound, locals, s, s1, n, x.next);
        assert BoundHolds(bound[target := x.at], locals[target := a.result.v], s1.env);
        BodySimulation(assigns[1..], elts, bound[target := x.at], c, x.next, w, s1, locals[target := a.result.v]);
      }
      Continues(w, s, x, tail.0 + r.0, r.1, a,
                if a.result.Value? then RunBody(assigns[1..], elts, locals[target := a.result.v])
                  else BodyOutcome(None, [], false), n);
    }
  }

  predicate DimOk(d: int) {
    0 <= d < 0x1_0000_0000
  }

  predicate DimsOk(dims: seq<int>) {
    forall i :: 0 <= i < |dims| ==> DimOk(dims[i])
  }

  /** Dimensions `dims` are written from position `i` on. */
  ghost predicate Written(s: CState, dims: seq<int>, i: nat)
    requires s.Run?
  {
    forall j :: i <= j < i + |dims| ==> j in s.dims && s.dims[j] == dims[j - i]
  }

  /** Writing the dimensions out from position `i`. */
  lemma {:induction false} OutputsRun(ats: seq<Local>, dims: seq<int>, i: nat, w: World, s: CState)
    requires s.Run? && Active(s) && DimsHeld(ats, dims, s.env) && Outputs(ats, i).Some?
    ensures var s' := Exec(w, s, Outputs(ats, i).value);
            if DimsOk(dims) then
              && s'.Run? && s'.trace == s.trace && Written(s', dims, i)
              && (forall k :: k < i && k in s.dims ==> k in s'.dims && s'.dims[k] == s.dims[k])
            else s' == Fail(s.trace)
    decreases ats
  {
    hide Step;
    if ats != [] {
      var line := GridOutput(Temp(ats[0].temp), i);
      var rest := Outputs(ats[1..], i + 1).value;
      ExecConcat(w, s, [line], rest);
      ExecOne(w, s, line);
      OutputRuns(w, s, line, dims[0]);
      hide Exec;
      assert dims == [dims[0]] + dims[1..];
      if DimOk(dims[0]) {
        var s1 := Step(w, s, line);
        OutputsRun(ats[1..], dims[1..], i + 1, w, s1);
        assert DimsOk(dims[1..]) <==> DimsOk(dims);
        assert i in s1.dims && s1.dims[i] == dims[0];
      } else {
        ExecEnded(w, Fail(s.trace), rest);
        assert !DimsOk(dims);
      }
    }
  }

  lemma OutputRuns(w: World, s: CState, l: Line, d: int)
    requires s.Run? && Active(s) && l.GridOutput? && Read(w, s, l.x) == Some(d)
    ensures Step(w, s, l) == if DimOk(d) then s.(dims := s.dims[l.i := d]) else Fail(s.trace)
  {
    hide Smear;
  }

  lemma {:induction false} OutputsAccepted(ats: seq<Local>, i: nat)
    ensures Outputs(ats, i).Some? <==> AllInts(ats)
    decreases ats
  {
    if ats != [] {
      OutputsAccepted(ats[1..], i + 1);
      assert ats == [ats[0]] + ats[1..];
    }
  }

  // ---------------------------------------------------------------- parameters

  /** What a launch brings to its grid: the keyword-only extras by name, the dynamic options' values,
      the kernel's public arguments, and the tuned values by name. */
  datatype Launch = Launch(extras: map<string, PyVal>, dynamic: seq<PyVal>, public: seq<PyVal>,
                           tuned: map<string, PyVal>)

  /** The extras in the order the def declares them. */
  function ExtraValues(ds: seq<Declared>, extras: map<string, PyVal>): seq<PyVal> {
    if ds == [] then []
    else
      (if !ds[0].kwonly then [] else if ds[0].name in extras then [extras[ds[0].name]] else [PyNone])
      + ExtraValues(ds[1..], extras)
  }

  /** The arrays the evaluator is called with: the extras, then the dynamic values, then the public
      arguments; and every tuned name's value and type in its dep slot. */
  ghost predicate Launches(sig: Signature, call: Launch, w: World) {
    && w.args == ExtraValues(sig.declared, call.extras) + call.dynamic + call.public
    && |call.dynamic| == sig.offset
    && (forall i, j :: 0 <= i < j < |sig.declared| ==> sig.declared[i].name != sig.declared[j].name)
    && (forall i :: 0 <= i < |sig.declared| && sig.declared[i].kwonly ==> sig.declared[i].name in call.extras)
    && (forall n :: n in sig.params && sig.params[n].callIndex.Some? ==> sig.params[n].callIndex.value < |call.public|)
    && (sig.deps.Some? ==>
          forall n :: n in sig.deps.value ==>
            var slot := sig.deps.value[n];
            && 2 * slot + 1 < |w.dep| && n in call.tuned && FitsC(call.tuned[n])
            && w.dep[2 * slot] == AsInt(call.tuned[n]) && w.dep[2 * slot + 1] == BoolInt(call.tuned[n].PyBool?))
  }

  /** What Python calls the grid function with: an extra, a tuned value, a public argument, or the
      value baked into the launcher. */
  ghost predicate Receives(sig: Signature, call: Launch, locals: Locals) {
    forall i :: 0 <= i < |sig.declared| ==>
      var d := sig.declared[i];
      && d.name in locals
      && if d.kwonly then d.name in call.extras ==> locals[d.name] == call.extras[d.name]
         else d.name in sig.params ==>
           var p := sig.params[d.name];
           if sig.deps.Some? && d.name in sig.deps.value then d.name in call.tuned ==>
             locals[d.name] == call.tuned[d.name]
           else match p.callIndex
             case Some(at) => at < |call.public| ==> locals[d.name] == call.public[at]
             case None => locals[d.name] == p.baked
  }

  /** The value Python's grid function is called with sits where the evaluator looks for it. */
  ghost predicate PlaceHolds(p: Place, v: PyVal, w: World) {
    match p
    case ArgAt(i) => i < |w.args| && w.args[i] == v
    case DepAt(slot) => 2 * slot + 1 < |w.dep| && FitsC(v) && w.dep[2 * slot] == AsInt(v)
      && w.dep[2 * slot + 1] == BoolInt(v.PyBool?)
    case Baked(x) => x == v
  }

  lemma {:induction false} ExtraCount(ds: seq<Declared>, extras: map<string, PyVal>)
    ensures |ExtraValues(ds, extras)| == |Extras(ds)|
    decreases |ds|
  {
    if ds != [] {
      ExtraCount(ds[1..], extras);
    }
  }

  lemma {:induction false} ExtraAt(ds: seq<Declared>, extras: map<string, PyVal>, i: nat)
    requires i < |ds| && ds[i].kwonly && ds[i].name in extras
    requires forall i, j :: 0 <= i < j < |ds| ==> ds[i].name != ds[j].name
    ensures var at := IndexOf(Extras(ds), ds[i].name);
            at < |ExtraValues(ds, extras)| && ExtraValues(ds, extras)[at] == extras[ds[i].name]
    decreases |ds|
  {
    if i > 0 {
      ExtraAt(ds[1..], extras, i - 1);
      assert ds[0].name != ds[i].name;
      if ds[0].kwonly {
        assert Extras(ds)[0] == ds[0].name && Extras(ds)[1..] == Extras(ds[1..]);
        assert ExtraValues(ds, extras)[1..] == ExtraValues(ds[1..], extras);
      } else {
        assert Extras(ds) == Extras(ds[1..]) && ExtraValues(ds, extras) == ExtraValues(ds[1..], extras);
      }
    } else {
      assert Extras(ds)[0] == ds[0].name;
    }
  }

  /** Every parameter's place holds what Python is called with. */
  lemma PlaceFound(sig: Signature, call: Launch, w: World, locals: Locals, i: nat)
    requires Launches(sig, call, w) && Receives(sig, call, locals)
    requires i < |sig.declared| && PlaceOf(sig.declared[i], sig).Some?
    ensures var d := sig.declared[i]; d.name in locals && PlaceHolds(PlaceOf(d, sig).value, locals[d.name], w)
  {
    var d, extras := sig.declared[i], ExtraValues(sig.declared, call.extras);
    ExtraCount(sig.declared, call.extras);
    if d.kwonly {
      ExtraAt(sig.declared, call.extras, i);
      assert w.args[IndexOf(Extras(sig.declared), d.name)] == extras[IndexOf(Extras(sig.declared), d.name)];
    }
  }

  predicate InputOk(v: PyVal, isBool: bool) {
    HasKind(v, isBool) && FitsC(v)
  }

  ghost predicate Called(sig: Signature, locals: Locals, w: World) {
    forall i :: 0 <= i < |sig.declared| && PlaceOf(sig.declared[i], sig).Some? ==>
      sig.declared[i].name in locals && PlaceHolds(PlaceOf(sig.declared[i], sig).value, locals[sig.declared[i].name], w)
  }

  lemma LaunchCalls(sig: Signature, call: Launch, w: World, locals: Locals)
    requires Launches(sig, call, w) && Receives(sig, call, locals)
    ensures Called(sig, locals, w)
  {
    forall i | 0 <= i < |sig.declared| && PlaceOf(sig.declared[i], sig).Some?
      ensures sig.declared[i].name in locals
          && PlaceHolds(PlaceOf(sig.declared[i], sig).value, locals[sig.declared[i].name], w)
    {
      PlaceFound(sig, call, w, locals, i);
    }
  }

  /** Every parameter is passed exactly the type it is annotated with, within int64. */
  ghost predicate InputsOk(sig: Signature, from: nat, locals: Locals) {
    forall i :: from <= i < |sig.declared| ==>
      && sig.declared[i].kind.Some? && sig.declared[i].name in locals
      && InputOk(locals[sig.declared[i].name], sig.declared[i].kind.value)
  }

  lemma PlaceRuns(p: Place, isBool: bool, v: nat, x: PyVal, w: World, s: CState)
    requires s.Run? && Active(s) && v !in s.env && PlaceHolds(p, x, w)
    requires p.Baked? ==> InputOk(p.v, isBool)
    ensures Exec(w, s, PlaceLines(p, isBool, v))
         == if InputOk(x, isBool) then s.(env := s.env[v := Holding(AsInt(x))]) else Fail(s.trace)
  {
    hide RunCompute;
    if p.Baked? {
      DeclareLitRuns(w, s, v, AsInt(x));
    } else {
      var lines := PlaceLines(p, isBool, v);
      assert lines == [lines[0], lines[1]];
      ExecTwo(w, s, lines[0], lines[1]);
      if InputOk(x, isBool) {
        assert s.env[v := Unset][v := Holding(AsInt(x))] == s.env[v := Holding(AsInt(x))];
      }
    }
  }

  lemma BakedOk(d: Declared, sig: Signature)
    requires PlaceOf(d, sig).Some?
    ensures d.kind.Some? && (PlaceOf(d, sig).value.Baked? ==> InputOk(PlaceOf(d, sig).value.v, d.kind.value))
  {
  }

  lemma OneMoreParam(d: Declared, i: nat, bound: Bound, s: CState, locals: Locals)
    requires Ready(s, bound, locals, i) && d.kind.Some? && d.name in locals && InputOk(locals[d.name], d.kind.value)
    ensures Ready(s.(env := s.env[i := Holding(AsInt(locals[d.name]))]), bound[d.name := Local(i, d.kind.value)],
                  locals, i + 1)
  {
  }

  lemma InputsSplit(sig: Signature, i: nat, locals: Locals)
    requires i < |sig.declared|
    ensures var d := sig.declared[i];
            InputsOk(sig, i, locals)
            <==> && d.kind.Some? && d.name in locals && InputOk(locals[d.name], d.kind.value)
                 && InputsOk(sig, i + 1, locals)
  {
  }

  lemma {:induction false} ParamsSimulate(sig: Signature, i: nat, bound: Bound, w: World, s: CState, locals: Locals)
    requires i <= |sig.declared| && LoweredParams(sig, i, bound).Some? && Called(sig, locals, w)
    requires Ready(s, bound, locals, i)
    ensures var r := LoweredParams(sig, i, bound).value;
            var s' := Exec(w, s, r.0);
            if InputsOk(sig, i, locals) then
              && Ready(s', r.1, locals, |sig.declared|)
              && s' == s.(env := s'.env)
            else s' == Fail(s.trace)
    decreases |sig.declared| - i
  {
    hide Step;
    if i < |sig.declared| {
      hide Exec;
      hide PlaceOf;
      hide PlaceLines;
      hide PlaceHolds;
      var d := sig.declared[i];
      var p := PlaceOf(d, sig).value;
      var bound' := bound[d.name := Local(i, d.kind.value)];
      var rest := LoweredParams(sig, i + 1, bound').value;
      var here := PlaceLines(p, d.kind.value, i);
      ExecConcat(w, s, here, rest.0);
      BakedOk(d, sig);
      InputsSplit(sig, i, locals);
      assert PlaceHolds(p, locals[d.name], w);
      PlaceRuns(p, d.kind.value, i, locals[d.name], w, s);
      hide InputsOk;
      hide BoundHolds;
      var s1 := Exec(w, s, here);
      if s1.Run? {
        OneMoreParam(d, i, bound, s, locals);
        ParamsSimulate(sig, i + 1, bound', w, s1, locals);
      } else {
        ExecEnded(w, s1, rest.0);
      }
    }
  }

  /** The main result, for every def the lowering accepts. The evaluator leaves Python's dimensions
      when every parameter has its annotated type, everything computed is an int or bool in int64,
      and every dimension lies in [0, 2^32); in every other case it reports an error, having divided
      only where Python does. */
  lemma GridMeaning(sig: Signature, statements: seq<Statement>, globals: GridContext, w: World, call: Launch,
                    locals: Locals)
    requires GridLines(sig, statements, globals).Some? && Launches(sig, call, w) && Receives(sig, call, locals)
    ensures var body := Body(statements).value;
            var o := RunBody(body.0, body.1, locals);
            var s' := Exec(w, Run(map[], [], [], map[], []), GridLines(sig, statements, globals).value);
            && !s'.Stuck?
            && (s'.Run? <==> InputsOk(sig, 0, locals) && BodyFinishes(o) && DimsOk(o.dims.value))
            && (s'.Run? ==> s'.trace == o.trace
                            && forall k :: 0 <= k < |o.dims.value| ==> k in s'.dims && s'.dims[k] == o.dims.value[k])
            && s'.trace <= o.trace
  {
    LaunchCalls(sig, call, w, locals);
    CalledMeaning(sig, statements, globals, w, locals);
    hide Launches;
    hide Receives;
    hide GridLines;
    hide Exec;
  }

  lemma CalledMeaning(sig: Signature, statements: seq<Statement>, globals: GridContext, w: World, locals: Locals)
    requires GridLines(sig, statements, globals).Some? && Called(sig, locals, w)
    ensures var body := Body(statements).value;
            var o := RunBody(body.0, body.1, locals);
            var s' := Exec(w, Run(map[], [], [], map[], []), GridLines(sig, statements, globals).value);
            && !s'.Stuck?
            && (s'.Run? <==> InputsOk(sig, 0, locals) && BodyFinishes(o) && DimsOk(o.dims.value))
            && (s'.Run? ==> s'.trace == o.trace
                            && forall k :: 0 <= k < |o.dims.value| ==> k in s'.dims && s'.dims[k] == o.dims.value[k])
            && s'.trace <= o.trace
  {
    hide Step;
    hide Exec;
    var c := ContextOf(sig, statements, globals);
    var body := Body(statements).value;
    var ps := LoweredParams(sig, 0, map[]).value;
    var b := LoweredBody(body.0, ps.1, c, |sig.declared|).value;
    var r := LoweredResults(body.1, b.1, c, b.2).value;
    var out := Outputs(r.1, 0).value;
    var s0 := Run(map[], [], [], map[], []);
    ParamsSimulate(sig, 0, map[], w, s0, locals);
    var s1 := Exec(w, s0, ps.0);
    ExecConcat(w, s0, ps.0, b.0 + (r.0 + out));
    if !InputsOk(sig, 0, locals) {
      ExecEnded(w, s1, b.0 + (r.0 + out));
    } else {
      OutputsAccepted(r.1, 0);
      BodySimulation(body.0, body.1, ps.1, c, |sig.declared|, w, s1, locals);
      var s2 := Exec(w, s1, b.0 + r.0);
      Assoc(b.0, r.0, out);
      ExecConcat(w, s1, b.0 + r.0, out);
      if s2.Run? {
        var dims := RunBody(body.0, body.1, locals).dims.value;
        OutputsRun(r.1, dims, 0, w, s2);
        var s3 := Exec(w, s2, out);
        if DimsOk(dims) {
          assert forall k :: 0 <= k < |dims| ==> k in s3.dims && s3.dims[k] == dims[k - 0];
        }
      } else {
        ExecEnded(w, s2, out);
      }
    }
  }
}
