/** Lowering of an annotated grid function to one C evaluator (intj/grid.py), and Python's
    meaning of the same function. */
module Grid {
  import opened GridArith
  import opened CTarget
  import opened Optional
  import opened Python
  import opened Words

  // ---------------------------------------------------------------- Python's meaning

  type Locals = map<string, PyVal>

  /** Python's AST has no negative literal: -2**63 is a unary minus on a positive one. */
  predicate IsInt64MinLiteral(e: Expr) {
    e.UnaryOp? && e.uop.USub? && e.operand == Constant(IntLit(0x8000_0000_0000_0000))
  }

  predicate IsCall2(e: Expr) {
    e.CallExpr? && !e.keywords && |e.args| == 2
  }

  function GridEval(e: Expr, locals: Locals): Outcome {
    match e
    case Constant(IntLit(n)) => Just(PyInt(n))
    case Constant(BoolLit(b)) => Just(PyBool(b))
    case Name(id) => if id in locals then Just(locals[id]) else Outcome(Raises, [], false)
    case UnaryOp(op, operand) =>
      if IsInt64MinLiteral(e) then Just(PyInt(-operand.lit.n))
      else
        var a := GridEval(operand, locals);
        After(a, if a.result.Value? && IsScalar(a.result.v) then PyUnary(op, a.result.v) else NotScalar())
    case BinOp(op, left, right) =>
      var a, b := GridEval(left, locals), GridEval(right, locals);
      After(After(a, b), if Scalars(a, b) then PyArith(op, AsInt(a.result.v), AsInt(b.result.v)) else NotScalar())
    case CallExpr(func, args, keywords) =>
      if keywords || |args| != 2 || !(func == Name("min") || func == Attribute(Name("triton"), "cdiv")) then NotScalar()
      else
        var a, b := GridEval(args[0], locals), GridEval(args[1], locals);
        After(After(a, b), GridCall(func == Name("min"), a, b))
    case IfExp(test, body, orelse) =>
      var a := GridEval(test, locals);
      After(a, if !a.result.Value? || !IsScalar(a.result.v) then NotScalar()
               else if AsInt(a.result.v) != 0 then GridEval(body, locals)
               else GridEval(orelse, locals))
    case _ => NotScalar()
  }

  function GridCall(isMin: bool, a: Outcome, b: Outcome): Outcome {
    if !Scalars(a, b) then NotScalar()
    else if isMin then PyMinMax(true, a.result.v, b.result.v)
    else PyArith(BinFloorDiv, AsInt(a.result.v) + AsInt(b.result.v) - 1, AsInt(b.result.v))
  }

  datatype Statement =
    | DocString
    | Assign(target: string, value: Expr)
    | Return(elts: seq<Expr>)   // a tuple or list
    | OtherStatement

  /** The returned dimensions, if every one is an int; what ran; and whether all of it stayed
      within int64 ints and bools. */
  datatype BodyOutcome = BodyOutcome(dims: Option<seq<int>>, trace: seq<Event>, plain: bool)

  function AfterExpr(a: Outcome, rest: BodyOutcome): BodyOutcome {
    if a.result.Value? then BodyOutcome(rest.dims, a.trace + rest.trace, a.plain && rest.plain)
    else BodyOutcome(None, a.trace, a.plain)
  }

  function RunResults(elts: seq<Expr>, locals: Locals): BodyOutcome {
    if elts == [] then BodyOutcome(Some([]), [], true)
    else
      var a, rest := GridEval(elts[0], locals), RunResults(elts[1..], locals);
      AfterExpr(a, rest.(dims := if rest.dims.Some? && a.result.Value? && a.result.v.PyInt?
                                 then Some([a.result.v.n] + rest.dims.value) else None))
  }

  /** Assignments rebind names in order, then the elements are evaluated left to right. */
  function RunBody(assigns: seq<Statement>, elts: seq<Expr>, locals: Locals): BodyOutcome
    requires forall i :: 0 <= i < |assigns| ==> assigns[i].Assign?
  {
    if assigns == [] then RunResults(elts, locals)
    else
      var a := GridEval(assigns[0].value, locals);
      AfterExpr(a, if a.result.Value? then RunBody(assigns[1..], elts, locals[assigns[0].target := a.result.v])
                   else BodyOutcome(None, [], false))
  }

  // ---------------------------------------------------------------- the lowering

  /** Where a bound name's value lives, and its static type. */
  datatype Local = Local(temp: nat, isBool: bool)

  type Bound = map<string, Local>

  /** Whether `min` and `triton.cdiv` resolve to what they say. */
  datatype GridContext = GridContext(minOk: bool, cdivOk: bool)

  datatype GridEmission = GridEmission(lines: seq<Line>, next: nat, at: Local)

  function GridArithName(op: BinKind): Option<ArithOp> {
    match op
    case BinAdd => Some(Add)
    case BinSub => Some(Sub)
    case BinMult => Some(Mul)
    case BinFloorDiv => Some(Floor)
    case _ => None
  }

  function Filled(lines: seq<Line>, tail: seq<Line>, v: nat, isBool: bool): GridEmission {
    GridEmission(lines + tail, v + 1, Local(v, isBool))
  }

  function GridLowered(e: Expr, bound: Bound, c: GridContext, n: nat): Option<GridEmission> {
    match e
    case Constant(IntLit(k)) => if InI64(k) then Some(GridEmission([DeclareLit(n, k)], n + 1, Local(n, false)))
      else None
    case Constant(BoolLit(b)) => Some(GridEmission([DeclareLit(n, BoolInt(b))], n + 1, Local(n, true)))
    case Name(id) => if id in bound then Some(GridEmission([], n, bound[id])) else None
    case UnaryOp(op, operand) =>
      if IsInt64MinLiteral(e) then Some(GridEmission([DeclareLit(n, INT64_MIN)], n + 1, Local(n, false)))
      else if !(op.UAdd? || op.USub?) then None
      else
        var x :- GridLowered(operand, bound, c, n);
        if op.UAdd? then Some(x.(at := Local(x.at.temp, false)))
        else Some(Filled(x.lines, [Declare(x.next), Arith(Sub, Lit(0), Temp(x.at.temp), x.next)], x.next, false))
    case BinOp(op, left, right) =>
      var a :- GridArithName(op);
      var l :- GridLowered(left, bound, c, n);
      var r :- GridLowered(right, bound, c, l.next);
      Some(Filled(l.lines + r.lines, [Declare(r.next), Arith(a, Temp(l.at.temp), Temp(r.at.temp), r.next)], r.next,
                  false))
    case CallExpr(func, args, _) =>
      if !IsCall2(e) || !CalleeOk(e, c) then None
      else
        var l :- GridLowered(args[0], bound, c, n);
        var r :- GridLowered(args[1], bound, c, l.next);
        if l.at.isBool || r.at.isBool then None
        else Some(Filled(l.lines + r.lines,
                         [Declare(r.next), CallLine(IsBuiltin(e, "min"), l.at.temp, r.at.temp, r.next)], r.next, false))
    case IfExp(test, body, orelse) =>
      var t :- GridLowered(test, bound, c, n);
      var y :- GridLowered(body, bound, c, t.next + 1);
      var o :- GridLowered(orelse, bound, c, y.next);
      if y.at.isBool != o.at.isBool then None
      else Some(GridEmission(t.lines + ([Declare(t.next)] + GridBranches(t.next, t.at.temp, y, o)), o.next,
                             Local(t.next, y.at.isBool)))
    case _ => None
  }

  predicate CalleeOk(e: Expr, c: GridContext)
    requires e.CallExpr?
  {
    if IsBuiltin(e, "min") then c.minOk else IsTriton(e.func, "cdiv") && c.cdivOk
  }

  function CallLine(isMin: bool, l: nat, r: nat, v: nat): Line {
    if isMin then SetMin(v, Temp(l), Temp(r)) else Arith(Cdiv, Temp(l), Temp(r), v)
  }

  function GridBranches(v: nat, test: nat, y: GridEmission, o: GridEmission): seq<Line> {
    [IfOpen(false, Temp(test))] + (y.lines + [Set(v, Temp(y.at.temp))])
    + [Else] + (o.lines + [Set(v, Temp(o.at.temp))]) + [Close]
  }

  /** The assignments' lines, and the bindings and serial they leave. */
  function LoweredBody(assigns: seq<Statement>, bound: Bound, c: GridContext, n: nat): Option<(seq<Line>, Bound, nat)>
    requires forall i :: 0 <= i < |assigns| ==> assigns[i].Assign?
  {
    if assigns == [] then Some(([], bound, n))
    else
      var x :- GridLowered(assigns[0].value, bound, c, n);
      var rest :- LoweredBody(assigns[1..], bound[assigns[0].target := x.at], c, x.next);
      Some((x.lines + rest.0, rest.1, rest.2))
  }

  function LoweredResults(elts: seq<Expr>, bound: Bound, c: GridContext, n: nat): Option<(seq<Line>, seq<Local>)> {
    if elts == [] then Some(([], []))
    else
      var x :- GridLowered(elts[0], bound, c, n);
      var rest :- LoweredResults(elts[1..], bound, c, x.next);
      Some((x.lines + rest.0, [x.at] + rest.1))
  }

  /** `intj_grid_output` for the dimensions from `i` on; a bool dimension is refused. */
  function Outputs(ats: seq<Local>, i: nat): Option<seq<Line>> {
    if ats == [] then Some([])
    else if ats[0].isBool then None
    else
      var rest :- Outputs(ats[1..], i + 1);
      Some([GridOutput(Temp(ats[0].temp), i)] + rest)
  }

  // ---------------------------------------------------------------- parameters

  /** A declared grid parameter: its annotation if it is `int` or `bool`. */
  datatype Declared = Declared(name: string, kind: Option<bool>, kwonly: bool)

  /** A kernel parameter as the grid sees it: its public index, or bound, or a baked value. */
  datatype KernelParam = KernelParam(callIndex: Option<nat>, isBound: bool, baked: PyVal)

  datatype Signature = Signature(
    declared: seq<Declared>, params: map<string, KernelParam>, deps: Option<map<string, nat>>, offset: nat)

  /** Where the evaluator finds a parameter's value. */
  datatype Place = ArgAt(index: nat) | DepAt(slot: nat) | Baked(v: PyVal)

  function Extras(ds: seq<Declared>): seq<string> {
    if ds == [] then [] else (if ds[0].kwonly then [ds[0].name] else []) + Extras(ds[1..])
  }

  function IndexOf(xs: seq<string>, x: string): (i: nat) {
    if xs == [] || xs[0] == x then 0 else 1 + IndexOf(xs[1..], x)
  }

  /** None where `compile_grid` refuses the parameter. */
  function PlaceOf(d: Declared, sig: Signature): Option<Place> {
    if d.kind.None? then None
    else if d.kwonly then
      if d.name in sig.params then None else Some(ArgAt(IndexOf(Extras(sig.declared), d.name)))
    else if d.name !in sig.params then None
    else
      var p := sig.params[d.name];
      if sig.deps.Some? && d.name in sig.deps.value then Some(DepAt(sig.deps.value[d.name]))
      else if p.callIndex.Some? then Some(ArgAt(|Extras(sig.declared)| + sig.offset + p.callIndex.value))
      else if p.isBound || !HasKind(p.baked, d.kind.value) || !FitsC(p.baked) then None
      else Some(Baked(p.baked))
  }

  /** The exact type an annotation asks for. */
  predicate HasKind(v: PyVal, isBool: bool) {
    if isBool then v.PyBool? else v.PyInt?
  }

  function PlaceLines(p: Place, isBool: bool, v: nat): seq<Line> {
    match p
    case ArgAt(i) => [Declare(v), GridInput(isBool, i, v)]
    case DepAt(slot) => [Declare(v), GridDep(slot, isBool, v)]
    case Baked(x) => [DeclareLit(v, if IsScalar(x) then AsInt(x) else 0)]
  }

  /** The lines that fetch the parameters from `i` on, into temps `i`, `i + 1`, ... */
  function LoweredParams(sig: Signature, i: nat, bound: Bound): Option<(seq<Line>, Bound)>
    requires i <= |sig.declared|
    decreases |sig.declared| - i
  {
    if i == |sig.declared| then Some(([], bound))
    else
      var d := sig.declared[i];
      var p :- PlaceOf(d, sig);
      var rest :- LoweredParams(sig, i + 1, bound[d.name := Local(i, d.kind.value)]);
      Some((PlaceLines(p, d.kind.value, i) + rest.0, rest.1))
  }

  /** Every name the function stores: its parameters and assignment targets. */
  function LocalNames(sig: Signature, statements: seq<Statement>): set<string> {
    (set i | 0 <= i < |sig.declared| :: sig.declared[i].name)
    + (set i | 0 <= i < |statements| && statements[i].Assign? :: statements[i].target)
  }

  function ContextOf(sig: Signature, statements: seq<Statement>, globals: GridContext): GridContext {
    var names := LocalNames(sig, statements);
    GridContext(globals.minOk && "min" !in names, globals.cdivOk && "triton" !in names)
  }

  /** The statements after a docstring, if they are assignments and a final return. */
  function Body(statements: seq<Statement>): (r: Option<(seq<Statement>, seq<Expr>)>)
    ensures r.Some? ==> forall i :: 0 <= i < |r.value.0| ==> r.value.0[i].Assign?
  {
    var s := if statements != [] && statements[0].DocString? then statements[1..] else statements;
    if s == [] || !s[|s| - 1].Return? || !(1 <= |s[|s| - 1].elts| <= 3) then None
    else if exists i :: 0 <= i < |s| - 1 && !s[i].Assign? then None
    else Some((s[..|s| - 1], s[|s| - 1].elts))
  }

  function GridLines(sig: Signature, statements: seq<Statement>, globals: GridContext): Option<seq<Line>> {
    var body :- Body(statements);
    var c := ContextOf(sig, statements, globals);
    var ps :- LoweredParams(sig, 0, map[]);
    var b :- LoweredBody(body.0, ps.1, c, |sig.declared|);
    var r :- LoweredResults(body.1, b.1, c, b.2);
    var out :- Outputs(r.1, 0);
    Some(ps.0 + (b.0 + (r.0 + out)))
  }

  lemma Assoc(a: seq<Line>, b: seq<Line>, c: seq<Line>)
    ensures a + b + c == a + (b + c)
  {
  }

  class GridCompiler {
    const c: GridContext
    var lines: seq<Line>
    var serial: nat
    var bound: Bound

    constructor (c: GridContext)
      ensures this.c == c && lines == [] && serial == 0 && bound == map[]
    {
      this.c, lines, serial, bound := c, [], 0, map[];
    }

    method NewTemp() returns (v: nat)
      modifies this`serial
      ensures v == old(serial) && serial == v + 1
    {
      v := serial;
      serial := serial + 1;
    }

    method Append(l: Line)
      modifies this`lines
      ensures lines == old(lines) + [l]
    {
      lines := lines + [l];
    }

    method AppendTwo(a: Line, b: Line)
      modifies this`lines
      ensures lines == old(lines) + [a, b]
    {
      lines := lines + [a];
      lines := lines + [b];
    }

    method EmitTwo(ghost parent: Expr, left: Expr, right: Expr) returns (r: Option<(Local, Local)>)
      requires left < parent && right < parent
      modifies this`lines, this`serial
      ensures r.Some? <==> && GridLowered(left, bound, c, old(serial)).Some?
                           && GridLowered(right, bound, c, GridLowered(left, bound, c, old(serial)).value.next).Some?
      ensures r.Some? ==>
                var l := GridLowered(left, bound, c, old(serial)).value;
                var x := GridLowered(right, bound, c, l.next).value;
                lines == old(lines) + (l.lines + x.lines) && serial == x.next && r.value == (l.at, x.at)
      decreases parent, 0
    {
      var a := Emit(left);
      if a.None? {
        return None;
      }
      ghost var l := GridLowered(left, bound, c, old(serial)).value;
      var b := Emit(right);
      if b.None? {
        return None;
      }
      Assoc(old(lines), l.lines, GridLowered(right, bound, c, l.next).value.lines);
      return Some((a.value, b.value));
    }

    /** `v = value;` after the lines of `e`. */
    method EmitStored(ghost parent: Expr, e: Expr, v: nat) returns (r: Option<Local>)
      requires e < parent
      modifies this`lines, this`serial
      ensures r.Some? <==> GridLowered(e, bound, c, old(serial)).Some?
      ensures r.Some? ==> var x := GridLowered(e, bound, c, old(serial)).value;
                          lines == old(lines) + (x.lines + [Set(v, Temp(x.at.temp))]) && serial == x.next
                            && r.value == x.at
      decreases parent, 0
    {
      r := Emit(e);
      if r.Some? {
        Append(Set(v, Temp(r.value.temp)));
        Assoc(old(lines), GridLowered(e, bound, c, old(serial)).value.lines, [Set(v, Temp(r.value.temp))]);
      }
    }

    method EmitIf(e: Expr) returns (r: Option<Local>)
      requires e.IfExp?
      modifies this`lines, this`serial
      ensures r.Some? <==> GridLowered(e, bound, c, old(serial)).Some?
      ensures r.Some? ==> var x := GridLowered(e, bound, c, old(serial)).value;
                          lines == old(lines) + x.lines && serial == x.next && r.value == x.at
      decreases e, 1
    {
      var t := Emit(e.test);
      if t.None? {
        return None;
      }
      ghost var tl := GridLowered(e.test, bound, c, old(serial)).value;
      var v := NewTemp();
      AppendTwo(Declare(v), IfOpen(false, Temp(t.value.temp)));
      var y := EmitStored(e, e.body, v);
      if y.None? {
        return None;
      }
      ghost var yl := GridLowered(e.body, bound, c, v + 1).value;
      Append(Else);
      var o := EmitStored(e, e.orelse, v);
      if o.None? {
        return None;
      }
      ghost var ol := GridLowered(e.orelse, bound, c, yl.next).value;
      Append(Close);
      if y.value.isBool != o.value.isBool {
        return None;
      }
      IfShape(old(lines), tl.lines, Declare(v), IfOpen(false, Temp(t.value.temp)),
              yl.lines + [Set(v, Temp(yl.at.temp))], ol.lines + [Set(v, Temp(ol.at.temp))]);
      return Some(Local(v, y.value.isBool));
    }

    /** `compile_grid`'s inner `emit`: None where it raises GridError. */
    method Emit(e: Expr) returns (r: Option<Local>)
      modifies this`lines, this`serial
      ensures r.Some? <==> GridLowered(e, bound, c, old(serial)).Some?
      ensures r.Some? ==> var x := GridLowered(e, bound, c, old(serial)).value;
                          lines == old(lines) + x.lines && serial == x.next && r.value == x.at
      decreases e, 2
    {
      match e
      case Constant(lit) =>
        if !(if lit.IntLit? then InI64(lit.n) else lit.BoolLit?) {
          return None;
        }
        var v := NewTemp();
        Append(DeclareLit(v, if lit.IntLit? then lit.n else BoolInt(lit.b)));
        return Some(Local(v, lit.BoolLit?));
      case Name(id) =>
        if id !in bound {
          return None;
        }
        return Some(bound[id]);
      case UnaryOp(op, operand) =>
        if IsInt64MinLiteral(e) {
          var v := NewTemp();
          Append(DeclareLit(v, INT64_MIN));
          return Some(Local(v, false));
        }
        if !(op.UAdd? || op.USub?) {
          return None;
        }
        var x := Emit(operand);
        if x.None? {
          return None;
        }
        if op.UAdd? {
          return Some(Local(x.value.temp, false));
        }
        var v := NewTemp();
        AppendTwo(Declare(v), Arith(Sub, Lit(0), Temp(x.value.temp), v));
        Assoc(old(lines), GridLowered(operand, bound, c, old(serial)).value.lines,
              [Declare(v), Arith(Sub, Lit(0), Temp(x.value.temp), v)]);
        return Some(Local(v, false));
      case BinOp(op, left, right) =>
        var name := GridArithName(op);
        if name.None? {
          return None;
        }
        var two := EmitTwo(e, left, right);
        if two.None? {
          return None;
        }
        ghost var mid := lines[|old(lines)|..];
        var v := NewTemp();
        AppendTwo(Declare(v), Arith(name.value, Temp(two.value.0.temp), Temp(two.value.1.temp), v));
        Assoc(old(lines), mid, [Declare(v), Arith(name.value, Temp(two.value.0.temp), Temp(two.value.1.temp), v)]);
        return Some(Local(v, false));
      case CallExpr(func, args, _) =>
        if !IsCall2(e) || !CalleeOk(e, c) {
          return None;
        }
        var two := EmitTwo(e, args[0], args[1]);
        if two.None? || two.value.0.isBool || two.value.1.isBool {
          return None;
        }
        ghost var mid := lines[|old(lines)|..];
        var v := NewTemp();
        AppendTwo(Declare(v), CallLine(IsBuiltin(e, "min"), two.value.0.temp, two.value.1.temp, v));
        Assoc(old(lines), mid, [Declare(v), CallLine(IsBuiltin(e, "min"), two.value.0.temp, two.value.1.temp, v)]);
        return Some(Local(v, false));
      case IfExp(_, _, _) =>
        r := EmitIf(e);
      case _ =>
        return None;
    }
  }

  lemma IfShape(before: seq<Line>, test: seq<Line>, a: Line, open: Line, yes: seq<Line>, no: seq<Line>)
    ensures before + test + [a, open] + yes + [Else] + no + [Close]
         == before + (test + ([a] + ([open] + yes + [Else] + no + [Close])))
  {
    var z := yes + [Else] + no + [Close];
    assert before + test + [a, open] + yes + [Else] + no + [Close] == before + test + [a, open] + z;
    assert [a] + ([open] + yes + [Else] + no + [Close]) == [a, open] + z;
  }

  /** `compile_grid` from a parsed def: the evaluator's lines, or None for GridError. */
  method CompileGrid(sig: Signature, statements: seq<Statement>, globals: GridContext) returns (r: Option<seq<Line>>)
    ensures r == GridLines(sig, statements, globals)
  {
    var body := Body(statements);
    if body.None? {
      return None;
    }
    var g := new GridCompiler(ContextOf(sig, statements, globals));
    ghost var goal := LoweredParams(sig, 0, map[]);
    assert goal.Some? ==> [] + goal.value.0 == goal.value.0;
    for i := 0 to |sig.declared|
      invariant g.serial == i
      invariant goal.Some? <==> LoweredParams(sig, i, g.bound).Some?
      invariant goal.Some? ==> var left := LoweredParams(sig, i, g.bound).value;
                               goal.value == (g.lines + left.0, left.1)
    {
      var d := sig.declared[i];
      var p := PlaceOf(d, sig);
      if p.None? {
        return None;
      }
      var v := g.NewTemp();
      ghost var before := g.lines;
      if p.value.Baked? {
        g.Append(PlaceLines(p.value, d.kind.value, v)[0]);
      } else {
        g.AppendTwo(PlaceLines(p.value, d.kind.value, v)[0], PlaceLines(p.value, d.kind.value, v)[1]);
      }
      assert g.lines == before + PlaceLines(p.value, d.kind.value, v);
      if goal.Some? {
        Assoc(before, PlaceLines(p.value, d.kind.value, v),
              LoweredParams(sig, i + 1, g.bound[d.name := Local(v, d.kind.value)]).value.0);
      }
      g.bound := g.bound[d.name := Local(v, d.kind.value)];
    }
    ghost var fetched := g.lines;
    assert goal.Some? && goal.value == (fetched, g.bound) by {
      assert fetched + [] == fetched;
    }
    var done := LowerStatements(g, body.value.0, body.value.1);
    return if done then Some(g.lines) else None;
  }

  method LowerStatements(g: GridCompiler, assigns: seq<Statement>, elts: seq<Expr>) returns (ok: bool)
    requires forall i :: 0 <= i < |assigns| ==> assigns[i].Assign?
    modifies g
    ensures var b := LoweredBody(assigns, old(g.bound), g.c, old(g.serial));
            var x := if b.Some? then LoweredResults(elts, b.value.1, g.c, b.value.2) else None;
            && (ok <==> b.Some? && x.Some? && Outputs(x.value.1, 0).Some?)
            && (ok ==> g.lines == old(g.lines) + (b.value.0 + (x.value.0 + Outputs(x.value.1, 0).value)))
  {
    ok := LowerAssigns(g, assigns);
    if !ok {
      return;
    }
    ghost var mid := g.lines;
    ghost var b := LoweredBody(assigns, old(g.bound), g.c, old(g.serial)).value;
    var ats := LowerResults(g, elts);
    if ats.None? {
      return false;
    }
    ghost var x := LoweredResults(elts, b.1, g.c, b.2).value;
    ok := LowerOutputs(g, ats.value);
    if ok {
      Assoc(old(g.lines), b.0, x.0 + Outputs(x.1, 0).value);
      Assoc(mid, x.0, Outputs(x.1, 0).value);
    }
  }

  method LowerAssigns(g: GridCompiler, assigns: seq<Statement>) returns (ok: bool)
    requires forall i :: 0 <= i < |assigns| ==> assigns[i].Assign?
    modifies g
    ensures ok <==> LoweredBody(assigns, old(g.bound), g.c, old(g.serial)).Some?
    ensures ok ==> var b := LoweredBody(assigns, old(g.bound), g.c, old(g.serial)).value;
                   g.lines == old(g.lines) + b.0 && g.bound == b.1 && g.serial == b.2
  {
    ghost var goal := LoweredBody(assigns, g.bound, g.c, g.serial);
    assert assigns[0..] == assigns;
    for i := 0 to |assigns|
      invariant goal.Some? <==> LoweredBody(assigns[i..], g.bound, g.c, g.serial).Some?
      invariant goal.Some? ==> var left := LoweredBody(assigns[i..], g.bound, g.c, g.serial).value;
                               old(g.lines) + goal.value.0 == g.lines + left.0 && goal.value.1 == left.1
                                 && goal.value.2 == left.2
    {
      ghost var before, n, bound := g.lines, g.serial, g.bound;
      assert assigns[i..][0] == assigns[i] && assigns[i..][1..] == assigns[i + 1..];
      var x := g.Emit(assigns[i].value);
      if x.None? {
        return false;
      }
      g.bound := g.bound[assigns[i].target := x.value];
      if goal.Some? {
        Assoc(before, GridLowered(assigns[i].value, bound, g.c, n).value.lines,
              LoweredBody(assigns[i + 1..], g.bound, g.c, g.serial).value.0);
      }
    }
    assert assigns[|assigns|..] == [];
    return true;
  }

  method LowerResults(g: GridCompiler, elts: seq<Expr>) returns (r: Option<seq<Local>>)
    modifies g
    ensures r.Some? <==> LoweredResults(elts, old(g.bound), g.c, old(g.serial)).Some?
    ensures r.Some? ==> var x := LoweredResults(elts, old(g.bound), g.c, old(g.serial)).value;
                        g.lines == old(g.lines) + x.0 && r.value == x.1
  {
    ghost var goal := LoweredResults(elts, g.bound, g.c, g.serial);
    var ats := [];
    assert elts[0..] == elts;
    for i := 0 to |elts|
      invariant g.bound == old(g.bound)
      invariant goal.Some? <==> LoweredResults(elts[i..], g.bound, g.c, g.serial).Some?
      invariant goal.Some? ==> var left := LoweredResults(elts[i..], g.bound, g.c, g.serial).value;
                               old(g.lines) + goal.value.0 == g.lines + left.0 && goal.value.1 == ats + left.1
    {
      ghost var before, n := g.lines, g.serial;
      assert elts[i..][0] == elts[i] && elts[i..][1..] == elts[i + 1..];
      var x := g.Emit(elts[i]);
      if x.None? {
        return None;
      }
      if goal.Some? {
        ghost var rest := LoweredResults(elts[i + 1..], g.bound, g.c, g.serial).value;
        Assoc(before, GridLowered(elts[i], g.bound, g.c, n).value.lines, rest.0);
        assert ats + ([x.value] + rest.1) == ats + [x.value] + rest.1;
      }
      ats := ats + [x.value];
    }
    assert elts[|elts|..] == [];
    return Some(ats);
  }

  method LowerOutputs(g: GridCompiler, ats: seq<Local>) returns (ok: bool)
    modifies g
    ensures ok <==> Outputs(ats, 0).Some?
    ensures ok ==> g.lines == old(g.lines) + Outputs(ats, 0).value
  {
    ghost var goal := Outputs(ats, 0);
    assert ats[0..] == ats;
    for i := 0 to |ats|
      invariant goal.Some? <==> Outputs(ats[i..], i).Some?
      invariant goal.Some? ==> old(g.lines) + goal.value == g.lines + Outputs(ats[i..], i).value
    {
      assert ats[i..][0] == ats[i] && ats[i..][1..] == ats[i + 1..];
      if ats[i].isBool {
        return false;
      }
      ghost var before := g.lines;
      g.Append(GridOutput(Temp(ats[i].temp), i));
      if goal.Some? {
        Assoc(before, [GridOutput(Temp(ats[i].temp), i)], Outputs(ats[i + 1..], i + 1).value);
      }
    }
    assert ats[|ats|..] == [];
    return true;
  }
}
