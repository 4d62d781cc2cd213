/** `_Emitter` (intj/heuristic.py): lines appended to a shared list, temps from a shared
    serial number, and the (value, is_bool) operands of the result. */
module HeuristicLowering {
  import opened CTarget
  import opened Optional
  import opened Python
  import opened Heuristic

  /** Where a heuristic input comes from in C. */
  datatype Source = Arg(index: nat) | Fixed(value: PyVal) | Dep(slot: nat) | Comp(slot: nat)

  datatype Context = Context(sources: map<string, Source>, minOk: bool, maxOk: bool, tritonOk: bool)

  /** What lowering an expression from serial `n` appends and returns. */
  datatype Emission = Emission(lines: seq<Line>, next: nat, value: Operand, isBool: Operand)

  /** The tensor methods that lower, and whether each takes an index. */
  const METHODS: map<string, bool> :=
    map["numel" := false, "size" := true, "stride" := true, "dim" := false, "element_size" := false,
        "is_contiguous" := false, "data_ptr" := false]

  predicate TakesIndex(name: string) {
    name in METHODS && METHODS[name]
  }

  /** The receiver, method and index arguments of a tensor read the lowering knows. */
  function TensorRead(e: Expr): Option<(Expr, string, seq<Expr>)> {
    match e
    case Subscript(value, index) =>
      if IsAttr(value, "shape") then Some((value.value, "size", [index])) else None
    case CallExpr(func, args, keywords) =>
      if keywords || !func.Attribute? || IsTriton(func, "cdiv") || IsTriton(func, "next_power_of_2") then None
      else if func.attr in METHODS then Some((func.value, func.attr, args))
      else None
    case _ => None
  }

  function ArithName(op: BinKind): Option<ArithOp> {
    match op
    case BinAdd => Some(Add)
    case BinSub => Some(Sub)
    case BinMult => Some(Mul)
    case BinFloorDiv => Some(Floor)
    case BinMod => Some(Mod)
    case BinOther => None
  }

  /** `_COMPARE`. */
  function RelOf(order: Order): Rel {
    match order
    case PyEq => Eq
    case PyNe => Ne
    case PyLt => Lt
    case PyLe => Le
    case PyGt => Gt
    case PyGe => Ge
  }

  function LoweredInput(key: string, c: Context, n: nat): Option<Emission> {
    if key !in c.sources then None
    else
      match c.sources[key]
      case Arg(i) => Some(Emission([DeclarePair(n + 1, n + 2), HeurArg(i, n + 1, n + 2)], n + 2, Temp(n + 1),
                                   Temp(n + 2)))
      case Fixed(v) =>
        if IsScalar(v) then Some(Emission([], n, Lit(AsInt(v)), Lit(BoolInt(v.PyBool?)))) else None
      case Dep(slot) => Some(Emission([], n, DepCell(2 * slot), DepCell(2 * slot + 1)))
      case Comp(slot) => Some(Emission([], n, CompCell(2 * slot), CompCell(2 * slot + 1)))
  }

  function LoweredConstant(lit: Literal, n: nat): Option<Emission> {
    match lit
    case IntLit(k) => if LiteralOk(k) then Some(Emission([], n, Lit(k), Lit(0))) else None
    case BoolLit(b) => Some(Emission([], n, Lit(BoolInt(b)), Lit(1)))
    case _ => None
  }

  /** The argument slot of a caller tensor. */
  function TensorArg(target: Expr, c: Context): Option<nat> {
    if target.Input? && target.key in c.sources && c.sources[target.key].Arg? then Some(c.sources[target.key].index)
    else None
  }

  function LoweredTensor(target: Expr, m: string, args: seq<Expr>, c: Context, n: nat): Option<Emission> {
    var index :- TensorArg(target, c);
    if |args| != BoolInt(TakesIndex(m)) || (TakesIndex(m) && !IsIndex(args[0])) then None
    else
      var literal := if TakesIndex(m) then args[0].lit.n else 0;
      Some(Emission([DeclareZero(n + 1), HeurTensor(index, m, TakesIndex(m), literal, n + 1)], n + 1,
                    Temp(n + 1), Lit(BoolInt(m == "is_contiguous"))))
  }

  /** A dtype operand has no is_bool half; Lit(0) stands in. */
  function LoweredDtype(e: Expr, c: Context, n: nat): Option<Emission>
    requires IsAttr(e, "dtype")
  {
    var index :- TensorArg(e.value, c);
    Some(Emission([Declare(n + 1), HeurDtype(index, n + 1)], n + 1, Temp(n + 1), Lit(0)))
  }

  function NoneTestOf(s: Source): NoneTest {
    match s
    case Arg(i) => ArgIsNone(i)
    case Fixed(v) => Always(v == PyNone)
    case _ => Always(false)
  }

  /** Two operands, then a line that fills the declared result. */
  function Joined(l: Emission, r: Emission, tail: seq<Line>, next: nat, value: Operand, isBool: Operand): Emission {
    Emission(l.lines + r.lines + tail, next, value, isBool)
  }

  function Lowered(e: Expr, c: Context, n: nat): Option<Emission>
    decreases e, 1
  {
    match e
    case Input(key) => LoweredInput(key, c, n)
    case Constant(lit) => LoweredConstant(lit, n)
    case BinOp(op, left, right) =>
      var a :- ArithName(op);
      var l :- Lowered(left, c, n);
      var r :- Lowered(right, c, l.next);
      var v := r.next + 1;
      Some(Joined(l, r, [DeclareZero(v), Arith(a, l.value, r.value, v)], v, Temp(v), Lit(0)))
    case UnaryOp(op, operand) =>
      var x :- Lowered(operand, c, n);
      var v := x.next + 1;
      var line :- UnaryLine(op, x.value, v);
      Some(Emission(x.lines + [DeclareZero(v), line], v, Temp(v), Lit(BoolInt(op.Not?))))
    case Compare(_, _, _) => LoweredCompare(e, c, n)
    case BoolOp(isAnd, first, rest) =>
      var x :- Lowered(first, c, n + 2);
      var r :- LoweredRest(isAnd, n + 1, n + 2, rest, c, x.next);
      Some(Emission([DeclarePair(n + 1, n + 2)] + (x.lines + [SetPair(n + 1, n + 2, x.value, x.isBool)] + r.lines),
                    r.next, Temp(n + 1), Temp(n + 2)))
    case IfExp(test, body, orelse) =>
      var t :- Lowered(test, c, n + 2);
      var y :- Lowered(body, c, t.next);
      var o :- Lowered(orelse, c, y.next);
      Some(Emission([DeclarePair(n + 1, n + 2)] + (t.lines + Branches(n + 1, n + 2, t.value, y, o)),
                    o.next, Temp(n + 1), Temp(n + 2)))
    case CallExpr(func, args, keywords) =>
      if IsBuiltin(e, "min") || IsBuiltin(e, "max") then
        if !(if IsBuiltin(e, "min") then c.minOk else c.maxOk) then None
        else
          var l :- Lowered(args[0], c, n);
          var r :- Lowered(args[1], c, l.next);
          var v, b := r.next + 1, r.next + 2;
          Some(Joined(l, r, [DeclarePair(v, b), SelectPair(if IsBuiltin(e, "min") then Lt else Gt, r.value, l.value,
                                                           v, b, r.isBool, l.isBool)], b, Temp(v), Temp(b)))
      else if !keywords && IsTriton(func, "cdiv") then
        if !c.tritonOk || |args| != 2 then None
        else
          var l :- Lowered(args[0], c, n);
          var r :- Lowered(args[1], c, l.next);
          var v := r.next + 1;
          Some(Joined(l, r, [DeclareZero(v), Arith(Cdiv, l.value, r.value, v)], v, Temp(v), Lit(0)))
      else if !keywords && IsTriton(func, "next_power_of_2") then
        if !c.tritonOk || |args| != 1 then None
        else
          var x :- Lowered(args[0], c, n);
          var v := x.next + 1;
          Some(Emission(x.lines + [DeclareZero(v), NextPow2Call(x.value, v)], v, Temp(v), Lit(0)))
      else
        var r :- TensorRead(e);
        LoweredTensor(r.0, r.1, r.2, c, n)
    case Subscript(_, _) =>
      var r :- TensorRead(e);
      LoweredTensor(r.0, r.1, r.2, c, n)
    case _ => None
  }

  function UnaryLine(op: UnaryKind, x: Operand, v: nat): Option<Line> {
    match op
    case Not => Some(SetNot(v, x))
    case USub => Some(Arith(Sub, Lit(0), x, v))
    case UAdd => Some(Set(v, x))
    case Invert => None
  }

  function Branches(v: nat, b: nat, test: Operand, y: Emission, o: Emission): seq<Line> {
    [IfOpen(false, test)] + (y.lines + [SetPair(v, b, y.value, y.isBool)])
    + [Else] + (o.lines + [SetPair(v, b, o.value, o.isBool)]) + [Close]
  }

  /** Each further operand of `and` / `or` in a block of its own, inside the one before. */
  function LoweredRest(isAnd: bool, v: nat, b: nat, rest: seq<Expr>, c: Context, n: nat): Option<Emission>
    decreases rest, 0
  {
    if rest == [] then Some(Emission([], n, Temp(v), Temp(b)))
    else
      var x :- Lowered(rest[0], c, n);
      var r :- LoweredRest(isAnd, v, b, rest[1..], c, x.next);
      Some(Emission([IfOpen(!isAnd, Temp(v))] + (x.lines + [SetPair(v, b, x.value, x.isBool)] + r.lines) + [Close],
                    r.next, Temp(v), Temp(b)))
  }

  function LoweredCompare(e: Expr, c: Context, n: nat): Option<Emission>
    requires e.Compare?
    decreases e, 0
  {
    if |e.ops| != 1 || |e.comparators| != 1 then None
    else
      var left, op, right := e.left, e.ops[0], e.comparators[0];
      var v := n + 1;
      if op.Is? || op.IsNot? then
        if left.Input? && left.key in c.sources && right == Constant(NoneLit) then
          Some(Emission([DeclareZero(v), SetNone(v, NoneTestOf(c.sources[left.key]), op.IsNot?)], v, Temp(v), Lit(1)))
        else None
      else if op.Containment? then None
      else if IsAttr(left, "dtype") || IsAttr(right, "dtype") then
        if (op.order.PyEq? || op.order.PyNe?) && IsAttr(left, "dtype") && IsAttr(right, "dtype") then
          var l :- LoweredDtype(left, c, v);
          var r :- LoweredDtype(right, c, l.next);
          Some(Compared(v, l, RelOf(op.order), r))
        else None
      else
        var l :- Lowered(left, c, v);
        var r :- Lowered(right, c, l.next);
        Some(Compared(v, l, RelOf(op.order), r))
  }

  function Compared(v: nat, l: Emission, rel: Rel, r: Emission): Emission {
    Emission([DeclareZero(v)] + (l.lines + r.lines + [SetRel(v, l.value, rel, r.value)]), r.next, Temp(v), Lit(1))
  }

  class Emitter {
    const c: Context
    var lines: seq<Line>
    var serial: nat

    constructor (c: Context, lines: seq<Line>, serial: nat)
      ensures this.c == c && this.lines == lines && this.serial == serial
    {
      this.c, this.lines, this.serial := c, lines, serial;
    }

    /** The lines and serial after appending `e`. */
    twostate predicate Appended(e: Emission)
      reads this
    {
      lines == old(lines) + e.lines && serial == e.next
    }

    method NewTemp() returns (id: nat)
      modifies this`serial
      ensures id == serial == old(serial) + 1
    {
      serial := serial + 1;
      id := serial;
    }

    method Append(l: Line)
      modifies this`lines
      ensures lines == old(lines) + [l]
    {
      lines := lines + [l];
    }

    method Pair() returns (v: nat, b: nat)
      modifies this
      ensures v == old(serial) + 1 && b == serial == old(serial) + 2
      ensures lines == old(lines) + [DeclarePair(v, b)]
    {
      v := NewTemp();
      b := NewTemp();
      Append(DeclarePair(v, b));
    }

    method FixedKind() returns (v: nat)
      modifies this
      ensures v == serial == old(serial) + 1
      ensures lines == old(lines) + [DeclareZero(v)]
    {
      v := NewTemp();
      Append(DeclareZero(v));
    }

    method EmitInput(key: string) returns (r: Option<(Operand, Operand)>)
      modifies this
      ensures r.Some? <==> LoweredInput(key, c, old(serial)).Some?
      ensures r.Some? ==> var e := LoweredInput(key, c, old(serial)).value;
                          Appended(e) && r.value == (e.value, e.isBool)
    {
      if key !in c.sources {
        return None;
      }
      match c.sources[key]
      case Arg(i) =>
        var v, b := Pair();
        Append(HeurArg(i, v, b));
        return Some((Temp(v), Temp(b)));
      case Fixed(v) =>
        if !IsScalar(v) {
          return None;
        }
        return Some((Lit(AsInt(v)), Lit(BoolInt(v.PyBool?))));
      case Dep(slot) =>
        return Some((DepCell(2 * slot), DepCell(2 * slot + 1)));
      case Comp(slot) =>
        return Some((CompCell(2 * slot), CompCell(2 * slot + 1)));
    }

    method TensorCall(target: Expr, m: string, args: seq<Expr>) returns (r: Option<(Operand, Operand)>)
      modifies this
      ensures r.Some? <==> LoweredTensor(target, m, args, c, old(serial)).Some?
      ensures r.Some? ==> var e := LoweredTensor(target, m, args, c, old(serial)).value;
                          Appended(e) && r.value == (e.value, e.isBool)
    {
      var index := TensorArg(target, c);
      if index.None? || |args| != BoolInt(TakesIndex(m)) {
        return None;
      }
      var literal := 0;
      if TakesIndex(m) {
        if !IsIndex(args[0]) {
          return None;
        }
        literal := args[0].lit.n;
      }
      var v := FixedKind();
      Append(HeurTensor(index.value, m, TakesIndex(m), literal, v));
      return Some((Temp(v), Lit(BoolInt(m == "is_contiguous"))));
    }

    method EmitDtype(e: Expr) returns (r: Option<Operand>)
      requires IsAttr(e, "dtype")
      modifies this
      ensures r.Some? <==> LoweredDtype(e, c, old(serial)).Some?
      ensures r.Some? ==> var x := LoweredDtype(e, c, old(serial)).value; Appended(x) && r.value == x.value
    {
      var index := TensorArg(e.value, c);
      if index.None? {
        return None;
      }
      var v := NewTemp();
      Append(Declare(v));
      Append(HeurDtype(index.value, v));
      return Some(Temp(v));
    }

    /** Both operands of a node, left first. */
    method EmitTwo(ghost parent: Expr, left: Expr, right: Expr)
      returns (r: Option<(Operand, Operand, Operand, Operand)>)
      requires left < parent && right < parent
      modifies this
      ensures r.Some? <==> && Lowered(left, c, old(serial)).Some?
                           && Lowered(right, c, Lowered(left, c, old(serial)).value.next).Some?
      ensures r.Some? ==>
                var l := Lowered(left, c, old(serial)).value;
                var x := Lowered(right, c, l.next).value;
                && lines == old(lines) + (l.lines + x.lines) && serial == x.next
                && r.value == (l.value, l.isBool, x.value, x.isBool)
      decreases parent, 0
    {
      var a := Emit(left);
      if a.None? {
        return None;
      }
      ghost var l := Lowered(left, c, old(serial)).value;
      var b := Emit(right);
      if b.None? {
        return None;
      }
      Chain(old(lines), l.lines, Lowered(right, c, l.next).value.lines);
      return Some((a.value.0, a.value.1, b.value.0, b.value.1));
    }

    method EmitTwoDtypes(left: Expr, right: Expr) returns (r: Option<(Operand, Operand)>)
      requires IsAttr(left, "dtype") && IsAttr(right, "dtype")
      modifies this
      ensures r.Some? <==> && LoweredDtype(left, c, old(serial)).Some?
                           && LoweredDtype(right, c, LoweredDtype(left, c, old(serial)).value.next).Some?
      ensures r.Some? ==>
                var l := LoweredDtype(left, c, old(serial)).value;
                var x := LoweredDtype(right, c, l.next).value;
                && lines == old(lines) + (l.lines + x.lines) && serial == x.next && r.value == (l.value, x.value)
    {
      var a := EmitDtype(left);
      if a.None? {
        return None;
      }
      ghost var l := LoweredDtype(left, c, old(serial)).value;
      var b := EmitDtype(right);
      if b.None? {
        return None;
      }
      Chain(old(lines), l.lines, LoweredDtype(right, c, l.next).value.lines);
      return Some((a.value, b.value));
    }

    method EmitCompare(e: Expr) returns (r: Option<(Operand, Operand)>)
      requires e.Compare?
      modifies this
      ensures r.Some? <==> LoweredCompare(e, c, old(serial)).Some?
      ensures r.Some? ==> var x := LoweredCompare(e, c, old(serial)).value;
                          Appended(x) && r.value == (x.value, x.isBool)
      decreases e, 1
    {
      if |e.ops| != 1 || |e.comparators| != 1 {
        return None;
      }
      var left, op, right := e.left, e.ops[0], e.comparators[0];
      var v := FixedKind();
      if op.Is? || op.IsNot? {
        if !left.Input? || left.key !in c.sources || right != Constant(NoneLit) {
          return None;
        }
        Append(SetNone(v, NoneTestOf(c.sources[left.key]), op.IsNot?));
        return Some((Temp(v), Lit(1)));
      }
      if op.Containment? {
        return None;
      }
      var l, x;
      ghost var operands;
      if IsAttr(left, "dtype") || IsAttr(right, "dtype") {
        if !(op.order.PyEq? || op.order.PyNe?) || !IsAttr(left, "dtype") || !IsAttr(right, "dtype") {
          return None;
        }
        var two := EmitTwoDtypes(left, right);
        if two.None? {
          return None;
        }
        l, x := two.value.0, two.value.1;
        operands := LoweredDtype(left, c, v).value.lines
                    + LoweredDtype(right, c, LoweredDtype(left, c, v).value.next).value.lines;
      } else {
        var two := EmitTwo(e, left, right);
        if two.None? {
          return None;
        }
        l, x := two.value.0, two.value.2;
        operands := Lowered(left, c, v).value.lines + Lowered(right, c, Lowered(left, c, v).value.next).value.lines;
      }
      Append(SetRel(v, l, RelOf(op.order), x));
      Bracket(old(lines), DeclareZero(v), operands, SetRel(v, l, RelOf(op.order), x));
      return Some((Temp(v), Lit(1)));
    }

    /** `and` / `or`: opens a block per further operand, then closes them all. */
    method EmitBoolOp(e: Expr) returns (r: Option<(Operand, Operand)>)
      requires e.BoolOp?
      modifies this
      ensures r.Some? <==> Lowered(e, c, old(serial)).Some?
      ensures r.Some? ==> var x := Lowered(e, c, old(serial)).value; Appended(x) && r.value == (x.value, x.isBool)
      decreases e, 1
    {
      var v, b := Pair();
      var x := Emit(e.first);
      if x.None? {
        return None;
      }
      Append(SetPair(v, b, x.value.0, x.value.1));
      ghost var head := Lowered(e.first, c, v + 1).value.lines;
      Bracket(old(lines), DeclarePair(v, b), head, SetPair(v, b, x.value.0, x.value.1));
      ghost var n := serial;
      var ok := EmitRest(e, e.isAnd, v, b, e.rest);
      if !ok {
        return None;
      }
      ghost var tail := LoweredRest(e.isAnd, v, b, e.rest, c, n).value.lines;
      Chain(old(lines), [DeclarePair(v, b)] + (head + [SetPair(v, b, x.value.0, x.value.1)]), tail);
      Chain([DeclarePair(v, b)], head + [SetPair(v, b, x.value.0, x.value.1)], tail);
      return Some((Temp(v), Temp(b)));
    }

    method EmitRest(ghost parent: Expr, isAnd: bool, v: nat, b: nat, rest: seq<Expr>) returns (ok: bool)
      requires forall x :: x in rest ==> x < parent
      modifies this
      ensures ok <==> LoweredRest(isAnd, v, b, rest, c, old(serial)).Some?
      ensures ok ==> Appended(LoweredRest(isAnd, v, b, rest, c, old(serial)).value)
      decreases parent, 0
    {
      ghost var goal := LoweredRest(isAnd, v, b, rest, c, serial);
      assert rest[0..] == rest;
      var i := 0;
      while i < |rest|
        invariant 0 <= i <= |rest|
        invariant goal.Some? <==> LoweredRest(isAnd, v, b, rest[i..], c, serial).Some?
        invariant goal.Some? ==>
                    var left := LoweredRest(isAnd, v, b, rest[i..], c, serial).value;
                    && old(lines) + goal.value.lines == lines + left.lines + Closes(i)
                    && goal.value.next == left.next
      {
        ghost var before, n := lines, serial;
        assert rest[i..][0] == rest[i] && rest[i..][1..] == rest[i + 1..];
        Append(IfOpen(!isAnd, Temp(v)));
        assert rest[i] in rest;
        var y := Emit(rest[i]);
        if y.None? {
          return false;
        }
        Append(SetPair(v, b, y.value.0, y.value.1));
        ghost var mid := Lowered(rest[i], c, n).value.lines;
        Bracket(before, IfOpen(!isAnd, Temp(v)), mid, SetPair(v, b, y.value.0, y.value.1));
        i := i + 1;
        if goal.Some? {
          ghost var inner := LoweredRest(isAnd, v, b, rest[i..], c, serial).value.lines;
          NestedBlock(before, [IfOpen(!isAnd, Temp(v))], mid + [SetPair(v, b, y.value.0, y.value.1)], inner, i);
        }
      }
      assert rest[|rest|..] == [];
      ghost var base := lines;
      assert base + [] + Closes(|rest|) == base + Closes(|rest|);
      i := 0;
      while i < |rest|
        invariant 0 <= i <= |rest|
        invariant lines == base + Closes(i)
        invariant serial == goal.value.next
      {
        Append(Close);
        CloseOne(i);
        Chain(base, Closes(i), [Close]);
        i := i + 1;
      }
      return true;
    }

    /** `v = value; b = is_bool;` after the lines of `e`. */
    method EmitStored(ghost parent: Expr, e: Expr, v: nat, b: nat) returns (ok: bool)
      requires e < parent
      modifies this
      ensures ok <==> Lowered(e, c, old(serial)).Some?
      ensures ok ==> var x := Lowered(e, c, old(serial)).value;
                     lines == old(lines) + (x.lines + [SetPair(v, b, x.value, x.isBool)]) && serial == x.next
      decreases parent, 0
    {
      var x := Emit(e);
      if x.None? {
        return false;
      }
      Append(SetPair(v, b, x.value.0, x.value.1));
      Chain(old(lines), Lowered(e, c, old(serial)).value.lines, [SetPair(v, b, x.value.0, x.value.1)]);
      return true;
    }

    method EmitIfExp(e: Expr) returns (r: Option<(Operand, Operand)>)
      requires e.IfExp?
      modifies this
      ensures r.Some? <==> Lowered(e, c, old(serial)).Some?
      ensures r.Some? ==> var x := Lowered(e, c, old(serial)).value; Appended(x) && r.value == (x.value, x.isBool)
      decreases e, 1
    {
      var v, b := Pair();
      var t := Emit(e.test);
      if t.None? {
        return None;
      }
      ghost var tl := Lowered(e.test, c, v + 1).value;
      Append(IfOpen(false, t.value.0));
      Bracket(old(lines), DeclarePair(v, b), tl.lines, IfOpen(false, t.value.0));
      var ok := EmitStored(e, e.body, v, b);
      if !ok {
        return None;
      }
      ghost var yl := Lowered(e.body, c, tl.next).value;
      Append(Else);
      ok := EmitStored(e, e.orelse, v, b);
      if !ok {
        return None;
      }
      ghost var ol := Lowered(e.orelse, c, yl.next).value;
      Append(Close);
      TwoBranches(old(lines), DeclarePair(v, b), tl.lines, IfOpen(false, t.value.0),
                  yl.lines + [SetPair(v, b, yl.value, yl.isBool)], ol.lines + [SetPair(v, b, ol.value, ol.isBool)]);
      return Some((Temp(v), Temp(b)));
    }

    method EmitCall(e: Expr) returns (r: Option<(Operand, Operand)>)
      requires e.CallExpr?
      modifies this
      ensures r.Some? <==> Lowered(e, c, old(serial)).Some?
      ensures r.Some? ==> var x := Lowered(e, c, old(serial)).value; Appended(x) && r.value == (x.value, x.isBool)
      decreases e, 1
    {
      hide LoweredCompare;
      hide LoweredRest;
      hide METHODS;
      hide LoweredTensor;
      if IsBuiltin(e, "min") || IsBuiltin(e, "max") {
        if !(if IsBuiltin(e, "min") then c.minOk else c.maxOk) {
          return None;
        }
        var two := EmitTwo(e, e.args[0], e.args[1]);
        if two.None? {
          return None;
        }
        var (a, aBool, d, dBool) := two.value;
        ghost var l := Lowered(e.args[0], c, old(serial)).value;
        ghost var operands := l.lines + Lowered(e.args[1], c, l.next).value.lines;
        var v, b := Pair();
        var select := SelectPair(if IsBuiltin(e, "min") then Lt else Gt, d, a, v, b, dBool, aBool);
        Append(select);
        Tail(old(lines), operands, DeclarePair(v, b), select);
        return Some((Temp(v), Temp(b)));
      }
      if !e.keywords && IsTriton(e.func, "cdiv") {
        if !c.tritonOk || |e.args| != 2 {
          return None;
        }
        var two := EmitTwo(e, e.args[0], e.args[1]);
        if two.None? {
          return None;
        }
        ghost var l := Lowered(e.args[0], c, old(serial)).value;
        ghost var operands := l.lines + Lowered(e.args[1], c, l.next).value.lines;
        var v := FixedKind();
        Append(Arith(Cdiv, two.value.0, two.value.2, v));
        Tail(old(lines), operands, DeclareZero(v), Arith(Cdiv, two.value.0, two.value.2, v));
        return Some((Temp(v), Lit(0)));
      }
      if !e.keywords && IsTriton(e.func, "next_power_of_2") {
        if !c.tritonOk || |e.args| != 1 {
          return None;
        }
        var a := Emit(e.args[0]);
        if a.None? {
          return None;
        }
        var v := FixedKind();
        Append(NextPow2Call(a.value.0, v));
        Tail(old(lines), Lowered(e.args[0], c, old(serial)).value.lines, DeclareZero(v), NextPow2Call(a.value.0, v));
        return Some((Temp(v), Lit(0)));
      }
      var t := TensorRead(e);
      if t.None? {
        return None;
      }
      r := TensorCall(t.value.0, t.value.1, t.value.2);
    }

    method EmitArith(e: Expr) returns (r: Option<(Operand, Operand)>)
      requires e.BinOp? || e.UnaryOp?
      modifies this
      ensures r.Some? <==> Lowered(e, c, old(serial)).Some?
      ensures r.Some? ==> var x := Lowered(e, c, old(serial)).value; Appended(x) && r.value == (x.value, x.isBool)
      decreases e, 1
    {
      if e.BinOp? {
        var name := ArithName(e.op);
        if name.None? {
          return None;
        }
        var two := EmitTwo(e, e.left, e.right);
        if two.None? {
          return None;
        }
        ghost var l := Lowered(e.left, c, old(serial)).value;
        ghost var operands := l.lines + Lowered(e.right, c, l.next).value.lines;
        var v := FixedKind();
        Append(Arith(name.value, two.value.0, two.value.2, v));
        Tail(old(lines), operands, DeclareZero(v), Arith(name.value, two.value.0, two.value.2, v));
        return Some((Temp(v), Lit(0)));
      }
      var a := Emit(e.operand);
      if a.None? {
        return None;
      }
      var v := FixedKind();
      var line := UnaryLine(e.uop, a.value.0, v);
      if line.None? {
        return None;
      }
      Append(line.value);
      Tail(old(lines), Lowered(e.operand, c, old(serial)).value.lines, DeclareZero(v), line.value);
      return Some((Temp(v), Lit(BoolInt(e.uop.Not?))));
    }

    /** `_Emitter.emit`: None where the source raises HeuristicError. */
    method Emit(e: Expr) returns (r: Option<(Operand, Operand)>)
      modifies this
      ensures r.Some? <==> Lowered(e, c, old(serial)).Some?
      ensures r.Some? ==> var x := Lowered(e, c, old(serial)).value; Appended(x) && r.value == (x.value, x.isBool)
      decreases e, 2
    {
      match e
      case Input(key) =>
        r := EmitInput(key);
      case Constant(lit) =>
        var x := LoweredConstant(lit, serial);
        r := if x.Some? then Some((x.value.value, x.value.isBool)) else None;
      case BinOp(_, _, _) =>
        r := EmitArith(e);
      case UnaryOp(_, _) =>
        r := EmitArith(e);
      case Compare(_, _, _) =>
        r := EmitCompare(e);
      case BoolOp(_, _, _) =>
        r := EmitBoolOp(e);
      case IfExp(_, _, _) =>
        r := EmitIfExp(e);
      case CallExpr(_, _, _) =>
        r := EmitCall(e);
      case Subscript(_, _) =>
        var t := TensorRead(e);
        if t.None? {
          return None;
        }
        r := TensorCall(t.value.0, t.value.1, t.value.2);
      case _ =>
        return None;
    }
  }

  function Closes(k: nat): seq<Line> {
    if k == 0 then [] else [Close] + Closes(k - 1)
  }

  lemma {:induction false} CloseOne(k: nat)
    ensures Closes(k) + [Close] == Closes(k + 1)
    decreases k
  {
    if k > 0 {
      CloseOne(k - 1);
      assert Closes(k) + [Close] == [Close] + (Closes(k - 1) + [Close]);
    }
  }

  lemma Chain(a: seq<Line>, b: seq<Line>, c: seq<Line>)
    ensures a + b + c == a + (b + c)
  {
  }

  /** `before`, one line, a stretch, one line. */
  lemma Bracket(before: seq<Line>, a: Line, mid: seq<Line>, z: Line)
    ensures before + [a] + mid + [z] == before + ([a] + (mid + [z]))
  {
  }

  lemma Tail(before: seq<Line>, mid: seq<Line>, a: Line, z: Line)
    ensures before + mid + [a] + [z] == before + (mid + [a, z])
  {
  }

  lemma TwoBranches(before: seq<Line>, a: Line, test: seq<Line>, open: Line, yes: seq<Line>, no: seq<Line>)
    ensures before + ([a] + (test + [open])) + yes + [Else] + no + [Close]
         == before + ([a] + (test + ([open] + yes + [Else] + no + [Close])))
  {
    var x, y := [a] + (test + [open]), yes + [Else] + no + [Close];
    assert before + x + yes + [Else] + no + [Close] == before + (x + y);
    assert x + y == [a] + (test + ([open] + y));
    assert [open] + y == [open] + yes + [Else] + no + [Close];
  }

  /** Opening one more block of a BoolOp: what is left moves inside it. */
  lemma NestedBlock(before: seq<Line>, open: seq<Line>, mid: seq<Line>, inner: seq<Line>, k: nat)
    requires k > 0
    ensures before + (open + (mid + inner) + [Close]) + Closes(k - 1) == before + (open + mid) + inner + Closes(k)
  {
    assert Closes(k) == [Close] + Closes(k - 1);
  }
}
