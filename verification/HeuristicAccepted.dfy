/** Which heuristic expressions lower (intj/heuristic.py), said of the syntax alone. */
module HeuristicAccepted {
  import opened CTarget
  import opened Optional
  import opened Python
  import opened Heuristic
  import opened HeuristicLowering
  import opened Words

  /** A tensor argument of the caller: what a method, a shape or a dtype may be read of. */
  predicate IsArgument(e: Expr, c: Context) {
    e.Input? && e.key in c.sources && c.sources[e.key].Arg?
  }

  /** A method read: of an index, or of nothing. */
  predicate IsRead(target: Expr, name: string, args: seq<Expr>, c: Context) {
    && IsArgument(target, c)
    && if name == "size" || name == "stride" then |args| == 1 && args[0].Constant? && args[0].lit.IntLit?
       else
         && (name == "numel" || name == "dim" || name == "element_size" || name == "is_contiguous"
           || name == "data_ptr")
         && args == []
  }

  /** `min`, `max`, `triton.cdiv` and `triton.next_power_of_2`, where they are what they say. */
  predicate IsKnownCall(func: Expr, count: nat, c: Context) {
    || (func == Name("min") && count == 2 && c.minOk)
    || (func == Name("max") && count == 2 && c.maxOk)
    || (func == Attribute(Name("triton"), "cdiv") && count == 2 && c.tritonOk)
    || (func == Attribute(Name("triton"), "next_power_of_2") && count == 1 && c.tritonOk)
  }

  /** One of their names, however it is called. */
  predicate IsReserved(func: Expr) {
    func == Attribute(Name("triton"), "cdiv") || func == Attribute(Name("triton"), "next_power_of_2")
  }

  predicate Accepted(e: Expr, c: Context) {
    match e
    case Input(key) => key in c.sources
      && (c.sources[key].Fixed? ==> c.sources[key].value.PyInt? || c.sources[key].value.PyBool?)
    case Constant(IntLit(n)) => INT64_MIN < n <= INT64_MAX
    case Constant(lit) => lit.BoolLit?
    case BinOp(op, left, right) => !op.BinOther? && Accepted(left, c) && Accepted(right, c)
    case UnaryOp(op, operand) => !op.Invert? && Accepted(operand, c)
    case Compare(left, ops, rights) =>
      && |ops| == 1 && |rights| == 1
      && (match ops[0]
          case Is => left.Input? && left.key in c.sources && rights[0] == Constant(NoneLit)
          case IsNot => left.Input? && left.key in c.sources && rights[0] == Constant(NoneLit)
          case Containment => false
          case Ordering(order) =>
            if IsAttr(left, "dtype") || IsAttr(rights[0], "dtype") then
              && (order.PyEq? || order.PyNe?) && IsAttr(left, "dtype") && IsAttr(rights[0], "dtype")
              && IsArgument(left.value, c) && IsArgument(rights[0].value, c)
            else Accepted(left, c) && Accepted(rights[0], c))
    case BoolOp(_, first, rest) => Accepted(first, c) && forall x :: x in rest ==> Accepted(x, c)
    case IfExp(test, body, orelse) => Accepted(test, c) && Accepted(body, c) && Accepted(orelse, c)
    case CallExpr(func, args, keywords) =>
      && !keywords
      && ((IsKnownCall(func, |args|, c) && forall x :: x in args ==> Accepted(x, c))
          || (func.Attribute? && !IsReserved(func) && IsRead(func.value, func.attr, args, c)))
    case Subscript(value, index) => IsAttr(value, "shape") && IsRead(value.value, "size", [index], c)
    case _ => false
  }

  /** The lowering takes exactly these, from any serial. */
  lemma {:induction false} AcceptedExactly(e: Expr, c: Context, n: nat)
    ensures Lowered(e, c, n).Some? <==> Accepted(e, c)
    decreases e, 2
  {
    hide Lowered;
    hide Accepted;
    match e
    case BinOp(_, _, _) => BinOpAccepted(e, c, n);
    case UnaryOp(_, _) => UnaryOpAccepted(e, c, n);
    case Compare(_, _, _) => CompareAccepted(e, c, n);
    case BoolOp(_, _, _) => BoolOpAccepted(e, c, n);
    case IfExp(_, _, _) => IfExpAccepted(e, c, n);
    case CallExpr(_, _, _) => CallAccepted(e, c, n);
    case _ => LeafAccepted(e, c, n);
  }

  lemma LeafAccepted(e: Expr, c: Context, n: nat)
    requires e.Input? || e.Constant? || e.Name? || e.Attribute? || e.Subscript? || e.OtherExpr?
    ensures Lowered(e, c, n).Some? <==> Accepted(e, c)
  {
  }

  lemma BinOpAccepted(e: Expr, c: Context, n: nat)
    requires e.BinOp?
    ensures Lowered(e, c, n).Some? <==> Accepted(e, c)
    decreases e, 1
  {
    hide METHODS;
    hide TensorRead;
    hide LoweredCompare;
    hide LoweredRest;
    AcceptedTwo(e, e.left, e.right, c, n);
  }

  lemma UnaryOpAccepted(e: Expr, c: Context, n: nat)
    requires e.UnaryOp?
    ensures Lowered(e, c, n).Some? <==> Accepted(e, c)
    decreases e, 1
  {
    hide METHODS;
    hide TensorRead;
    hide LoweredCompare;
    hide LoweredRest;
    AcceptedExactly(e.operand, c, n);
  }

  lemma CompareAccepted(e: Expr, c: Context, n: nat)
    requires e.Compare?
    ensures Lowered(e, c, n).Some? <==> Accepted(e, c)
    decreases e, 1
  {
    if |e.ops| == 1 && |e.comparators| == 1 && e.ops[0].Ordering? {
      AcceptedTwo(e, e.left, e.comparators[0], c, n + 1);
    }
  }

  lemma BoolOpAccepted(e: Expr, c: Context, n: nat)
    requires e.BoolOp?
    ensures Lowered(e, c, n).Some? <==> Accepted(e, c)
    decreases e, 1
  {
    AcceptedExactly(e.first, c, n + 2);
    if Lowered(e.first, c, n + 2).Some? {
      RestAccepted(e.isAnd, n + 1, n + 2, e.rest, c, Lowered(e.first, c, n + 2).value.next);
    }
  }

  lemma IfExpAccepted(e: Expr, c: Context, n: nat)
    requires e.IfExp?
    ensures Lowered(e, c, n).Some? <==> Accepted(e, c)
    decreases e, 1
  {
    AcceptedExactly(e.test, c, n + 2);
    if Lowered(e.test, c, n + 2).Some? {
      AcceptedTwo(e, e.body, e.orelse, c, Lowered(e.test, c, n + 2).value.next);
    }
  }

  /** Two subexpressions, left first. */
  lemma AcceptedTwo(parent: Expr, left: Expr, right: Expr, c: Context, n: nat)
    requires left < parent && right < parent
    ensures Lowered(left, c, n).Some? <==> Accepted(left, c)
    ensures Lowered(left, c, n).Some? ==>
              (Lowered(right, c, Lowered(left, c, n).value.next).Some? <==> Accepted(right, c))
    decreases parent, 0
  {
    AcceptedExactly(left, c, n);
    if Lowered(left, c, n).Some? {
      AcceptedExactly(right, c, Lowered(left, c, n).value.next);
    }
  }

  lemma {:induction false} RestAccepted(isAnd: bool, v: nat, b: nat, rest: seq<Expr>, c: Context, n: nat)
    ensures LoweredRest(isAnd, v, b, rest, c, n).Some? <==> forall x :: x in rest ==> Accepted(x, c)
    decreases rest, 0
  {
    if rest != [] {
      AcceptedExactly(rest[0], c, n);
      if Lowered(rest[0], c, n).Some? {
        RestAccepted(isAnd, v, b, rest[1..], c, Lowered(rest[0], c, n).value.next);
      }
      assert forall x :: x in rest <==> x == rest[0] || x in rest[1..];
    }
  }

  lemma CallAccepted(e: Expr, c: Context, n: nat)
    requires e.CallExpr?
    ensures Lowered(e, c, n).Some? <==> Accepted(e, c)
    decreases e, 1
  {
    hide LoweredCompare;
    hide LoweredRest;
    if !e.keywords && IsKnownCall(e.func, |e.args|, c) {
      AcceptedExactly(e.args[0], c, n);
      if |e.args| == 2 && Lowered(e.args[0], c, n).Some? {
        AcceptedExactly(e.args[1], c, Lowered(e.args[0], c, n).value.next);
      }
      assert e.args == if |e.args| == 2 then [e.args[0], e.args[1]] else [e.args[0]];
    }
  }
}
