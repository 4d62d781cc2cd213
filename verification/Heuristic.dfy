/** Lowering of one `@triton.heuristics` expression to C lines (intj/heuristic.py),
    and Python's meaning of the same expression. */
module Heuristic {
  import opened GridArith
  import opened CTarget
  import opened Optional
  import opened Python

  // ---------------------------------------------------------------- Python's meaning

  datatype PyEnv = PyEnv(inputs: map<string, PyVal>, torch: Torch)

  function PyNextPow2(x: int): Outcome {
    Outcome(Value(PyInt(Smear(x - 1) + 1)), [], InI64(x - 1) && InI64(Smear(x - 1) + 1))
  }

  function PyInput(key: string, env: PyEnv): Outcome {
    if key in env.inputs then Just(env.inputs[key]) else Outcome(Raises, [], false)
  }

  /** A method of an input tensor, called with literal ints; no other arguments are modelled. */
  function PyTensorRead(target: Expr, name: string, args: seq<Expr>, env: PyEnv): Outcome {
    if !target.Input? || target.key !in env.inputs || !env.inputs[target.key].PyTensor?
       || exists i :: 0 <= i < |args| && !IsIndex(args[i])
    then NotScalar()
    else
      var t := env.inputs[target.key].t;
      var indices := seq(|args|, i requires 0 <= i < |args| => args[i].lit.n);
      var event := Event.Call(t, name, indices);
      match env.torch.answer(t, name, indices)
      case Returned(v) => Outcome(Value(v), [event], FitsC(v))
      case Raised => Outcome(Raises, [event], true)
  }

  predicate IsIndex(e: Expr) {
    e.Constant? && e.lit.IntLit?
  }

  /** The dtype object of an input tensor, as its address. */
  function PyDtype(e: Expr, env: PyEnv): Outcome
    requires IsAttr(e, "dtype")
  {
    if !e.value.Input? || e.value.key !in env.inputs || !env.inputs[e.value.key].PyTensor? then NotScalar()
    else
      var t := env.inputs[e.value.key].t;
      match env.torch.dtype(t)
      case Some(a) => Outcome(Value(PyInt(a)), [ReadDtype(t)], true)
      case None => Outcome(Raises, [ReadDtype(t)], true)
  }

  function PyCompareValues(op: CompareKind, a: PyVal, b: PyVal): Outcome {
    if op.Ordering? && IsScalar(a) && IsScalar(b) then Just(PyBool(Ordered(op.order, AsInt(a), AsInt(b))))
    else NotScalar()
  }

  function PyEval(e: Expr, env: PyEnv): Outcome
    decreases e, 1
  {
    match e
    case Input(key) => PyInput(key, env)
    case Constant(IntLit(n)) => Just(PyInt(n))
    case Constant(BoolLit(b)) => Just(PyBool(b))
    case BinOp(op, left, right) =>
      var a, b := PyEval(left, env), PyEval(right, env);
      After(After(a, b),
            if Scalars(a, b) then PyArith(op, AsInt(a.result.v), AsInt(b.result.v)) else NotScalar())
    case UnaryOp(op, operand) =>
      var a := PyEval(operand, env);
      After(a, if a.result.Value? && IsScalar(a.result.v) then PyUnary(op, a.result.v) else NotScalar())
    case Compare(_, _, _) => PyCompare(e, env)
    case BoolOp(isAnd, first, rest) =>
      var a := PyEval(first, env);
      After(a, if a.result.Value? then PyRest(isAnd, a.result.v, rest, env) else NotScalar())
    case IfExp(test, body, orelse) =>
      var a := PyEval(test, env);
      After(a,
            if !a.result.Value? || !IsScalar(a.result.v) then NotScalar()
            else if AsInt(a.result.v) != 0 then PyEval(body, env)
            else PyEval(orelse, env))
    case CallExpr(func, args, keywords) =>
      if keywords then NotScalar()
      else if (func == Name("min") || func == Name("max")) && |args| == 2 then
        var a, b := PyEval(args[0], env), PyEval(args[1], env);
        After(After(a, b),
              if Scalars(a, b) then PyMinMax(func == Name("min"), a.result.v, b.result.v) else NotScalar())
      else if func == Attribute(Name("triton"), "cdiv") && |args| == 2 then
        var a, b := PyEval(args[0], env), PyEval(args[1], env);
        After(After(a, b),
              if Scalars(a, b) then PyArith(BinFloorDiv, AsInt(a.result.v) + AsInt(b.result.v) - 1, AsInt(b.result.v))
              else NotScalar())
      else if func == Attribute(Name("triton"), "next_power_of_2") && |args| == 1 then
        var a := PyEval(args[0], env);
        After(a, if a.result.Value? && IsScalar(a.result.v) then PyNextPow2(AsInt(a.result.v)) else NotScalar())
      else if func.Attribute? then PyTensorRead(func.value, func.attr, args, env)
      else NotScalar()
    case Subscript(value, index) =>
      // t.shape[i] is t.size(i)
      if value.Attribute? && value.attr == "shape" then PyTensorRead(value.value, "size", [index], env)
      else NotScalar()
    case _ => NotScalar()
  }

  /** Section 6.11: the remaining operands of `and` / `or`, with `cur` the value so far. */
  function PyRest(isAnd: bool, cur: PyVal, rest: seq<Expr>, env: PyEnv): Outcome
    decreases rest, 0
  {
    if rest == [] then Outcome(Value(cur), [], true)
    else if !IsScalar(cur) then NotScalar()
    else if (AsInt(cur) != 0) != isAnd then Outcome(Value(cur), [], true)
    else
      var a := PyEval(rest[0], env);
      After(a, if a.result.Value? then PyRest(isAnd, a.result.v, rest[1..], env) else NotScalar())
  }

  function PyCompare(e: Expr, env: PyEnv): Outcome
    requires e.Compare?
    decreases e, 0
  {
    if |e.ops| != 1 || |e.comparators| != 1 then NotScalar()
    else
      var left, op, right := e.left, e.ops[0], e.comparators[0];
      if op.Is? || op.IsNot? then
        if left.Input? && left.key in env.inputs && right == Constant(NoneLit)
        then Just(PyBool((env.inputs[left.key] == PyNone) == op.Is?))
        else NotScalar()
      else if IsAttr(left, "dtype") || IsAttr(right, "dtype") then
        if IsAttr(left, "dtype") && IsAttr(right, "dtype") then
          var a, b := PyDtype(left, env), PyDtype(right, env);
          After(After(a, b), if Scalars(a, b) then PyCompareValues(op, a.result.v, b.result.v) else NotScalar())
        else NotScalar()
      else
        var a, b := PyEval(left, env), PyEval(right, env);
        After(After(a, b), if Scalars(a, b) then PyCompareValues(op, a.result.v, b.result.v) else NotScalar())
  }
}
