/** The part of Python both lowerings read: syntax trees, values, and the outcome of
    evaluating an expression on ints and bools. */
module Python {
  import opened GridArith
  import opened CTarget
  import opened Optional

  // ---------------------------------------------------------------- source language

  datatype BinKind = BinAdd | BinSub | BinMult | BinFloorDiv | BinMod | BinOther

  datatype UnaryKind = Not | USub | UAdd | Invert

  datatype Order = PyEq | PyNe | PyLt | PyLe | PyGt | PyGe

  datatype CompareKind = Ordering(order: Order) | Is | IsNot | Containment

  datatype Literal = IntLit(n: int) | BoolLit(b: bool) | NoneLit | OtherLit

  datatype Expr =
    | Input(key: string)                                        // arg["key"]
    | Constant(lit: Literal)
    | Name(id: string)
    | Attribute(value: Expr, attr: string)
    | Subscript(value: Expr, index: Expr)
    | BinOp(op: BinKind, left: Expr, right: Expr)
    | UnaryOp(uop: UnaryKind, operand: Expr)
    | Compare(left: Expr, ops: seq<CompareKind>, comparators: seq<Expr>)
    | BoolOp(isAnd: bool, first: Expr, rest: seq<Expr>)
    | IfExp(test: Expr, body: Expr, orelse: Expr)
    | CallExpr(func: Expr, args: seq<Expr>, keywords: bool)
    | OtherExpr

  predicate IsAttr(e: Expr, attr: string) {
    e.Attribute? && e.attr == attr
  }

  /** `triton.<name>(...)`. */
  predicate IsTriton(func: Expr, name: string) {
    IsAttr(func, name) && func.value == Name("triton")
  }

  predicate IsBuiltin(e: Expr, name: string) {
    e.CallExpr? && !e.keywords && e.func == Name(name) && |e.args| == 2
  }

  // ---------------------------------------------------------------- outcomes

  datatype PyResult =
    | Value(v: PyVal)
    | Raises
    | Foreign  // an operation on something other than ints and bools

  /** `plain`: every scalar met on the way is an int or bool in int64, and so is the
      floor quotient behind every `%`. */
  datatype Outcome = Outcome(result: PyResult, trace: seq<Event>, plain: bool)

  /** Python computes a scalar, and everything on the way is one C has. */
  predicate Finishes(o: Outcome) {
    o.plain && o.result.Value?
  }

  function Just(v: PyVal): Outcome {
    Outcome(Value(v), [], FitsC(v))
  }

  function NotScalar(): Outcome {
    Outcome(Foreign, [], false)
  }

  /** `b` after `a`, unless `a` raises. */
  function After(a: Outcome, b: Outcome): Outcome {
    if a.result.Value? then Outcome(b.result, a.trace + b.trace, a.plain && b.plain) else a
  }

  /** Section 6.7: the binary arithmetic operations on ints; a bool counts as 0 or 1. */
  function PyArith(op: BinKind, x: int, y: int): Outcome {
    match op
    case BinAdd => Just(PyInt(x + y))
    case BinSub => Just(PyInt(x - y))
    case BinMult => Just(PyInt(x * y))
    case BinFloorDiv =>
      if y == 0 then Outcome(Raises, [Divide(x, y)], true)
      else Outcome(Value(PyInt(FloorDiv(x, y))), [Divide(x, y)], InI64(FloorDiv(x, y)))
    case BinMod =>
      if y == 0 then Outcome(Raises, [Divide(x, y)], true)
      else Outcome(Value(PyInt(FloorMod(x, y))), [Divide(x, y)], InI64(FloorDiv(x, y)))
    case BinOther => NotScalar()
  }

  function PyUnary(op: UnaryKind, v: PyVal): Outcome
    requires IsScalar(v)
  {
    match op
    case Not => Just(PyBool(AsInt(v) == 0))
    case USub => Just(PyInt(-AsInt(v)))
    case UAdd => Just(PyInt(AsInt(v)))
    case Invert => NotScalar()
  }

  /** Section 6.10: value comparisons of ints. */
  predicate Ordered(order: Order, x: int, y: int) {
    match order
    case PyEq => x == y
    case PyNe => x != y
    case PyLt => x < y
    case PyLe => x <= y
    case PyGt => y < x
    case PyGe => y <= x
  }

  /** `min` and `max` return their first argument unless the second beats it. */
  function PyMinMax(isMin: bool, a: PyVal, c: PyVal): Outcome
    requires IsScalar(a) && IsScalar(c)
  {
    Just(if (if isMin then AsInt(c) < AsInt(a) else AsInt(c) > AsInt(a)) then c else a)
  }

  predicate Scalars(a: Outcome, b: Outcome) {
    a.result.Value? && b.result.Value? && IsScalar(a.result.v) && IsScalar(b.result.v)
  }
}
