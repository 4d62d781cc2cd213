/** Which grid functions lower, and the static type of each expression (intj/grid.py), said of the
    def alone. */
module GridAccepted {
  import opened CTarget
  import opened Optional
  import opened Python
  import opened Grid
  import opened Words

  /** The names in scope, and which are bools. */
  type Kinds = map<string, bool>

  /** Whether an expression is a bool or an int, None where it is refused. */
  function KindOf(e: Expr, kinds: Kinds, c: GridContext): Option<bool> {
    match e
    case Constant(IntLit(n)) => if INT64_MIN <= n <= INT64_MAX then Some(false) else None
    case Constant(BoolLit(_)) => Some(true)
    case Name(id) => if id in kinds then Some(kinds[id]) else None
    case UnaryOp(op, operand) =>
      if op == USub && operand == Constant(IntLit(-INT64_MIN)) then Some(false)
      else if (op == UAdd || op == USub) && KindOf(operand, kinds, c).Some? then Some(false)
      else None
    case BinOp(op, left, right) =>
      if (op == BinAdd || op == BinSub || op == BinMult || op == BinFloorDiv)
         && KindOf(left, kinds, c).Some? && KindOf(right, kinds, c).Some?
      then Some(false) else None
    case CallExpr(func, args, keywords) =>
      if !keywords && |args| == 2
         && ((func == Name("min") && c.minOk) || (func == Attribute(Name("triton"), "cdiv") && c.cdivOk))
         && KindOf(args[0], kinds, c) == Some(false) && KindOf(args[1], kinds, c) == Some(false)
      then Some(false) else None
    case IfExp(test, body, orelse) =>
      if KindOf(test, kinds, c).Some? && KindOf(body, kinds, c) == KindOf(orelse, kinds, c)
      then KindOf(body, kinds, c) else None
    case _ => None
  }

  function KindsOf(bound: Bound): Kinds {
    map x | x in bound :: bound[x].isBool
  }

  function KindLowered(x: Option<GridEmission>): Option<bool> {
    if x.Some? then Some(x.value.at.isBool) else None
  }

  /** The lowering takes exactly the expressions with a type, and gives them that type. */
  lemma {:induction false} KindExactly(e: Expr, bound: Bound, c: GridContext, n: nat)
    ensures KindLowered(GridLowered(e, bound, c, n)) == KindOf(e, KindsOf(bound), c)
    decreases e, 2
  {
    hide GridLowered;
    hide KindOf;
    match e
    case UnaryOp(_, _) => KindUnary(e, bound, c, n);
    case BinOp(_, _, _) => KindBinOp(e, bound, c, n);
    case CallExpr(_, _, _) => KindCall(e, bound, c, n);
    case IfExp(_, _, _) => KindIf(e, bound, c, n);
    case _ => KindLeaf(e, bound, c, n);
  }

  lemma KindLeaf(e: Expr, bound: Bound, c: GridContext, n: nat)
    requires !e.UnaryOp? && !e.BinOp? && !e.CallExpr? && !e.IfExp?
    ensures KindLowered(GridLowered(e, bound, c, n)) == KindOf(e, KindsOf(bound), c)
  {
  }

  lemma KindUnary(e: Expr, bound: Bound, c: GridContext, n: nat)
    requires e.UnaryOp?
    ensures KindLowered(GridLowered(e, bound, c, n)) == KindOf(e, KindsOf(bound), c)
    decreases e, 0
  {
    KindExactly(e.operand, bound, c, n);
  }

  lemma KindBinOp(e: Expr, bound: Bound, c: GridContext, n: nat)
    requires e.BinOp?
    ensures KindLowered(GridLowered(e, bound, c, n)) == KindOf(e, KindsOf(bound), c)
    decreases e, 1
  {
    KindsTwo(e, e.left, e.right, bound, c, n);
  }

  lemma KindCall(e: Expr, bound: Bound, c: GridContext, n: nat)
    requires e.CallExpr?
    ensures KindLowered(GridLowered(e, bound, c, n)) == KindOf(e, KindsOf(bound), c)
    decreases e, 1
  {
    if IsCall2(e) {
      KindsTwo(e, e.args[0], e.args[1], bound, c, n);
    }
  }

  lemma KindIf(e: Expr, bound: Bound, c: GridContext, n: nat)
    requires e.IfExp?
    ensures KindLowered(GridLowered(e, bound, c, n)) == KindOf(e, KindsOf(bound), c)
    decreases e, 1
  {
    KindExactly(e.test, bound, c, n);
    if GridLowered(e.test, bound, c, n).Some? {
      KindsTwo(e, e.body, e.orelse, bound, c, GridLowered(e.test, bound, c, n).value.next + 1);
    }
  }

  /** Two subexpressions, left first. */
  lemma KindsTwo(parent: Expr, left: Expr, right: Expr, bound: Bound, c: GridContext, n: nat)
    requires left < parent && right < parent
    ensures KindLowered(GridLowered(left, bound, c, n)) == KindOf(left, KindsOf(bound), c)
    ensures var l := GridLowered(left, bound, c, n);
            l.Some? ==> KindLowered(GridLowered(right, bound, c, l.value.next)) == KindOf(right, KindsOf(bound), c)
    decreases parent, 0
  {
    KindExactly(left, bound, c, n);
    if GridLowered(left, bound, c, n).Some? {
      KindExactly(right, bound, c, GridLowered(left, bound, c, n).value.next);
    }
  }

  // ---------------------------------------------------------------- the whole def

  /** A def's body: an optional docstring, assignments, and a return of one to three elements. */
  ghost predicate IsBody(statements: seq<Statement>, assigns: seq<Statement>, elts: seq<Expr>) {
    && (statements == assigns + [Return(elts)] || statements == [DocString] + assigns + [Return(elts)])
    && (forall i :: 0 <= i < |assigns| ==> assigns[i].Assign?) && 1 <= |elts| <= 3
  }

  lemma BodyExactly(statements: seq<Statement>)
    ensures Body(statements).Some? ==> IsBody(statements, Body(statements).value.0, Body(statements).value.1)
    ensures forall assigns, elts :: IsBody(statements, assigns, elts) ==> Body(statements) == Some((assigns, elts))
  {
    if Body(statements).Some? {
      BodyIs(statements);
    }
    forall assigns, elts | IsBody(statements, assigns, elts)
      ensures Body(statements) == Some((assigns, elts))
    {
      IsBodyOf(statements, assigns, elts);
    }
  }

  lemma BodyIs(statements: seq<Statement>)
    requires Body(statements).Some?
    ensures IsBody(statements, Body(statements).value.0, Body(statements).value.1)
  {
    var s := if statements[0].DocString? then statements[1..] else statements;
    assert s == s[..|s| - 1] + [s[|s| - 1]];
    if statements[0].DocString? {
      assert statements == [DocString] + s[..|s| - 1] + [s[|s| - 1]];
    }
  }

  lemma IsBodyOf(statements: seq<Statement>, assigns: seq<Statement>, elts: seq<Expr>)
    requires IsBody(statements, assigns, elts)
    ensures Body(statements) == Some((assigns, elts))
  {
    var s := assigns + [Return(elts)];
    PlainBody(s, assigns, elts);
    hide Body;
    if statements != s {
      assert statements == [DocString] + s;
    }
  }

  lemma PlainBody(s: seq<Statement>, assigns: seq<Statement>, elts: seq<Expr>)
    requires s == assigns + [Return(elts)] && 1 <= |elts| <= 3
    requires forall i :: 0 <= i < |assigns| ==> assigns[i].Assign?
    ensures Body(s) == Some((assigns, elts)) && Body([DocString] + s) == Some((assigns, elts))
  {
    assert s[..|s| - 1] == assigns && s[|s| - 1] == Return(elts);
    assert forall i :: 0 <= i < |assigns| ==> s[i] == assigns[i];
    assert ([DocString] + s)[1..] == s && !s[0].DocString?;
  }

  /** A parameter that may be declared: annotated int or bool; a keyword-only one not a kernel
      parameter, any other one that is, and tuned, passed, or baked to a value of that very type. */
  ghost predicate MayDeclare(d: Declared, sig: Signature) {
    && d.kind.Some?
    && if d.kwonly then d.name !in sig.params
       else
         && d.name in sig.params
         && var p := sig.params[d.name];
            || (sig.deps.Some? && d.name in sig.deps.value)
            || p.callIndex.Some?
            || (!p.isBound && if d.kind.value then p.baked.PyBool?
              else p.baked.PyInt? && INT64_MIN <= p.baked.n <= INT64_MAX)
  }

  /** The types in scope after the assignments, None where one is refused. */
  function KindsAfter(assigns: seq<Statement>, kinds: Kinds, c: GridContext): Option<Kinds>
    requires forall i :: 0 <= i < |assigns| ==> assigns[i].Assign?
  {
    if assigns == [] then Some(kinds)
    else
      var kind :- KindOf(assigns[0].value, kinds, c);
      KindsAfter(assigns[1..], kinds[assigns[0].target := kind], c)
  }

  function ParamKinds(ds: seq<Declared>): Kinds {
    if ds == [] then map[]
    else ParamKinds(ds[..|ds| - 1])[ds[|ds| - 1].name := ds[|ds| - 1].kind == Some(true)]
  }

  /** `min` and `triton` mean the builtin and the module only where the def binds neither. */
  ghost predicate InContext(sig: Signature, assigns: seq<Statement>, globals: GridContext, c: GridContext) {
    && (c.minOk <==> globals.minOk && !Binds(sig, assigns, "min"))
    && (c.cdivOk <==> globals.cdivOk && !Binds(sig, assigns, "triton"))
  }

  ghost predicate Binds(sig: Signature, assigns: seq<Statement>, x: string) {
    || (exists i :: 0 <= i < |sig.declared| && sig.declared[i].name == x)
    || exists i :: 0 <= i < |assigns| && assigns[i].Assign? && assigns[i].target == x
  }

  /** The def lowers: its parameters may be declared, its assignments have types, and the elements it
      returns are ints. */
  ghost predicate DefAccepted(sig: Signature, assigns: seq<Statement>, elts: seq<Expr>, c: GridContext)
    requires forall i :: 0 <= i < |assigns| ==> assigns[i].Assign?
  {
    && (forall i :: 0 <= i < |sig.declared| ==> MayDeclare(sig.declared[i], sig))
    && var kinds := KindsAfter(assigns, ParamKinds(sig.declared), c);
       kinds.Some? && forall i :: 0 <= i < |elts| ==> KindOf(elts[i], kinds.value, c) == Some(false)
  }

  lemma {:induction false} ParamsExactly(sig: Signature, i: nat, bound: Bound)
    requires i <= |sig.declared| && KindsOf(bound) == ParamKinds(sig.declared[..i])
    ensures LoweredParams(sig, i, bound).Some? <==>
        forall j :: i <= j < |sig.declared| ==> MayDeclare(sig.declared[j], sig)
    ensures LoweredParams(sig, i, bound).Some? ==>
        KindsOf(LoweredParams(sig, i, bound).value.1) == ParamKinds(sig.declared)
    decreases |sig.declared| - i
  {
    if i < |sig.declared| {
      var d := sig.declared[i];
      assert sig.declared[..i + 1][..i] == sig.declared[..i];
      PlaceExactly(d, sig);
      hide PlaceOf;
      hide MayDeclare;
      if PlaceOf(d, sig).Some? {
        var bound' := bound[d.name := Local(i, d.kind.value)];
        assert KindsOf(bound') == KindsOf(bound)[d.name := d.kind.value];
        ParamsExactly(sig, i + 1, bound');
      }
    } else {
      assert sig.declared[..i] == sig.declared;
    }
  }

  lemma PlaceExactly(d: Declared, sig: Signature)
    ensures PlaceOf(d, sig).Some? <==> MayDeclare(d, sig)
    ensures PlaceOf(d, sig).Some? ==> d.kind.Some?
  {
  }

  lemma {:induction false} BodyKinds(assigns: seq<Statement>, bound: Bound, c: GridContext, n: nat)
    requires forall i :: 0 <= i < |assigns| ==> assigns[i].Assign?
    ensures LoweredBody(assigns, bound, c, n).Some? <==> KindsAfter(assigns, KindsOf(bound), c).Some?
    ensures LoweredBody(assigns, bound, c, n).Some? ==>
              KindsAfter(assigns, KindsOf(bound), c) == Some(KindsOf(LoweredBody(assigns, bound, c, n).value.1))
    decreases |assigns|
  {
    if assigns != [] {
      KindExactly(assigns[0].value, bound, c, n);
      hide KindOf;
      if GridLowered(assigns[0].value, bound, c, n).Some? {
        var x := GridLowered(assigns[0].value, bound, c, n).value;
        hide GridLowered;
        var bound' := bound[assigns[0].target := x.at];
        assert KindsOf(bound') == KindsOf(bound)[assigns[0].target := x.at.isBool];
        BodyKinds(assigns[1..], bound', c, x.next);
      }
    }
  }

  lemma {:induction false} ResultKinds(elts: seq<Expr>, bound: Bound, c: GridContext, n: nat, i: nat)
    ensures (LoweredResults(elts, bound, c, n).Some? && Outputs(LoweredResults(elts, bound, c, n).value.1, i).Some?)
       <==> forall j :: 0 <= j < |elts| ==> KindOf(elts[j], KindsOf(bound), c) == Some(false)
    decreases |elts|
  {
    if elts != [] {
      KindExactly(elts[0], bound, c, n);
      hide KindOf;
      if GridLowered(elts[0], bound, c, n).Some? {
        ResultKinds(elts[1..], bound, c, GridLowered(elts[0], bound, c, n).value.next, i + 1);
        hide GridLowered;
        assert forall j :: 1 <= j < |elts| ==> elts[j] == elts[1..][j - 1];
      }
    }
  }

  /** `compile_grid` takes exactly these defs. */
  lemma AcceptedExactly(sig: Signature, statements: seq<Statement>, globals: GridContext)
    ensures GridLines(sig, statements, globals).Some? <==>
              exists assigns, elts, c ::
                IsBody(statements, assigns, elts) && InContext(sig, assigns, globals, c)
                  && DefAccepted(sig, assigns, elts, c)
  {
    BodyExactly(statements);
    if Body(statements).Some? {
      var (assigns, elts) := Body(statements).value;
      var c := ContextOf(sig, statements, globals);
      ContextExactly(sig, statements, assigns, elts, globals);
      DefExactly(sig, assigns, elts, c);
      forall c' | InContext(sig, assigns, globals, c')
        ensures c' == c
      {
      }
      hide DefAccepted;
      hide InContext;
      hide IsBody;
      hide LoweredParams;
      hide LoweredBody;
      hide LoweredResults;
      hide Outputs;
    }
  }

  lemma ContextExactly(sig: Signature, statements: seq<Statement>, assigns: seq<Statement>, elts: seq<Expr>,
                       globals: GridContext)
    requires IsBody(statements, assigns, elts)
    ensures InContext(sig, assigns, globals, ContextOf(sig, statements, globals))
  {
    NameBound(sig, statements, assigns, elts, "min");
    NameBound(sig, statements, assigns, elts, "triton");
    hide LocalNames;
    hide Binds;
    hide IsBody;
  }

  lemma NameBound(sig: Signature, statements: seq<Statement>, assigns: seq<Statement>, elts: seq<Expr>, x: string)
    requires IsBody(statements, assigns, elts)
    ensures x in LocalNames(sig, statements) <==> Binds(sig, assigns, x)
  {
    var from := if statements == assigns + [Return(elts)] then 0 else 1;
    assert forall i :: 0 <= i < |assigns| ==> statements[from + i] == assigns[i];
    if i :| 0 <= i < |statements| && statements[i].Assign? && statements[i].target == x {
      assert assigns[i - from] == statements[i];
    }
    if i :| 0 <= i < |assigns| && assigns[i].target == x {
      assert statements[from + i].target == x;
    }
  }

  lemma DefExactly(sig: Signature, assigns: seq<Statement>, elts: seq<Expr>, c: GridContext)
    requires forall i :: 0 <= i < |assigns| ==> assigns[i].Assign?
    ensures DefAccepted(sig, assigns, elts, c) <==>
      && LoweredParams(sig, 0, map[]).Some?
      && LoweredBody(assigns, LoweredParams(sig, 0, map[]).value.1, c, |sig.declared|).Some?
      && var b := LoweredBody(assigns, LoweredParams(sig, 0, map[]).value.1, c, |sig.declared|).value;
         && LoweredResults(elts, b.1, c, b.2).Some? && Outputs(LoweredResults(elts, b.1, c, b.2).value.1, 0).Some?
  {
    assert sig.declared[..0] == [];
    ParamsExactly(sig, 0, map[]);
    hide MayDeclare;
    hide KindOf;
    hide ParamKinds;
    if LoweredParams(sig, 0, map[]).Some? {
      var bound := LoweredParams(sig, 0, map[]).value.1;
      hide LoweredParams;
      BodyKinds(assigns, bound, c, |sig.declared|);
      if LoweredBody(assigns, bound, c, |sig.declared|).Some? {
        var b := LoweredBody(assigns, bound, c, |sig.declared|).value;
        ResultKinds(elts, b.1, c, b.2, 0);
      }
    }
  }
}
