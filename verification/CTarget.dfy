/** The flat C lines both lowerings append, and what running them means: checked int64
    helpers, block scoping by braces, and the calls whose order a caller can observe. */
module CTarget {
  import opened Bits
  import opened Optional
  import opened GridArith
  import opened Words

  /** A Python object as a launch argument, or as the value of an expression. */
  datatype PyVal = PyInt(n: int) | PyBool(b: bool) | PyNone | PyTensor(t: nat) | PyOther

  predicate IsScalar(v: PyVal) {
    v.PyInt? || v.PyBool?
  }

  /** The integer a scalar counts as in arithmetic and comparisons. */
  function AsInt(v: PyVal): int
    requires IsScalar(v)
  {
    match v
    case PyInt(n) => n
    case PyBool(b) => BoolInt(b)
  }

  function BoolInt(b: bool): int {
    if b then 1 else 0
  }

  /** A scalar C can hold. */
  predicate FitsC(v: PyVal) {
    IsScalar(v) && InI64(AsInt(v))
  }

  /** What calling a tensor method gives. */
  datatype Answer = Returned(v: PyVal) | Raised

  /** Torch, as far as a heuristic sees it: what a tensor's methods answer, by name and arguments, and
      dtype object addresses. */
  datatype Torch = Torch(answer: (nat, string, seq<int>) -> Answer, dtype: nat -> Option<nat>)

  /** The steps whose presence and order short-circuiting decides. */
  datatype Event =
    | Call(t: nat, name: string, args: seq<int>)
    | ReadDtype(t: nat)
    | Divide(n: int, d: int)

  datatype Operand =
    | Lit(n: int)
    | Temp(id: nat)
    | DepCell(i: nat)
    | CompCell(i: nat)

  datatype ArithOp = Add | Sub | Mul | Floor | Mod | Cdiv

  datatype Rel = Eq | Ne | Lt | Le | Gt | Ge

  predicate Holds(r: Rel, a: int, b: int) {
    match r
    case Eq => a == b
    case Ne => a != b
    case Lt => a < b
    case Le => a <= b
    case Gt => a > b
    case Ge => a >= b
  }

  /** What `is None` compiles to: a test of one argument, or a constant. */
  datatype NoneTest = ArgIsNone(index: nat) | Always(b: bool)

  datatype Line =
    | Declare(v: nat)                                     // int64_t v;
    | DeclareZero(v: nat)                                 // int64_t v = 0;
    | DeclareLit(v: nat, n: int)                          // int64_t v = n;
    | DeclarePair(v: nat, b: nat)                         // int64_t v = 0, b = 0;
    | HeurArg(index: nat, v: nat, b: nat)                 // intj_heur_arg
    | HeurTensor(index: nat, name: string, takesIndex: bool, literal: int, v: nat)
    | HeurDtype(index: nat, v: nat)
    | Arith(op: ArithOp, l: Operand, r: Operand, v: nat)  // intj_grid_<op>
    | NextPow2Call(x: Operand, v: nat)
    | SetNot(v: nat, x: Operand)                          // v = !x;
    | Set(v: nat, x: Operand)
    | SetNone(v: nat, test: NoneTest, negate: bool)
    | SetRel(v: nat, l: Operand, rel: Rel, r: Operand)
    | SetPair(v: nat, b: nat, x: Operand, y: Operand)
    | SelectPair(rel: Rel, c: Operand, a: Operand, v: nat, b: nat, cb: Operand, ab: Operand)
    | SetMin(v: nat, l: Operand, r: Operand)              // v = l < r ? l : r;
    | GridInput(wantBool: bool, index: nat, v: nat)       // intj_grid_input_int / _bool
    | GridDep(slot: nat, wantBool: bool, v: nat)          // intj_grid_input_dep
    | GridOutput(x: Operand, i: nat)                      // intj_grid_output
    | StoreComp(slot: nat, x: Operand, y: Operand)
    | IfOpen(negate: bool, x: Operand)                    // if (x) {
    | Else                                                // } else {
    | Close                                               // }

  /** What a run reads and never writes. */
  datatype World = World(args: seq<PyVal>, dep: seq<int>, torch: Torch)

  /** A declared variable that nothing has been stored in yet reads as Unset. */
  datatype Cell = Unset | Holding(n: int)

  /** One open brace: the names declared outside it, and whether its lines run. */
  datatype Block =
    | Live(outer: set<nat>)
    | Pending(outer: set<nat>)   // the test failed: only an else branch runs
    | Done(outer: set<nat>)      // the else branch after a taken branch
    | Dead                       // opened where nothing runs

  /** Stuck is C without a meaning: a name out of scope, an unset read, a literal no
      integer type holds. */
  datatype CState =
    | Run(env: map<nat, Cell>, blocks: seq<Block>, comp: seq<int>, dims: map<nat, int>, trace: seq<Event>)
    | Fail(trace: seq<Event>)
    | Stuck

  predicate Active(s: CState)
    requires s.Run?
  {
    s.blocks == [] || s.blocks[|s.blocks| - 1].Live?
  }

  /** A decimal constant is a valid int64 expression; -2**63 is not one. */
  predicate LiteralOk(n: int) {
    INT64_MIN < n <= INT64_MAX
  }

  function Read(w: World, s: CState, x: Operand): Option<int>
    requires s.Run?
  {
    match x
    case Lit(n) => if LiteralOk(n) then Some(n) else None
    case Temp(id) => if id in s.env && s.env[id].Holding? then Some(s.env[id].n) else None
    case DepCell(i) => if i < |w.dep| then Some(w.dep[i]) else None
    case CompCell(i) => if i < |s.comp| then Some(s.comp[i]) else None
  }

  function DeclareIn(s: CState, v: nat, c: Cell): CState
    requires s.Run?
  {
    if v in s.env then Stuck else s.(env := s.env[v := c])
  }

  function Store(s: CState, v: nat, n: int): CState
    requires s.Run?
  {
    if v in s.env then s.(env := s.env[v := Holding(n)]) else Stuck
  }

  /** `if (helper(..., &v) != 0) return -1;` */
  function StoreStatus(s: CState, v: nat, st: Status): CState
    requires s.Run?
  {
    if st.Ok? then Store(s, v, st.value) else Fail(s.trace)
  }

  function ArithStatus(op: ArithOp, a: int, b: int): Status {
    match op
    case Add => Checked(a + b)
    case Sub => Checked(a - b)
    case Mul => Checked(a * b)
    case Floor => FloorStatus(a, b)
    case Mod => ModStatus(a, b)
    case Cdiv => FloorStatus(a + b - 1, b)
  }

  function ArithEvents(op: ArithOp, a: int, b: int): seq<Event> {
    match op
    case Floor => [Divide(a, b)]
    case Mod => [Divide(a, b)]
    case Cdiv => [Divide(a + b - 1, b)]
    case _ => []
  }

  function Logged(s: CState, events: seq<Event>): CState
    requires s.Run?
  {
    s.(trace := s.trace + events)
  }

  /** A CPython tensor value, read through the int64 helper. */
  function AnswerStatus(a: Answer): Status {
    if a.Returned? && FitsC(a.v) then Ok(AsInt(a.v)) else Overflow
  }

  /** An address as the int64 the cast gives. */
  function AddressBits(a: nat): int {
    if a % 0x1_0000_0000_0000_0000 <= INT64_MAX then a % 0x1_0000_0000_0000_0000
    else a % 0x1_0000_0000_0000_0000 - 0x1_0000_0000_0000_0000
  }

  function RunInput(w: World, s: CState, l: Line): CState
    requires s.Run?
  {
    match l
    case HeurArg(index, v, b) =>
      if index >= |w.args| then Stuck
      else if !FitsC(w.args[index]) then Fail(s.trace)
      else
        var s1 := Store(s, v, AsInt(w.args[index]));
        if s1.Run? then Store(s1, b, BoolInt(w.args[index].PyBool?)) else Stuck
    case HeurTensor(index, name, takesIndex, literal, v) =>
      if index >= |w.args| || !LiteralOk(literal) then Stuck
      else if !w.args[index].PyTensor? then Fail(s.trace)
      else
        var t, args := w.args[index].t, if takesIndex then [literal] else [];
        StoreStatus(Logged(s, [Event.Call(t, name, args)]), v, AnswerStatus(w.torch.answer(t, name, args)))
    case HeurDtype(index, v) =>
      if index >= |w.args| then Stuck
      else if !w.args[index].PyTensor? then Fail(s.trace)
      else
        var t := w.args[index].t;
        var s1 := Logged(s, [ReadDtype(t)]);
        (match w.torch.dtype(t)
         case None => Fail(s1.trace)
         case Some(a) => Store(s1, v, AddressBits(a)))
    case GridInput(wantBool, index, v) =>
      if index >= |w.args| then Stuck
      else if (if wantBool then w.args[index].PyBool? else w.args[index].PyInt?) && FitsC(w.args[index])
      then Store(s, v, AsInt(w.args[index]))
      else Fail(s.trace)
    case GridDep(slot, wantBool, v) =>
      if 2 * slot + 1 >= |w.dep| then Stuck
      else if w.dep[2 * slot + 1] == BoolInt(wantBool) then Store(s, v, w.dep[2 * slot])
      else Fail(s.trace)
    case _ => s
  }

  function RunCompute(w: World, s: CState, l: Line): CState
    requires s.Run?
  {
    match l
    case Arith(op, l, r, v) =>
      (match (Read(w, s, l), Read(w, s, r))
       case (Some(a), Some(b)) => StoreStatus(Logged(s, ArithEvents(op, a, b)), v, ArithStatus(op, a, b))
       case _ => Stuck)
    case NextPow2Call(x, v) =>
      (match Read(w, s, x)
       case Some(a) => StoreStatus(s, v, NextPow2Status(a))
       case None => Stuck)
    case SetNot(v, x) =>
      (match Read(w, s, x)
       case Some(a) => Store(s, v, BoolInt(a == 0))
       case None => Stuck)
    case SetRel(v, l, rel, r) =>
      (match (Read(w, s, l), Read(w, s, r))
       case (Some(a), Some(b)) => Store(s, v, BoolInt(Holds(rel, a, b)))
       case _ => Stuck)
    case SetMin(v, l, r) =>
      (match (Read(w, s, l), Read(w, s, r))
       case (Some(a), Some(b)) => Store(s, v, if a < b then a else b)
       case _ => Stuck)
    case SelectPair(rel, c, a, v, b, cb, ab) =>
      (match (Read(w, s, c), Read(w, s, a))
       case (Some(x), Some(y)) =>
         if Holds(rel, x, y) then AssignPair(w, s, v, b, c, cb) else AssignPair(w, s, v, b, a, ab)
       case _ => Stuck)
    case _ => s
  }

  function AssignPair(w: World, s: CState, v: nat, b: nat, x: Operand, y: Operand): CState
    requires s.Run?
  {
    match Read(w, s, x)
    case None => Stuck
    case Some(p) =>
      var s1 := Store(s, v, p);
      if !s1.Run? then Stuck
      else
        match Read(w, s1, y)
        case None => Stuck
        case Some(q) => Store(s1, b, q)
  }

  /** A line that opens or closes no block, where it runs. */
  function RunLine(w: World, s: CState, l: Line): CState
    requires s.Run?
  {
    match l
    case Declare(v) => DeclareIn(s, v, Unset)
    case DeclareZero(v) => DeclareIn(s, v, Holding(0))
    case DeclareLit(v, n) => if InI64(n) then DeclareIn(s, v, Holding(n)) else Stuck
    case DeclarePair(v, b) =>
      var s1 := DeclareIn(s, v, Holding(0));
      if s1.Run? then DeclareIn(s1, b, Holding(0)) else Stuck
    case Set(v, x) =>
      (match Read(w, s, x)
       case Some(a) => Store(s, v, a)
       case None => Stuck)
    case SetNone(v, test, negate) =>
      (match test
       case ArgIsNone(index) =>
         if index < |w.args| then Store(s, v, BoolInt((w.args[index] == PyNone) != negate)) else Stuck
       case Always(b) => Store(s, v, BoolInt(b != negate)))
    case SetPair(v, b, x, y) => AssignPair(w, s, v, b, x, y)
    case GridOutput(x, i) =>
      (match Read(w, s, x)
       case Some(a) => if 0 <= a < 0x1_0000_0000 then s.(dims := s.dims[i := a]) else Fail(s.trace)
       case None => Stuck)
    case StoreComp(slot, x, y) =>
      (match (Read(w, s, x), Read(w, s, y))
       case (Some(a), Some(b)) =>
         if 2 * slot + 1 < |s.comp| then s.(comp := s.comp[2 * slot := a][2 * slot + 1 := b]) else Stuck
       case _ => Stuck)
    case _ => if IsInput(l) then RunInput(w, s, l) else RunCompute(w, s, l)
  }

  predicate IsInput(l: Line) {
    l.HeurArg? || l.HeurTensor? || l.HeurDtype? || l.GridInput? || l.GridDep?
  }

  /** Leaving a block drops the names declared in it. */
  function Restrict(env: map<nat, Cell>, outer: set<nat>): map<nat, Cell> {
    map k | k in env && k in outer :: env[k]
  }

  function Step(w: World, s: CState, l: Line): CState {
    if !s.Run? then s
    else
      match l
      case IfOpen(negate, x) =>
        if !Active(s) then s.(blocks := s.blocks + [Dead])
        else
          (match Read(w, s, x)
           case None => Stuck
           case Some(a) =>
             s.(blocks := s.blocks + [if (a != 0) != negate then Live(s.env.Keys) else Pending(s.env.Keys)]))
      case Else =>
        if s.blocks == [] then Stuck
        else
          var outer, top := s.blocks[..|s.blocks| - 1], s.blocks[|s.blocks| - 1];
          (match top
           case Live(names) => s.(env := Restrict(s.env, names), blocks := outer + [Done(names)])
           case Pending(names) => s.(blocks := outer + [Live(names)])
           case Done(_) => Stuck
           case Dead => s)
      case Close =>
        if s.blocks == [] then Stuck
        else
          var outer, top := s.blocks[..|s.blocks| - 1], s.blocks[|s.blocks| - 1];
          if top.Live? then s.(env := Restrict(s.env, top.outer), blocks := outer)
          else s.(blocks := outer)
      case _ =>
        if Active(s) then RunLine(w, s, l) else s
  }

  function Exec(w: World, s: CState, lines: seq<Line>): CState
    decreases |lines|
  {
    if lines == [] then s else Exec(w, Step(w, s, lines[0]), lines[1..])
  }

  lemma {:induction false} ExecConcat(w: World, s: CState, a: seq<Line>, b: seq<Line>)
    ensures Exec(w, s, a + b) == Exec(w, Exec(w, s, a), b)
    decreases a
  {
    if a == [] {
      assert a + b == b;
    } else {
      assert (a + b)[1..] == a[1..] + b;
      ExecConcat(w, Step(w, s, a[0]), a[1..], b);
    }
  }

  lemma ExecOne(w: World, s: CState, l: Line)
    ensures Exec(w, s, [l]) == Step(w, s, l)
  {
    assert [l][1..] == [];
    assert Exec(w, Step(w, s, l), []) == Step(w, s, l);
  }

  lemma ExecTwo(w: World, s: CState, a: Line, b: Line)
    ensures Exec(w, s, [a, b]) == Step(w, Step(w, s, a), b)
  {
    assert [a, b] == [a] + [b];
    ExecConcat(w, s, [a], [b]);
    ExecOne(w, s, a);
    ExecOne(w, Step(w, s, a), b);
  }

  /** A run that failed or lost its meaning stays so. */
  lemma {:induction false} ExecEnded(w: World, s: CState, lines: seq<Line>)
    requires !s.Run?
    ensures Exec(w, s, lines) == s
    decreases lines
  {
    if lines != [] {
      ExecEnded(w, s, lines[1..]);
    }
  }

  /** Lines whose blocks all open and close inside them do nothing where nothing runs. */
  ghost predicate Skippable(lines: seq<Line>) {
    forall w: World, s: CState :: s.Run? && !Active(s) ==> Exec(w, s, lines) == s
  }

  lemma SkipNothing()
    ensures Skippable([])
  {
  }

  lemma SkipLine(l: Line)
    requires !l.IfOpen? && !l.Else? && !l.Close?
    ensures Skippable([l])
  {
    forall w: World, s: CState | s.Run? && !Active(s)
      ensures Exec(w, s, [l]) == s
    {
      ExecOne(w, s, l);
    }
  }

  lemma SkipConcat(a: seq<Line>, b: seq<Line>)
    requires Skippable(a) && Skippable(b)
    ensures Skippable(a + b)
  {
    forall w: World, s: CState | s.Run? && !Active(s)
      ensures Exec(w, s, a + b) == s
    {
      ExecConcat(w, s, a, b);
    }
  }

  lemma ExecIf(w: World, s: CState, negate: bool, x: Operand, body: seq<Line>)
    ensures Exec(w, s, [IfOpen(negate, x)] + body + [Close])
         == Step(w, Exec(w, Step(w, s, IfOpen(negate, x)), body), Close)
  {
    hide Step;
    var open := [IfOpen(negate, x)];
    ExecConcat(w, s, open + body, [Close]);
    ExecConcat(w, s, open, body);
    ExecOne(w, s, IfOpen(negate, x));
    ExecOne(w, Exec(w, s, open + body), Close);
  }

  lemma ExecIfElse(w: World, s: CState, x: Operand, yes: seq<Line>, no: seq<Line>)
    ensures Exec(w, s, [IfOpen(false, x)] + yes + [Else] + no + [Close])
         == Step(w, Exec(w, Step(w, Exec(w, Step(w, s, IfOpen(false, x)), yes), Else), no), Close)
  {
    hide Step;
    var open := [IfOpen(false, x)];
    ExecConcat(w, s, open + yes + [Else] + no, [Close]);
    ExecConcat(w, s, open + yes + [Else], no);
    ExecConcat(w, s, open + yes, [Else]);
    ExecConcat(w, s, open, yes);
    ExecOne(w, s, IfOpen(false, x));
    ExecOne(w, Exec(w, s, open + yes), Else);
    ExecOne(w, Exec(w, s, open + yes + [Else] + no), Close);
  }

  lemma SkipIf(negate: bool, x: Operand, body: seq<Line>)
    requires Skippable(body)
    ensures Skippable([IfOpen(negate, x)] + body + [Close])
  {
    hide RunLine;
    hide Exec;
    forall w: World, s: CState | s.Run? && !Active(s)
      ensures Exec(w, s, [IfOpen(negate, x)] + body + [Close]) == s
    {
      ExecIf(w, s, negate, x, body);
      var s1 := Step(w, s, IfOpen(negate, x));
      assert s1.blocks[..|s.blocks|] == s.blocks;
    }
  }

  lemma SkipIfElse(x: Operand, yes: seq<Line>, no: seq<Line>)
    requires Skippable(yes) && Skippable(no)
    ensures Skippable([IfOpen(false, x)] + yes + [Else] + no + [Close])
  {
    hide RunLine;
    hide Exec;
    forall w: World, s: CState | s.Run? && !Active(s)
      ensures Exec(w, s, [IfOpen(false, x)] + yes + [Else] + no + [Close]) == s
    {
      ExecIfElse(w, s, x, yes, no);
      var s1 := Step(w, s, IfOpen(false, x));
      assert s1.blocks[..|s.blocks|] == s.blocks;
    }
  }

  lemma DeclareZeroRuns(w: World, s: CState, v: nat)
    requires s.Run? && Active(s) && v !in s.env
    ensures Step(w, s, DeclareZero(v)) == DeclareIn(s, v, Holding(0)) == s.(env := s.env[v := Holding(0)])
  {
  }

  lemma DeclarePairRuns(w: World, s: CState, v: nat, b: nat)
    requires s.Run? && Active(s) && v !in s.env && b !in s.env && v != b
    ensures Step(w, s, DeclarePair(v, b)) == s.(env := s.env[v := Holding(0)][b := Holding(0)])
  {
  }

  lemma SetPairRuns(w: World, s: CState, v: nat, b: nat, x: Operand, y: Operand)
    requires s.Run? && Active(s)
    ensures Step(w, s, SetPair(v, b, x, y)) == AssignPair(w, s, v, b, x, y)
  {
  }

  /** `b` has everything `a` has, unchanged, and besides only temps in (lo, hi]. */
  ghost predicate Extends(a: map<nat, Cell>, b: map<nat, Cell>, lo: int, hi: int) {
    && (forall k :: k in a ==> k in b && b[k] == a[k])
    && (forall k :: k in b && k !in a ==> lo < k <= hi)
  }

  /** Every declared temp is one the serial has already passed. */
  ghost predicate Below(env: map<nat, Cell>, n: int) {
    forall k :: k in env ==> k <= n
  }

  lemma ExtendsTrans(a: map<nat, Cell>, b: map<nat, Cell>, c: map<nat, Cell>, lo: int, mid: int, hi: int)
    requires Extends(a, b, lo, mid) && Extends(b, c, mid, hi) && lo <= mid <= hi
    ensures Extends(a, c, lo, hi)
  {
  }

  lemma ExtendsBelow(a: map<nat, Cell>, b: map<nat, Cell>, lo: int, hi: int)
    requires Extends(a, b, lo, hi) && Below(a, lo) && lo <= hi
    ensures Below(b, hi)
  {
  }

  /** An operand reads the same after more temps are declared. */
  lemma ReadStable(w: World, s: CState, s': CState, x: Operand, lo: int, hi: int)
    requires s.Run? && s'.Run? && s.comp == s'.comp && Extends(s.env, s'.env, lo, hi)
    requires Read(w, s, x).Some?
    ensures Read(w, s', x) == Read(w, s, x)
  {
  }

  lemma PrefixOfPrefix(t: seq<Event>, a: seq<Event>, b: seq<Event>, c: seq<Event>)
    requires t <= a + b
    ensures t <= a + (b + c)
  {
    assert a + (b + c) == a + b + c;
  }

  lemma SkipHeaded(a: Line, x: seq<Line>, y: seq<Line>)
    requires !a.IfOpen? && !a.Else? && !a.Close? && Skippable(x) && Skippable(y)
    ensures Skippable([a] + (x + y))
  {
    SkipConcat(x, y);
    SkipLine(a);
    SkipConcat([a], x + y);
  }

  lemma SkipTail(lines: seq<Line>, a: Line, b: Line)
    requires Skippable(lines)
    requires !a.IfOpen? && !a.Else? && !a.Close? && !b.IfOpen? && !b.Else? && !b.Close?
    ensures Skippable(lines + [a, b])
  {
    SkipLine(a);
    SkipLine(b);
    SkipConcat([a], [b]);
    SkipConcat(lines, [a] + [b]);
    assert [a] + [b] == [a, b];
  }

  lemma EnterBlock(w: World, s: CState, negate: bool, x: Operand)
    requires s.Run? && Active(s) && Read(w, s, x).Some?
    ensures var s1 := Step(w, s, IfOpen(negate, x));
            && s1 == s.(blocks := s.blocks
              + [if (Read(w, s, x).value != 0) != negate then Live(s.env.Keys) else Pending(s.env.Keys)])
            && (Active(s1) <==> (Read(w, s, x).value != 0) != negate)
  {
  }

  lemma LeaveBlock(w: World, s: CState, outer: seq<Block>, top: Block)
    requires s.Run? && s.blocks == outer + [top]
    ensures Step(w, s, Close) == if top.Live? then s.(env := Restrict(s.env, top.outer), blocks := outer)
        else s.(blocks := outer)
  {
    assert s.blocks[..|s.blocks| - 1] == outer;
  }

  lemma SwitchBlock(w: World, s: CState, outer: seq<Block>, top: Block)
    requires s.Run? && s.blocks == outer + [top] && (top.Live? || top.Pending?)
    ensures Step(w, s, Else) == if top.Live?
        then s.(env := Restrict(s.env, top.outer), blocks := outer + [Done(top.outer)])
                                else s.(blocks := outer + [Live(top.outer)])
  {
    assert s.blocks[..|s.blocks| - 1] == outer;
  }

  lemma EndedThroughElse(w: World, s: CState, no: seq<Line>)
    requires !s.Run?
    ensures Step(w, s, Else) == s && Step(w, s, Close) == s && Exec(w, s, no) == s
  {
    ExecEnded(w, s, no);
  }
}
