/** What one parameter puts in the spec key, and what it puts in the compiler input
    (intj/specialization.py, intj/render/entry.c.jinja, intj/runtime/intj_runtime.h): the key is
    never coarser. */
module SpecKey {
  import opened Bits
  import opened Optional
  import opened Words

  /** Canonical type names; `elem` is Triton's index of a pointer's element type. */
  datatype Ty = NoneType | Ptr(elem: nat) | U1 | IntTy(signed: bool, bits: nat) | FP32 | FP64

  datatype Mode = Auto | Never | Assume

  datatype Kind = Argument | Constexpr

  /** A call's value. A float is its 64-bit pattern; an object its canonical value, for which the
      launcher has one id. */
  datatype Value =
    | Tensor(addr: nat, elem: nat, storage: int, override: Option<int>)
    | Bool(b: bool)
    | Int(n: int)
    | Float(pattern: nat)
    | NoneValue
    | Object(id: nat)

  /** A merged annotation (`CanonicalAnnotation`); `types` is None for Triton's inference. */
  datatype Annotation = Annotation(
    kind: Kind, types: Option<seq<Ty>>, one: Mode, aligned: Mode, range: Mode,
    power: bool, bound: bool, baked: Option<Value>, tuned: bool, exactKey: bool, tritonTyped: bool, ptrRange: bool)

  const RANGE_32 := 0x7fff_ffff

  predicate IsInteger(t: Ty) {
    t.IntTy?
  }

  datatype Fact = EqualToOne | Aligned16 | PointerRange32

  /** `_applicable`. */
  predicate Applicable(t: Ty, fact: Fact) {
    match fact
    case EqualToOne => IsInteger(t)
    case Aligned16 => t.Ptr? || IsInteger(t)
    case PointerRange32 => t.Ptr?
  }

  function ModeOf(a: Annotation, fact: Fact): Mode {
    match fact
    case EqualToOne => a.one
    case Aligned16 => a.aligned
    case PointerRange32 => a.range
  }

  predicate AnyAuto(a: Annotation) {
    a.one.Auto? || a.aligned.Auto? || a.range.Auto?
  }

  /** Some fact left to Triton applies to the type. */
  predicate AutoApplies(a: Annotation, t: Ty) {
    || (a.one.Auto? && Applicable(t, EqualToOne))
    || (a.aligned.Auto? && Applicable(t, Aligned16))
    || (a.range.Auto? && Applicable(t, PointerRange32))
  }

  predicate IsBits(bits: nat) {
    bits == 8 || bits == 16 || bits == 32 || bits == 64
  }

  predicate InRange(n: int, signed: bool, bits: nat) {
    bits > 0 && if signed then 0 - Pow2(bits - 1) <= n < Pow2(bits - 1) else 0 <= n < Pow2(bits)
  }

  /** `fits`, of the types a constexpr can have. */
  predicate Fits(v: Value, t: Ty) {
    match t
    case NoneType => v.NoneValue?
    case U1 => v.Bool?
    case IntTy(signed, bits) => v.Int? && InRange(v.n, signed, bits)
    case FP64 => v.Float?
    case _ => false
  }

  /** An int Triton takes at all. */
  predicate InDomain(v: Value) {
    v.Int? ==> INT64_MIN <= v.n < WORD
  }

  /** The kinds and bits a value is decoded to. */
  datatype ValueKind = TensorKind | BoolKind | I64Kind | U64Kind | FP64Kind | NoneKind | ObjectKind

  function KindCode(k: ValueKind): nat {
    match k
    case TensorKind => 0
    case BoolKind => 1
    case I64Kind => 2
    case U64Kind => 3
    case FP64Kind => 4
    case NoneKind => 5
    case ObjectKind => 6
  }

  datatype Decoded = Decoded(kind: ValueKind, bits: nat, storage: int, elem: nat)

  /** What decides a tensor's range: `ptr_range()` where it is asked for and there is one. */
  function Measured(a: Annotation, v: Value): int
    requires v.Tensor?
  {
    if a.ptrRange && v.override.Some? then v.override.value else v.storage
  }

  function ToWord(n: int): nat {
    n % WORD
  }

  /** `intj_decode_argument` and `intj_decode_value`. */
  function Decode(a: Annotation, v: Value): Decoded {
    match v
    case Tensor(addr, elem, _, _) => Decoded(TensorKind, addr, Measured(a, v), elem)
    case Bool(b) => Decoded(BoolKind, if b then 1 else 0, 0, 0)
    case Int(n) => Decoded(if n <= INT64_MAX then I64Kind else U64Kind, ToWord(n), 0, 0)
    case Float(pattern) => Decoded(FP64Kind, pattern, 0, 0)
    case NoneValue => Decoded(NoneKind, 0, 0, 0)
    case Object(id) => Decoded(ObjectKind, id, 0, 0)
  }

  // ---------------------------------------------------------------- the codes

  const B_NONE := 136
  const B_ONE := 137

  function IntCode(signed: bool, bits: nat): nat {
    if signed then (if bits == 8 then 144 else if bits == 16 then 148 else if bits == 32 then 128 else 130)
    else (if bits == 8 then 146 else if bits == 16 then 150 else if bits == 32 then 152 else 132)
  }

  function TypeCode(t: Ty): nat {
    match t
    case NoneType => B_NONE
    case Ptr(elem) => 4 * elem
    case U1 => 135
    case IntTy(signed, bits) => IntCode(signed, bits)
    case FP32 => 134
    case FP64 => 143
  }

  /** `intj_infer_type`. */
  function InferType(d: Decoded, n: int): Ty {
    match d.kind
    case TensorKind => Ptr(d.elem)
    case BoolKind => U1
    case I64Kind => if -0x8000_0000 <= n <= 0x7fff_ffff then IntTy(true, 32) else IntTy(true, 64)
    case U64Kind => IntTy(false, 64)
    case FP64Kind => FP32
    case NoneKind => NoneType
    case ObjectKind => NoneType
  }

  function IntOf(v: Value): int {
    if v.Int? then v.n else 0
  }

  /** The type a call's value has under an argument's annotation, before its facts. */
  function ArgumentType(a: Annotation, v: Value): Ty {
    if a.types.Some? && |a.types.value| == 1 then a.types.value[0] else InferType(Decode(a, v), IntOf(v))
  }

  predicate Typed(a: Annotation) {
    && a.tritonTyped && a.baked.None? && !a.bound && a.types.Some? && |a.types.value| == 1
    && !a.types.value[0].NoneType? && !a.types.value[0].Ptr?
  }

  /** An argument's descriptor byte; `specRange` tells whether the backend specializes on range. */
  function ArgumentCode(a: Annotation, specRange: bool, v: Value): nat {
    var t, d := ArgumentType(a, v), Decode(a, v);
    if !a.one.Never? && IsInteger(t) && (a.one.Assume? || d.bits == 1) then B_ONE
    else
      TypeCode(t)
      + (if a.aligned.Auto? && d.bits % 16 == 0 && !(Typed(a) && d.kind.BoolKind?)
        then (if t.Ptr? then 2 else if IsInteger(t) then 1 else 0) else 0)
      + (if a.range.Auto? && specRange && t.Ptr? && d.storage <= RANGE_32 then 1 else 0)
  }

  /** `intj_constexpr_type`. */
  function ConstexprCode(k: ValueKind): nat {
    match k
    case BoolKind => 139
    case I64Kind => 140
    case U64Kind => 141
    case FP64Kind => 142
    case ObjectKind => 154
    case _ => 138
  }

  /** `narrowness`: narrowest first, then by name. */
  function Narrowness(t: Ty): (nat, nat) {
    match t
    case U1 => (1, 0)
    case IntTy(signed, bits) => (bits, if signed then 1 else 2)
    case FP64 => (64, 0)
    case FP32 => (0, 1)
    case Ptr(_) => (0, 2)
    case NoneType => (0, 0)
  }

  predicate Narrower(s: Ty, t: Ty) {
    var (a, b) := (Narrowness(s), Narrowness(t));
    a.0 < b.0 || (a.0 == b.0 && a.1 <= b.1)
  }

  function InsertChoice(ts: seq<Ty>, t: Ty): seq<Ty> {
    if ts == [] || Narrower(ts[|ts| - 1], t) then ts + [t] else InsertChoice(ts[..|ts| - 1], t) + [ts[|ts| - 1]]
  }

  function Choices(ts: seq<Ty>): seq<Ty> {
    if ts == [] then [] else InsertChoice(Choices(ts[..|ts| - 1]), ts[|ts| - 1])
  }

  /** The first of the choices a value fits. */
  function FirstFit(ts: seq<Ty>, v: Value): Option<Ty> {
    if ts == [] then None else if Fits(v, ts[0]) then Some(ts[0]) else FirstFit(ts[1..], v)
  }

  function KeyBytes(t: Ty): nat {
    match t
    case NoneType => 0
    case U1 => 1
    case IntTy(_, bits) => bits / 8
    case FP32 => 4
    case FP64 => 8
    case Ptr(_) => 0
  }

  function MaxBytes(ts: seq<Ty>): nat {
    if ts == [] then 0
    else if KeyBytes(ts[|ts| - 1]) > MaxBytes(ts[..|ts| - 1]) then KeyBytes(ts[|ts| - 1])
    else MaxBytes(ts[..|ts| - 1])
  }

  /** The exponent of the lowest set bit: `ctz`. */
  function TrailingZeros(m: nat): nat
    requires m > 0
  {
    if m % 2 == 1 then 0 else 1 + TrailingZeros(m / 2)
  }

  /** `intj_power_of_two_or_zero`, of the decoded value. */
  function PowerCode(d: Decoded): nat {
    var negative := d.kind.I64Kind? && d.bits > INT64_MAX;
    var magnitude := if negative then (WORD - d.bits) % WORD else d.bits;
    if magnitude == 0 then 0 else TrailingZeros(magnitude) + 1 + if negative then 128 else 0
  }

  // ---------------------------------------------------------------- the key's fields

  /** `_cache_key_fields`: the widths of what a parameter puts in the key. */
  function FieldWidths(a: Annotation): seq<nat> {
    if a.tuned || a.baked.Some? || a.bound then []
    else if a.kind.Constexpr? then
      if a.power then [1]
      else if a.types == Some([NoneType]) then []
      else if a.types.None? then [1, 8]
      else
        (if |a.types.value| > 1 then [1] else [])
        + (if MaxBytes(a.types.value) > 0 then [MaxBytes(a.types.value)] else [])
    else
      (if HasDescriptor(a) then [1] else []) + (if a.exactKey then [1, 8] else [])
  }

  predicate HasDescriptor(a: Annotation) {
    a.types.None? || |a.types.value| > 1 || exists t :: t in a.types.value && AutoApplies(a, t)
  }

  /** What the packing writes in those fields. */
  function FieldValues(a: Annotation, specRange: bool, v: Value): (r: seq<nat>)
    ensures |r| == |FieldWidths(a)|
  {
    var d := Decode(a, v);
    if a.tuned || a.baked.Some? || a.bound then []
    else if a.kind.Constexpr? then
      if a.power then [PowerCode(d) % 256]
      else if a.types == Some([NoneType]) then []
      else if a.types.None? then [ConstexprCode(d.kind) % 256, d.bits % WORD]
      else
        var fit := FirstFit(Choices(a.types.value), v);
        var width := MaxBytes(a.types.value);
        (if |a.types.value| > 1 then [(if fit.Some? then TypeCode(fit.value) else 0) % 256] else [])
        + (if width > 0 then [d.bits % Pow2(8 * width)] else [])
    else
      (if HasDescriptor(a) then [ArgumentCode(a, specRange, v) % 256] else [])
      + (if a.exactKey then [KindCode(d.kind) % 256, d.bits % WORD] else [])
  }

  // ---------------------------------------------------------------- the compiler input

  /** What Triton's own specialization makes of a value; `folded` is its "constexpr". */
  datatype Inferred = Inferred(folded: bool, ty: Ty, constPtr: bool, described: bool, divisible: bool, small: bool)

  /** `native_specialize_impl`, as Triton documents it: 1 folds, an int's type is the first of i32,
      i64 and u64 that holds it, a multiple of 16 is divisible, and a pointer's range may count. */
  function Native(v: Value, isConst: bool, specialize: bool, align: bool, specRange: bool, range: int): Inferred {
    match v
    case NoneValue => Inferred(true, NoneType, false, false, false, false)
    case Bool(_) => Inferred(false, U1, false, false, false, false)
    case Float(_) => Inferred(false, FP32, false, false, false, false)
    case Object(_) => Inferred(true, NoneType, false, false, false, false)
    case Int(n) =>
      if n == 1 && specialize then Inferred(true, NoneType, false, false, false, false)
      else
        var t := if -0x8000_0000 <= n <= 0x7fff_ffff then IntTy(true, 32) else if n <= INT64_MAX then IntTy(true, 64)
            else IntTy(false, 64);
        Inferred(false, t, false, specialize, align && n % 16 == 0, false)
    case Tensor(addr, elem, _, _) =>
      Inferred(false, Ptr(elem), isConst, specialize, align && addr % 16 == 0, specRange && range <= RANGE_32)
  }

  datatype Signature = IsConstexpr | HasType(ty: Ty, constPtr: bool)

  /** One parameter's part of the compiler input: its signature type, its constant when it is a
      constexpr, and its two attributes. */
  datatype Entry = Entry(sig: Signature, constant: Option<Value>, divisible: bool, range: bool)

  /** A tensor enters the source by what specialization reads of it, never as a constant. */
  function ConstantEntry(v: Value): Entry {
    Entry(IsConstexpr, Some(v), false, false)
  }

  /** `compiler_input`, for one parameter. */
  function CompilerEntry(a: Annotation, isConst: bool, specRange: bool, passed: Value): Entry {
    var value := if a.bound then NoneValue else if a.baked.Some? then a.baked.value else passed;
    if a.kind.Constexpr? then ConstantEntry(value) else
    var fixed := a.types.Some? && |a.types.value| == 1;
    var declared := if fixed then a.types.value[0] else NoneType;
    var assumedOne := a.one.Assume? && fixed && Applicable(declared, EqualToOne);
    var infers := !assumedOne && (!fixed || AutoApplies(a, declared));
    var shown := if fixed && declared.Ptr? && (value.NoneValue? || value == Int(0))
        then Tensor(0, declared.elem, 0, None) else value;
    var range := if shown.Tensor? && a.range.Auto? then Measured(a, shown) else 0;
    var inferred := Native(shown, isConst, AnyAuto(a), a.aligned.Auto?, specRange, range);
    var ty := if fixed then declared
              else if inferred.folded then (if value.NoneValue? then NoneType else IntTy(true, 32))
              else inferred.ty;
    var constPtr := !fixed && inferred.constPtr;
    if ty.NoneType? then ConstantEntry(value)
    else if Applicable(ty, EqualToOne) && (a.one.Assume? || (a.one.Auto? && value == Int(1))) then
      ConstantEntry(if a.one.Assume? then Int(1) else value)
    else
      Entry(
        HasType(ty, constPtr), None,
        Applicable(ty, Aligned16)
          && (a.aligned.Assume? || (a.aligned.Auto? && infers && inferred.described && inferred.divisible)),
        Applicable(ty, PointerRange32)
          && (a.range.Assume? || (a.range.Auto? && infers && inferred.described && inferred.small)))
  }

  // ---------------------------------------------------------------- calls that honour annotations

  /** What merging leaves of an annotation that reaches the key. */
  predicate Merged(a: Annotation) {
    && (a.types.Some? ==> a.types.value != [] && forall t :: t in a.types.value ==>
      TypeOk(t) && (a.kind.Constexpr? ==> !t.Ptr? && !t.FP32?))
    && (a.power ==> a.kind.Constexpr? && (a.types.Some? ==> forall t :: t in a.types.value ==> IsInteger(t)))
    && (a.types.Some? ==> forall i, j :: 0 <= i < j < |a.types.value| ==> a.types.value[i] != a.types.value[j])
    && (a.tritonTyped ==> a.kind.Argument? && !a.one.Auto?)
  }

  predicate TypeOk(t: Ty) {
    (t.IntTy? ==> IsBits(t.bits)) && (t.Ptr? ==> t.elem < 32)
  }

  /** Zero, or plus or minus a power of two. */
  ghost predicate IsPower(n: int) {
    n == 0 || exists k: nat :: n == Pow2(k) || n == 0 - Pow2(k)
  }

  /** A value whose decoding the C types hold. */
  predicate WellFormed(v: Value) {
    && InDomain(v)
    && (v.Tensor? ==> v.addr < WORD && v.elem < 32)
    && (v.Float? ==> v.pattern < WORD)
    && (v.Object? ==> v.id < WORD)
  }

  /** A call that keeps the declared types, as `verify_annotation` checks them. */
  ghost predicate Honours(a: Annotation, v: Value) {
    && WellFormed(v)
    && if a.kind.Constexpr? then
         && !v.Tensor?
         && (a.power ==> v.Int? && IsPower(v.n))
         && (a.types.Some? ==> exists t :: t in a.types.value && Fits(v, t))
       else
         && !v.Object?
         && (a.types.Some? && |a.types.value| == 1 ==>
               match a.types.value[0]
               case NoneType => v.NoneValue?
               case Ptr(elem) => v.NoneValue? || v == Int(0) || (v.Tensor? && v.elem == elem)
               case IntTy(_, _) => v.Int? || (Typed(a) && v.Bool?)
               case _ => true)
  }

  // ---------------------------------------------------------------- arguments

  /** The three tests an argument's descriptor byte makes of a value. */
  predicate IsOne(a: Annotation, v: Value) {
    !a.one.Never? && IsInteger(ArgumentType(a, v)) && (a.one.Assume? || Decode(a, v).bits == 1)
  }

  predicate IsAligned(a: Annotation, v: Value) {
    Decode(a, v).bits % 16 == 0 && !(Typed(a) && v.Bool?)
  }

  predicate IsSmall(a: Annotation, specRange: bool, v: Value) {
    specRange && Decode(a, v).storage <= RANGE_32
  }

  predicate Passed(a: Annotation) {
    a.kind.Argument? && !a.tuned && a.baked.None? && !a.bound
  }

  predicate FixedType(a: Annotation) {
    a.types.Some? && |a.types.value| == 1
  }

  /** What the tests and the type alone make of the compiler input. */
  function TestedEntry(a: Annotation, isConst: bool, t: Ty, one: bool, aligned: bool, small: bool): Entry {
    if one then ConstantEntry(Int(1))
    else if t.NoneType? then ConstantEntry(NoneValue)
    else Entry(HasType(t, isConst && t.Ptr? && !FixedType(a)), None,
               Applicable(t, Aligned16) && (a.aligned.Assume? || (a.aligned.Auto? && aligned)),
               t.Ptr? && (a.range.Assume? || (a.range.Auto? && small)))
  }

  lemma WordOfInt(n: int)
    requires INT64_MIN <= n < WORD
    ensures ToWord(n) == 1 <==> n == 1
    ensures ToWord(n) % 16 == n % 16
    ensures ToWord(n) == if n < 0 then n + WORD else n
  {
    assert n < 0 ==> n + WORD == n % WORD;
  }

  lemma EntryOfInt(a: Annotation, isConst: bool, specRange: bool, v: Value)
    requires Merged(a) && Passed(a) && Honours(a, v) && v.Int?
    ensures CompilerEntry(a, isConst, specRange, v)
         == TestedEntry(a, isConst, ArgumentType(a, v), IsOne(a, v), IsAligned(a, v), IsSmall(a, specRange, v))
  {
    WordOfInt(v.n);
  }

  lemma EntryOfOther(a: Annotation, isConst: bool, specRange: bool, v: Value)
    requires Merged(a) && Passed(a) && Honours(a, v) && !v.Int?
    ensures CompilerEntry(a, isConst, specRange, v)
         == TestedEntry(a, isConst, ArgumentType(a, v), IsOne(a, v), IsAligned(a, v), IsSmall(a, specRange, v))
  {
  }

  /** The most a type's low bits can add to its code. */
  function Spare(t: Ty): nat {
    if t.Ptr? then 3 else if IsInteger(t) then 1 else 0
  }

  /** The codes of the types, with their low bits, overlap neither each other nor the fold's. */
  lemma CodesDistinct(s: Ty, t: Ty, x: nat, y: nat)
    requires TypeOk(s) && TypeOk(t) && x <= Spare(s) && y <= Spare(t)
    ensures TypeCode(s) + x == TypeCode(t) + y ==> s == t && x == y
    ensures TypeCode(s) + x != B_ONE && TypeCode(s) + x < 256
  {
  }

  function LowBits(a: Annotation, t: Ty, aligned: bool, small: bool): nat {
    (if a.aligned.Auto? && aligned then (if t.Ptr? then 2 else if IsInteger(t) then 1 else 0) else 0)
    + (if a.range.Auto? && t.Ptr? && small then 1 else 0)
  }

  lemma CodeIs(a: Annotation, specRange: bool, v: Value)
    requires Merged(a) && Passed(a) && Honours(a, v)
    ensures TypeOk(ArgumentType(a, v))
    ensures ArgumentCode(a, specRange, v)
        == CodeOf(a, ArgumentType(a, v), IsOne(a, v), IsAligned(a, v), IsSmall(a, specRange, v))
  {
  }

  function CodeOf(a: Annotation, t: Ty, one: bool, aligned: bool, small: bool): nat {
    if one then B_ONE else TypeCode(t) + LowBits(a, t, aligned, small)
  }

  lemma LowBitsTell(a: Annotation, t: Ty, aligned: bool, small: bool, aligned': bool, small': bool)
    requires LowBits(a, t, aligned, small) == LowBits(a, t, aligned', small')
    ensures a.aligned.Auto? && Applicable(t, Aligned16) ==> aligned == aligned'
    ensures a.range.Auto? && t.Ptr? ==> small == small'
  {
  }

  lemma CodeOfByte(a: Annotation, t: Ty, one: bool, aligned: bool, small: bool)
    requires TypeOk(t)
    ensures CodeOf(a, t, one, aligned, small) % 256 == CodeOf(a, t, one, aligned, small)
    ensures one <==> CodeOf(a, t, one, aligned, small) == B_ONE
  {
    assert LowBits(a, t, aligned, small) <= Spare(t);
    CodesDistinct(t, t, LowBits(a, t, aligned, small), 0);
    hide TypeCode;
    hide LowBits;
  }

  lemma CodeOfTells(a: Annotation, s: Ty, t: Ty, one: bool, aligned: bool, small: bool, one': bool, aligned': bool,
                    small': bool)
    requires TypeOk(s) && TypeOk(t)
    requires CodeOf(a, s, one, aligned, small) % 256 == CodeOf(a, t, one', aligned', small') % 256
    ensures one == one'
    ensures !one ==> && s == t && (a.aligned.Auto? && Applicable(t, Aligned16) ==> aligned == aligned')
                     && (a.range.Auto? && t.Ptr? ==> small == small')
  {
    hide TypeCode;
    CodeOfByte(a, s, one, aligned, small);
    CodeOfByte(a, t, one', aligned', small');
    var x, y := LowBits(a, s, aligned, small), LowBits(a, t, aligned', small');
    assert x <= Spare(s) && y <= Spare(t);
    hide LowBits;
    if !one {
      CodesDistinct(s, t, x, y);
      LowBitsTell(a, t, aligned, small, aligned', small');
    }
  }

  /** A descriptor byte gives back the fold, or else the type and every test left to Triton. */
  lemma CodeTells(a: Annotation, specRange: bool, v: Value, w: Value)
    requires Merged(a) && Passed(a) && Honours(a, v) && Honours(a, w)
    requires ArgumentCode(a, specRange, v) % 256 == ArgumentCode(a, specRange, w) % 256
    ensures IsOne(a, v) == IsOne(a, w)
    ensures !IsOne(a, v) ==>
              var t := ArgumentType(a, v);
              && t == ArgumentType(a, w)
              && (a.aligned.Auto? && Applicable(t, Aligned16) ==> IsAligned(a, v) == IsAligned(a, w))
              && (a.range.Auto? && t.Ptr? ==> IsSmall(a, specRange, v) == IsSmall(a, specRange, w))
  {
    hide ArgumentCode;
    hide ArgumentType;
    hide IsOne;
    hide IsAligned;
    hide IsSmall;
    hide Honours;
    CodeIs(a, specRange, v);
    CodeIs(a, specRange, w);
    CodeOfTells(a, ArgumentType(a, v), ArgumentType(a, w),
                IsOne(a, v), IsAligned(a, v), IsSmall(a, specRange, v), IsOne(a, w), IsAligned(a, w),
                  IsSmall(a, specRange, w));
  }

  /** The tests with no bearing on an entry may differ. */
  lemma TestedSame(a: Annotation, isConst: bool, t: Ty, one: bool, aligned: bool, small: bool, aligned': bool,
                   small': bool)
    requires a.aligned.Auto? && Applicable(t, Aligned16) ==> aligned == aligned'
    requires a.range.Auto? && t.Ptr? ==> small == small'
    ensures TestedEntry(a, isConst, t, one, aligned, small) == TestedEntry(a, isConst, t, one, aligned', small')
  {
  }

  /** An argument's descriptor, or its having none, fixes its entry. */
  lemma ArgumentFixed(a: Annotation, isConst: bool, specRange: bool, v: Value, w: Value)
    requires Merged(a) && Passed(a) && Honours(a, v) && Honours(a, w)
    requires FieldValues(a, specRange, v) == FieldValues(a, specRange, w)
    ensures CompilerEntry(a, isConst, specRange, v) == CompilerEntry(a, isConst, specRange, w)
  {
    EntryIs(a, isConst, specRange, v);
    EntryIs(a, isConst, specRange, w);
    hide CompilerEntry;
    if HasDescriptor(a) {
      assert FieldValues(a, specRange, v)[0] == FieldValues(a, specRange, w)[0];
      CodeTells(a, specRange, v, w);
      hide ArgumentType;
      hide IsOne;
      hide IsAligned;
      hide IsSmall;
      if !IsOne(a, v) {
        TestedSame(a, isConst, ArgumentType(a, v), false, IsAligned(a, v), IsSmall(a, specRange, v), IsAligned(a, w),
                   IsSmall(a, specRange, w));
      }
    } else {
      var t := a.types.value[0];
      assert t in a.types.value && !AutoApplies(a, t);
      assert IsOne(a, v) == IsOne(a, w);
      TestedSame(a, isConst, t, IsOne(a, v), IsAligned(a, v), IsSmall(a, specRange, v), IsAligned(a, w),
                 IsSmall(a, specRange, w));
    }
  }

  lemma EntryIs(a: Annotation, isConst: bool, specRange: bool, v: Value)
    requires Merged(a) && Passed(a) && Honours(a, v)
    ensures CompilerEntry(a, isConst, specRange, v)
         == TestedEntry(a, isConst, ArgumentType(a, v), IsOne(a, v), IsAligned(a, v), IsSmall(a, specRange, v))
  {
    if v.Int? {
      EntryOfInt(a, isConst, specRange, v);
    } else {
      EntryOfOther(a, isConst, specRange, v);
    }
  }

  /** The auto path's descriptor byte for an unannotated argument, from its own decoding. */
  function AutoCode(specRange: bool, v: Value): nat {
    match v
    case Tensor(addr, elem, storage, _) => 4 * elem + (if addr % 16 == 0 then 2 else 0)
      + (if specRange && storage <= RANGE_32 then 1 else 0)
    case Bool(_) => 135
    case Int(n) =>
      if n <= INT64_MAX && n == 1 then B_ONE
      else
        (if n > INT64_MAX then 132 else if -0x8000_0000 <= n <= 0x7fff_ffff then 128 else 130)
          + (if ToWord(n) % 16 == 0 then 1 else 0)
    case Float(_) => 134
    case _ => B_NONE
  }

  /** Both decoders key an unannotated argument alike. */
  lemma AutoPathSameCode(a: Annotation, specRange: bool, v: Value)
    requires Passed(a) && a.types.None? && a.one.Auto? && a.aligned.Auto? && a.range.Auto? && !a.ptrRange
        && !a.tritonTyped
    requires WellFormed(v) && !v.Object?
    ensures AutoCode(specRange, v) == ArgumentCode(a, specRange, v)
  {
    if v.Int? {
      WordOfInt(v.n);
    }
  }

  // ---------------------------------------------------------------- constexprs

  lemma ModMod(n: int, p: nat, q: nat)
    requires p > 0 && q > 0
    ensures p * q > 0 && n % (p * q) % p == n % p
  {
    assert p * q > 0;
    var t, r := n / (p * q), n % (p * q);
    var s, u := r / p, r % p;
    assert n == (p * q) * t + r && (p * q) * t == p * (q * t);
    Distribute(p, q * t, s);
    DivUnique(n, p, q * t + s, u);
  }

  lemma WordMod(n: int, k: nat)
    requires k <= 64
    ensures ToWord(n) % Pow2(k) == n % Pow2(k)
  {
    Pow2Add(k, 64 - k);
    Pow2Widths();
    ModMod(n, Pow2(k), Pow2(64 - k));
  }

  lemma CloseEqual(n: int, m: int, p: nat)
    requires p > 0 && n % p == m % p && 0 - p < n - m < p
    ensures n == m
  {
    Distribute(p, n / p, m / p);
    MulAtLeast(p, n / p - m / p);
  }

  /** Enough low bits of a value a type holds fix the value. */
  lemma IntFromLowBits(n: int, m: int, signed: bool, bits: nat, k: nat)
    requires bits <= k <= 64 && InRange(n, signed, bits) && InRange(m, signed, bits)
    requires ToWord(n) % Pow2(k) == ToWord(m) % Pow2(k)
    ensures n == m
  {
    WordMod(n, k);
    WordMod(m, k);
    if bits < k {
      Pow2Less(bits, k);
    }
    assert Pow2(bits) == 2 * Pow2(bits - 1);
    CloseEqual(n, m, Pow2(k));
  }

  lemma SmallMod(x: nat, k: nat, j: nat)
    requires x < Pow2(j) && j <= k
    ensures x % Pow2(k) == x
  {
    if j < k {
      Pow2Less(j, k);
    }
    DivUnique(x, Pow2(k), 0, x);
  }

  lemma BoolFromLowBits(b: bool, c: bool, width: nat)
    requires 1 <= width && (if b then 1 else 0) % Pow2(8 * width) == (if c then 1 else 0) % Pow2(8 * width)
    ensures b == c
  {
    assert Pow2(1) == 2;
    SmallMod(if b then 1 else 0, 8 * width, 1);
    SmallMod(if c then 1 else 0, 8 * width, 1);
  }

  lemma FloatFromLowBits(x: nat, y: nat)
    requires x < WORD && y < WORD && x % Pow2(64) == y % Pow2(64)
    ensures x == y
  {
    Pow2Widths();
    SmallMod(x, 64, 64);
    SmallMod(y, 64, 64);
  }

  lemma ValueFromLowBits(a: Annotation, t: Ty, v: Value, w: Value, width: nat)
    requires TypeOk(t) && Fits(v, t) && Fits(w, t) && WellFormed(v) && WellFormed(w) && KeyBytes(t) <= width <= 8
    requires width > 0 ==> Decode(a, v).bits % Pow2(8 * width) == Decode(a, w).bits % Pow2(8 * width)
    ensures v == w
  {
    hide Pow2;
    match t
    case U1 => BoolFromLowBits(v.b, w.b, width);
    case IntTy(signed, bits) => IntFromLowBits(v.n, w.n, signed, bits, 8 * width);
    case FP64 => FloatFromLowBits(v.pattern, w.pattern);
    case _ =>
  }

  lemma {:induction false} FirstFitFits(ts: seq<Ty>, v: Value)
    ensures FirstFit(ts, v).Some? ==> FirstFit(ts, v).value in ts && Fits(v, FirstFit(ts, v).value)
    ensures (exists t :: t in ts && Fits(v, t)) ==> FirstFit(ts, v).Some?
    decreases |ts|
  {
    if ts != [] && !Fits(v, ts[0]) {
      FirstFitFits(ts[1..], v);
    }
  }

  lemma {:induction false} InsertChoiceMember(ts: seq<Ty>, t: Ty, x: Ty)
    ensures x in InsertChoice(ts, t) <==> x in ts || x == t
    decreases |ts|
  {
    if ts != [] && !Narrower(ts[|ts| - 1], t) {
      InsertChoiceMember(ts[..|ts| - 1], t, x);
      assert ts == ts[..|ts| - 1] + [ts[|ts| - 1]];
    }
  }

  lemma {:induction false} ChoicesMember(ts: seq<Ty>, x: Ty)
    ensures x in Choices(ts) <==> x in ts
    decreases |ts|
  {
    if ts != [] {
      ChoicesMember(ts[..|ts| - 1], x);
      InsertChoiceMember(Choices(ts[..|ts| - 1]), ts[|ts| - 1], x);
      assert ts == ts[..|ts| - 1] + [ts[|ts| - 1]];
    }
  }

  /** The bits a constexpr's type keys as its width. */
  function KeyWidth(t: Ty): nat {
    match t
    case U1 => 1
    case IntTy(_, bits) => bits
    case FP64 => 64
    case _ => 0
  }

  lemma {:induction false} ChoicesSorted(ts: seq<Ty>)
    ensures forall i, j :: 0 <= i < j < |Choices(ts)| ==> Narrower(Choices(ts)[i], Choices(ts)[j])
    decreases |ts|
  {
    if ts != [] {
      ChoicesSorted(ts[..|ts| - 1]);
      InsertSorted(Choices(ts[..|ts| - 1]), ts[|ts| - 1]);
    }
  }

  lemma {:induction false} InsertSorted(ts: seq<Ty>, t: Ty)
    requires forall i, j :: 0 <= i < j < |ts| ==> Narrower(ts[i], ts[j])
    ensures forall i, j :: 0 <= i < j < |InsertChoice(ts, t)| ==>
        Narrower(InsertChoice(ts, t)[i], InsertChoice(ts, t)[j])
    decreases |ts|
  {
    if ts != [] && !Narrower(ts[|ts| - 1], t) {
      var last := |ts| - 1;
      InsertSorted(ts[..last], t);
      var r := InsertChoice(ts[..last], t);
      forall i | 0 <= i < |r|
        ensures Narrower(r[i], ts[last])
      {
        InsertChoiceMember(ts[..last], t, r[i]);
        assert r[i] in r;
      }
    }
  }

  lemma {:induction false} FirstFitFirst(ts: seq<Ty>, v: Value, u: Ty)
    requires (forall i, j :: 0 <= i < j < |ts| ==> Narrower(ts[i], ts[j])) && u in ts && Fits(v, u)
    ensures FirstFit(ts, v).Some? && (FirstFit(ts, v).value == u || Narrower(FirstFit(ts, v).value, u))
    decreases |ts|
  {
    if !Fits(v, ts[0]) {
      FirstFitFirst(ts[1..], v, u);
    } else {
      var i :| 0 <= i < |ts| && ts[i] == u;
    }
  }

  /** A typed constexpr keys as the narrowest of its types it fits, the signed one of a width first. */
  lemma KeyedNarrowest(ts: seq<Ty>, v: Value, u: Ty)
    requires (forall t :: t in ts ==> TypeOk(t) && !t.Ptr? && !t.FP32?) && u in ts && Fits(v, u)
    ensures var t := FirstFit(Choices(ts), v);
      && t.Some? && t.value in ts && Fits(v, t.value) && KeyWidth(t.value) <= KeyWidth(u)
      && (t.value.IntTy? && u.IntTy? && t.value.bits == u.bits && u.signed ==> t.value.signed)
  {
    ChoicesSorted(ts);
    ChoicesMember(ts, u);
    FirstFitFirst(Choices(ts), v, u);
    FirstFitFits(Choices(ts), v);
    ChoicesMember(ts, FirstFit(Choices(ts), v).value);
    hide Choices;
    hide FirstFit;
  }

  lemma {:induction false} MaxBytesCovers(ts: seq<Ty>, t: Ty)
    requires t in ts
    ensures KeyBytes(t) <= MaxBytes(ts)
    decreases |ts|
  {
    if t != ts[|ts| - 1] {
      assert ts == ts[..|ts| - 1] + [ts[|ts| - 1]];
      MaxBytesCovers(ts[..|ts| - 1], t);
    }
  }

  lemma {:induction false} MaxBytesBound(ts: seq<Ty>)
    requires forall t :: t in ts ==> TypeOk(t)
    ensures var w := MaxBytes(ts); w == 0 || w == 1 || w == 2 || w == 4 || w == 8
    decreases |ts|
  {
    if ts != [] {
      MaxBytesBound(ts[..|ts| - 1]);
      assert ts[|ts| - 1] in ts;
    }
  }

  /** A typed constexpr's fields fix its value: the type it keys as is the first it fits. */
  lemma TypedConstexprFixed(a: Annotation, specRange: bool, v: Value, w: Value)
    requires Merged(a) && a.kind.Constexpr? && !a.tuned && a.baked.None? && !a.bound && !a.power && a.types.Some?
    requires Honours(a, v) && Honours(a, w) && FieldValues(a, specRange, v) == FieldValues(a, specRange, w)
    ensures v == w
  {
    hide Choices;
    hide FirstFit;
    hide MaxBytes;
    hide TypeCode;
    hide Decode;
    hide Pow2;
    var ts, width := a.types.value, MaxBytes(a.types.value);
    FittedType(a, v);
    FittedType(a, w);
    var s, t := FirstFit(Choices(ts), v).value, FirstFit(Choices(ts), w).value;
    SameChoice(a, specRange, v, w, s, t);
    PayloadSame(a, specRange, v, w);
    MaxBytesCovers(ts, s);
    MaxBytesBound(ts);
    hide FieldValues;
    hide FieldWidths;
    ValueFromLowBits(a, s, v, w, width);
  }

  lemma ChoiceField(a: Annotation, specRange: bool, v: Value, s: Ty)
    requires a.kind.Constexpr? && !a.tuned && a.baked.None? && !a.bound && !a.power && a.types.Some?
        && |a.types.value| > 1
    requires FirstFit(Choices(a.types.value), v) == Some(s)
    ensures |FieldValues(a, specRange, v)| > 0 && FieldValues(a, specRange, v)[0] == TypeCode(s) % 256
  {
    hide FirstFit;
    hide Choices;
    hide TypeCode;
  }

  lemma SameChoice(a: Annotation, specRange: bool, v: Value, w: Value, s: Ty, t: Ty)
    requires a.kind.Constexpr? && !a.tuned && a.baked.None? && !a.bound && !a.power && a.types.Some?
    requires FieldValues(a, specRange, v) == FieldValues(a, specRange, w)
    requires FirstFit(Choices(a.types.value), v) == Some(s) && FirstFit(Choices(a.types.value), w) == Some(t)
    requires s in a.types.value && t in a.types.value && TypeOk(s) && TypeOk(t)
    ensures s == t
  {
    hide FieldValues;
    hide FirstFit;
    hide Choices;
    var ts := a.types.value;
    if |ts| == 1 {
      assert s == ts[0] == t;
    } else {
      ChoiceField(a, specRange, v, s);
      ChoiceField(a, specRange, w, t);
      CodesDistinct(s, t, 0, 0);
      CodesDistinct(t, s, 0, 0);
    }
  }

  lemma FittedType(a: Annotation, v: Value)
    requires Merged(a) && a.kind.Constexpr? && a.types.Some? && Honours(a, v)
    ensures var fit := FirstFit(Choices(a.types.value), v);
            fit.Some? && fit.value in a.types.value && Fits(v, fit.value) && TypeOk(fit.value)
  {
    var t :| t in a.types.value && Fits(v, t);
    ChoicesMember(a.types.value, t);
    FirstFitFits(Choices(a.types.value), v);
    ChoicesMember(a.types.value, FirstFit(Choices(a.types.value), v).value);
  }

  lemma PayloadSame(a: Annotation, specRange: bool, v: Value, w: Value)
    requires a.kind.Constexpr? && !a.tuned && a.baked.None? && !a.bound && !a.power && a.types.Some?
        && a.types.value != []
    requires FieldValues(a, specRange, v) == FieldValues(a, specRange, w)
    ensures var width := MaxBytes(a.types.value); width > 0 ==>
        Decode(a, v).bits % Pow2(8 * width) == Decode(a, w).bits % Pow2(8 * width)
  {
    var last := |FieldWidths(a)| - 1;
    if MaxBytes(a.types.value) > 0 {
      assert FieldValues(a, specRange, v)[last] == FieldValues(a, specRange, w)[last];
    }
  }

  /** An untyped constexpr's kind and bits fix its value. */
  lemma UntypedConstexprFixed(a: Annotation, specRange: bool, v: Value, w: Value)
    requires a.kind.Constexpr? && !a.tuned && a.baked.None? && !a.bound && !a.power && a.types.None?
    requires Honours(a, v) && Honours(a, w) && FieldValues(a, specRange, v) == FieldValues(a, specRange, w)
    ensures v == w
  {
    assert FieldValues(a, specRange, v)[0] == FieldValues(a, specRange, w)[0];
    assert FieldValues(a, specRange, v)[1] == FieldValues(a, specRange, w)[1];
    if v.Int? {
      WordOfInt(v.n);
    }
    if w.Int? {
      WordOfInt(w.n);
    }
  }

  lemma {:induction false} ZerosOfPower(k: nat)
    ensures TrailingZeros(Pow2(k)) == k
    decreases k
  {
    if k > 0 {
      ZerosOfPower(k - 1);
    }
  }

  lemma ExponentBound(n: int, k: nat)
    requires INT64_MIN <= n < WORD && (n == Pow2(k) || n == 0 - Pow2(k))
    ensures k <= 63
  {
    Pow2Widths();
    if k > 64 {
      Pow2Less(64, k);
    }
  }

  lemma PowerOfBits(b: nat, m: nat, negative: bool)
    requires 0 < m && if negative then m <= INT64_MAX + 1 && b == WORD - m else m < WORD && b == m
    ensures PowerCode(Decoded(if negative || b <= INT64_MAX then I64Kind else U64Kind, b, 0, 0))
         == TrailingZeros(m) + 1 + if negative then 128 else 0
  {
    hide TrailingZeros;
  }

  /** The power byte: 0 for zero, the exponent and one otherwise, and the sign in the top bit. */
  lemma PowerCodeOf(a: Annotation, n: int, k: nat)
    requires INT64_MIN <= n < WORD && (n == Pow2(k) || n == 0 - Pow2(k))
    ensures k <= 63 && PowerCode(Decode(a, Int(n))) == k + 1 + if n < 0 then 128 else 0
  {
    ExponentBound(n, k);
    WordOfInt(n);
    ZerosOfPower(k);
    hide TrailingZeros;
    hide PowerCode;
    hide ToWord;
    hide Pow2;
    PowerOfBits(ToWord(n), if n < 0 then 0 - n else n, n < 0);
  }

  lemma PowerOf(a: Annotation, v: Value) returns (k: nat)
    requires a.kind.Constexpr? && a.power && Honours(a, v)
    ensures v.Int? && k <= 63 && (v.n == 0 || v.n == Pow2(k) || v.n == 0 - Pow2(k))
    ensures PowerCode(Decode(a, v)) == if v.n == 0 then 0 else k + 1 + if v.n < 0 then 128 else 0
  {
    if v.n == 0 {
      k := 0;
    } else {
      k :| v.n == Pow2(k) || v.n == 0 - Pow2(k);
      PowerCodeOf(a, v.n, k);
    }
  }

  lemma PowerField(a: Annotation, specRange: bool, v: Value)
    requires a.kind.Constexpr? && !a.tuned && a.baked.None? && !a.bound && a.power
    ensures FieldValues(a, specRange, v) == [PowerCode(Decode(a, v)) % 256]
  {
  }

  lemma PowerCodesDistinct(n: int, k: nat, m: int, j: nat)
    requires n == 0 || n == Pow2(k) || n == 0 - Pow2(k)
    requires m == 0 || m == Pow2(j) || m == 0 - Pow2(j)
    requires k <= 63 && j <= 63
    requires (if n == 0 then 0 else k + 1 + if n < 0 then 128 else 0)
        == (if m == 0 then 0 else j + 1 + if m < 0 then 128 else 0)
    ensures n == m
  {
    hide Pow2;
  }

  lemma PowerConstexprFixed(a: Annotation, specRange: bool, v: Value, w: Value)
    requires a.kind.Constexpr? && !a.tuned && a.baked.None? && !a.bound && a.power
    requires Honours(a, v) && Honours(a, w) && FieldValues(a, specRange, v) == FieldValues(a, specRange, w)
    ensures v == w
  {
    hide FieldValues;
    hide FieldWidths;
    hide PowerCode;
    hide Decode;
    hide Pow2;
    hide Honours;
    PowerField(a, specRange, v);
    PowerField(a, specRange, w);
    var k := PowerOf(a, v);
    var m := PowerOf(a, w);
    SameByte(PowerCode(Decode(a, v)), PowerCode(Decode(a, w)));
    PowerCodesDistinct(v.n, k, w.n, m);
  }

  lemma SameByte(x: nat, y: nat)
    requires [x % 256] == [y % 256] && x < 256 && y < 256
    ensures x == y
  {
    assert [x % 256][0] == [y % 256][0];
  }

  /** The spec key is never coarser than the compiler input: two calls that keep the declared
      types and agree on what a parameter puts in the key agree on what it puts in the source. */
  lemma NeverCoarser(a: Annotation, isConst: bool, specRange: bool, v: Value, w: Value)
    requires Merged(a) && !a.tuned && Honours(a, v) && Honours(a, w)
    requires FieldValues(a, specRange, v) == FieldValues(a, specRange, w)
    ensures CompilerEntry(a, isConst, specRange, v) == CompilerEntry(a, isConst, specRange, w)
  {
    if a.bound || a.baked.Some? {
    } else if a.kind.Argument? {
      ArgumentFixed(a, isConst, specRange, v, w);
    } else if a.power {
      PowerConstexprFixed(a, specRange, v, w);
    } else if a.types.None? {
      UntypedConstexprFixed(a, specRange, v, w);
    } else {
      TypedConstexprFixed(a, specRange, v, w);
    }
  }

  /** A constexpr is a constant of the source: the value passed, else baked, and None when bound. */
  lemma ConstexprMeans(a: Annotation, isConst: bool, specRange: bool, v: Value)
    requires a.kind.Constexpr?
    ensures var e := CompilerEntry(a, isConst, specRange, v);
      && e.sig == IsConstexpr && !e.divisible && !e.range
      && (a.bound ==> e.constant == Some(NoneValue))
      && (!a.bound && a.baked.Some? ==> e.constant == a.baked)
      && (!a.bound && a.baked.None? ==> e.constant == Some(v))
  {
  }

  /** The int type that holds `n`: the first of i32, i64 and u64. */
  predicate IsIntType(n: int, t: Ty) {
    t == if -0x8000_0000 <= n < 0x8000_0000 then IntTy(true, 32)
         else if -0x8000_0000_0000_0000 <= n < 0x8000_0000_0000_0000 then IntTy(true, 64)
         else IntTy(false, 64)
  }

  /** An argument nothing is declared of is compiled as Triton would: 1 and None are constants, an int
      or a pointer tells whether 16 divides it, and a pointer whether its tensor is within 2 GiB. */
  lemma PlainArgument(a: Annotation, isConst: bool, specRange: bool, v: Value, t: Ty)
    requires Passed(a) && Merged(a) && Honours(a, v)
    requires a.types.None? && a.one.Auto? && a.aligned.Auto? && a.range.Auto? && !a.tritonTyped && !a.ptrRange
    requires v.Int? ==> IsIntType(v.n, t)
    ensures CompilerEntry(a, isConst, specRange, v) ==
      match v
      case NoneValue => Entry(IsConstexpr, Some(NoneValue), false, false)
      case Bool(_) => Entry(HasType(U1, false), None, false, false)
      case Float(_) => Entry(HasType(FP32, false), None, false, false)
      case Int(n) => if n == 1 then Entry(IsConstexpr, Some(Int(1)), false, false)
                     else Entry(HasType(t, false), None, n % 16 == 0, false)
      case Tensor(addr, elem, storage, _) =>
        Entry(HasType(Ptr(elem), isConst), None, addr % 16 == 0, specRange && storage <= 0x7fff_ffff)
      case Object(_) => CompilerEntry(a, isConst, specRange, v)
  {
  }

  /** A declared type is the signature's, and declared facts hold whatever is passed. */
  lemma DeclaredArgument(a: Annotation, isConst: bool, specRange: bool, v: Value, t: Ty)
    requires Passed(a) && Merged(a) && Honours(a, v) && a.types == Some([t]) && !t.NoneType?
    ensures var e := CompilerEntry(a, isConst, specRange, v);
      if IsInteger(t) && (a.one.Assume? || (a.one.Auto? && v == Int(1))) then
        e == Entry(IsConstexpr, Some(Int(1)), false, false)
      else
        && e.sig == HasType(t, false) && e.constant.None?
        && (a.aligned.Assume? ==> (e.divisible <==> t.Ptr? || IsInteger(t))) && (a.aligned.Never? ==> !e.divisible)
        && (a.range.Assume? ==> (e.range <==> t.Ptr?)) && (a.range.Never? ==> !e.range)
        && (a.aligned.Auto? ==>
              (e.divisible <==> match v
                                case Int(n) => (t.Ptr? || IsInteger(t)) && n % 16 == 0
                                case NoneValue => t.Ptr?
                                case Tensor(addr, _, _, _) => t.Ptr? && addr % 16 == 0
                                case _ => false))
        && (a.range.Auto? ==>
              (e.range <==>
                t.Ptr? && specRange
                && (v.Tensor? ==> (if a.ptrRange && v.override.Some? then v.override.value
                  else v.storage) <= 0x7fff_ffff)))
  {
  }

  /** A bound argument's entry is what is declared of it: its type and facts, and None for none. */
  lemma BoundArgument(a: Annotation, isConst: bool, specRange: bool, v: Value, t: Ty)
    requires a.kind.Argument? && a.bound && Merged(a) && a.types == Some([t]) && !AutoApplies(a, t)
    ensures CompilerEntry(a, isConst, specRange, v) ==
      if t.NoneType? then Entry(IsConstexpr, Some(NoneValue), false, false)
      else if a.one.Assume? && IsInteger(t) then Entry(IsConstexpr, Some(Int(1)), false, false)
      else Entry(HasType(t, false), None, a.aligned.Assume? && (t.Ptr? || IsInteger(t)), a.range.Assume? && t.Ptr?)
  {
  }

  /** Nor is it finer: what a parameter puts in the key differs only where its entry does, exact keys
      of autotuned arguments apart. */
  lemma NeverFiner(a: Annotation, isConst: bool, specRange: bool, v: Value, w: Value)
    requires Merged(a) && !a.tuned && !a.exactKey && Honours(a, v) && Honours(a, w)
    requires CompilerEntry(a, isConst, specRange, v) == CompilerEntry(a, isConst, specRange, w)
    ensures FieldValues(a, specRange, v) == FieldValues(a, specRange, w)
  {
    if a.kind.Constexpr? && a.baked.None? && !a.bound {
      ConstexprMeans(a, isConst, specRange, v);
      ConstexprMeans(a, isConst, specRange, w);
    } else if a.kind.Argument? && a.baked.None? && !a.bound {
      EntryIs(a, isConst, specRange, v);
      EntryIs(a, isConst, specRange, w);
      CodeIs(a, specRange, v);
      CodeIs(a, specRange, w);
      hide CompilerEntry;
      hide ArgumentCode;
      hide TypeCode;
      hide Honours;
      hide Decode;
      SameCodeOf(a, isConst, specRange, v, w);
    }
  }

  lemma SameCodeOf(a: Annotation, isConst: bool, specRange: bool, v: Value, w: Value)
    requires TestedEntry(a, isConst, ArgumentType(a, v), IsOne(a, v), IsAligned(a, v), IsSmall(a, specRange, v))
          == TestedEntry(a, isConst, ArgumentType(a, w), IsOne(a, w), IsAligned(a, w), IsSmall(a, specRange, w))
    ensures CodeOf(a, ArgumentType(a, v), IsOne(a, v), IsAligned(a, v), IsSmall(a, specRange, v))
         == CodeOf(a, ArgumentType(a, w), IsOne(a, w), IsAligned(a, w), IsSmall(a, specRange, w))
  {
    hide TypeCode;
    hide Decode;
    hide ArgumentType;
  }

  /** Two values that a parameter in the key may be passed. */
  ghost predicate Pair(a: Annotation, v: Value, w: Value) {
    Honours(a, v) && Honours(a, w)
  }

  /** No byte of the key is for nothing: a parameter with key fields may be passed two values that
      compile differently, where the backend specializes on ranges. (A declared fold always compiles
      to 1, whatever is left open beside it.) */
  lemma KeyNeeded(a: Annotation, isConst: bool) returns (v: Value, w: Value)
    requires Merged(a) && !a.exactKey && FieldWidths(a) != []
    requires a.kind.Argument? && a.types.Some? && |a.types.value| == 1 && IsInteger(a.types.value[0]) ==> !a.one.Assume?
    ensures Pair(a, v, w) && CompilerEntry(a, isConst, true, v) != CompilerEntry(a, isConst, true, w)
  {
    Pow2Widths();
    if a.kind.Constexpr? {
      v, w := TwoConstexprs(a);
    } else if a.types.None? || |a.types.value| > 1 {
      v, w := NoneValue, Bool(true);
    } else {
      v, w := TwoOfType(a, isConst);
    }
  }

  /** Of a single type, the folds and the tests alone tell values apart. */
  lemma TwoOfType(a: Annotation, isConst: bool) returns (v: Value, w: Value)
    requires Merged(a) && !a.exactKey && FieldWidths(a) != []
    requires a.kind.Argument? && a.types.Some? && |a.types.value| == 1
    requires IsInteger(a.types.value[0]) ==> !a.one.Assume?
    ensures Pair(a, v, w) && CompilerEntry(a, isConst, true, v) != CompilerEntry(a, isConst, true, w)
  {
    hide CompilerEntry, Pow2, Native, Decode;
    var t := a.types.value[0];
    assert a.types.value == [t] && Applicable(t, EqualToOne) == IsInteger(t);
    if t.Ptr? {
      v, w := Tensor(16, t.elem, 0, None), Tensor(8, t.elem, 0, None);
      if !a.aligned.Auto? {
        w := Tensor(16, t.elem, 0x8000_0000, None);
      }
    } else {
      v, w := Int(1), Int(2);
      if !a.one.Auto? {
        v := Int(16);
      }
    }
    DeclaredArgument(a, isConst, true, v, t);
    DeclaredArgument(a, isConst, true, w, t);
  }

  lemma TwoConstexprs(a: Annotation) returns (v: Value, w: Value)
    requires Merged(a) && a.kind.Constexpr? && FieldWidths(a) != []
    ensures Pair(a, v, w) && v != w
  {
    if a.power {
      assert Pow2(0) == 1;
      assert IsPower(0) && IsPower(1);
      v, w := Int(0), Int(1);
      if a.types.Some? {
        SmallFits(a.types.value[0], 0);
        SmallFits(a.types.value[0], 1);
        assert a.types.value[0] in a.types.value;
      }
    } else if a.types.None? {
      v, w := Bool(true), NoneValue;
    } else if |a.types.value| > 1 {
      var s, t := a.types.value[0], a.types.value[1];
      v := OneOf(s);
      w := OneOf(t);
      assert s in a.types.value && t in a.types.value && s != t;
      if v == w {
        v := AnotherOf(s);
      }
    } else {
      var t := a.types.value[0];
      assert a.types.value == [t] && t in a.types.value;
      v := OneOf(t);
      w := AnotherOf(t);
    }
  }

  lemma SmallFits(t: Ty, n: nat)
    requires t.IntTy? && TypeOk(t) && n <= 1
    ensures Fits(Int(n), t)
  {
    Pow2Widths();
    Pow2Less(0, t.bits - 1);
    Pow2Less(0, t.bits);
    assert Pow2(0) == 1;
  }

  lemma OneOf(t: Ty) returns (v: Value)
    requires TypeOk(t) && !t.Ptr? && !t.FP32?
    ensures Fits(v, t) && WellFormed(v) && !v.Tensor?
    ensures v == match t
                 case U1 => Bool(false)
                 case IntTy(_, _) => Int(0)
                 case FP64 => Float(0)
                 case _ => NoneValue
  {
    match t
    case NoneType => v := NoneValue;
    case U1 => v := Bool(false);
    case IntTy(_, _) =>
      v := Int(0);
      SmallFits(t, 0);
    case FP64 => v := Float(0);
  }

  lemma AnotherOf(t: Ty) returns (v: Value)
    requires TypeOk(t) && (t.U1? || t.IntTy? || t.FP64?)
    ensures Fits(v, t) && WellFormed(v) && !v.Tensor? && v != Int(0) && v != Bool(false) && v != Float(0)
  {
    match t
    case U1 => v := Bool(true);
    case IntTy(_, _) =>
      v := Int(1);
      SmallFits(t, 1);
    case FP64 => v := Float(1);
  }

  /** An argument an autotuner keys on puts its exact value in the key. */
  lemma ExactKeyFixed(a: Annotation, specRange: bool, v: Value, w: Value)
    requires Passed(a) && a.exactKey && Honours(a, v) && Honours(a, w) && !v.Tensor? && !w.Tensor?
    requires FieldValues(a, specRange, v) == FieldValues(a, specRange, w)
    ensures v == w
  {
    var n := if HasDescriptor(a) then 1 else 0;
    assert FieldValues(a, specRange, v)[n] == KindCode(Decode(a, v).kind) % 256;
    assert FieldValues(a, specRange, w)[n] == KindCode(Decode(a, w).kind) % 256;
    assert FieldValues(a, specRange, v)[n + 1] == Decode(a, v).bits % WORD;
    assert FieldValues(a, specRange, w)[n + 1] == Decode(a, w).bits % WORD;
    hide FieldValues;
    if v.Int? && w.Int? {
      WordOfInt(v.n);
      WordOfInt(w.n);
    }
  }

  /** A parameter with no key field gives an entry that does not depend on its value. */
  lemma KeylessIsConstant(a: Annotation, isConst: bool, specRange: bool, v: Value, w: Value)
    requires Merged(a) && !a.tuned && Honours(a, v) && Honours(a, w) && FieldWidths(a) == []
    ensures CompilerEntry(a, isConst, specRange, v) == CompilerEntry(a, isConst, specRange, w)
  {
    assert FieldValues(a, specRange, v) == [] == FieldValues(a, specRange, w);
    NeverCoarser(a, isConst, specRange, v, w);
  }
}
