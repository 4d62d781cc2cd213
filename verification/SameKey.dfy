/** From one parameter to the whole key: equal key words mean the same compiler input, and a baked
    value compiles as the same value passed (intj/specialization.py, intj/annotation.py). */
module SameKey {
  import opened Bits
  import opened Optional
  import opened SpecKey
  import opened Words
  import L = KeyLayout
  import P = KeyPacking

  datatype Param = Param(annotation: Annotation, isConst: bool)

  /** The widths of the whole key, parameter by parameter. */
  function Widths(params: seq<Param>): seq<nat> {
    if params == [] then [] else FieldWidths(params[0].annotation) + Widths(params[1..])
  }

  /** What the packing writes, parameter by parameter. */
  function Values(params: seq<Param>, specRange: bool, args: seq<Value>): (r: seq<nat>)
    requires |args| == |params|
    ensures |r| == |Widths(params)|
  {
    if params == [] then []
    else FieldValues(params[0].annotation, specRange, args[0]) + Values(params[1..], specRange, args[1..])
  }

  /** The compiler input of one call. */
  function Input(params: seq<Param>, specRange: bool, args: seq<Value>): (r: seq<Entry>)
    requires |args| == |params|
    ensures |r| == |params|
  {
    if params == [] then []
    else
      [CompilerEntry(params[0].annotation, params[0].isConst, specRange, args[0])]
        + Input(params[1..], specRange, args[1..])
  }

  /** A call of a launcher: every parameter's annotation is a merged one, and kept. */
  ghost predicate Keeps(params: seq<Param>, args: seq<Value>) {
    && |args| == |params|
    && forall i :: 0 <= i < |params| ==>
         && Merged(params[i].annotation) && !params[i].annotation.tuned && Honours(params[i].annotation, args[i])
  }

  lemma {:induction false} SameFieldsSameInput(params: seq<Param>, specRange: bool, a: seq<Value>, b: seq<Value>)
    requires Keeps(params, a) && Keeps(params, b) && Values(params, specRange, a) == Values(params, specRange, b)
    ensures Input(params, specRange, a) == Input(params, specRange, b)
    decreases |params|
  {
    if params != [] {
      var p := params[0];
      var n := |FieldWidths(p.annotation)|;
      assert FieldValues(p.annotation, specRange, a[0]) == Values(params, specRange, a)[..n];
      assert FieldValues(p.annotation, specRange, b[0]) == Values(params, specRange, b)[..n];
      assert Values(params[1..], specRange, a[1..]) == Values(params, specRange, a)[n..];
      assert Values(params[1..], specRange, b[1..]) == Values(params, specRange, b)[n..];
      hide Honours;
      hide FieldValues;
      NeverCoarser(p.annotation, p.isConst, specRange, a[0], b[0]);
      SameFieldsSameInput(params[1..], specRange, a[1..], b[1..]);
    }
  }

  lemma ArgumentFieldsFit(a: Annotation, specRange: bool, v: Value)
    requires a.kind.Argument?
    ensures forall w :: w in FieldWidths(a) ==> L.IsWidth(w)
    ensures forall i :: 0 <= i < |FieldWidths(a)| ==> FieldValues(a, specRange, v)[i] < Pow2(8 * FieldWidths(a)[i])
  {
    Pow2Widths();
    hide Pow2;
    hide ArgumentCode;
    hide HasDescriptor;
    hide Decode;
  }

  lemma UntypedFieldsFit(a: Annotation, specRange: bool, v: Value)
    requires a.kind.Constexpr? && (a.power || a.types.None?)
    ensures forall w :: w in FieldWidths(a) ==> L.IsWidth(w)
    ensures forall i :: 0 <= i < |FieldWidths(a)| ==> FieldValues(a, specRange, v)[i] < Pow2(8 * FieldWidths(a)[i])
  {
    Pow2Widths();
    hide Pow2;
    hide PowerCode;
    hide Decode;
  }

  /** A typed constexpr's fields: a choice byte where there is a choice, then its payload. */
  lemma TypedShape(a: Annotation, specRange: bool, v: Value) returns (choice: nat, payload: nat)
    requires a.kind.Constexpr? && !a.power && a.types.Some? && !a.tuned && a.baked.None? && !a.bound
        && a.types != Some([NoneType])
    ensures var width, many := MaxBytes(a.types.value), |a.types.value| > 1;
      && choice < 256 && payload < Pow2(8 * width)
      && FieldWidths(a) == (if many then [1] else []) + (if width > 0 then [width] else [])
      && FieldValues(a, specRange, v) == (if many then [choice] else []) + (if width > 0 then [payload] else [])
  {
    hide FirstFit;
    hide Choices;
    hide TypeCode;
    hide Decode;
    hide MaxBytes;
    hide Pow2;
    var fit := FirstFit(Choices(a.types.value), v);
    choice := (if fit.Some? then TypeCode(fit.value) else 0) % 256;
    payload := Decode(a, v).bits % Pow2(8 * MaxBytes(a.types.value));
  }

  lemma TypedFieldsFit(a: Annotation, specRange: bool, v: Value)
    requires a.kind.Constexpr? && !a.power && a.types.Some? && forall t :: t in a.types.value ==> TypeOk(t)
    ensures forall w :: w in FieldWidths(a) ==> L.IsWidth(w)
    ensures forall i :: 0 <= i < |FieldWidths(a)| ==> FieldValues(a, specRange, v)[i] < Pow2(8 * FieldWidths(a)[i])
  {
    if !a.tuned && a.baked.None? && !a.bound && a.types != Some([NoneType]) {
      MaxBytesBound(a.types.value);
      Pow2Widths();
      hide Pow2;
      hide MaxBytes;
      hide FieldWidths;
      hide FieldValues;
      var choice, payload := TypedShape(a, specRange, v);
      ShapeFits(choice, payload, MaxBytes(a.types.value), |a.types.value| > 1, FieldWidths(a),
                FieldValues(a, specRange, v));
    }
  }

  lemma ShapeFits(choice: nat, payload: nat, width: nat, many: bool, widths: seq<nat>, values: seq<nat>)
    requires choice < 256 && payload < Pow2(8 * width) && (width == 0 || L.IsWidth(width)) && Pow2(8) == 256
    requires widths == (if many then [1] else []) + (if width > 0 then [width] else [])
    requires values == (if many then [choice] else []) + (if width > 0 then [payload] else [])
    ensures |values| == |widths| && (forall w :: w in widths ==> L.IsWidth(w))
    ensures forall i :: 0 <= i < |widths| ==> values[i] < Pow2(8 * widths[i])
  {
    hide Pow2;
  }

  /** Every field is a byte, or two, four or eight, and its value fits it. */
  lemma FieldsFit(a: Annotation, specRange: bool, v: Value)
    requires Merged(a)
    ensures forall w :: w in FieldWidths(a) ==> L.IsWidth(w)
    ensures forall i :: 0 <= i < |FieldWidths(a)| ==> FieldValues(a, specRange, v)[i] < Pow2(8 * FieldWidths(a)[i])
  {
    hide FieldWidths;
    hide FieldValues;
    if a.kind.Argument? {
      ArgumentFieldsFit(a, specRange, v);
    } else if a.power || a.types.None? {
      UntypedFieldsFit(a, specRange, v);
    } else {
      TypedFieldsFit(a, specRange, v);
    }
  }

  lemma {:induction false} ValuesFit(params: seq<Param>, specRange: bool, args: seq<Value>)
    requires |args| == |params| && forall i :: 0 <= i < |params| ==> Merged(params[i].annotation)
    ensures forall w :: w in Widths(params) ==> L.IsWidth(w)
    ensures forall i :: 0 <= i < |Widths(params)| ==> Values(params, specRange, args)[i] < Pow2(8 * Widths(params)[i])
    decreases |params|
  {
    if params != [] {
      FieldsFit(params[0].annotation, specRange, args[0]);
      hide FieldValues;
      hide FieldWidths;
      hide Merged;
      ValuesFit(params[1..], specRange, args[1..]);
    }
  }

  /** Equal words of one layout hold equal fields. */
  lemma WordsTell(fields: seq<P.Field>, x: seq<nat>, y: seq<nat>)
    requires P.Separate(fields) && P.Fit(fields, x) && P.Fit(fields, y)
    requires forall w: nat :: P.Packed(fields, x, w) == P.Packed(fields, y, w)
    ensures x == y
  {
    if x != y {
      P.KeysDiffer(fields, x, y);
      assert false;
    }
  }

  lemma SplitEqual(x: seq<nat>, y: seq<nat>, d: seq<nat>, e: seq<nat>)
    requires x + d == y + e && |x| == |y|
    ensures x == y && d == e
  {
    assert x == (x + d)[..|x|] && y == (y + e)[..|y|];
    assert d == (x + d)[|x|..] && e == (y + e)[|y|..];
  }

  // ---------------------------------------------------------------- what else the key holds

  /** A launcher's key: its parameters, how many heuristics are computed at level 0, and how many
      compile options are passed a call. */
  datatype Site = Site(params: seq<Param>, computed: nat, dynamic: nat)

  /** What a call brings; `device` is its byte, or nothing when the device is fixed. */
  datatype Call = Call(args: seq<Value>, computed: seq<Value>, dynamic: seq<Value>, device: seq<nat>)

  /** A lowered heuristic leaves an int in int64 or a bool; an option decodes as a constexpr does. */
  ghost predicate Calls(site: Site, call: Call) {
    && Keeps(site.params, call.args)
    && |call.computed| == site.computed && |call.dynamic| == site.dynamic
    && (forall v :: v in call.computed ==> v.Bool? || (v.Int? && INT64_MIN <= v.n <= INT64_MAX))
    && forall v :: v in call.dynamic ==> WellFormed(v) && !v.Tensor?
  }

  function Repeated(widths: seq<nat>, n: nat): seq<nat> {
    if n == 0 then [] else widths + Repeated(widths, n - 1)
  }

  function SiteWidths(site: Site): seq<nat> {
    Widths(site.params) + (Repeated([8, 1], site.computed) + Repeated([1, 8], site.dynamic))
  }

  /** A comp slot's two fields: the value's bits, and whether it is a bool. */
  function ComputedFields(values: seq<Value>): (r: seq<nat>)
    ensures |r| == 2 * |values|
  {
    if values == [] then []
    else
      var v := values[0];
      [if v.Bool? then (if v.b then 1 else 0) else ToWord(IntOf(v)), if v.Bool? then 1 else 0]
        + ComputedFields(values[1..])
  }

  /** How an option is decoded: as an unannotated constexpr. */
  const OPTION := Annotation(Constexpr, None, Auto, Auto, Auto, false, false, None, false, false, false, false)

  /** An option's two fields: its kind, and its bits. */
  function DynamicFields(values: seq<Value>): (r: seq<nat>)
    ensures |r| == 2 * |values|
  {
    if values == [] then []
    else
      var d := Decode(OPTION, values[0]);
      [KindCode(d.kind) % 256, d.bits % WORD] + DynamicFields(values[1..])
  }

  function SiteValues(site: Site, specRange: bool, call: Call): seq<nat>
    requires |call.args| == |site.params|
  {
    Values(site.params, specRange, call.args) + (ComputedFields(call.computed) + DynamicFields(call.dynamic))
  }

  /** Every value fits its width in bytes. */
  ghost predicate Fitting(widths: seq<nat>, values: seq<nat>) {
    |values| == |widths| && forall i :: 0 <= i < |widths| ==> values[i] < Pow2(8 * widths[i])
  }

  lemma FittingJoin(a: seq<nat>, x: seq<nat>, b: seq<nat>, y: seq<nat>)
    requires Fitting(a, x) && Fitting(b, y)
    ensures Fitting(a + b, x + y)
  {
    hide Pow2;
  }

  lemma FittingPair(a: nat, x: nat, b: nat, y: nat)
    requires x < Pow2(8 * a) && y < Pow2(8 * b)
    ensures Fitting([a, b], [x, y])
  {
    hide Pow2;
  }

  lemma {:induction false} ComputedFit(values: seq<Value>)
    ensures Fitting(Repeated([8, 1], |values|), ComputedFields(values))
    decreases |values|
  {
    if values != [] {
      var v := values[0];
      var bits, kind := if v.Bool? then (if v.b then 1 else 0) else ToWord(IntOf(v)), if v.Bool? then 1 else 0;
      Pow2Widths();
      hide Pow2;
      FittingPair(8, bits, 1, kind);
      ComputedFit(values[1..]);
      hide Fitting;
      FittingJoin([8, 1], [bits, kind], Repeated([8, 1], |values| - 1), ComputedFields(values[1..]));
    }
  }

  lemma {:induction false} DynamicFit(values: seq<Value>)
    ensures Fitting(Repeated([1, 8], |values|), DynamicFields(values))
    decreases |values|
  {
    if values != [] {
      var d := Decode(OPTION, values[0]);
      Pow2Widths();
      hide Pow2;
      FittingPair(1, KindCode(d.kind) % 256, 8, d.bits % WORD);
      DynamicFit(values[1..]);
      hide Fitting;
      FittingJoin([1, 8], [KindCode(d.kind) % 256, d.bits % WORD], Repeated([1, 8], |values| - 1),
                  DynamicFields(values[1..]));
    }
  }

  lemma SiteFits(site: Site, specRange: bool, call: Call)
    requires Calls(site, call)
    ensures Fitting(SiteWidths(site), SiteValues(site, specRange, call))
  {
    ValuesFit(site.params, specRange, call.args);
    assert Fitting(Widths(site.params), Values(site.params, specRange, call.args));
    hide Fitting;
    ComputedFit(call.computed);
    DynamicFit(call.dynamic);
    var computed, dynamic := Repeated([8, 1], site.computed), Repeated([1, 8], site.dynamic);
    FittingJoin(computed, ComputedFields(call.computed), dynamic, DynamicFields(call.dynamic));
    FittingJoin(Widths(site.params), Values(site.params, specRange, call.args),
                computed + dynamic, ComputedFields(call.computed) + DynamicFields(call.dynamic));
  }

  lemma {:induction false} RepeatedMember(widths: seq<nat>, n: nat)
    ensures forall w :: w in Repeated(widths, n) ==> w in widths
    decreases n
  {
    if n > 0 {
      RepeatedMember(widths, n - 1);
    }
  }

  /** The layout takes every launcher's fields. */
  lemma SiteLaysOut(site: Site)
    requires forall i :: 0 <= i < |site.params| ==> Merged(site.params[i].annotation)
    ensures forall w :: w in SiteWidths(site) ==> L.IsWidth(w)
  {
    ValuesFit(site.params, false, seq(|site.params|, _ => NoneValue));
    RepeatedMember([8, 1], site.computed);
    RepeatedMember([1, 8], site.dynamic);
    hide Widths;
    hide Merged;
    hide Repeated;
  }

  /** A comp slot's fields fix its value: True and 1 key apart. */
  lemma {:induction false} ComputedFixed(a: seq<Value>, b: seq<Value>)
    requires |a| == |b| && ComputedFields(a) == ComputedFields(b)
    requires forall v :: v in a || v in b ==> v.Bool? || (v.Int? && INT64_MIN <= v.n <= INT64_MAX)
    ensures a == b
    decreases |a|
  {
    if a != [] {
      assert ComputedFields(a)[2..] == ComputedFields(a[1..]) && ComputedFields(b)[2..] == ComputedFields(b[1..]);
      assert ComputedFields(a)[0] == ComputedFields(b)[0] && ComputedFields(a)[1] == ComputedFields(b)[1];
      assert a[0] in a && b[0] in b;
      if a[0].Int? && b[0].Int? {
        WordOfInt(a[0].n);
        WordOfInt(b[0].n);
      }
      ComputedFixed(a[1..], b[1..]);
      assert a == [a[0]] + a[1..] && b == [b[0]] + b[1..];
    }
  }

  /** An option's fields fix its value. */
  lemma {:induction false} DynamicFixed(a: seq<Value>, b: seq<Value>)
    requires |a| == |b| && DynamicFields(a) == DynamicFields(b)
    requires forall v :: v in a || v in b ==> WellFormed(v) && !v.Tensor?
    ensures a == b
    decreases |a|
  {
    if a != [] {
      assert DynamicFields(a)[2..] == DynamicFields(a[1..]) && DynamicFields(b)[2..] == DynamicFields(b[1..]);
      assert DynamicFields(a)[0] == DynamicFields(b)[0] && DynamicFields(a)[1] == DynamicFields(b)[1];
      assert a[0] in a && b[0] in b;
      OptionFixed(a[0], b[0]);
      DynamicFixed(a[1..], b[1..]);
      assert a == [a[0]] + a[1..] && b == [b[0]] + b[1..];
    }
  }

  lemma OptionFixed(v: Value, w: Value)
    requires WellFormed(v) && !v.Tensor? && WellFormed(w) && !w.Tensor?
    requires KindCode(Decode(OPTION, v).kind) % 256 == KindCode(Decode(OPTION, w).kind) % 256
    requires Decode(OPTION, v).bits % WORD == Decode(OPTION, w).bits % WORD
    ensures v == w
  {
    if v.Int? && w.Int? {
      WordOfInt(v.n);
      WordOfInt(w.n);
    }
  }

  // ---------------------------------------------------------------- the whole key

  /** A key as a call writes it: its fields' layout, and the device's byte when it is keyed. */
  datatype Layout = Layout(offsets: map<nat, nat>, total: nat, device: Option<nat>)

  ghost predicate LaysOut(k: Layout, site: Site) {
    L.LaidOut(SiteWidths(site), k.offsets, k.total) && (k.device.Some? ==> k.device.value == k.total)
  }

  /** The device's byte of a call, none when the device is fixed. */
  predicate IsDevice(k: Layout, d: seq<nat>) {
    |d| == (if k.device.Some? then 1 else 0) && forall x :: x in d ==> x < 256
  }

  function KeyFields(k: Layout, site: Site): seq<P.Field>
    requires forall i :: 0 <= i < |SiteWidths(site)| ==> i in k.offsets
  {
    P.FieldsOf(SiteWidths(site), k.offsets, k.device)
  }

  /** Word `w` of the key. */
  ghost function KeyWord(k: Layout, site: Site, specRange: bool, call: Call, w: nat): nat
    requires Calls(site, call) && IsDevice(k, call.device) && LaysOut(k, site)
  {
    SiteFits(site, specRange, call);
    P.Packed(KeyFields(k, site), SiteValues(site, specRange, call) + call.device, w)
  }

  lemma FitsWith(widths: seq<nat>, k: Layout, values: seq<nat>, d: seq<nat>)
    requires Fitting(widths, values) && IsDevice(k, d) && forall i :: 0 <= i < |widths| ==> i in k.offsets
    ensures P.Fit(P.FieldsOf(widths, k.offsets, k.device), values + d)
  {
    Pow2Widths();
    hide Pow2;
    assert |d| > 0 ==> d[0] in d;
  }

  lemma KeyFits(k: Layout, site: Site, specRange: bool, call: Call)
    requires Calls(site, call) && LaysOut(k, site) && IsDevice(k, call.device)
    ensures P.Fit(KeyFields(k, site), SiteValues(site, specRange, call) + call.device)
  {
    hide SiteValues;
    hide SiteWidths;
    hide Pow2;
    SiteFits(site, specRange, call);
    hide Calls;
    FitsWith(SiteWidths(site), k, SiteValues(site, specRange, call), call.device);
  }

  /** Equal fields mean the same compiler input, level-0 computed keys and options. */
  lemma SameFieldsSameCall(site: Site, specRange: bool, a: Call, b: Call)
    requires Calls(site, a) && Calls(site, b) && SiteValues(site, specRange, a) == SiteValues(site, specRange, b)
    ensures Input(site.params, specRange, a.args) == Input(site.params, specRange, b.args)
    ensures a.computed == b.computed && a.dynamic == b.dynamic
  {
    hide Values;
    hide ComputedFields;
    hide DynamicFields;
    var xa, xb := ComputedFields(a.computed), ComputedFields(b.computed);
    var ya, yb := DynamicFields(a.dynamic), DynamicFields(b.dynamic);
    SplitEqual(Values(site.params, specRange, a.args), Values(site.params, specRange, b.args), xa + ya, xb + yb);
    SplitEqual(xa, xb, ya, yb);
    ComputedFixed(a.computed, b.computed);
    DynamicFixed(a.dynamic, b.dynamic);
    SameFieldsSameInput(site.params, specRange, a.args, b.args);
  }

  /** Equal words mean the same compiler input, the same level-0 computed keys, the same options and
      the same device, whatever the layout of the key: two calls never share a kernel that Triton
      would compile differently. */
  lemma SameKeySameInput(k: Layout, site: Site, specRange: bool, a: Call, b: Call)
    requires Calls(site, a) && Calls(site, b) && LaysOut(k, site) && IsDevice(k, a.device) && IsDevice(k, b.device)
    requires forall w: nat :: KeyWord(k, site, specRange, a, w) == KeyWord(k, site, specRange, b, w)
    ensures Input(site.params, specRange, a.args) == Input(site.params, specRange, b.args)
    ensures a.computed == b.computed && a.dynamic == b.dynamic && a.device == b.device
  {
    var fields := KeyFields(k, site);
    var x, y := SiteValues(site, specRange, a), SiteValues(site, specRange, b);
    SiteFits(site, specRange, a);
    SiteFits(site, specRange, b);
    KeyFits(k, site, specRange, a);
    KeyFits(k, site, specRange, b);
    P.LayoutSeparate(SiteWidths(site), k.offsets, k.total, k.device);
    hide Calls;
    hide SiteValues;
    forall w: nat
      ensures P.Packed(fields, x + a.device, w) == P.Packed(fields, y + b.device, w)
    {
      assert KeyWord(k, site, specRange, a, w) == KeyWord(k, site, specRange, b, w);
    }
    hide KeyFields;
    hide LaysOut;
    WordsTell(fields, x + a.device, y + b.device);
    SplitEqual(x, y, a.device, b.device);
    SameFieldsSameCall(site, specRange, a, b);
  }

  // ---------------------------------------------------------------- baking

  /** `_inferred_scalar_type`, None where it raises. */
  function InferredScalar(v: Value): Option<Ty> {
    match v
    case NoneValue => Some(NoneType)
    case Bool(_) => Some(U1)
    case Float(_) => Some(FP32)
    case Int(n) =>
      if -0x8000_0000 <= n <= 0x7fff_ffff then Some(IntTy(true, 32))
      else if INT64_MIN <= n <= INT64_MAX then Some(IntTy(true, 64))
      else if 0 <= n < WORD then Some(IntTy(false, 64))
      else None
    case _ => None
  }

  /** `fits` for an argument; `packs` tells which floats an fp32 holds without overflow. */
  predicate ArgumentFits(v: Value, t: Ty, packs: nat -> bool) {
    if t.FP32? then v.Float? && packs(v.pattern) else Fits(v, t)
  }

  /** The one effective type of a baked argument. */
  function BakedType(types: Option<seq<Ty>>, v: Value, packs: nat -> bool): Option<Ty> {
    var inferred :- InferredScalar(v);
    var t := if types.Some? && |types.value| == 1 then types.value[0] else inferred;
    if types.Some? && |types.value| != 1 && inferred !in types.value then None
    else if t.Ptr? || !ArgumentFits(v, t, packs) then None
    else Some(t)
  }

  function IntOrZero(v: Value): int {
    if v.Int? then v.n else 0
  }

  /** No fact declared of the baked value is dead or false, and no two exclude each other. */
  predicate FactsHold(a: Annotation, t: Ty, v: Value) {
    && (a.one.Assume? ==> Applicable(t, EqualToOne) && v == Int(1))
    && (a.aligned.Assume? ==> Applicable(t, Aligned16) && IntOrZero(v) % 16 == 0)
    && !a.range.Assume?
  }

  /** The merge of a `value=`. A constexpr's is of the narrowest of its types that it fits. */
  ghost function Bake(a: Annotation, v: Value, packs: nat -> bool): Option<Annotation> {
    if a.kind.Argument? then BakeArgument(a, v, packs)
    else if a.power && !(v.Int? && IsPower(v.n)) then None
    else if a.types.None? then
      if v.Object? || InferredScalar(v).Some? then Some(a.(baked := Some(v))) else None
    else
      var t :- FirstFit(Choices(a.types.value), v);
      Some(a.(types := Some([t]), baked := Some(v)))
  }

  /** An argument's type and facts are settled by the value. */
  function BakeArgument(a: Annotation, v: Value, packs: nat -> bool): Option<Annotation> {
    var t :- BakedType(a.types, v, packs);
    if !FactsHold(a, t, v) then None
    else
      var one := if a.one.Auto? && Applicable(t, EqualToOne) then (if v == Int(1) then Assume else Never) else a.one;
      var aligned := if a.aligned.Auto? && Applicable(t, Aligned16)
          then (if !one.Assume? && IntOrZero(v) % 16 == 0 then Assume else Never)
                     else a.aligned;
      Some(a.(types := Some([t]), one := one, aligned := aligned, baked := Some(v)))
  }

  /** A parameter whose value comes with the call. */
  predicate Unbaked(a: Annotation) {
    !a.tuned && a.baked.None? && !a.bound
  }

  /** Baking a value into a launcher compiles what passing it under the unbaked annotation does,
      and the baked parameter needs no key. */
  lemma BakingIsPassing(a: Annotation, isConst: bool, specRange: bool, v: Value, other: Value, packs: nat -> bool)
    requires Merged(a) && Unbaked(a) && Bake(a, v, packs).Some?
    ensures CompilerEntry(Bake(a, v, packs).value, isConst, specRange, other) == CompilerEntry(a, isConst, specRange, v)
    ensures FieldWidths(Bake(a, v, packs).value) == []
  {
    var b := Bake(a, v, packs).value;
    BakedIgnoresCall(b, isConst, specRange, other, v);
    if a.kind.Constexpr? {
      ConstexprMeans(a, isConst, specRange, v);
      ConstexprMeans(b, isConst, specRange, v);
    } else {
      hide CompilerEntry;
      if v.Int? {
        BakedInt(a, isConst, specRange, v, packs);
      } else {
        BakedOther(a, isConst, specRange, v, packs);
      }
    }
  }

  /** A constexpr takes baked exactly the values a call may pass it. */
  lemma BakedConstexprExactly(a: Annotation, v: Value, packs: nat -> bool)
    requires a.kind.Constexpr? && Merged(a) && Unbaked(a) && (v.Float? ==> v.pattern < WORD)
        && (v.Object? ==> v.id < WORD)
    ensures Bake(a, v, packs).Some? <==> Honours(a, v)
  {
    if a.types.Some? {
      FirstFitFits(Choices(a.types.value), v);
      forall t | t in Choices(a.types.value)
        ensures t in a.types.value
      {
        ChoicesMember(a.types.value, t);
      }
      forall t | t in a.types.value
        ensures t in Choices(a.types.value)
      {
        ChoicesMember(a.types.value, t);
      }
      forall t | t in a.types.value && Fits(v, t)
        ensures InDomain(v)
      {
        FitsInDomain(v, t);
      }
    }
  }

  lemma FitsInDomain(v: Value, t: Ty)
    requires TypeOk(t) && Fits(v, t)
    ensures InDomain(v)
  {
    if v.Int? {
      Pow2Widths();
      Pow2Powers(t.bits);
      hide Pow2;
    }
  }

  lemma Pow2Powers(bits: nat)
    requires IsBits(bits)
    ensures Pow2(bits) <= WORD && Pow2(bits - 1) <= INT64_MAX + 1
  {
    Pow2Widths();
    if bits < 64 {
      Pow2Less(bits, 64);
    }
    if bits < 64 {
      Pow2Less(bits - 1, 63);
    }
    hide Pow2;
  }

  /** An argument takes baked exactly the scalars of its type, or of Triton's where it leaves it open,
      that every fact declared of it applies to and holds of. */
  lemma BakedArgumentExactly(a: Annotation, v: Value, packs: nat -> bool, t: Ty)
    requires a.kind.Argument? && Merged(a) && Unbaked(a)
    requires match v
             case NoneValue => t == NoneType
             case Bool(_) => t == U1
             case Float(_) => t == FP32
             case Int(n) => IsIntType(n, t)
             case _ => true
    ensures var u := if a.types.Some? && |a.types.value| == 1 then a.types.value[0] else t;
      Bake(a, v, packs).Some? <==>
        && !v.Tensor? && !v.Object? && (v.Int? ==> INT64_MIN <= v.n < WORD)
        && (a.types.Some? ==> u in a.types.value) && !u.Ptr?
        && (if u.FP32? then v.Float? && packs(v.pattern) else Fits(v, u))
        && (a.one.Assume? ==> IsInteger(u) && v == Int(1))
        && (a.aligned.Assume? ==> IsInteger(u) && v.n % 16 == 0)
        && !a.range.Assume?
  {
    hide Pow2;
  }

  lemma BakedIgnoresCall(b: Annotation, isConst: bool, specRange: bool, v: Value, w: Value)
    requires b.baked.Some?
    ensures CompilerEntry(b, isConst, specRange, v) == CompilerEntry(b, isConst, specRange, w)
  {
  }

  lemma BakedOther(a: Annotation, isConst: bool, specRange: bool, v: Value, packs: nat -> bool)
    requires Merged(a) && Passed(a) && Bake(a, v, packs).Some? && !v.Int?
    ensures CompilerEntry(Bake(a, v, packs).value, isConst, specRange, v) == CompilerEntry(a, isConst, specRange, v)
  {
  }

  /** The entry of a baked int whose facts are all settled. */
  lemma SettledInt(b: Annotation, isConst: bool, specRange: bool, v: Value, t: Ty)
    requires b.kind.Argument? && !b.bound && b.types == Some([t]) && IsInteger(t) && !b.one.Auto? && !b.aligned.Auto?
        && b.baked == Some(v)
    ensures CompilerEntry(b, isConst, specRange, v)
         == if b.one.Assume? then ConstantEntry(Int(1)) else Entry(HasType(t, false), None, b.aligned.Assume?, false)
  {
  }

  lemma BakedInt(a: Annotation, isConst: bool, specRange: bool, v: Value, packs: nat -> bool)
    requires Merged(a) && Passed(a) && Bake(a, v, packs).Some? && v.Int?
    ensures CompilerEntry(Bake(a, v, packs).value, isConst, specRange, v) == CompilerEntry(a, isConst, specRange, v)
  {
    var b := Bake(a, v, packs).value;
    var t := b.types.value[0];
    BakedIntType(a, v, packs);
    SettledInt(b, isConst, specRange, v, t);
    EntryOfInt(a, isConst, specRange, v);
    WordOfInt(v.n);
    hide CompilerEntry;
  }

  /** A baked int keeps its annotation, under the type it is baked with. */
  lemma BakedIntType(a: Annotation, v: Value, packs: nat -> bool)
    requires Merged(a) && Passed(a) && Bake(a, v, packs).Some? && v.Int?
    ensures Honours(a, v) && ArgumentType(a, v) == Bake(a, v, packs).value.types.value[0]
        && IsInteger(ArgumentType(a, v))
  {
  }
}
